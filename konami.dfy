/** The Konami-code easter egg: a keydown listener keeps the last key codes
    in a window of at most ten and empties it when the window spells the code. */
module Konami {

  /** Up, up, down, down, left, right, left, right, B, A. */
  const KonamiSequence: seq<int> := [38, 38, 40, 40, 37, 39, 37, 39, 66, 65]

  /** The window after one keydown on `buffer`, before any reset: the code
      pushed, and the oldest dropped when the window is longer than the code. */
  function Window(buffer: seq<int>, code: int): seq<int> {
    Pushed(KonamiSequence, buffer, code)
  }

  /** Whether the keydown of `code` on window `buffer` sets off the effect.
      The source compares the two arrays joined with ','; for integer key
      codes that is equality of the sequences. */
  predicate Fires(buffer: seq<int>, code: int) {
    Window(buffer, code) == KonamiSequence
  }

  /** One keydown on window `buffer`: the new window, emptied on a match. */
  function Step(buffer: seq<int>, code: int): (r: seq<int>)
    ensures |buffer| <= |KonamiSequence| ==> |r| <= |KonamiSequence|
  {
    if Fires(buffer, code) then [] else Window(buffer, code)
  }

  /** The window after the keys `keys` were pressed, starting empty. */
  function Run(keys: seq<int>): seq<int> {
    if keys == [] then [] else Step(Run(keys[..|keys| - 1]), keys[|keys| - 1])
  }

  /** The last ten keys pressed spell the code. */
  predicate EndsWithCode(keys: seq<int>) {
    EndsWith(keys, KonamiSequence)
  }

  /** What the window holds after any key history: the most recent keys in
      arrival order, at most ten of them, and either all ten, or every key
      ever pressed, or every key since the code was last completed. */
  predicate WindowShape(keys: seq<int>, w: seq<int>) {
    ShapeFor(KonamiSequence, keys, w)
  }

  // ---------------------------------------------------------------------
  // The same window for any code `pattern`; the proofs below are carried
  // out at this level, where only the code's length and its last key
  // matter.

  /** `buffer` with `code` pushed, shifted to at most `|pattern|` keys. */
  function Pushed(pattern: seq<int>, buffer: seq<int>, code: int): seq<int> {
    var pushed := buffer + [code];
    if |pushed| > |pattern| then pushed[1..] else pushed
  }

  predicate EndsWith(keys: seq<int>, pattern: seq<int>) {
    |keys| >= |pattern| && keys[|keys| - |pattern|..] == pattern
  }

  predicate ShapeFor(pattern: seq<int>, keys: seq<int>, w: seq<int>) {
    |w| <= |pattern| && |w| <= |keys| && w == keys[|keys| - |w|..] &&
    (|w| == |pattern| || |w| == |keys| || EndsWith(keys[..|keys| - |w|], pattern))
  }

  /** A code whose last key appears nowhere else in it. */
  predicate LastKeyUnique(pattern: seq<int>) {
    |pattern| > 0 && forall i :: 0 <= i < |pattern| - 1 ==> pattern[i] != pattern[|pattern| - 1]
  }

  /** The Konami code ends in A, which appears nowhere else in it. */
  lemma KonamiLastKeyUnique()
    ensures LastKeyUnique(KonamiSequence)
  {
  }

  /** Two occurrences of a code whose last key is unique cannot start less
      than the code's length apart. */
  lemma {:induction false} NoOverlappingCodes(pattern: seq<int>, keys: seq<int>, p: nat, q: nat)
    requires LastKeyUnique(pattern)
    requires p < q < p + |pattern| && q + |pattern| <= |keys|
    requires keys[p..p + |pattern|] == pattern
    ensures keys[q..q + |pattern|] != pattern
  {
    var n := |pattern|;
    var s := q - p;
    // position p + n - 1 lies in both windows, where the first has its last key
    assert keys[p..p + n][n - 1] == keys[p + n - 1];
    assert keys[q..q + n][n - 1 - s] == keys[p + n - 1];
    assert pattern[n - 1 - s] != pattern[n - 1];
  }

  /** A keydown on a well-shaped window leaves the most recent keys, one
      more than before unless the window was already full. */
  lemma PushedIsSuffix(pattern: seq<int>, keys: seq<int>, w: seq<int>, code: int)
    requires ShapeFor(pattern, keys, w)
    ensures var ks, v := keys + [code], Pushed(pattern, w, code);
            |v| <= |pattern| && |v| <= |ks| && v == ks[|ks| - |v|..] &&
            (|v| == |pattern| || |v| == |w| + 1)
  {
    var ks := keys + [code];
    var pushed := w + [code];
    assert pushed == ks[|ks| - |pushed|..];
    if |pushed| > |pattern| {
      assert pushed[1..] == ks[|ks| - |pushed| + 1..];
    }
  }

  /** A window `v` of newest keys that matches the code, once emptied,
      follows a completed code. */
  lemma EmptiedShape(pattern: seq<int>, ks: seq<int>, v: seq<int>)
    requires |v| <= |ks| && v == ks[|ks| - |v|..] && v == pattern
    ensures ShapeFor(pattern, ks, [])
  {
    assert ks[..|ks| - 0] == ks;
  }

  /** Without a reset, the pushed window keeps the shape; one still short
      of the code follows the same completed code. */
  lemma PushedShape(pattern: seq<int>, keys: seq<int>, w: seq<int>, code: int)
    requires ShapeFor(pattern, keys, w)
    ensures ShapeFor(pattern, keys + [code], Pushed(pattern, w, code))
  {
    var ks := keys + [code];
    var v := Pushed(pattern, w, code);
    PushedIsSuffix(pattern, keys, w, code);
    if |v| != |pattern| && |v| != |ks| {
      assert |v| == |w| + 1 && |w| != |keys|;
      assert ks[..|ks| - |v|] == keys[..|keys| - |w|];
    }
  }

  /** A full window of newest keys matches exactly when they spell the
      code. */
  lemma FullWindowIsLast(pattern: seq<int>, ks: seq<int>, v: seq<int>)
    requires |v| == |pattern| <= |ks| && v == ks[|ks| - |v|..]
    ensures v == pattern <==> EndsWith(ks, pattern)
  {
  }

  /** A window that grew by one and is still shorter than the code follows
      a code that was completed less than its length ago, so the newest
      keys cannot spell the code again. */
  lemma ShortWindowNoCode(pattern: seq<int>, keys: seq<int>, w: seq<int>, code: int)
    requires LastKeyUnique(pattern) && ShapeFor(pattern, keys, w)
    requires |Pushed(pattern, w, code)| < |pattern| <= |keys| + 1
    ensures !EndsWith(keys + [code], pattern)
  {
    var n := |pattern|;
    var ks := keys + [code];
    var before := keys[..|keys| - |w|];
    assert |w| + 1 < n && |w| != |keys|;
    assert EndsWith(before, pattern);
    var p := |before| - n;
    assert before[p..] == ks[p..p + n];
    NoOverlappingCodes(pattern, ks, p, |ks| - n);
  }

  // ---------------------------------------------------------------------
  // The Konami window

  /** The window keeps its shape from one key press to the next. */
  lemma StepKeepsShape(keys: seq<int>, w: seq<int>, code: int)
    requires WindowShape(keys, w)
    ensures WindowShape(keys + [code], Step(w, code))
  {
    if Fires(w, code) {
      PushedIsSuffix(KonamiSequence, keys, w, code);
      EmptiedShape(KonamiSequence, keys + [code], Window(w, code));
    } else {
      PushedShape(KonamiSequence, keys, w, code);
    }
  }

  /** The effect fires exactly when the last ten keys pressed spell the code. */
  lemma StepFiresIffCode(keys: seq<int>, w: seq<int>, code: int)
    requires WindowShape(keys, w)
    ensures Fires(w, code) <==> EndsWithCode(keys + [code])
  {
    PushedIsSuffix(KonamiSequence, keys, w, code);
    if |Window(w, code)| == |KonamiSequence| {
      FullWindowIsLast(KonamiSequence, keys + [code], Window(w, code));
    } else if |keys| + 1 >= |KonamiSequence| {
      KonamiLastKeyUnique();
      ShortWindowNoCode(KonamiSequence, keys, w, code);
    }
  }

  /** After every key history the window has its shape. */
  lemma {:induction false} RunShape(keys: seq<int>)
    ensures WindowShape(keys, Run(keys))
  {
    if keys != [] {
      var prefix := keys[..|keys| - 1];
      assert prefix + [keys[|keys| - 1]] == keys;
      RunShape(prefix);
      StepKeepsShape(prefix, Run(prefix), keys[|keys| - 1]);
    }
  }

  /** The effect fires on a key press exactly when the last ten keys pressed,
      that one included, spell the code; and the window never holds more
      than ten keys, always the most recent ones. */
  lemma {:induction false} FiresIffLastTenSpellCode(keys: seq<int>, code: int)
    ensures Fires(Run(keys), code) <==> EndsWithCode(keys + [code])
    ensures |Run(keys)| <= |KonamiSequence| && |Run(keys)| <= |keys|
    ensures Run(keys) == keys[|keys| - |Run(keys)|..]
  {
    var w := Run(keys);
    RunShape(keys);
    StepFiresIffCode(keys, w, code);
  }

  /** The keydown listener and the `konamiCode` array it updates in place. */
  class KonamiListener {
    var konamiCode: seq<int>
    /** Every key pressed so far. */
    ghost var history: seq<int>

    ghost predicate Valid()
      reads this
    {
      konamiCode == Run(history)
    }

    constructor ()
      ensures Valid() && konamiCode == [] && history == []
    {
      konamiCode := [];
      history := [];
    }

    /** The keydown handler; `fired` says whether the effect was triggered. */
    method KeyDown(keyCode: int) returns (fired: bool)
      requires Valid()
      modifies this
      ensures Valid() && history == old(history) + [keyCode]
      ensures konamiCode == Step(old(konamiCode), keyCode)
      ensures fired <==> EndsWithCode(history)
      ensures |konamiCode| <= |KonamiSequence|
      ensures fired <==> konamiCode == []
    {
      FiresIffLastTenSpellCode(history, keyCode);
      konamiCode := konamiCode + [keyCode];
      if |konamiCode| > |KonamiSequence| {
        konamiCode := konamiCode[1..];
      }
      fired := konamiCode == KonamiSequence;
      if fired {
        konamiCode := [];
      }
      history := history + [keyCode];
      assert history[..|history| - 1] == old(history);
    }
  }
}
