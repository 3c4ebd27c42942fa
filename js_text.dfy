/** The few JavaScript string primitives the chat widget and the contact form
    rely on: whitespace, trim, case mapping, includes and substring. */
module JsText {

  /** ECMAScript WhiteSpace and LineTerminator code points: exactly what
      String.prototype.trim strips and what `\s` matches in a regular expression. */
  predicate IsWhitespace(c: char) {
    c == '\t' || c == '\n' || c == '\U{000B}' || c == '\U{000C}' || c == '\r' || c == ' ' ||
    c == '\U{00A0}' || c == '\U{1680}' || ('\U{2000}' <= c <= '\U{200A}') ||
    c == '\U{2028}' || c == '\U{2029}' || c == '\U{202F}' || c == '\U{205F}' ||
    c == '\U{3000}' || c == '\U{FEFF}'
  }

  predicate AllWhitespace(s: string) {
    forall i :: 0 <= i < |s| ==> IsWhitespace(s[i])
  }

  /** Every character of `s[lo..hi]` is whitespace. */
  predicate WhitespaceIn(s: string, lo: nat, hi: nat)
    requires lo <= hi <= |s|
  {
    forall i :: lo <= i < hi ==> IsWhitespace(s[i])
  }

  /** Leading whitespace removed. */
  function TrimStart(s: string): (r: string)
    ensures |r| <= |s|
  {
    if s != [] && IsWhitespace(s[0]) then TrimStart(s[1..]) else s
  }

  /** What TrimStart keeps is a suffix of `s` that does not start with
      whitespace, and everything it drops is whitespace. */
  lemma {:induction false} TrimStartSpec(s: string)
    ensures |TrimStart(s)| <= |s| && TrimStart(s) == s[|s| - |TrimStart(s)|..]
    ensures WhitespaceIn(s, 0, |s| - |TrimStart(s)|)
    ensures TrimStart(s) == [] || !IsWhitespace(TrimStart(s)[0])
  {
    if s != [] && IsWhitespace(s[0]) {
      var r := TrimStart(s[1..]);
      TrimStartSpec(s[1..]);
      assert s[1..][|s| - 1 - |r|..] == s[|s| - |r|..];
      assert forall i :: 1 <= i < |s| - |r| ==> s[1..][i - 1] == s[i];
    }
  }

  /** Trailing whitespace removed. */
  function TrimEnd(s: string): (r: string)
    ensures |r| <= |s|
  {
    if s != [] && IsWhitespace(s[|s| - 1]) then TrimEnd(s[..|s| - 1]) else s
  }

  /** What TrimEnd keeps is a prefix of `s` that does not end with
      whitespace, and everything it drops is whitespace. */
  lemma {:induction false} TrimEndSpec(s: string)
    ensures |TrimEnd(s)| <= |s| && TrimEnd(s) == s[..|TrimEnd(s)|]
    ensures WhitespaceIn(s, |TrimEnd(s)|, |s|)
    ensures TrimEnd(s) == [] || !IsWhitespace(TrimEnd(s)[|TrimEnd(s)| - 1])
  {
    if s != [] && IsWhitespace(s[|s| - 1]) {
      var r := TrimEnd(s[..|s| - 1]);
      TrimEndSpec(s[..|s| - 1]);
      assert s[..|s| - 1][..|r|] == s[..|r|];
      assert forall i :: |r| <= i < |s| - 1 ==> s[..|s| - 1][i] == s[i];
    }
  }

  /** String.prototype.trim: empty, or starting and ending with a
      character that is not whitespace. */
  function Trim(s: string): (r: string)
    ensures |r| <= |s|
    ensures r == [] || (!IsWhitespace(r[0]) && !IsWhitespace(r[|r| - 1]))
  {
    TrimStartSpec(s);
    TrimEndSpec(TrimStart(s));
    TrimEnd(TrimStart(s))
  }

  /** Trim drops only whitespace, from the two ends, and keeps the slice of
      `s` in between; with the ends Trim's own contract gives, this pins
      its result down. */
  lemma TrimDropsOnlyWhitespace(s: string)
    ensures var a := |s| - |TrimStart(s)|;
            a + |Trim(s)| <= |s| && Trim(s) == s[a..a + |Trim(s)|] &&
            WhitespaceIn(s, 0, a) && WhitespaceIn(s, a + |Trim(s)|, |s|)
  {
    var t := TrimStart(s);
    var a := |s| - |t|;
    TrimStartSpec(s);
    TrimEndSpec(t);
    var r := TrimEnd(t);
    assert forall i :: a + |r| <= i < |s| ==> t[i - a] == s[i];
  }

  /** Trimming leaves nothing exactly when the string is whitespace only. */
  lemma TrimEmptyIff(s: string)
    ensures Trim(s) == [] <==> AllWhitespace(s)
  {
    var t := TrimStart(s);
    TrimStartSpec(s);
    TrimEndSpec(t);
    assert t != [] ==> t[0] == s[|s| - |t|];
  }

  /** A string that neither starts nor ends with whitespace is its own trim. */
  lemma TrimUntouched(s: string)
    requires s != [] && !IsWhitespace(s[0]) && !IsWhitespace(s[|s| - 1])
    ensures Trim(s) == s
  {
  }

  /** Trimming a trimmed string changes nothing. */
  lemma TrimIdempotent(s: string)
    ensures Trim(Trim(s)) == Trim(s)
  {
    if Trim(s) != [] {
      TrimUntouched(Trim(s));
    }
  }

  /** ASCII case mapping of String.prototype.toLowerCase. */
  function LowerChar(c: char): char {
    if 'A' <= c <= 'Z' then (c as int + 32) as char else c
  }

  /** ASCII case mapping of String.prototype.toUpperCase. */
  function UpperChar(c: char): char {
    if 'a' <= c <= 'z' then (c as int - 32) as char else c
  }

  predicate IsLower(s: string) {
    forall i :: 0 <= i < |s| ==> !('A' <= s[i] <= 'Z')
  }

  function ToLowerCase(s: string): (r: string)
    ensures |r| == |s| && IsLower(r)
    ensures forall i :: 0 <= i < |s| && !('A' <= s[i] <= 'Z') ==> r[i] == s[i]
    ensures forall i :: 0 <= i < |s| && 'A' <= s[i] <= 'Z' ==> r[i] as int == s[i] as int + 32
  {
    seq(|s|, i requires 0 <= i < |s| => LowerChar(s[i]))
  }

  /** Lower-casing a lower-case string changes nothing, so lower-casing twice
      is lower-casing once. */
  lemma LowerCaseFixed(s: string)
    requires IsLower(s)
    ensures ToLowerCase(s) == s
  {
  }

  /** `kw` occurs in `text` starting at index `i`. */
  predicate OccursAt(text: string, kw: string, i: nat) {
    i + |kw| <= |text| && text[i..i + |kw|] == kw
  }

  lemma OccursShift(text: string, kw: string, i: nat)
    requires text != []
    ensures OccursAt(text[1..], kw, i) <==> OccursAt(text, kw, i + 1)
  {
    if i + 1 + |kw| <= |text| {
      assert text[1..][i..i + |kw|] == text[i + 1..i + 1 + |kw|];
    }
  }

  /** String.prototype.includes, computed by trying every start position. */
  function Includes(text: string, kw: string): bool
    decreases |text|
  {
    if |kw| > |text| then false
    else if text[..|kw|] == kw then true
    else Includes(text[1..], kw)
  }

  /** `includes` holds exactly when `kw` occurs somewhere in `text`. */
  lemma {:induction false} IncludesIff(text: string, kw: string)
    ensures Includes(text, kw) <==> exists i: nat :: OccursAt(text, kw, i)
    decreases |text|
  {
    if |kw| > |text| {
      assert forall i: nat :: !OccursAt(text, kw, i);
    } else if text[..|kw|] == kw {
      assert OccursAt(text, kw, 0);
    } else {
      IncludesIff(text[1..], kw);
      if Includes(text, kw) {
        var i: nat :| OccursAt(text[1..], kw, i);
        OccursShift(text, kw, i);
      }
      if exists i: nat :: OccursAt(text, kw, i) {
        var i: nat :| OccursAt(text, kw, i);
        assert i != 0;
        OccursShift(text, kw, i - 1);
      }
    }
  }

  /** An occurrence at any index makes `includes` hold. */
  lemma IncludesAt(text: string, kw: string, i: nat)
    requires OccursAt(text, kw, i)
    ensures Includes(text, kw)
  {
    IncludesIff(text, kw);
  }

  /** String.prototype.substring(start, end): both bounds are clamped to
      [0, |s|] and swapped when they are out of order. */
  function Substring(s: string, start: int, end: int): (r: string)
    ensures 0 <= start <= end <= |s| ==> r == s[start..end]
    ensures 0 <= end < start <= |s| ==> r == s[end..start]
    ensures |r| <= |s|
  {
    var a := if start < 0 then 0 else if start > |s| then |s| else start;
    var b := if end < 0 then 0 else if end > |s| then |s| else end;
    if a <= b then s[a..b] else s[b..a]
  }
}
