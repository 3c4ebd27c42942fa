/** The terminal typewriter: `typeCommand` types a command one character at
    a time, pauses, deletes it one character at a time, pauses, and moves on
    to the next command, round and round. */
module TypingEffect {
  import opened JsText

  const Commands: seq<string> := [
    "npm start",
    "git commit -m \"feat: add new feature\"",
    "docker build -t myapp .",
    "kubectl apply -f deployment.yaml"
  ]

  // Delays in milliseconds.
  const StartDelay: nat := 2000
  const TypeSpeed: nat := 100
  const DeleteSpeed: nat := 50
  const EndPause: nat := 2000
  const NextPause: nat := 500

  /** The three closure variables `typeCommand` updates. */
  datatype TypingState = TypingState(commandIndex: int, charIndex: int, isDeleting: bool)

  /** The initial closure state. */
  const Initial: TypingState := TypingState(0, 0, false)

  /** What holds before every call: a valid command, and a character index
      below the command's length while typing, above zero while deleting. */
  predicate ValidState(s: TypingState) {
    0 <= s.commandIndex < |Commands| &&
    var n := |Commands[s.commandIndex]|;
    if s.isDeleting then 1 <= s.charIndex <= n else 0 <= s.charIndex < n
  }

  /** The text on screen in state `s`: the first `charIndex` characters of
      the current command. */
  function Shown(s: TypingState): string
    requires 0 <= s.commandIndex < |Commands| && 0 <= s.charIndex <= |Commands[s.commandIndex]|
  {
    Commands[s.commandIndex][..s.charIndex]
  }

  /** The state one call leaves behind and the delay before the next call. */
  datatype Tick = Tick(state: TypingState, delay: nat)

  /** One call of `typeCommand`: it keeps the state valid, and it pauses
      2000 ms when a command is fully typed (and starts deleting), 500 ms
      when it is fully deleted (and moves to the next command, wrapping
      round), and otherwise waits 100 ms while typing and 50 ms while
      deleting. */
  function Next(s: TypingState): (t: Tick)
    requires ValidState(s)
    ensures ValidState(t.state)
    ensures !s.isDeleting && s.charIndex + 1 == |Commands[s.commandIndex]| ==>
              t == Tick(TypingState(s.commandIndex, s.charIndex + 1, true), EndPause)
    ensures s.isDeleting && s.charIndex == 1 ==>
              t == Tick(TypingState((s.commandIndex + 1) % |Commands|, 0, false), NextPause)
    ensures !s.isDeleting && s.charIndex + 1 < |Commands[s.commandIndex]| ==>
              t == Tick(TypingState(s.commandIndex, s.charIndex + 1, false), TypeSpeed)
    ensures s.isDeleting && s.charIndex > 1 ==>
              t == Tick(TypingState(s.commandIndex, s.charIndex - 1, true), DeleteSpeed)
  {
    var command := Commands[s.commandIndex];
    var charIndex := if s.isDeleting then s.charIndex - 1 else s.charIndex + 1;
    if !s.isDeleting && charIndex == |command| then
      Tick(TypingState(s.commandIndex, charIndex, true), EndPause)
    else if s.isDeleting && charIndex == 0 then
      Tick(TypingState((s.commandIndex + 1) % |Commands|, 0, false), NextPause)
    else
      Tick(TypingState(s.commandIndex, charIndex, s.isDeleting),
           if s.isDeleting then DeleteSpeed else TypeSpeed)
  }

  /** The state after `k` calls. */
  function Run(s: TypingState, k: nat): (r: TypingState)
    requires ValidState(s)
    ensures ValidState(r)
    decreases k
  {
    if k == 0 then s else Run(Next(s).state, k - 1)
  }

  /** The time the first `k` calls wait in total. */
  function Elapsed(s: TypingState, k: nat): nat
    requires ValidState(s)
    decreases k
  {
    if k == 0 then 0 else Next(s).delay + Elapsed(Next(s).state, k - 1)
  }

  /** The state with command `c` about to be typed from its first character. */
  function Start(c: nat): TypingState {
    TypingState(c, 0, false)
  }

  /** Typing from character `j` reaches the end of the command after the
      remaining characters, waiting 100 ms for each but the last and
      2000 ms for the last. */
  lemma {:induction false} TypingPhase(c: nat, j: nat)
    requires c < |Commands| && j < |Commands[c]|
    ensures Run(TypingState(c, j, false), |Commands[c]| - j) == TypingState(c, |Commands[c]|, true)
    ensures Elapsed(TypingState(c, j, false), |Commands[c]| - j) ==
              (|Commands[c]| - 1 - j) * TypeSpeed + EndPause
    decreases |Commands[c]| - j
  {
    if j + 1 < |Commands[c]| {
      TypingPhase(c, j + 1);
    }
  }

  /** Deleting from character `j` empties the line after `j` calls, waiting
      50 ms for each but the last and 500 ms for the last, and moves on to
      the next command. */
  lemma {:induction false} DeletingPhase(c: nat, j: nat)
    requires c < |Commands| && 1 <= j <= |Commands[c]|
    ensures Run(TypingState(c, j, true), j) == Start((c + 1) % |Commands|)
    ensures Elapsed(TypingState(c, j, true), j) == (j - 1) * DeleteSpeed + NextPause
    decreases j
  {
    if j > 1 {
      DeletingPhase(c, j - 1);
    }
  }

  /** Running `a` calls and then `b` more is running `a + b` calls. */
  lemma {:induction false} RunAppend(s: TypingState, a: nat, b: nat)
    requires ValidState(s)
    ensures Run(Run(s, a), b) == Run(s, a + b)
    ensures Elapsed(s, a) + Elapsed(Run(s, a), b) == Elapsed(s, a + b)
    decreases a
  {
    if a > 0 {
      RunAppend(Next(s).state, a - 1, b);
    }
  }

  /** One full cycle: a command of n characters takes 2n calls to type and
      delete, after which the next command (wrapping round) starts from its
      first character; the cycle lasts 150 ms per character beyond the
      first plus the two pauses. */
  lemma CommandCycle(c: nat)
    requires c < |Commands|
    ensures Run(Start(c), 2 * |Commands[c]|) == Start((c + 1) % |Commands|)
    ensures Elapsed(Start(c), 2 * |Commands[c]|) ==
              (|Commands[c]| - 1) * (TypeSpeed + DeleteSpeed) + EndPause + NextPause
  {
    var n := |Commands[c]|;
    TypingPhase(c, 0);
    DeletingPhase(c, n);
    RunAppend(Start(c), n, n);
  }

  /** `initTypingEffect` makes the first call `StartDelay` ms after it runs:
      "npm start" is then typed and deleted, and the first character of the
      second command is typed 5700 ms after the effect starts. */
  lemma SecondCommandStartsAt()
    ensures Run(Initial, 18) == Start(1)
    ensures StartDelay + Elapsed(Initial, 18) == 5700
  {
    CommandCycle(0);
  }

  /** `initTypingEffect`'s closure: the three variables and the element
      whose text it sets. */
  class Typewriter {
    var commandIndex: int
    var charIndex: int
    var isDeleting: bool
    /** The typing element's textContent. */
    var text: string

    function State(): TypingState
      reads this
    {
      TypingState(commandIndex, charIndex, isDeleting)
    }

    ghost predicate Valid()
      reads this
    {
      ValidState(State())
    }

    /** The closure as `initTypingEffect` creates it; the element keeps its
        page text until the first call, made StartDelay ms later. */
    constructor (pageText: string)
      ensures Valid() && State() == Initial && text == pageText
    {
      commandIndex := 0;
      charIndex := 0;
      isDeleting := false;
      text := pageText;
    }

    /** typeCommand: one step; returns the delay it schedules itself with.
        Afterwards the element shows exactly the first `charIndex`
        characters of the current command. */
    method TypeCommand() returns (typeSpeed: nat)
      requires Valid()
      modifies this
      ensures Valid()
      ensures Next(old(State())) == Tick(State(), typeSpeed)
      ensures 0 <= charIndex <= |Commands[commandIndex]|
      ensures text == Shown(State())
    {
      var currentCommand := Commands[commandIndex];
      if isDeleting {
        text := Substring(currentCommand, 0, charIndex - 1);
        charIndex := charIndex - 1;
      } else {
        text := Substring(currentCommand, 0, charIndex + 1);
        charIndex := charIndex + 1;
      }
      typeSpeed := if isDeleting then DeleteSpeed else TypeSpeed;
      if !isDeleting && charIndex == |currentCommand| {
        typeSpeed := EndPause;
        isDeleting := true;
      } else if isDeleting && charIndex == 0 {
        isDeleting := false;
        commandIndex := (commandIndex + 1) % |Commands|;
        typeSpeed := NextPause;
      }
    }
  }
}
