/** The celebration's typed message: two lines revealed one code point at a
    time, with a pause between them. The state is a phase (0 typing the first
    line, 1 pausing, 2 typing the second line, 3 done) and the number of code
    points of the current line already shown. */
module Typing {

  /** The lines, as sequences of Unicode code points. */
  const Message1: string := "I knew you'd say yes, Ayano! 💕\nYou just made me the happiest person ever!"
  const Message2: string := "Happy Valentine's Day! 🥰"

  /** Milliseconds between two revealed code points, and of the pause. */
  const TickMs: nat := 50
  const PauseMs: nat := 500

  type PhaseNum = p: nat | p <= 3

  datatype TypingState = TypingState(phase: PhaseNum, index: nat)

  const Start: TypingState := TypingState(0, 0)

  /** The line being typed in a phase (phases 1 and 3 read the second). */
  function Current(phase: PhaseNum): string {
    if phase == 0 then Message1 else Message2
  }

  /** The states the machine can be in: the index never passes the length of
      the line it counts, and it sits at that length while pausing or done. */
  predicate Reachable(s: TypingState) {
    match s.phase
    case 0 => s.index <= |Message1|
    case 1 => s.index == |Message1|
    case 2 => s.index <= |Message2|
    case 3 => s.index == |Message2|
  }

  /** What the effect schedules in a state. */
  datatype Wait = Immediately | After(ms: nat) | Never

  function Schedule(s: TypingState): (w: Wait)
    ensures w == Never <==> s.phase == 3
    ensures w == After(TickMs) <==> (s.phase == 0 || s.phase == 2) && s.index < |Current(s.phase)|
    ensures w == After(PauseMs) <==> s.phase == 1
    ensures w == Immediately <==> (s.phase == 0 || s.phase == 2) && s.index >= |Current(s.phase)|
  {
    if s.phase == 1 then After(PauseMs)
    else if s.phase == 3 then Never
    else if s.index >= |Current(s.phase)| then Immediately
    else After(TickMs)
  }

  /** One run of the typing effect's work: the pause's timeout, a phase change
      made as soon as a line is complete, or one reveal tick. Phase 3 is
      terminal. */
  function Advance(s: TypingState): (r: TypingState)
    requires Reachable(s)
    ensures Reachable(r)
    ensures s.phase <= r.phase <= s.phase + 1 || (s.phase == 3 && r == s)
    ensures (s.phase == 0 || s.phase == 2) && s.index < |Current(s.phase)| ==>
              r.phase == s.phase && r.index == s.index + 1
    ensures s.phase == 1 ==> r == TypingState(2, 0)
    ensures (s.phase == 0 || s.phase == 2) && s.index == |Current(s.phase)| ==> r == TypingState(s.phase + 1, s.index)
    ensures r.phase != s.phase ==> s.phase != 3 && Schedule(s) != After(TickMs)
  {
    if s.phase == 1 then TypingState(2, 0)
    else if s.phase == 3 then s
    else if s.index >= |Current(s.phase)| then
      (if s.phase == 0 then TypingState(1, s.index) else TypingState(3, s.index))
    else TypingState(s.phase, s.index + 1)
  }

  /** `n` runs of the effect. */
  function Steps(s: TypingState, n: nat): TypingState
    requires Reachable(s)
    decreases n
  {
    if n == 0 then s else Steps(Advance(s), n - 1)
  }

  lemma {:induction false} StepsCompose(s: TypingState, a: nat, b: nat)
    requires Reachable(s)
    ensures Reachable(Steps(s, a))
    ensures Steps(s, a + b) == Steps(Steps(s, a), b)
    decreases a
  {
    if a > 0 {
      StepsCompose(Advance(s), a - 1, b);
      assert Steps(s, a) == Steps(Advance(s), a - 1);
      assert Steps(s, a + b) == Steps(Advance(s), (a - 1) + b);
    }
  }

  /** In a typing phase, `n` ticks reveal exactly `n` more code points. */
  lemma {:induction false} TypeLine(phase: PhaseNum, i: nat, n: nat)
    requires phase == 0 || phase == 2
    requires i + n <= |Current(phase)|
    ensures Steps(TypingState(phase, i), n) == TypingState(phase, i + n)
    decreases n
  {
    if n > 0 {
      TypeLine(phase, i + 1, n - 1);
    }
  }

  /** From the start, after |Message1| + |Message2| + 3 runs the whole text
      is shown and the machine is in its terminal phase. */
  lemma FullReveal()
    ensures Steps(Start, |Message1| + |Message2| + 3) == TypingState(3, |Message2|)
  {
    var n1, n2 := |Message1|, |Message2|;
    TypeLine(0, 0, n1);
    StepsCompose(Start, n1, 1);
    assert Steps(Start, n1 + 1) == TypingState(1, n1);
    StepsCompose(Start, n1 + 1, 1);
    assert Steps(Start, n1 + 2) == TypingState(2, 0);
    TypeLine(2, 0, n2);
    StepsCompose(Start, n1 + 2, n2);
    StepsCompose(Start, n1 + 2 + n2, 1);
  }

  /** Phase 3 is terminal. */
  lemma {:induction false} DoneStaysDone(n: nat)
    ensures Steps(TypingState(3, |Message2|), n) == TypingState(3, |Message2|)
  {
    if n > 0 {
      DoneStaysDone(n - 1);
    }
  }

  /** `Array.prototype.slice(0, n)` on a line. */
  function Prefix(line: string, n: nat): (r: string)
    ensures r <= line && |r| == if n < |line| then n else |line|
  {
    line[..if n < |line| then n else |line|]
  }

  /** The first paragraph: typed so far in phase 0, complete afterwards. */
  function ShownLine1(s: TypingState): (t: string)
    ensures t <= Message1
    ensures s.phase > 0 ==> t == Message1
  {
    if s.phase == 0 then Prefix(Message1, s.index) else Message1
  }

  /** The second paragraph: empty before phase 2, typed so far in phase 2,
      complete in phase 3. */
  function ShownLine2(s: TypingState): (t: string)
    ensures t <= Message2
    ensures s.phase < 2 ==> t == ""
    ensures s.phase == 3 ==> t == Message2
  {
    if s.phase < 2 then "" else if s.phase == 2 then Prefix(Message2, s.index) else Message2
  }

  /** The cursor after the first line: only while that line is incomplete. */
  function CursorOnLine1(s: TypingState): (c: bool)
    ensures c ==> |ShownLine1(s)| < |Message1|
  {
    s.phase < 1 && s.index < |Message1|
  }

  /** The cursor after the second line: only while that line is incomplete. */
  function CursorOnLine2(s: TypingState): (c: bool)
    ensures c ==> |ShownLine2(s)| < |Message2|
  {
    s.phase == 2 && s.index < |Message2|
  }

  /** The cursor shows exactly while a line is being typed and is not yet
      complete, and never on both lines. */
  lemma CursorWhileTyping(s: TypingState)
    ensures CursorOnLine1(s) || CursorOnLine2(s)
        <==> (s.phase == 0 || s.phase == 2) && s.index < |Current(s.phase)|
    ensures !(CursorOnLine1(s) && CursorOnLine2(s))
  {
  }

  /** What is shown is always a prefix of each line, and one run of the
      effect only ever extends it. */
  lemma ShownTextGrows(s: TypingState)
    requires Reachable(s)
    ensures ShownLine1(s) <= Message1 && ShownLine2(s) <= Message2
    ensures ShownLine1(s) <= ShownLine1(Advance(s))
    ensures ShownLine2(s) <= ShownLine2(Advance(s))
    ensures s.phase == 0 && s.index < |Message1| ==> |ShownLine1(Advance(s))| == |ShownLine1(s)| + 1
    ensures s.phase == 2 && s.index < |Message2| ==> |ShownLine2(Advance(s))| == |ShownLine2(s)| + 1
  {
    var r := Advance(s);
    if s.phase == 0 && r.phase == 0 {
      assert ShownLine1(s) == Message1[..s.index] && ShownLine1(r) == Message1[..r.index];
    }
    if s.phase == 2 && r.phase == 2 {
      assert ShownLine2(s) == Message2[..s.index] && ShownLine2(r) == Message2[..r.index];
    }
  }

  /** The typing state of the celebration view. */
  class Typewriter {
    var phase: PhaseNum
    var typedIndex: nat

    ghost function State(): TypingState
      reads this
    {
      TypingState(phase, typedIndex)
    }

    constructor ()
      ensures State() == Start
    {
      phase := 0;
      typedIndex := 0;
    }

    /** One run of the typing effect's work. Before acceptance the effect
        returns at once and nothing changes. */
    method Step(accepted: bool)
      requires Reachable(State())
      modifies this
      ensures Reachable(State())
      ensures accepted ==> State() == Advance(old(State()))
      ensures !accepted ==> State() == old(State())
    {
      if !accepted {
        return;
      }
      if phase == 1 {
        phase := 2;
        typedIndex := 0;
        return;
      }
      if phase == 3 {
        return;
      }
      var chars := if phase == 0 then Message1 else Message2;
      if typedIndex >= |chars| {
        if phase == 0 {
          phase := 1;
        } else if phase == 2 {
          phase := 3;
        }
        return;
      }
      typedIndex := typedIndex + 1;
    }
  }
}
