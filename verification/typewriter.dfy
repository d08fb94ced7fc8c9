/** The typewriter of `components/rag/RobotSystemBubble.tsx`. One timer tick
    either shows one more character of the current line or, once the line is
    complete, moves to the next; past the last line it fires `onComplete`.
    The displayed lines are a map from line index to text because the
    component writes into an array by index and never writes an empty line,
    which leaves a hole the renderer skips. Timer durations are not modelled. */
module Typewriter {

  datatype Bubble = Bubble(displayed: map<nat, string>, line: nat, ch: nat)

  /** The state the bubble is put in whenever it is shown. */
  function Reset(): Bubble {
    Bubble(map[], 0, 0)
  }

  /** The bubble after one tick, and whether `onComplete` fired. */
  datatype Tick = Tick(bubble: Bubble, completed: bool)

  function Step(lines: seq<string>, b: Bubble, visible: bool): Tick {
    if !visible then Tick(b, false)
    else if b.line >= |lines| then Tick(b, true)
    else
      var current := lines[b.line];
      if b.ch < |current| then
        Tick(b.(displayed := b.displayed[b.line := current[..b.ch + 1]], ch := b.ch + 1), false)
      else
        Tick(b.(line := b.line + 1, ch := 0), false)
  }

  /** What holds of every bubble reachable from `Reset()`: finished lines are
      shown in full, the current one up to the cursor, later ones not at all,
      and empty lines never. */
  predicate Good(lines: seq<string>, b: Bubble) {
    && b.line <= |lines|
    && (b.line < |lines| ==> b.ch <= |lines[b.line]|)
    && (b.line == |lines| ==> b.ch == 0)
    && (forall k :: k in b.displayed ==> k <= b.line && k < |lines| && lines[k] != [] && b.displayed[k] <= lines[k])
    && (forall k: nat :: k < b.line && lines[k] != [] ==> k in b.displayed && b.displayed[k] == lines[k])
    && (b.line < |lines| && b.ch > 0 ==> b.line in b.displayed && b.displayed[b.line] == lines[b.line][..b.ch])
    && (b.line < |lines| && b.ch == 0 ==> b.line !in b.displayed)
  }

  /** Ticks left before completion: one per character and one per line break. */
  function Work(lines: seq<string>, from: nat): nat
    decreases |lines| - from
  {
    if from >= |lines| then 0 else |lines[from]| + 1 + Work(lines, from + 1)
  }

  function Remaining(lines: seq<string>, b: Bubble): nat
    requires Good(lines, b)
  {
    if b.line < |lines| then Work(lines, b.line) - b.ch else 0
  }

  lemma ResetIsGood(lines: seq<string>)
    ensures Good(lines, Reset())
    ensures Remaining(lines, Reset()) == Work(lines, 0)
  {
  }

  /** A visible tick keeps the bubble good and either fires `onComplete`
      (exactly when every line is done, changing nothing) or makes progress. */
  lemma StepKeepsGood(lines: seq<string>, b: Bubble)
    requires Good(lines, b)
    ensures var t := Step(lines, b, true);
            && Good(lines, t.bubble)
            && (t.completed <==> b.line == |lines|)
            && (t.completed ==> t.bubble == b)
            && (!t.completed ==> Remaining(lines, t.bubble) + 1 == Remaining(lines, b))
  {
    if b.line < |lines| {
      var current := lines[b.line];
      var t := Step(lines, b, true).bubble;
      assert Work(lines, b.line) == |current| + 1 + Work(lines, b.line + 1);
      if b.ch < |current| {
        assert current[..b.ch + 1] <= current;
        assert Remaining(lines, t) == Work(lines, b.line) - (b.ch + 1);
      } else {
        assert b.displayed == t.displayed;
        if b.ch > 0 {
          assert lines[b.line][..b.ch] == lines[b.line];
        }
        if b.line + 1 == |lines| {
          assert Work(lines, b.line + 1) == 0;
        }
        assert Remaining(lines, t) == Work(lines, b.line + 1);
      }
    }
  }

  /** A hidden bubble does not move. */
  lemma HiddenDoesNothing(lines: seq<string>, b: Bubble)
    ensures Step(lines, b, false) == Tick(b, false)
  {
  }

  /** Every non-empty line is shown in full and nothing else is shown. */
  predicate ShowsAll(lines: seq<string>, b: Bubble) {
    && (forall k :: 0 <= k < |lines| && lines[k] != [] ==> k in b.displayed && b.displayed[k] == lines[k])
    && (forall k :: k in b.displayed ==> k < |lines| && lines[k] != [])
  }

  /** Plays the bubble from `Reset()` until `onComplete` fires, counting the
      ticks: every non-empty line ends up shown in full, no empty line gets an
      entry, and it takes one tick per character and per line plus the one
      that completes. */
  method Play(lines: seq<string>) returns (b: Bubble, ticks: nat)
    ensures b.line == |lines|
    ensures ShowsAll(lines, b)
    ensures ticks == Work(lines, 0) + 1
  {
    b := Reset();
    ticks := 0;
    ResetIsGood(lines);
    var done := false;
    while !done
      invariant Good(lines, b)
      invariant !done ==> ticks + Remaining(lines, b) == Work(lines, 0)
      invariant done ==> b.line == |lines| && ticks == Work(lines, 0) + 1
      decreases !done, Remaining(lines, b)
    {
      StepKeepsGood(lines, b);
      var t := Step(lines, b, true);
      b := t.bubble;
      ticks := ticks + 1;
      done := t.completed;
    }
  }
}
