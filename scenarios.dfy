/** Whole programs and what running them does. */
module Scenarios {
  import opened Wrappers
  import opened LineFilter
  import opened LoopScan
  import opened Semantics
  import opened Properties

  /** Counts 10 down to 0 and prints 0. */
  const Countdown: seq<Line> :=
    [Line(1, "drip"), Line(2, "drip"), Line(3, "vibe"), Line(4, "gyatt"), Line(5, "unvibe"), Line(6, "skibidi")]

  lemma CountdownPrintsZero(fuel: nat)
    requires fuel >= 24
    ensures Run(Countdown, Init, fuel) == RunResult(Halted, State(0, 6, [], [0]))
  {
    RunUnfold(Countdown, Init, fuel);
    RunUnfold(Countdown, State(5, 1, [], []), fuel - 1);
    var s := State(10, 2, [], []);
    CountdownLoop(Countdown, 2, s, fuel - 23);
    assert s.(acc := 0, pc := 5) == State(0, 5, [], []);
    RunUnfold(Countdown, State(0, 5, [], []), fuel - 23);
  }

  /** The `drip` after `sus` is skipped, so 0 is printed. */
  const SkipDrip: seq<Line> := [Line(1, "no cap"), Line(2, "sus"), Line(3, "drip"), Line(4, "skibidi")]

  lemma SkipPrintsZero(fuel: nat)
    requires fuel >= 3
    ensures Run(SkipDrip, Init, fuel) == RunResult(Halted, State(0, 4, [], [0]))
  {
    RunUnfold(SkipDrip, Init, fuel);
    RunUnfold(SkipDrip, State(0, 1, [], []), fuel - 1);
    RunUnfold(SkipDrip, State(0, 3, [], []), fuel - 2);
  }

  /** Two nested loops, skipped at top level. */
  const NestedSkip: seq<Line> := [Line(1, "vibe"), Line(2, "vibe"), Line(3, "unvibe"), Line(4, "unvibe")]

  /**
   * The scan passes the inner pair and lands on the outer `unvibe`, which is
   * then executed with no open loop.
   */
  lemma TopLevelSkipFails(fuel: nat)
    requires fuel >= 2
    ensures ScanEnd(NestedSkip, 0) == Some(3)
    ensures Run(NestedSkip, Init, fuel) == RunResult(Failed(UnmatchedUnvibe), State(0, 3, [], []))
  {
    assert Depth(NestedSkip, 0, 1) == 2 && Depth(NestedSkip, 0, 2) == 1 && Depth(NestedSkip, 0, 3) == 0;
    MatchIsScanEnd(NestedSkip, 0, 3);
    RunUnfold(NestedSkip, Init, fuel);
    RunRaises(NestedSkip, State(0, 3, [], []), fuel - 1);
  }

  /** A loop whose body counts down and then meets a loop it skips. */
  const InnerSkip: seq<Line> :=
    [Line(1, "rizz"), Line(2, "vibe"), Line(3, "gyatt"), Line(4, "vibe"), Line(5, "unvibe"), Line(6, "unvibe")]

  /** The skipped loop's `unvibe` pops the outer loop's entry, so the outer `unvibe` then fails. */
  lemma SkipInsideLoopPopsOuter(fuel: nat)
    requires fuel >= 6
    ensures Run(InnerSkip, Init, fuel) == RunResult(Failed(UnmatchedUnvibe), State(0, 5, [], []))
  {
    InnerSkipEnter(fuel);
    InnerSkipFromInnerVibe(fuel - 3);
  }

  lemma InnerSkipEnter(fuel: nat)
    requires fuel >= 3
    ensures Run(InnerSkip, Init, fuel) == Run(InnerSkip, State(0, 3, [1], []), fuel - 3)
  {
    RunUnfold(InnerSkip, Init, fuel);
    VibeEnterStep(InnerSkip, State(1, 1, [], []));
    assert [] + [1] == [1];
    RunUnfold(InnerSkip, State(1, 1, [], []), fuel - 1);
    RunUnfold(InnerSkip, State(1, 2, [1], []), fuel - 2);
  }

  lemma InnerSkipFromInnerVibe(fuel: nat)
    requires fuel >= 3
    ensures Run(InnerSkip, State(0, 3, [1], []), fuel) == RunResult(Failed(UnmatchedUnvibe), State(0, 5, [], []))
  {
    assert Depth(InnerSkip, 3, 4) == 0;
    MatchIsScanEnd(InnerSkip, 3, 4);
    VibeSkipStep(InnerSkip, State(0, 3, [1], []));
    RunUnfold(InnerSkip, State(0, 3, [1], []), fuel);
    UnvibeStep(InnerSkip, State(0, 4, [1], []));
    assert [1][..0] == [];
    RunUnfold(InnerSkip, State(0, 4, [1], []), fuel - 1);
    RunRaises(InnerSkip, State(0, 5, [], []), fuel - 2);
  }

  /** A loop with an empty body, entered once. */
  const EmptyBody: seq<Line> := [Line(1, "rizz"), Line(2, "vibe"), Line(3, "unvibe")]

  /** The empty loop is left without popping its entry. */
  lemma EmptyBodyKeepsEntry(fuel: nat)
    requires fuel >= 3
    ensures Run(EmptyBody, Init, fuel) == RunResult(Halted, State(1, 3, [1], []))
  {
    RunUnfold(EmptyBody, Init, fuel);
    assert Step(EmptyBody, Init).state == State(1, 1, [], []);
    VibeEnterStep(EmptyBody, State(1, 1, [], []));
    assert Step(EmptyBody, State(1, 1, [], [])).state == State(1, 2, [1], []);
    RunUnfold(EmptyBody, State(1, 1, [], []), fuel - 1);
    UnvibeStep(EmptyBody, State(1, 2, [1], []));
    assert Step(EmptyBody, State(1, 2, [1], [])).state == State(1, 3, [1], []);
    RunUnfold(EmptyBody, State(1, 2, [1], []), fuel - 2);
  }

  /** A loop whose body never changes the accumulator. */
  const Endless: seq<Line> := [Line(1, "rizz"), Line(2, "vibe"), Line(3, "mid"), Line(4, "unvibe")]

  /** No step bound is enough: the run never ends. */
  lemma EndlessLoop(fuel: nat)
    ensures Run(Endless, Init, fuel).status == OutOfFuel
  {
    if fuel >= 2 {
      RunUnfold(Endless, Init, fuel);
      VibeEnterStep(Endless, State(1, 1, [], []));
      assert [] + [1] == [1];
      RunUnfold(Endless, State(1, 1, [], []), fuel - 1);
      EndlessFrom(fuel - 2);
    }
  }

  lemma {:induction false} EndlessFrom(fuel: nat)
    ensures Run(Endless, State(1, 2, [1], []), fuel).status == OutOfFuel
  {
    if fuel >= 2 {
      RunUnfold(Endless, State(1, 2, [1], []), fuel);
      RunUnfold(Endless, State(1, 3, [1], []), fuel - 1);
      EndlessFrom(fuel - 2);
    }
  }

  /** `no` and `cap` on their own are not commands. */
  lemma HalfOfNoCapIsUnknown(fuel: nat)
    requires fuel >= 2
    ensures Run([Line(1, "no")], Init, fuel) == RunResult(Failed(UnknownCommand("no")), Init)
    ensures Run([Line(1, "rizz"), Line(2, "cap")], Init, fuel) == RunResult(Failed(UnknownCommand("cap")), State(1, 1, [], []))
  {
    RunRaises([Line(1, "no")], Init, fuel);
    RunUnfold([Line(1, "rizz"), Line(2, "cap")], Init, fuel);
    RunRaises([Line(1, "rizz"), Line(2, "cap")], State(1, 1, [], []), fuel - 1);
  }
}
