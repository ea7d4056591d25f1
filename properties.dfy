/**
 * What the commands of main.py do to the interpreter state, one iteration of
 * `run` at a time, and what whole runs preserve.
 */
module Properties {
  import opened Wrappers
  import opened LineFilter
  import opened LoopScan
  import opened Semantics

  /** The commands that only change the accumulator. */
  predicate IsArithmetic(command: string)
  {
    command in {"rizz", "gyatt", "drip", "npc", "yeet", "cringe", "no cap"}
  }

  /**
   * The commands that never change the accumulator: `sus`, `vibe` and
   * `unvibe` move `pc` or the loop stack, `skibidi` prints and `mid` does
   * nothing.
   */
  predicate IsControl(command: string)
  {
    command in {"sus", "vibe", "unvibe", "mid", "skibidi"}
  }

  /** Every command `execute` recognises is of exactly one of the two kinds. */
  lemma CommandKinds(command: string)
    ensures IsCommand(command) <==> IsArithmetic(command) || IsControl(command)
    ensures !(IsArithmetic(command) && IsControl(command))
  {
  }

  /** Reference table: what an arithmetic command makes of the accumulator. */
  function AccEffect(command: string, acc: int): int
  {
    match command
    case "rizz" => acc + 1
    case "gyatt" => acc - 1
    case "drip" => acc + 5
    case "npc" => acc - 5
    case "yeet" => 2 * acc
    case "cringe" => Halve(acc)
    case _ => 0
  }

  /** The accumulator after the arithmetic commands of `cmds`, applied left to right from `acc`. */
  function FoldAcc(cmds: seq<Line>, acc: int): int
  {
    if cmds == [] then acc else FoldAcc(cmds[1..], AccEffect(cmds[0].command, acc))
  }

  /** Every iteration of `run` that raises nothing moves `pc`. */
  lemma StepMovesPc(prog: seq<Line>, s: State)
    requires s.pc < |prog|
    ensures Step(prog, s).raised.None? ==> Step(prog, s).state.pc != s.pc
  {
  }

  /**
   * An arithmetic command changes only the accumulator, as the table says,
   * and `run` then steps to the next line.
   */
  lemma ArithmeticStep(prog: seq<Line>, s: State)
    requires s.pc < |prog| && IsArithmetic(prog[s.pc].command)
    ensures Step(prog, s) == Outcome(None, s.(acc := AccEffect(prog[s.pc].command, s.acc), pc := s.pc + 1))
    ensures var c, a := prog[s.pc].command, Step(prog, s).state.acc;
      && (c == "rizz" ==> a == s.acc + 1)
      && (c == "gyatt" ==> a == s.acc - 1)
      && (c == "drip" ==> a == s.acc + 5)
      && (c == "npc" ==> a == s.acc - 5)
      && (c == "yeet" ==> a == 2 * s.acc)
      && (c == "cringe" ==> 2 * a <= s.acc < 2 * a + 2)
      && (c == "no cap" ==> a == 0)
  {
  }

  /** `sus` steps over the next line exactly when the accumulator is 0. */
  lemma SusStep(prog: seq<Line>, s: State)
    requires s.pc < |prog| && prog[s.pc].command == "sus"
    ensures Step(prog, s) == Outcome(None, s.(pc := if s.acc == 0 then s.pc + 2 else s.pc + 1))
  {
  }

  /** A skip past the last line ends the run normally. */
  lemma SusPastEndHalts(prog: seq<Line>, s: State, fuel: nat)
    requires s.pc < |prog| && prog[s.pc].command == "sus" && s.acc == 0
    requires s.pc + 2 >= |prog| && fuel >= 1
    ensures Run(prog, s, fuel) == RunResult(Halted, s.(pc := s.pc + 2))
  {
    SusStep(prog, s);
    RunUnfold(prog, s, fuel);
  }

  /** With the accumulator at 0, `sus` X `skibidi` prints 0 whatever X is. */
  lemma SusIgnoresNextCommand(prog: seq<Line>, s: State, fuel: nat)
    requires s.pc + 2 < |prog| && prog[s.pc].command == "sus" && prog[s.pc + 2].command == "skibidi"
    requires s.acc == 0
    ensures Run(prog, s, fuel + 2) == Run(prog, s.(pc := s.pc + 3, output := s.output + [0]), fuel)
  {
    SusStep(prog, s);
    var t := s.(pc := s.pc + 2);
    assert Step(prog, t) == Outcome(None, s.(pc := s.pc + 3, output := s.output + [0]));
    RunUnfold(prog, s, fuel + 2);
    RunUnfold(prog, t, fuel + 1);
  }

  /** A `vibe` entered with a positive accumulator pushes its own index and steps into the body. */
  lemma VibeEnterStep(prog: seq<Line>, s: State)
    requires s.pc < |prog| && prog[s.pc].command == "vibe" && s.acc > 0
    ensures Step(prog, s) == Outcome(None, s.(loopStack := s.loopStack + [s.pc], pc := s.pc + 1))
  {
  }

  /**
   * A `vibe` that is not entered moves `pc` forward to its matching `unvibe`
   * and no further, or raises UnmatchedVibe when there is none.
   */
  lemma VibeSkipStep(prog: seq<Line>, s: State)
    requires s.pc < |prog| && prog[s.pc].command == "vibe" && s.acc <= 0
    ensures Step(prog, s).raised.None? <==> ScanEnd(prog, s.pc).Some?
    ensures ScanEnd(prog, s.pc).Some? ==>
      var q := ScanEnd(prog, s.pc).value;
      && Step(prog, s).state == s.(pc := q)
      && s.pc < q < |prog| && prog[q].command == "unvibe"
    ensures ScanEnd(prog, s.pc).None? ==>
      Step(prog, s) == Outcome(Some(UnmatchedVibe), s.(pc := |prog| - 1))
  {
    if ScanEnd(prog, s.pc).Some? {
      MatchIsUnvibe(prog, s.pc, ScanEnd(prog, s.pc).value);
    }
  }

  /**
   * `unvibe`: with no open loop it raises UnmatchedUnvibe; with a positive
   * accumulator it jumps back to the first line of the innermost loop's body
   * (and, when that body is empty, `run` steps past it without a pop);
   * otherwise it pops exactly one loop and steps on.
   */
  lemma UnvibeStep(prog: seq<Line>, s: State)
    requires s.pc < |prog| && prog[s.pc].command == "unvibe"
    ensures s.loopStack == [] ==> Step(prog, s) == Outcome(Some(UnmatchedUnvibe), s)
    ensures s.loopStack != [] && s.acc > 0 ==>
      var top := s.loopStack[|s.loopStack| - 1];
      Step(prog, s) == Outcome(None, s.(pc := if top + 1 == s.pc then s.pc + 1 else top + 1))
    ensures s.loopStack != [] && s.acc <= 0 ==>
      Step(prog, s) == Outcome(None, s.(loopStack := s.loopStack[..|s.loopStack| - 1], pc := s.pc + 1))
  {
  }

  /**
   * Because the scan moved `pc`, the matching `unvibe` of a skipped loop is
   * executed next: at top level it raises UnmatchedUnvibe, inside a running
   * loop it pops that outer loop's entry.
   */
  lemma SkipThenUnvibe(prog: seq<Line>, s: State)
    requires s.pc < |prog| && prog[s.pc].command == "vibe" && s.acc <= 0
    requires ScanEnd(prog, s.pc).Some?
    ensures var t := Step(prog, s).state;
      && t.pc < |prog|
      && Step(prog, t) == if s.loopStack == [] then Outcome(Some(UnmatchedUnvibe), t)
                          else Outcome(None, t.(loopStack := s.loopStack[..|s.loopStack| - 1], pc := t.pc + 1))
  {
    VibeSkipStep(prog, s);
    UnvibeStep(prog, Step(prog, s).state);
  }

  /** The control commands never change the accumulator. */
  lemma ControlKeepsAcc(prog: seq<Line>, s: State, cmd: string)
    requires IsControl(cmd)
    ensures Exec(prog, s, cmd).state.acc == s.acc
  {
  }

  /** Only `skibidi` produces output, and it appends exactly the accumulator. */
  lemma OnlySkibidiPrints(prog: seq<Line>, s: State, cmd: string)
    ensures Exec(prog, s, cmd).state.output == if cmd == "skibidi" then s.output + [s.acc] else s.output
  {
  }

  /**
   * A string that is not one of the twelve commands (`no` or `cap` alone
   * among them) raises UnknownCommand and changes nothing, and only such a
   * string does.
   */
  lemma UnknownCommandRaises(prog: seq<Line>, s: State, cmd: string)
    ensures Exec(prog, s, cmd).raised == Some(UnknownCommand(cmd)) <==> !IsCommand(cmd)
    ensures !IsCommand(cmd) ==> Exec(prog, s, cmd).state == s
  {
  }

  /**
   * The loop-stack invariant: every saved `pc` is the index of a `vibe`
   * line, the saved values increase from the outermost loop inward, and all
   * of them lie before `pc`.
   */
  predicate WellFormed(prog: seq<Line>, s: State)
  {
    && (forall i :: 0 <= i < |s.loopStack| ==> s.loopStack[i] < |prog| && prog[s.loopStack[i]].command == "vibe")
    && (forall i, j :: 0 <= i < j < |s.loopStack| ==> s.loopStack[i] < s.loopStack[j])
    && (forall i :: 0 <= i < |s.loopStack| ==> s.loopStack[i] < s.pc)
  }

  /** An iteration of `run` that raises nothing hands the rest of the run to the next state. */
  lemma RunUnfold(prog: seq<Line>, s: State, fuel: nat)
    requires s.pc < |prog| && fuel > 0 && Step(prog, s).raised.None?
    ensures Run(prog, s, fuel) == Run(prog, Step(prog, s).state, fuel - 1)
  {
  }

  /** An iteration of `run` that raises ends the run with that error. */
  lemma RunRaises(prog: seq<Line>, s: State, fuel: nat)
    requires s.pc < |prog| && fuel > 0 && Step(prog, s).raised.Some?
    ensures Run(prog, s, fuel) == RunResult(Failed(Step(prog, s).raised.value), Step(prog, s).state)
  {
  }

  /** Every iteration of `run`, whether or not it raises, keeps the loop-stack invariant. */
  lemma StepKeepsWellFormed(prog: seq<Line>, s: State)
    requires s.pc < |prog| && WellFormed(prog, s)
    ensures WellFormed(prog, Step(prog, s).state)
  {
    var c := prog[s.pc].command;
    if c == "vibe" {
      VibeKeepsWellFormed(prog, s);
    } else if c == "unvibe" {
      UnvibeKeepsWellFormed(prog, s);
    } else if c == "sus" {
      SusStep(prog, s);
      SameStackLaterPc(prog, s, Step(prog, s).state);
    } else {
      OtherKeepsStack(prog, s);
      SameStackLaterPc(prog, s, Step(prog, s).state);
    }
  }

  lemma VibeKeepsWellFormed(prog: seq<Line>, s: State)
    requires s.pc < |prog| && prog[s.pc].command == "vibe" && WellFormed(prog, s)
    ensures WellFormed(prog, Step(prog, s).state)
  {
    var t := Step(prog, s).state;
    if s.acc > 0 {
      VibeEnterStep(prog, s);
      assert forall i :: 0 <= i < |t.loopStack| ==>
        t.loopStack[i] == if i < |s.loopStack| then s.loopStack[i] else s.pc;
    } else {
      VibeSkipStep(prog, s);
      SameStackLaterPc(prog, s, t);
    }
  }

  lemma UnvibeKeepsWellFormed(prog: seq<Line>, s: State)
    requires s.pc < |prog| && prog[s.pc].command == "unvibe" && WellFormed(prog, s)
    ensures WellFormed(prog, Step(prog, s).state)
  {
    UnvibeStep(prog, s);
    if s.loopStack != [] && s.acc > 0 {
      JumpKeepsWellFormed(prog, s, Step(prog, s).state);
    } else if s.loopStack != [] {
      PopKeepsWellFormed(prog, s, Step(prog, s).state);
    }
  }

  /** Jumping to any point after the innermost saved `pc` keeps the invariant. */
  lemma JumpKeepsWellFormed(prog: seq<Line>, s: State, t: State)
    requires WellFormed(prog, s) && s.loopStack != [] && t.loopStack == s.loopStack
    requires t.pc > s.loopStack[|s.loopStack| - 1]
    ensures WellFormed(prog, t)
  {
    var top := |s.loopStack| - 1;
    assert forall i :: 0 <= i < top ==> s.loopStack[i] < s.loopStack[top];
  }

  /** Popping the innermost loop and moving forward keeps the invariant. */
  lemma PopKeepsWellFormed(prog: seq<Line>, s: State, t: State)
    requires WellFormed(prog, s) && s.loopStack != [] && t.loopStack == s.loopStack[..|s.loopStack| - 1]
    requires t.pc >= s.pc
    ensures WellFormed(prog, t)
  {
    assert forall i :: 0 <= i < |t.loopStack| ==> t.loopStack[i] == s.loopStack[i];
  }

  /** The commands other than `vibe`, `unvibe` and `sus` leave the stack alone and move `pc` by at most one. */
  lemma OtherKeepsStack(prog: seq<Line>, s: State)
    requires s.pc < |prog| && prog[s.pc].command !in {"vibe", "unvibe", "sus"}
    ensures Step(prog, s).state.loopStack == s.loopStack && s.pc <= Step(prog, s).state.pc <= s.pc + 1
  {
  }

  /** The invariant only gets easier to meet as `pc` moves forward over the same stack. */
  lemma SameStackLaterPc(prog: seq<Line>, s: State, t: State)
    requires WellFormed(prog, s) && t.loopStack == s.loopStack && t.pc >= s.pc
    ensures WellFormed(prog, t)
  {
  }

  /** A whole run keeps the loop-stack invariant, from a fresh interpreter in particular. */
  lemma {:induction false} RunKeepsWellFormed(prog: seq<Line>, s: State, fuel: nat)
    requires WellFormed(prog, s)
    ensures WellFormed(prog, Run(prog, s, fuel).state)
    decreases fuel
  {
    if s.pc < |prog| && fuel > 0 {
      StepKeepsWellFormed(prog, s);
      if Step(prog, s).raised.None? {
        RunKeepsWellFormed(prog, Step(prog, s).state, fuel - 1);
      }
    }
  }

  /** The step bound only decides whether a run finishes, never how it finishes. */
  lemma {:induction false} RunFuelMonotone(prog: seq<Line>, s: State, fuel: nat, more: nat)
    requires fuel <= more && Run(prog, s, fuel).status != OutOfFuel
    ensures Run(prog, s, more) == Run(prog, s, fuel)
    decreases fuel
  {
    if s.pc < |prog| && Step(prog, s).raised.None? {
      RunFuelMonotone(prog, Step(prog, s).state, fuel - 1, more - 1);
    }
  }

  /**
   * A program whose remaining lines are all arithmetic runs to its end, and
   * its accumulator is the left fold of their effects.
   */
  lemma {:induction false} StraightLineRun(prog: seq<Line>, s: State, fuel: nat)
    requires s.pc <= |prog| && |prog| - s.pc <= fuel
    requires forall i :: s.pc <= i < |prog| ==> IsArithmetic(prog[i].command)
    ensures Run(prog, s, fuel) == RunResult(Halted, s.(acc := FoldAcc(prog[s.pc..], s.acc), pc := |prog|))
    decreases |prog| - s.pc
  {
    if s.pc == |prog| {
      assert prog[s.pc..] == [];
    } else {
      ArithmeticStep(prog, s);
      var t := s.(acc := AccEffect(prog[s.pc].command, s.acc), pc := s.pc + 1);
      assert prog[s.pc..][1..] == prog[t.pc..];
      StraightLineRun(prog, t, fuel - 1);
    }
  }

  /**
   * A stretch of arithmetic lines from `pc` up to index `e` takes one
   * iteration of `run` per line, and leaves the left fold of their effects in
   * the accumulator with `pc` at `e`.
   */
  lemma {:induction false} ArithmeticStretch(prog: seq<Line>, s: State, e: nat, fuel: nat)
    requires s.pc <= e <= |prog|
    requires forall i :: s.pc <= i < e ==> IsArithmetic(prog[i].command)
    ensures Run(prog, s, fuel + (e - s.pc)) == Run(prog, s.(acc := FoldAcc(prog[s.pc..e], s.acc), pc := e), fuel)
    decreases e - s.pc
  {
    if s.pc == e {
      assert prog[s.pc..e] == [];
    } else {
      var t := s.(acc := AccEffect(prog[s.pc].command, s.acc), pc := s.pc + 1);
      ArithmeticRunStep(prog, s, fuel + (e - t.pc));
      ArithmeticStretch(prog, t, e, fuel);
      FoldStep(prog, s.pc, e, s.acc);
    }
  }

  /** One arithmetic line as one iteration of `run`. */
  lemma ArithmeticRunStep(prog: seq<Line>, s: State, fuel: nat)
    requires s.pc < |prog| && IsArithmetic(prog[s.pc].command)
    ensures Run(prog, s, fuel + 1) == Run(prog, s.(acc := AccEffect(prog[s.pc].command, s.acc), pc := s.pc + 1), fuel)
  {
    ArithmeticStep(prog, s);
    RunUnfold(prog, s, fuel + 1);
  }

  /** Folding a stretch of lines is folding its first line, then the rest. */
  lemma FoldStep(prog: seq<Line>, i: nat, e: nat, acc: int)
    requires i < e <= |prog|
    ensures FoldAcc(prog[i..e], acc) == FoldAcc(prog[i + 1..e], AccEffect(prog[i].command, acc))
  {
    assert prog[i..e][1..] == prog[i + 1..e];
  }

  /**
   * A loop from the `vibe` at `p` to the `unvibe` at `e` whose body is made
   * of arithmetic lines that together take exactly 1 off the accumulator.
   */
  ghost predicate DecrementingLoop(prog: seq<Line>, p: nat, e: nat)
  {
    && p < e < |prog|
    && prog[p].command == "vibe" && prog[e].command == "unvibe"
    && (forall i :: p < i < e ==> IsArithmetic(prog[i].command))
    && Decrements(prog[p + 1..e])
  }

  /** Lines whose combined effect on any accumulator is to take 1 off it. */
  ghost predicate Decrements(body: seq<Line>)
  {
    forall a :: FoldAcc(body, a) == a - 1
  }

  /**
   * One time round such a loop, from the first line of its body: `e - p`
   * iterations of `run` take 1 off the accumulator and bring `pc` back to
   * the body.
   */
  lemma NextRound(prog: seq<Line>, p: nat, e: nat, s: State, fuel: nat)
    requires DecrementingLoop(prog, p, e)
    requires s.pc == p + 1 && s.loopStack != [] && s.loopStack[|s.loopStack| - 1] == p && s.acc > 1
    ensures Run(prog, s, fuel + (e - p)) == Run(prog, s.(acc := s.acc - 1), fuel)
  {
    var t := s.(acc := s.acc - 1, pc := e);
    calc {
      Run(prog, s, fuel + (e - p));
      { BodyThenUnvibe(prog, p, e, s, fuel); }
      Run(prog, t, fuel + 1);
      { BodyNotEmpty(prog, p, e); UnvibeRepeats(prog, t, fuel); }
      Run(prog, t.(pc := p + 1), fuel);
    }
  }

  /** The last time round: the accumulator reaches 0, the loop is popped and `pc` is past the `unvibe`. */
  lemma LastRound(prog: seq<Line>, p: nat, e: nat, s: State, fuel: nat)
    requires DecrementingLoop(prog, p, e)
    requires s.pc == p + 1 && s.loopStack != [] && s.loopStack[|s.loopStack| - 1] == p && s.acc == 1
    ensures Run(prog, s, fuel + (e - p)) ==
      Run(prog, s.(acc := 0, pc := e + 1, loopStack := s.loopStack[..|s.loopStack| - 1]), fuel)
  {
    var t := s.(acc := 0, pc := e);
    calc {
      Run(prog, s, fuel + (e - p));
      { BodyThenUnvibe(prog, p, e, s, fuel); }
      Run(prog, t, fuel + 1);
      { UnvibeExits(prog, t, fuel); }
      Run(prog, t.(loopStack := t.loopStack[..|t.loopStack| - 1], pc := t.pc + 1), fuel);
    }
  }

  /** An `unvibe` with a positive accumulator sends `run` back to the line after its `vibe`. */
  lemma UnvibeRepeats(prog: seq<Line>, s: State, fuel: nat)
    requires s.pc < |prog| && prog[s.pc].command == "unvibe" && s.loopStack != [] && s.acc > 0
    requires s.loopStack[|s.loopStack| - 1] + 1 != s.pc
    ensures Run(prog, s, fuel + 1) == Run(prog, s.(pc := s.loopStack[|s.loopStack| - 1] + 1), fuel)
  {
    UnvibeStep(prog, s);
    RunUnfold(prog, s, fuel + 1);
  }

  /** An `unvibe` with a non-positive accumulator pops its loop and `run` goes on past it. */
  lemma UnvibeExits(prog: seq<Line>, s: State, fuel: nat)
    requires s.pc < |prog| && prog[s.pc].command == "unvibe" && s.loopStack != [] && s.acc <= 0
    ensures Run(prog, s, fuel + 1) ==
      Run(prog, s.(loopStack := s.loopStack[..|s.loopStack| - 1], pc := s.pc + 1), fuel)
  {
    UnvibeStep(prog, s);
    RunUnfold(prog, s, fuel + 1);
  }

  /** A body that takes 1 off every accumulator has at least one line. */
  lemma BodyNotEmpty(prog: seq<Line>, p: nat, e: nat)
    requires DecrementingLoop(prog, p, e)
    ensures p + 1 < e
  {
    assert FoldAcc(prog[p + 1..e], 0) == -1;
  }

  /** The body of such a loop takes `e - p - 1` iterations and leaves `pc` on the `unvibe` with 1 taken off. */
  lemma BodyThenUnvibe(prog: seq<Line>, p: nat, e: nat, s: State, fuel: nat)
    requires DecrementingLoop(prog, p, e) && s.pc == p + 1
    ensures Run(prog, s, fuel + (e - p)) == Run(prog, s.(acc := s.acc - 1, pc := e), fuel + 1)
  {
    BodyNotEmpty(prog, p, e);
    ArithmeticStretch(prog, s, e, fuel + 1);
  }

  /**
   * Entered with accumulator k >= 1, such a loop runs its body exactly k
   * times, in k * (e - p) iterations of `run`, and leaves with the
   * accumulator at 0 and its entry popped.
   */
  lemma {:induction false} DecrementingBody(prog: seq<Line>, p: nat, e: nat, s: State, fuel: nat)
    requires DecrementingLoop(prog, p, e)
    requires s.pc == p + 1 && s.loopStack != [] && s.loopStack[|s.loopStack| - 1] == p && s.acc >= 1
    ensures Run(prog, s, fuel + s.acc * (e - p)) ==
      Run(prog, s.(acc := 0, pc := e + 1, loopStack := s.loopStack[..|s.loopStack| - 1]), fuel)
    decreases s.acc
  {
    var n := e - p;
    var next := s.(acc := s.acc - 1);
    if s.acc == 1 {
      LastRound(prog, p, e, s, fuel);
    } else {
      var rest := next.acc * n;
      assert fuel + s.acc * n == (fuel + rest) + n by { Distribute(s.acc, n); }
      NextRound(prog, p, e, s, fuel + rest);
      DecrementingBody(prog, p, e, next, fuel);
    }
  }

  /** The one nonlinear step of the fuel count: k rounds are k - 1 rounds and one more. */
  lemma Distribute(k: int, n: int)
    ensures k * n == (k - 1) * n + n
  {
  }

  /** The same loop from its `vibe`: with accumulator k >= 1 it takes k * (e - p) + 1 iterations of `run`. */
  lemma DecrementingLoopRuns(prog: seq<Line>, p: nat, e: nat, s: State, fuel: nat)
    requires DecrementingLoop(prog, p, e)
    requires s.pc == p && s.acc >= 1
    ensures Run(prog, s, fuel + s.acc * (e - p) + 1) == Run(prog, s.(acc := 0, pc := e + 1), fuel)
  {
    VibeEnterStep(prog, s);
    var t := s.(loopStack := s.loopStack + [p], pc := p + 1);
    RunUnfold(prog, s, fuel + s.acc * (e - p) + 1);
    DecrementingBody(prog, p, e, t, fuel);
    assert t.loopStack[..|t.loopStack| - 1] == s.loopStack;
  }

  /** `vibe gyatt unvibe` is such a loop: with accumulator k >= 1 it takes 2k + 1 iterations of `run`. */
  lemma CountdownLoop(prog: seq<Line>, p: nat, s: State, fuel: nat)
    requires p + 2 < |prog|
    requires prog[p].command == "vibe" && prog[p + 1].command == "gyatt" && prog[p + 2].command == "unvibe"
    requires s.pc == p && s.acc >= 1
    ensures Run(prog, s, fuel + 2 * s.acc + 1) == Run(prog, s.(acc := 0, pc := p + 3), fuel)
  {
    assert prog[p + 1..p + 2] == [prog[p + 1]];
    var body := prog[p + 1..p + 2];
    forall a
      ensures FoldAcc(body, a) == a - 1
    {
      assert body[1..] == [];
    }
    DecrementingLoopRuns(prog, p, p + 2, s, fuel);
  }
}
