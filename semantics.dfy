/**
 * The interpreter of main.py as functions on a state value: `Exec` is
 * `Interpreter.execute` (main.py:44-92), `Step` is one iteration of the loop
 * in `Interpreter.run` with its "did `pc` change" rule (main.py:34-42), and
 * `Run` is that loop bounded by a number of steps.
 */
module Semantics {
  import opened Wrappers
  import opened LineFilter
  import opened LoopScan

  /**
   * The interpreter's mutable fields: the accumulator, the program counter,
   * the saved `pc` of every entered loop, and the values printed so far.
   */
  datatype State = State(acc: int, pc: nat, loopStack: seq<nat>, output: seq<int>)

  /** The kinds of `BrainrotError` the interpreter raises. */
  datatype Error = UnmatchedVibe | UnmatchedUnvibe | UnknownCommand(command: string)

  /** The error `execute` raised, if any, and the state it left (raising rolls nothing back). */
  datatype Outcome = Outcome(raised: Option<Error>, state: State)

  /** How a bounded run ends: the loop condition failed, an error was raised, or the bound was hit. */
  datatype Status = Halted | Failed(error: Error) | OutOfFuel

  datatype RunResult = RunResult(status: Status, state: State)

  /** The state of a fresh `Interpreter()`. */
  const Init := State(0, 0, [], [])

  /** The commands `execute` recognises; `no cap` is one command of two words. */
  predicate IsCommand(command: string)
  {
    command in {"rizz", "gyatt", "drip", "npc", "yeet", "cringe", "skibidi", "no cap", "sus", "vibe", "unvibe", "mid"}
  }

  /** `cringe`: Python's `acc //= 2` when `acc != 0`, division rounding toward minus infinity. */
  function Halve(acc: int): (r: int)
    ensures 2 * r <= acc < 2 * r + 2
    ensures acc == 0 ==> r == 0
  {
    if acc != 0 then acc / 2 else acc
  }

  /** `Interpreter.execute(cmd)` on state `s` with program `prog`. */
  function Exec(prog: seq<Line>, s: State, cmd: string): Outcome
  {
    if cmd == "rizz" then Outcome(None, s.(acc := s.acc + 1))
    else if cmd == "gyatt" then Outcome(None, s.(acc := s.acc - 1))
    else if cmd == "drip" then Outcome(None, s.(acc := s.acc + 5))
    else if cmd == "npc" then Outcome(None, s.(acc := s.acc - 5))
    else if cmd == "yeet" then Outcome(None, s.(acc := s.acc * 2))
    else if cmd == "cringe" then Outcome(None, s.(acc := Halve(s.acc)))
    else if cmd == "skibidi" then Outcome(None, s.(output := s.output + [s.acc]))
    else if cmd == "no cap" then Outcome(None, s.(acc := 0))
    else if cmd == "sus" then
      Outcome(None, if s.acc == 0 then s.(pc := s.pc + 2) else s)
    else if cmd == "vibe" then
      if s.acc > 0 then Outcome(None, s.(loopStack := s.loopStack + [s.pc]))
      else
        match ScanEnd(prog, s.pc)
        case Some(q) => Outcome(None, s.(pc := q))
        // the failed scan has already moved `pc` to the last line
        case None => Outcome(Some(UnmatchedVibe), s.(pc := if s.pc + 1 < |prog| then |prog| - 1 else s.pc))
    else if cmd == "unvibe" then
      if s.loopStack == [] then Outcome(Some(UnmatchedUnvibe), s)
      else
        var start := s.loopStack[|s.loopStack| - 1];
        if s.acc > 0 then Outcome(None, s.(pc := start + 1))
        else Outcome(None, s.(loopStack := s.loopStack[..|s.loopStack| - 1]))
    else if cmd == "mid" then Outcome(None, s)
    else Outcome(Some(UnknownCommand(cmd)), s)
  }

  /** One iteration of `run`: execute the command at `pc`, then add 1 to `pc` if it did not move. */
  function Step(prog: seq<Line>, s: State): Outcome
    requires s.pc < |prog|
  {
    var o := Exec(prog, s, prog[s.pc].command);
    if o.raised.None? && o.state.pc == s.pc then Outcome(None, o.state.(pc := s.pc + 1)) else o
  }

  /** `run` allowed at most `fuel` iterations: the loop condition, then `Continue`. */
  function Run(prog: seq<Line>, s: State, fuel: nat): RunResult
    decreases fuel, 1
  {
    if s.pc >= |prog| then RunResult(Halted, s)
    else if fuel == 0 then RunResult(OutOfFuel, s)
    else Continue(prog, s, fuel)
  }

  /** One pass through the body of `run`'s loop, then the rest of the run. */
  function Continue(prog: seq<Line>, s: State, fuel: nat): RunResult
    requires s.pc < |prog| && fuel > 0
    decreases fuel, 0
  {
    var o := Step(prog, s);
    if o.raised.Some? then RunResult(Failed(o.raised.value), o.state)
    else Run(prog, o.state, fuel - 1)
  }
}
