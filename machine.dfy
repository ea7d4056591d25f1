/**
 * The `Interpreter` class of main.py (main.py:18-92): its fields are updated
 * in place, and each method is proved to do what the functions of module
 * Semantics say.
 */
module Machine {
  import opened Wrappers
  import opened LineFilter
  import opened LoopScan
  import Semantics
  import Properties

  class Interpreter {
    var acc: int
    var pc: nat
    var lines: seq<Line>
    var loopStack: seq<nat>
    /** What `skibidi` has printed, in order. */
    var output: seq<int>

    /** The fields the commands change, as one value. */
    function Snapshot(): Semantics.State
      reads this
    {
      Semantics.State(acc, pc, loopStack, output)
    }

    constructor ()
      ensures Snapshot() == Semantics.Init && lines == []
    {
      acc, pc, lines, loopStack, output := 0, 0, [], [], [];
    }

    /** `load` once the file has been read into `raw`: the program becomes its filtered lines. */
    method Load(raw: seq<string>)
      modifies this
      ensures lines == ParseLines(raw)
      ensures Snapshot() == old(Snapshot())
    {
      lines := ParseLines(raw);
    }

    /** `execute(cmd)`: the error it raises, if any, and the fields it leaves. */
    method Execute(cmd: string) returns (err: Option<Semantics.Error>)
      modifies this
      ensures lines == old(lines)
      ensures Semantics.Outcome(err, Snapshot()) == Semantics.Exec(lines, old(Snapshot()), cmd)
    {
      err := None;
      if cmd == "rizz" {
        acc := acc + 1;
      } else if cmd == "gyatt" {
        acc := acc - 1;
      } else if cmd == "drip" {
        acc := acc + 5;
      } else if cmd == "npc" {
        acc := acc - 5;
      } else if cmd == "yeet" {
        acc := acc * 2;
      } else if cmd == "cringe" {
        if acc != 0 {
          acc := acc / 2;
        }
      } else if cmd == "skibidi" {
        output := output + [acc];
      } else if cmd == "no cap" {
        acc := 0;
      } else if cmd == "sus" {
        if acc == 0 {
          pc := pc + 2;
        }
      } else if cmd == "vibe" {
        if acc > 0 {
          loopStack := loopStack + [pc];
        } else {
          err := SkipLoop();
        }
      } else if cmd == "unvibe" {
        if loopStack == [] {
          err := Some(Semantics.UnmatchedUnvibe);
          return;
        }
        var start := loopStack[|loopStack| - 1];
        if acc > 0 {
          pc := start + 1;
        } else {
          loopStack := loopStack[..|loopStack| - 1];
        }
      } else if cmd == "mid" {
      } else {
        err := Some(Semantics.UnknownCommand(cmd));
      }
    }

    /**
     * The forward scan of a `vibe` that is not entered: `pc` moves one line at
     * a time, never past the last line, until the depth counter is 0.
     */
    method SkipLoop() returns (err: Option<Semantics.Error>)
      modifies this`pc
      ensures ScanEnd(lines, old(pc)).Some? ==> err == None && pc == ScanEnd(lines, old(pc)).value
      ensures ScanEnd(lines, old(pc)).None? ==>
        err == Some(Semantics.UnmatchedVibe) && pc == if old(pc) + 1 < |lines| then |lines| - 1 else old(pc)
    {
      ghost var p := pc;
      var depth := 1;
      while depth != 0 && pc < |lines| - 1
        invariant p <= pc && (pc == p || pc < |lines|)
        invariant depth == if p < |lines| then Depth(lines, p, pc) else 1
        invariant forall k :: p < k < pc ==> Depth(lines, p, k) != 0
        decreases |lines| - pc
      {
        pc := pc + 1;
        var c := lines[pc].command;
        if c == "vibe" {
          depth := depth + 1;
        } else if c == "unvibe" {
          depth := depth - 1;
        }
      }
      if depth != 0 {
        err := Some(Semantics.UnmatchedVibe);
        assert forall k :: p < k < |lines| ==> Depth(lines, p, k) != 0;
      } else {
        err := None;
        MatchIsScanEnd(lines, p, pc);
      }
    }

    /** One iteration of `run`'s loop: fetch, execute, and step over the command if `pc` did not move. */
    method Step() returns (err: Option<Semantics.Error>)
      requires pc < |lines|
      modifies this
      ensures lines == old(lines)
      ensures Semantics.Outcome(err, Snapshot()) == Semantics.Step(lines, old(Snapshot()))
    {
      var cmd := lines[pc].command;
      var oldPc := pc;
      err := Execute(cmd);
      if err.None? && pc == oldPc {
        pc := pc + 1;
      }
    }

    /** `run`, stopped after `fuel` iterations if it has not ended by then. */
    method Run(fuel: nat) returns (status: Semantics.Status)
      modifies this
      ensures lines == old(lines)
      ensures Semantics.RunResult(status, Snapshot()) == Semantics.Run(lines, old(Snapshot()), fuel)
      ensures Properties.WellFormed(lines, old(Snapshot())) ==> Properties.WellFormed(lines, Snapshot())
    {
      if Properties.WellFormed(lines, Snapshot()) {
        Properties.RunKeepsWellFormed(lines, Snapshot(), fuel);
      }
      var n := fuel;
      while pc < |lines|
        invariant lines == old(lines)
        invariant Semantics.Run(lines, Snapshot(), n) == Semantics.Run(lines, old(Snapshot()), fuel)
        decreases n
      {
        if n == 0 {
          return Semantics.OutOfFuel;
        }
        var err := Step();
        if err.Some? {
          return Semantics.Failed(err.value);
        }
        n := n - 1;
      }
      status := Semantics.Halted;
    }
  }
}
