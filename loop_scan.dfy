/**
 * The forward scan a skipped `vibe` performs to find its matching `unvibe`
 * (main.py:69-79): a depth counter starts at 1, goes up on every later `vibe`
 * and down on every later `unvibe`, and the scan stops where it reaches 0.
 */
module LoopScan {
  import opened Wrappers
  import opened LineFilter

  /** How a line moves the scan's depth counter. */
  function Delta(command: string): (d: int)
    ensures -1 <= d <= 1
    ensures d == 1 <==> command == "vibe"
    ensures d == -1 <==> command == "unvibe"
  {
    if command == "vibe" then 1 else if command == "unvibe" then -1 else 0
  }

  /** The depth counter after the scan from index `p` has read line `q`. */
  function Depth(prog: seq<Line>, p: nat, q: nat): int
    requires p <= q < |prog|
    decreases q - p
  {
    if q == p then 1 else Depth(prog, p, q - 1) + Delta(prog[q].command)
  }

  /** `q` is the first index after `p` at which the depth counter reaches 0. */
  predicate IsMatch(prog: seq<Line>, p: nat, q: nat)
  {
    && p < q < |prog|
    && Depth(prog, p, q) == 0
    && forall k :: p < k < q ==> Depth(prog, p, k) != 0
  }

  /** The scan continued from `q`, where the counter has not yet reached 0. */
  function ScanFrom(prog: seq<Line>, p: nat, q: nat): (r: Option<nat>)
    requires p <= q < |prog|
    requires forall k :: p < k <= q ==> Depth(prog, p, k) != 0
    ensures r.Some? ==> IsMatch(prog, p, r.value)
    ensures r.None? ==> forall k :: p < k < |prog| ==> Depth(prog, p, k) != 0
    decreases |prog| - q
  {
    if q + 1 >= |prog| then None
    else if Depth(prog, p, q + 1) == 0 then Some(q + 1)
    else ScanFrom(prog, p, q + 1)
  }

  /**
   * Where the scan from a skipped `vibe` at `p` stops: its match, or None
   * when the program ends first.
   */
  function ScanEnd(prog: seq<Line>, p: nat): (r: Option<nat>)
    ensures r.Some? ==> IsMatch(prog, p, r.value)
    ensures r.None? ==> forall k :: p < k < |prog| ==> Depth(prog, p, k) != 0
  {
    if p + 1 >= |prog| then None else ScanFrom(prog, p, p)
  }

  /** A match is unique: `ScanEnd` finds it whenever there is one. */
  lemma MatchIsScanEnd(prog: seq<Line>, p: nat, q: nat)
    requires IsMatch(prog, p, q)
    ensures ScanEnd(prog, p) == Some(q)
  {
  }

  /** Until it first reaches 0 the counter never drops below 1. */
  lemma {:induction false} DepthPositive(prog: seq<Line>, p: nat, q: nat)
    requires p <= q < |prog|
    requires forall k :: p < k <= q ==> Depth(prog, p, k) != 0
    ensures Depth(prog, p, q) >= 1
    decreases q - p
  {
    if q > p {
      DepthPositive(prog, p, q - 1);
    }
  }

  /** The scan always stops on an `unvibe` line. */
  lemma MatchIsUnvibe(prog: seq<Line>, p: nat, q: nat)
    requires IsMatch(prog, p, q)
    ensures prog[q].command == "unvibe"
  {
    DepthPositive(prog, p, q - 1);
  }

  /** Past a `vibe` at `v`, the counter of an outer scan is its own value before `v` plus the inner one. */
  lemma {:induction false} DepthSplit(prog: seq<Line>, p: nat, v: nat, k: nat)
    requires p < v <= k < |prog| && prog[v].command == "vibe"
    ensures Depth(prog, p, k) == Depth(prog, p, v - 1) + Depth(prog, v, k)
    decreases k - v
  {
    if k > v {
      DepthSplit(prog, p, v, k - 1);
    }
  }

  /**
   * Nested loops are skipped whole: every `vibe` strictly inside a scanned
   * range has its own match, and that match lies before the outer one.
   */
  lemma NestedMatchInside(prog: seq<Line>, p: nat, q: nat, v: nat)
    requires IsMatch(prog, p, q)
    requires p < v < q && prog[v].command == "vibe"
    ensures ScanEnd(prog, v).Some? && v < ScanEnd(prog, v).value < q
  {
    DepthPositive(prog, p, v - 1);
    DepthSplit(prog, p, v, q);
    assert Depth(prog, v, q) <= -1;
    var r := ScanEnd(prog, v);
    if r.None? || r.value >= q {
      DepthPositive(prog, v, q);
      assert false;
    }
  }
}
