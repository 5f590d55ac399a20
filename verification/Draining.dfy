/** From every reachable state the protocol can be run to a standstill, and exactly when that
    standstill is not a quiet one. */
module Draining {
  import opened Bytes
  import opened Engine
  import opened Segments
  import opened Machine
  import opened Invariant
  import opened Ledger
  import opened Capture
  import opened Serial
  import opened Theorems
  import opened Progress

  // ----- runs and their continuations

  lemma RunStep(s0: State, acts: seq<Action>, a: Action)
    requires Runs(s0, acts) && Enabled(Exec(s0, acts), a)
    ensures Runs(s0, acts + [a]) && Exec(s0, acts + [a]) == Do(Exec(s0, acts), a)
  {
    assert (acts + [a])[..|acts + [a]| - 1] == acts;
  }

  /** The last step of a continuation. */
  lemma LastOf(s0: State, acts: seq<Action>, more: seq<Action>)
    requires Runs(s0, acts + more) && more != []
    ensures var front, a := more[..|more| - 1], more[|more| - 1];
      && Runs(s0, acts + front) && Enabled(Exec(s0, acts + front), a)
      && Exec(s0, acts + more) == Do(Exec(s0, acts + front), a)
  {
    var n := |more| - 1;
    assert (acts + more)[..|acts + more| - 1] == acts + more[..n];
    assert (acts + more)[|acts + more| - 1] == more[n];
  }

  /** A run starts with runs. */
  lemma {:induction false} RunPrefix(s0: State, acts: seq<Action>, more: seq<Action>)
    requires Runs(s0, acts + more)
    ensures Runs(s0, acts)
    decreases |more|
  {
    if more == [] {
      assert acts + more == acts;
    } else {
      LastOf(s0, acts, more);
      RunPrefix(s0, acts, more[..|more| - 1]);
    }
  }

  lemma {:induction false} RunCount(s0: State, acts: seq<Action>, more: seq<Action>)
    requires Runs(s0, acts) && Runs(s0, acts + more) && NoSubmits(more)
    ensures |Exec(s0, acts + more).units| == |Exec(s0, acts).units|
    ensures |Exec(s0, acts + more).sh.parity| == |Exec(s0, acts).sh.parity|
    decreases |more|
  {
    if more == [] {
      assert acts + more == acts;
    } else {
      LastOf(s0, acts, more);
      hide Runs, Exec, Do, Enabled;
      RunCount(s0, acts, more[..|more| - 1]);
      StepCount(Exec(s0, acts + more[..|more| - 1]), more[|more| - 1]);
    }
  }

  /** Only submissions can be careless. */
  lemma {:induction false} CarefulExtends(s0: State, acts: seq<Action>, more: seq<Action>)
    requires Runs(s0, acts) && Careful(s0, acts) && Runs(s0, acts + more) && NoSubmits(more)
    ensures Careful(s0, acts + more)
    decreases |more|
  {
    if more == [] {
      assert acts + more == acts;
    } else {
      LastOf(s0, acts, more);
      var n := |more| - 1;
      CarefulExtends(s0, acts, more[..n]);
      assert (acts + more)[..|acts + more| - 1] == acts + more[..n];
      assert (acts + more)[|acts + more| - 1] == more[n];
    }
  }

  // ----- draining

  /** Running on until nothing is left to do. */
  lemma {:induction false} Drain(s0: State, acts: seq<Action>) returns (more: seq<Action>)
    requires Init(s0) && Runs(s0, acts)
    ensures NoSubmits(more) && Runs(s0, acts + more) && Blocked(Exec(s0, acts + more))
    ensures 0 <= |more| <= Measure(Exec(s0, acts))
    decreases Measure(Exec(s0, acts))
  {
    hide Inv, Ledgers, SerialInv, Runs, Exec, Do, Enabled, Init, Measure;
    assert acts + [] == acts;
    DrainLength(s0, acts, []);
    RunInvariant(s0, acts);
    if Blocked(Exec(s0, acts)) {
      more := [];
    } else {
      var a :| Enabled(Exec(s0, acts), a) && !a.Submit?;
      RunStep(s0, acts, a);
      StepDecreases(Exec(s0, acts), a);
      var rest := Drain(s0, acts + [a]);
      more := [a] + rest;
      assert acts + [a] + rest == acts + more;
      forall k | 0 <= k < |more| ensures !more[k].Submit? {
        if k > 0 { assert more[k] == rest[k - 1]; }
      }
    }
  }

  // ----- the wedge

  lemma {:induction false} RunShape(s0: State, acts: seq<Action>)
    requires Runs(s0, acts)
    ensures |Exec(s0, acts).disks| == |s0.disks| && |Exec(s0, acts).sh.parity| == |s0.sh.parity|
    decreases |acts|
  {
    if acts != [] {
      var front, a := acts[..|acts| - 1], acts[|acts| - 1];
      RunShape(s0, front);
      StepCount(Exec(s0, front), a);
    }
  }

  /** A write of the first sector of the first disk. */
  function OneSector(page: seq<Byte>): Action
    requires |page| == 4096
  {
    Submit(0, 0, [Segment(page, 0, 512)], [Segment(page, 0, 512)])
  }

  /** Nothing is pending in a quiet state, so any submission is careful there. */
  lemma QuietApart(s: State, a: Action)
    requires Inv(s) && Quiescent(s)
    ensures Apart(s, a)
  {
    forall i, b: nat | 0 <= i < |s.units| ensures !Pending(s.units[i], b) {
      if s.units[i].task.Covers(b) { QuiescentUnits(s, i, b); }
    }
  }

  lemma OneSectorEnabled(s: State, page: seq<Byte>)
    requires Inv(s) && |page| == 4096 && |s.disks| > 0 && |s.sh.parity| >= 512
    ensures Enabled(s, OneSector(page))
  {
    assert Length([Segment(page, 0, 512)]) == 512 + Length([]);
    hide Structure, Token, Logged, AppliedAll, Staged, Counters;
  }

  /** One more write, submitted when all is quiet and drained. */
  lemma OneMore(s0: State, acts: seq<Action>, page: seq<Byte>) returns (longer: seq<Action>)
    requires Init(s0) && |page| == 4096 && |s0.disks| > 0 && |s0.sh.parity| >= 512
    requires Runs(s0, acts) && Careful(s0, acts) && Quiescent(Exec(s0, acts))
    ensures Runs(s0, longer) && Careful(s0, longer) && Blocked(Exec(s0, longer))
    ensures |Exec(s0, longer).units| == |Exec(s0, acts).units| + 1
  {
    hide Inv, Ledgers, SerialInv, Runs, Exec, Do, Enabled, Init, Quiescent, Apart, Blocked;
    var a := OneSector(page);
    RunInvariant(s0, acts);
    RunShape(s0, acts);
    OneSectorEnabled(Exec(s0, acts), page);
    RunStep(s0, acts, a);
    StepCount(Exec(s0, acts), a);
    QuietApart(Exec(s0, acts), a);
    assert (acts + [a])[..|acts + [a]| - 1] == acts;
    var more := Drain(s0, acts + [a]);
    longer := acts + [a] + more;
    CarefulExtends(s0, acts + [a], more);
    RunCount(s0, acts + [a], more);
  }

  /** n careful one-sector writes, each drained before the next. */
  lemma {:induction false} ManyWrites(s0: State, page: seq<Byte>, n: nat) returns (acts: seq<Action>)
    requires Init(s0) && |page| == 4096 && |s0.disks| > 0 && |s0.sh.parity| >= 512 && n <= U32_RANGE
    ensures Runs(s0, acts) && Careful(s0, acts) && Blocked(Exec(s0, acts)) && |Exec(s0, acts).units| == n
    decreases n
  {
    hide Inv, Ledgers, SerialInv, Do, Enabled, Quiescent, Blocked;
    if n == 0 {
      assert Runs(s0, []) && Careful(s0, []) && Exec(s0, []) == s0;
      acts := Drain(s0, []);
      assert [] + acts == acts;
      CarefulExtends(s0, [], acts);
      RunCount(s0, [], acts);
    } else {
      hide Init, Runs, Exec, Careful;
      var front := ManyWrites(s0, page, n - 1);
      DrainsExactly(s0, front);
      acts := OneMore(s0, front, page);
    }
  }

  /** The wedge is real: from every start state with a sector to write, 2^32 careful writes, each run to
      its end, leave a state in which nothing can move and the last task is never applied. */
  lemma {:induction false} WedgeHappens(s0: State, page: seq<Byte>) returns (acts: seq<Action>)
    requires Init(s0) && |page| == 4096 && |s0.disks| > 0 && |s0.sh.parity| >= 512
    ensures Runs(s0, acts) && Careful(s0, acts) && |Exec(s0, acts).units| == U32_RANGE
    ensures Blocked(Exec(s0, acts)) && Wedged(Exec(s0, acts)) && !Quiescent(Exec(s0, acts))
  {
    hide Inv, Ledgers, SerialInv, Do, Enabled, Quiescent, Blocked, Runs, Exec, Careful, Init, Wedged;
    acts := ManyWrites(s0, page, U32_RANGE);
    DrainsExactly(s0, acts);
    BlockedExactly(s0, acts);
  }
}
