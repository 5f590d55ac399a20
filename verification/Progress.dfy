/** Deadlock freedom and termination: the protocol drains, unless 2^32 segments have been submitted. */
module Progress {
  import opened Engine
  import opened Machine
  import opened Invariant
  import opened Ledger
  import opened Serial
  import opened Theorems

  /** Nothing can happen without a new submission. */
  ghost predicate Blocked(s: State) {
    forall a :: Enabled(s, a) ==> a.Submit?
  }

  ghost predicate HostDone(s: State) {
    && (forall i :: 0 <= i < |s.units| ==>
          !s.units[i].phase.Waiting? && Full(s.units[i].landed, s.units[i].task.Sectors()))
    && (forall p :: 0 <= p < |s.pieces| ==> s.pieces[p].released)
  }

  /** A task is posted, but io_num has wrapped to zero and the dispatcher's test cannot see it. */
  ghost predicate Wedged(s: State) {
    HostDone(s) && s.claimed < |s.log| && |s.log| % U32_RANGE == 0
  }

  // ----- what can happen next

  lemma UnitIsReady(s: State, i: nat)
    requires Inv(s) && i < |s.units|
    ensures UnitReady(s, i) && UnitOk(s.units[i], i, s.pieces, |s.disks|, |s.sh.parity|)
    ensures PieceOk(s.pieces[s.units[i].piece], s.units[i].piece, s.units)
  {}

  /** A piece whose reads are all done can queue its next unit, or be released. */
  lemma PieceStep(s: State, p: nat) returns (a: Action)
    requires Inv(s) && p < |s.pieces| && !s.pieces[p].released
    requires forall i :: 0 <= i < |s.units| && s.units[i].phase.Waiting? ==>
      Full(s.units[i].read, s.units[i].task.Sectors())
    ensures Enabled(s, a) && !a.Submit? && !a.Land?
  {
    assert PieceOk(s.pieces[p], p, s.units);
    forall i | 0 <= i < |s.units| ensures Full(s.units[i].read, s.units[i].task.Sectors()) { UnitIsReady(s, i); }
    hide Inv, UnitOk;
    a := if s.pieces[p].queued < s.pieces[p].count then Enqueue(p) else Release(p);
  }

  lemma HostStep(s: State) returns (a: Action)
    requires Inv(s) && !HostDone(s)
    ensures Enabled(s, a) && !a.Submit?
    ensures a.Land? ==> forall p :: 0 <= p < |s.pieces| ==> s.pieces[p].released
  {
    hide Inv;
    if i :| 0 <= i < |s.units| && s.units[i].phase.Waiting? && !Full(s.units[i].read, s.units[i].task.Sectors()) {
      UnitIsReady(s, i);
      hide UnitOk, PieceOk;
      var j :| 0 <= j < s.units[i].task.Sectors() && j !in s.units[i].read;
      a := ReadSector(i, j);
    } else if p :| 0 <= p < |s.pieces| && !s.pieces[p].released {
      a := PieceStep(s, p);
    } else {
      forall i | 0 <= i < |s.units| ensures !s.units[i].phase.Waiting? { UnitIsReady(s, i); }
      var i :| 0 <= i < |s.units| && !Full(s.units[i].landed, s.units[i].task.Sectors());
      UnitIsReady(s, i);
      hide UnitOk, PieceOk;
      var j :| 0 <= j < s.units[i].task.Sectors() && j !in s.units[i].landed;
      a := Land(i, j);
    }
  }

  lemma DispatcherStep(s: State) returns (a: Action)
    requires Inv(s) && !s.disp.Idle?
    ensures Enabled(s, a) && !a.Submit? && (a.WriteSector? || a.Signal? || a.Dispatch?)
  {
    var u := s.units[s.holder];
    assert UnitOk(u, s.holder, s.pieces, |s.disks|, |s.sh.parity|);
    ValidTaskInBounds(u.task, |s.sh.parity|);
    hide UnitOk, PieceOk, Mixed, Before;
    match s.disp
    case Writing(sector, content, written) =>
      if j :| 0 <= j < |content| / 512 && j !in written {
        a := WriteSector(j);
      } else {
        a := Signal;
      }
    case _ => a := Dispatch;
  }

  lemma EngineFacts(s: State)
    requires Inv(s)
    ensures s.sh.sem + (if IsStaging(s.units, s.holder) then 1 else 0) + (|s.log| - s.claimed)
            + (if s.disp.Idle? then 0 else 1) + s.sh.irq == 1
    ensures s.claimed <= |s.log| && Counters(s.sh.bar, |s.log|, s.claimed) && s.sh.Sized()
    ensures forall i: nat :: IsStaging(s.units, i) ==> i == s.holder && s.units[i].phase.step <= 5 && UnitReady(s, i)
  {}

  lemma StagingStep(s: State) returns (a: Action)
    requires IsStaging(s.units, s.holder) && s.units[s.holder].phase.step <= 5 && UnitReady(s, s.holder) && s.sh.Sized()
    ensures Enabled(s, a) && !a.Submit?
  {
    a := if s.units[s.holder].phase.step < 5 then Work(s.holder) else PostWork(s.holder);
  }

  lemma PostedStep(s: State)
    requires s.claimed < |s.log| <= s.claimed + 1 && Counters(s.sh.bar, |s.log|, s.claimed)
    requires HostDone(s) && s.disp.Idle? && !Wedged(s)
    ensures Enabled(s, ClaimWork)
  {
    CounterDifference(|s.log|, s.claimed);
  }

  lemma QueuedStep(s: State) returns (a: Action)
    requires HostDone(s) && s.disp.Idle? && s.sh.irq == 0 && s.claimed == |s.log| && s.sh.sem > 0 && !Quiescent(s)
    requires forall i: nat :: !IsStaging(s.units, i)
    ensures Enabled(s, a) && !a.Submit?
  {
    var i :| 0 <= i < |s.units| && !s.units[i].phase.Handed?;
    assert !IsStaging(s.units, i);
    a := Acquire(i);
  }

  lemma EngineStep(s: State) returns (a: Action)
    requires Inv(s) && HostDone(s) && s.disp.Idle? && !Quiescent(s) && !Wedged(s)
    ensures Enabled(s, a) && !a.Submit?
  {
    EngineFacts(s);
    hide Inv, Quiescent, Wedged, HostDone, Counters, UnitReady;
    if s.sh.irq > 0 {
      a := Interrupt;
    } else {
      hide Enabled;
      if IsStaging(s.units, s.holder) {
        a := StagingStep(s);
      } else if s.claimed < |s.log| {
        PostedStep(s);
        a := ClaimWork;
      } else {
        a := QueuedStep(s);
      }
    }
  }

  lemma QuietBlocks(s: State, a: Action)
    requires Inv(s) && Enabled(s, a) && HostDone(s)
    requires Quiescent(s) || Wedged(s)
    ensures a.Submit?
  {
    if s.claimed < |s.log| { CounterDifference(|s.log|, s.claimed); }
    NothingLeft(s);
    hide UnitOk, PieceOk, StagedUpTo, Working;
  }

  lemma NothingLeft(s: State)
    requires Inv(s) && HostDone(s) && (Quiescent(s) || Wedged(s))
    ensures forall p :: 0 <= p < |s.pieces| ==> s.pieces[p].queued == s.pieces[p].count
    ensures forall i :: 0 <= i < |s.units| ==> !s.units[i].phase.Staging?
    ensures s.sh.irq == 0 && s.disp.Idle? && (s.sh.sem > 0 ==> Quiescent(s))
  {
    forall p | 0 <= p < |s.pieces| ensures s.pieces[p].queued == s.pieces[p].count {
      assert PieceOk(s.pieces[p], p, s.units);
    }
    forall i | 0 <= i < |s.units| ensures !s.units[i].phase.Staging? { assert !IsStaging(s.units, i); }
  }

  /** Deadlock freedom: short of a new submission the protocol is stuck exactly when it is quiet or
      when its last posted task is the 2^32-th. */
  lemma {:induction false} BlockedExactly(s0: State, acts: seq<Action>)
    requires Init(s0) && Runs(s0, acts)
    ensures Blocked(Exec(s0, acts)) <==> Quiescent(Exec(s0, acts)) || Wedged(Exec(s0, acts))
  {
    RunInvariant(s0, acts);
    hide Inv, Ledgers, SerialInv, Quiescent, Wedged, HostDone, Runs;
    BlockedIn(Exec(s0, acts));
  }

  lemma BlockedIn(s: State)
    requires Inv(s)
    ensures Blocked(s) <==> Quiescent(s) || Wedged(s)
  {
    if Quiescent(s) || Wedged(s) {
      forall a | Enabled(s, a) ensures a.Submit? { QuietBlocks(s, a); }
    } else {
      hide Inv, Quiescent, Wedged;
      var a;
      if !HostDone(s) {
        a := HostStep(s);
      } else if !s.disp.Idle? {
        a := DispatcherStep(s);
      } else {
        a := EngineStep(s);
      }
      assert Enabled(s, a);
    }
  }

  // ----- the counters

  /** The dispatcher never claims a 2^32-th task. */
  lemma {:induction false} ClaimedBound(s0: State, acts: seq<Action>)
    requires Init(s0) && Runs(s0, acts)
    ensures Exec(s0, acts).claimed < U32_RANGE
    decreases |acts|
  {
    if acts != [] {
      var front, a := acts[..|acts| - 1], acts[|acts| - 1];
      RunInvariant(s0, front);
      ClaimedBound(s0, front);
      ClaimedStep(Exec(s0, front), a);
    }
  }

  lemma ClaimedStep(s: State, a: Action)
    requires Inv(s) && Enabled(s, a) && s.claimed < U32_RANGE
    ensures Do(s, a).claimed < U32_RANGE
  {
    if a.ClaimWork? { CounterDifference(|s.log|, s.claimed); }
    hide Inv, ReadDone;
  }

  lemma LogWithinUnits(s: State)
    requires Inv(s)
    ensures |s.log| <= |s.units|
    ensures Quiescent(s) ==> |s.log| == |s.units|
  {
    assert forall k :: 0 <= k < |s.log| ==> s.log[k] < |s.units|;
    assert forall i :: 0 <= i < |s.units| && s.units[i].phase.Handed? ==> i in s.log;
    DistinctIsSet(s.log);
    hide Inv;
    DistinctBelow(s.log, |s.units|);
  }

  lemma DistinctBelow(log: seq<nat>, n: nat)
    requires multiset(log) == multiset(Members(log))
    requires forall k :: 0 <= k < |log| ==> log[k] < n
    ensures |log| <= n
    ensures (forall i: nat :: i < n ==> i in log) ==> |log| == n
  {
    var posted := Members(log);
    assert |multiset(log)| == |log| && |multiset(posted)| == |posted|;
    UpToSize(n);
    Subset(posted, UpTo(n));
    if forall i: nat :: i < n ==> i in log {
      assert posted == UpTo(n);
    }
  }

  /** The numbers below n. */
  ghost function UpTo(n: nat): (r: set<nat>)
    ensures forall i: nat :: i in r <==> i < n
  {
    if n == 0 then {} else UpTo(n - 1) + {n - 1}
  }

  lemma {:induction false} UpToSize(n: nat)
    ensures |UpTo(n)| == n
  {
    if n > 0 { UpToSize(n - 1); }
  }

  lemma {:induction false} Subset(a: set<nat>, b: set<nat>)
    requires a <= b
    ensures |a| <= |b|
    decreases a
  {
    if a != {} {
      var x :| x in a;
      Subset(a - {x}, b - {x});
    }
  }

  /** The protocol drains exactly while fewer than 2^32 segments have ever been submitted: once it can
      take no further step it is quiet if and only if that bound holds. */
  lemma {:induction false} DrainsExactly(s0: State, acts: seq<Action>)
    requires Init(s0) && Runs(s0, acts) && Blocked(Exec(s0, acts))
    ensures Quiescent(Exec(s0, acts)) <==> |Exec(s0, acts).units| < U32_RANGE
  {
    RunInvariant(s0, acts);
    BlockedExactly(s0, acts);
    ClaimedBound(s0, acts);
    hide Inv, Ledgers, SerialInv, Exec, Runs, Init, Blocked;
    QuietWhenFew(Exec(s0, acts));
  }

  lemma QuietWhenFew(s: State)
    requires Inv(s) && s.claimed < U32_RANGE && (Quiescent(s) || Wedged(s))
    ensures Quiescent(s) <==> |s.units| < U32_RANGE
  {
    LogWithinUnits(s);
    assert s.claimed <= |s.log|;
    hide Inv;
  }

  // ----- termination

  /** How many of n sectors are still to be done. */
  ghost function Left(n: nat, done: set<nat>): nat {
    |UpTo(n) - done|
  }

  lemma LeftShrinks(n: nat, done: set<nat>, j: nat)
    requires j < n && j !in done
    ensures Left(n, done + {j}) < Left(n, done)
  {
    assert UpTo(n) - (done + {j}) == UpTo(n) - done - {j};
  }

  lemma LeftAtMost(n: nat)
    ensures Left(n, {}) == n
  {
    UpToSize(n);
    assert UpTo(n) - {} == UpTo(n);
  }

  ghost function PhaseRank(phase: Phase): nat {
    match phase
    case Waiting => 2007
    case Queued => 2006
    case Staging(step) => if step <= 5 then 2005 - step else 0
    case Handed => 0
  }

  ghost function UnitRank(u: Unit): nat {
    PhaseRank(u.phase) + Left(u.task.Sectors(), u.read) + Left(u.task.Sectors(), u.landed)
  }

  ghost function DispatcherRank(disp: Dispatcher): nat {
    match disp
    case Idle => 0
    case Claimed => 903
    case GotOffset(_) => 902
    case GotRegs(_, _) => 901
    case Mixing(_, size, words) => if words <= WordCount(size) then 20 + WordCount(size) - words else 0
    case Writing(_, content, written) => 2 + Left(|content| / 512, written)
  }

  ghost function UnitRanks(units: seq<Unit>): nat {
    if units == [] then 0 else UnitRanks(units[..|units| - 1]) + UnitRank(units[|units| - 1])
  }

  ghost function PieceRanks(pieces: seq<Piece>): nat {
    if pieces == [] then 0
    else PieceRanks(pieces[..|pieces| - 1]) + (if pieces[|pieces| - 1].released then 0 else 1)
  }

  ghost function Measure(s: State): int {
    UnitRanks(s.units) + PieceRanks(s.pieces) + 1000 * (|s.log| - s.claimed) + DispatcherRank(s.disp) + s.sh.irq
  }

  lemma {:induction false} UnitRanksUpdate(units: seq<Unit>, i: nat, u: Unit)
    requires i < |units|
    ensures UnitRanks(units[i := u]) == UnitRanks(units) - UnitRank(units[i]) + UnitRank(u)
  {
    var n := |units| - 1;
    hide UnitRank;
    if i == n {
      assert units[i := u][..n] == units[..n];
    } else {
      UnitRanksUpdate(units[..n], i, u);
      assert units[i := u][..n] == units[..n][i := u];
    }
  }

  lemma {:induction false} PieceRanksUpdate(pieces: seq<Piece>, p: nat, q: Piece)
    requires p < |pieces|
    ensures PieceRanks(pieces[p := q]) ==
            PieceRanks(pieces) - (if pieces[p].released then 0 else 1) + (if q.released then 0 else 1)
  {
    var n := |pieces| - 1;
    if p == n {
      assert pieces[p := q][..n] == pieces[..n];
    } else {
      PieceRanksUpdate(pieces[..n], p, q);
      assert pieces[p := q][..n] == pieces[..n][p := q];
    }
  }

  lemma ReadSectorDecreases(s: State, i: nat, j: nat)
    requires Enabled(s, ReadSector(i, j))
    ensures Measure(Do(s, ReadSector(i, j))) < Measure(s)
  {
    hide Left, DispatcherRank;
    var s' := Do(s, ReadSector(i, j));
    LeftShrinks(s.units[i].task.Sectors(), s.units[i].read, j);
    UnitRanksUpdate(s.units, i, s'.units[i]);
  }

  lemma LandDecreases(s: State, i: nat, j: nat)
    requires Enabled(s, Land(i, j))
    ensures Measure(Do(s, Land(i, j))) < Measure(s)
  {
    hide Left, DispatcherRank;
    var s' := Do(s, Land(i, j));
    LeftShrinks(s.units[i].task.Sectors(), s.units[i].landed, j);
    UnitRanksUpdate(s.units, i, s'.units[i]);
  }

  lemma EnqueueDecreases(s: State, p: nat)
    requires Inv(s) && Enabled(s, Enqueue(p))
    ensures Measure(Do(s, Enqueue(p))) < Measure(s)
  {
    EnqueueWaits(s, p);
    var s', i, q := Do(s, Enqueue(p)), s.pieces[p].first + s.pieces[p].queued, s.pieces[p];
    var u, q' := s.units[i].(phase := Queued), q.(queued := q.queued + 1);
    assert s' == s.(units := s.units[i := u], pieces := s.pieces[p := q']);
    hide Inv, Do, Enabled, UnitRank, DispatcherRank;
    QueueingRank(s.units[i]);
    UnitRanksUpdate(s.units, i, u);
    PieceRanksUpdate(s.pieces, p, q');
  }

  lemma QueueingRank(u: Unit)
    requires u.phase.Waiting?
    ensures UnitRank(u.(phase := Queued)) < UnitRank(u)
  {}

  lemma ReleaseDecreases(s: State, p: nat)
    requires Enabled(s, Release(p))
    ensures Measure(Do(s, Release(p))) < Measure(s)
  {
    hide DispatcherRank;
    PieceRanksUpdate(s.pieces, p, Do(s, Release(p)).pieces[p]);
  }

  lemma EnqueueWaits(s: State, p: nat)
    requires Inv(s) && Enabled(s, Enqueue(p))
    ensures s.units[s.pieces[p].first + s.pieces[p].queued].phase.Waiting?
  {}

  lemma WorkerDecreases(s: State, a: Action)
    requires Enabled(s, a) && (a.Acquire? || a.Work? || a.PostWork?)
    ensures Measure(Do(s, a)) < Measure(s)
  {
    hide Left, DispatcherRank;
    UnitRanksUpdate(s.units, a.unit, Do(s, a).units[a.unit]);
  }

  lemma WriteSectorDecreases(s: State, j: nat)
    requires Enabled(s, WriteSector(j))
    ensures Measure(Do(s, WriteSector(j))) < Measure(s)
  {
    hide Left, PhaseRank;
    var s', h := Do(s, WriteSector(j)), s.log[s.claimed - 1];
    LeftShrinks(|s.disp.content| / 512, s.disp.written, j);
    UnitRanksUpdate(s.units, h, s'.units[h]);
  }

  lemma DispatcherRankDrops(disp: Dispatcher, disp': Dispatcher)
    requires
      match disp
      case Claimed => disp'.GotOffset?
      case GotOffset(_) => disp'.GotRegs?
      case GotRegs(_, size) => size <= 4096 && disp'.Mixing? && disp'.size == size && disp'.words == 0
      case Mixing(_, size, words) =>
        && size <= 4096 && words <= WordCount(size)
        && if words < WordCount(size) then disp' == disp.(words := words + 1)
           else disp'.Writing? && |disp'.content| == size && disp'.written == {}
      case _ => false
    ensures DispatcherRank(disp') < DispatcherRank(disp)
  {
    if disp.Mixing? { LeftAtMost(disp.size / 512); }
  }

  lemma DispatchDecreases(s: State)
    requires Enabled(s, Dispatch)
    ensures Measure(Do(s, Dispatch)) < Measure(s)
  {
    hide UnitRanks, PieceRanks, DispatcherRank;
    DispatcherRankDrops(s.disp, Do(s, Dispatch).disp);
  }

  lemma SignalDecreases(s: State)
    requires Enabled(s, Signal)
    ensures Measure(Do(s, Signal)) < Measure(s)
  {}

  /** Every step but a submission strictly decreases the measure. */
  lemma StepDecreases(s: State, a: Action)
    requires Inv(s) && Enabled(s, a) && !a.Submit?
    ensures Measure(Do(s, a)) < Measure(s)
  {
    hide Inv, UnitRanks, PieceRanks, Left;
    match a
    case ReadSector(i, j) => ReadSectorDecreases(s, i, j);
    case Enqueue(p) => EnqueueDecreases(s, p);
    case Release(p) => ReleaseDecreases(s, p);
    case Land(i, j) => LandDecreases(s, i, j);
    case Dispatch => DispatchDecreases(s);
    case WriteSector(j) => WriteSectorDecreases(s, j);
    case Signal => SignalDecreases(s);
    case ClaimWork =>
    case Interrupt =>
    case _ => WorkerDecreases(s, a);
  }

  lemma MeasureIsNatural(s: State)
    requires Inv(s)
    ensures 0 <= Measure(s)
  {
    hide Structure, Staged, Logged, AppliedAll, Counters, UnitRanks, PieceRanks, DispatcherRank;
  }

  ghost predicate NoSubmits(acts: seq<Action>) {
    forall k :: 0 <= k < |acts| ==> !acts[k].Submit?
  }

  /** Termination: after any run, the steps that can follow without a new submission number at most
      the measure reached, so every schedule drains. */
  lemma {:induction false} DrainLength(s0: State, acts: seq<Action>, more: seq<Action>)
    requires Init(s0) && Runs(s0, acts) && Runs(s0, acts + more) && NoSubmits(more)
    ensures 0 <= Measure(Exec(s0, acts + more)) && |more| + Measure(Exec(s0, acts + more)) <= Measure(Exec(s0, acts))
    decreases |more|
  {
    hide Inv, Ledgers, SerialInv, UnitRanks, PieceRanks, DispatcherRank, Do, Enabled;
    if more == [] {
      assert acts + more == acts;
      RunInvariant(s0, acts);
      MeasureIsNatural(Exec(s0, acts));
    } else {
      var n := |more| - 1;
      assert (acts + more)[..|acts + more| - 1] == acts + more[..n];
      assert (acts + more)[|acts + more| - 1] == more[n];
      DrainLength(s0, acts, more[..n]);
      RunInvariant(s0, acts + more[..n]);
      StepDecreases(Exec(s0, acts + more[..n]), more[n]);
      RunInvariant(s0, acts + more);
      MeasureIsNatural(Exec(s0, acts + more));
    }
  }
}
