/** What holds in every reachable state of the protocol, for every interleaving of its actors. */
module Theorems {
  import opened Bytes
  import opened Parity
  import opened Engine
  import opened Machine
  import opened Invariant
  import opened Ledger
  import opened Capture
  import opened Serial

  /** The run from an initial state in which every submission stays clear of pending data. */
  ghost predicate Careful(s: State, acts: seq<Action>)
    requires Runs(s, acts)
    decreases |acts|
  {
    acts == [] || (Careful(s, acts[..|acts| - 1]) && Apart(Exec(s, acts[..|acts| - 1]), acts[|acts| - 1]))
  }

  /** Every reachable state satisfies the protocol invariant, both ledgers and the serial view. */
  lemma {:induction false} RunInvariant(s0: State, acts: seq<Action>)
    requires Init(s0) && Runs(s0, acts)
    ensures Inv(Exec(s0, acts)) && Ledgers(s0.sh.parity, Exec(s0, acts)) && SerialInv(s0.sh.parity, Exec(s0, acts))
    decreases |acts|
  {
    if acts == [] {
      InitInv(s0);
      InitLedgers(s0);
    } else {
      var front, a := acts[..|acts| - 1], acts[|acts| - 1];
      RunInvariant(s0, front);
      StepKeeps(Exec(s0, front), a);
      StepLedgers(s0.sh.parity, Exec(s0, front), a);
      StepSerial(s0.sh.parity, Exec(s0, front), a);
    }
  }

  lemma InitLedgers(s: State)
    requires Init(s)
    ensures Ledgers(s.sh.parity, s) && SerialInv(s.sh.parity, s)
  {
    forall b: nat | b < |s.sh.parity|
      ensures XorSum(AppliedDeltas(s.units, b)) == 0 && XorSum(LandedDeltas(s.units, b)) == 0
      ensures ByteXor(s.sh.parity[b], 0) == s.sh.parity[b]
    {
      XorZero(s.sh.parity[b]);
    }
  }

  lemma {:induction false} CarefulInvariant(s0: State, acts: seq<Action>)
    requires Init(s0) && Runs(s0, acts) && Careful(s0, acts)
    ensures Inv(Exec(s0, acts)) && CaptureInv(Exec(s0, acts))
    decreases |acts|
  {
    if acts == [] {
      InitInv(s0);
    } else {
      var front, a := acts[..|acts| - 1], acts[|acts| - 1];
      CarefulInvariant(s0, front);
      StepCaptures(Exec(s0, front), a);
    }
  }

  // ----- the token

  ghost function StagingUnits(units: seq<Unit>): set<nat> {
    set i | 0 <= i < |units| && units[i].phase.Staging?
  }

  /** One token in all: the semaphore is free, or one worker stages, or one task is posted, or the
      dispatcher computes, or one interrupt is pending; and the counters tell the third case. */
  lemma {:induction false} TokenConservation(s0: State, acts: seq<Action>)
    requires Init(s0) && Runs(s0, acts)
    ensures var s := Exec(s0, acts);
      && s.sh.sem + |StagingUnits(s.units)| + (|s.log| - s.claimed) + (if s.disp.Idle? then 0 else 1) + s.sh.irq == 1
      && Sub32(s.sh.bar.ioNum, s.sh.bar.ioDone) == |s.log| - s.claimed
      && (|s.log| < U32_RANGE ==> s.sh.bar.ioNum == s.sh.bar.ioDone + (|s.log| - s.claimed))
      && (|s.log| < U32_RANGE ==> (HasWork(s.sh.bar) <==> s.claimed < |s.log|))
  {
    RunInvariant(s0, acts);
    hide Inv, Ledgers, SerialInv, Runs, Init, Exec, HasWork, StagingUnits, Sub32, Counters;
    TokenFacts(Exec(s0, acts));
  }

  lemma TokenFacts(s: State)
    requires Inv(s)
    ensures s.sh.sem + |StagingUnits(s.units)| + (|s.log| - s.claimed) + (if s.disp.Idle? then 0 else 1) + s.sh.irq == 1
    ensures s.claimed <= |s.log| <= s.claimed + 1 && Counters(s.sh.bar, |s.log|, s.claimed)
    ensures Sub32(s.sh.bar.ioNum, s.sh.bar.ioDone) == |s.log| - s.claimed
    ensures |s.log| < U32_RANGE ==> s.sh.bar.ioNum == s.sh.bar.ioDone + (|s.log| - s.claimed)
    ensures |s.log| < U32_RANGE ==> (HasWork(s.sh.bar) <==> s.claimed < |s.log|)
  {
    hide Structure, Staged, Logged, AppliedAll;
    CounterDifference(|s.log|, s.claimed);
    if IsStaging(s.units, s.holder) {
      assert StagingUnits(s.units) == {s.holder} by {
        forall i | i in StagingUnits(s.units) ensures i == s.holder { assert IsStaging(s.units, i); }
      }
    } else {
      assert StagingUnits(s.units) == {} by {
        forall i: nat | i < |s.units| ensures i !in StagingUnits(s.units) { assert !IsStaging(s.units, i); }
      }
    }
  }

  lemma CounterDifference(posted: nat, claimed: nat)
    requires claimed <= posted <= claimed + 1
    ensures Sub32(posted % U32_RANGE, claimed % U32_RANGE) == posted - claimed
    ensures posted < U32_RANGE ==> posted % U32_RANGE == posted && claimed % U32_RANGE == claimed
  {
    var q, r := claimed / 0x1_0000_0000, claimed % 0x1_0000_0000;
    if posted == claimed + 1 {
      if r + 1 < 0x1_0000_0000 {
        assert posted == 0x1_0000_0000 * q + (r + 1);
      } else {
        assert posted == 0x1_0000_0000 * (q + 1);
      }
    }
  }

  /** From the post to the interrupt no step of any actor disturbs what is staged: the chunks O and N
      and the three registers stand still, and only the dispatcher touches V and the parity disk. */
  lemma {:induction false} FrozenStaging(s0: State, acts: seq<Action>, a: Action)
    requires Init(s0) && Runs(s0, acts) && Enabled(Exec(s0, acts), a) && Loaded(Exec(s0, acts))
    ensures var s := Exec(s0, acts);
      var s' := Do(s, a);
      && s'.sh.o == s.sh.o && s'.sh.n == s.sh.n
      && s'.sh.bar.offset == s.sh.bar.offset && s'.sh.bar.size == s.sh.bar.size
      && s'.sh.bar.sectorSta == s.sh.bar.sectorSta
      && (!a.Dispatch? ==> s'.sh.v == s.sh.v)
      && (!a.WriteSector? ==> s'.sh.parity == s.sh.parity)
      && !a.Acquire? && !a.Work? && !a.PostWork? && !a.Interrupt?
  {
    RunInvariant(s0, acts);
    var s := Exec(s0, acts);
    LoadedExcludes(s, a);
    hide Inv, Do, Enabled;
    FrameOf(s, a);
  }

  lemma FrameOf(s: State, a: Action)
    requires Enabled(s, a) && !a.Acquire? && !a.Work? && !a.PostWork? && !a.Interrupt?
    ensures var s' := Do(s, a);
      && s'.sh.o == s.sh.o && s'.sh.n == s.sh.n
      && s'.sh.bar.offset == s.sh.bar.offset && s'.sh.bar.size == s.sh.bar.size
      && s'.sh.bar.sectorSta == s.sh.bar.sectorSta
      && (!a.Dispatch? ==> s'.sh.v == s.sh.v)
      && (!a.WriteSector? ==> s'.sh.parity == s.sh.parity)
  {
    hide ReadDone;
  }

  lemma LoadedExcludes(s: State, a: Action)
    requires Inv(s) && Loaded(s) && Enabled(s, a)
    ensures !a.Acquire? && !a.Work? && !a.PostWork? && !a.Interrupt?
  {
    assert !IsStaging(s.units, s.holder);
    if a.Work? || a.PostWork? { assert IsStaging(s.units, a.unit); }
  }

  /** The read-modify-write is atomic: what the dispatcher has fetched but not yet mixed is still what
      the parity disk holds. */
  lemma {:induction false} FetchedParityStands(s0: State, acts: seq<Action>, p: nat)
    requires Init(s0) && Runs(s0, acts) && Exec(s0, acts).disp.Mixing?
    requires var disp := Exec(s0, acts).disp; disp.offset + AtWord(disp.words) <= p < disp.offset + disp.size
    ensures var s := Exec(s0, acts);
      && s.sh.Sized() && p < 4096 && AtSector(s.sh.bar.sectorSta) + (p - s.disp.offset) < |s.sh.parity|
      && s.sh.v[p] == s.sh.parity[AtSector(s.sh.bar.sectorSta) + (p - s.disp.offset)]
  {
    RunInvariant(s0, acts);
    hide Inv, Ledgers, SerialInv, Runs, Exec;
    FetchedStands(Exec(s0, acts));
  }

  lemma FetchedStands(s: State)
    requires Inv(s) && Loaded(s)
    ensures s.sh.Sized() && (s.disp.Mixing? ==>
        forall p :: s.disp.offset + AtWord(s.disp.words) <= p < s.disp.offset + s.disp.size ==>
          0 <= p < 4096 && 0 <= AtSector(s.sh.bar.sectorSta) + (p - s.disp.offset) < |s.sh.parity|
          && s.sh.v[p] == s.sh.parity[AtSector(s.sh.bar.sectorSta) + (p - s.disp.offset)])
  {}

  // ----- exactly once, and serially

  /** How often the dispatcher has written sector j of unit i's task to the parity disk. */
  ghost function Writes(s0: State, acts: seq<Action>, i: nat, j: nat): nat
    requires Runs(s0, acts)
    decreases |acts|
  {
    if acts == [] then 0
    else
      var front, a := acts[..|acts| - 1], acts[|acts| - 1];
      var s := Exec(s0, front);
      Writes(s0, front, i, j) + if a == WriteSector(j) && s.log[s.claimed - 1] == i then 1 else 0
  }

  /** Only the dispatcher's writes are marked as applied. */
  lemma AppliedStep(s: State, a: Action)
    requires Enabled(s, a) && !a.WriteSector?
    ensures |s.units| <= |Do(s, a).units|
    ensures forall i :: 0 <= i < |Do(s, a).units| ==>
      Do(s, a).units[i].applied == if i < |s.units| then s.units[i].applied else {}
  {
    hide HasWork, InBounds;
  }

  function Marked(units: seq<Unit>, i: nat, j: nat): nat {
    if i < |units| && j in units[i].applied then 1 else 0
  }

  lemma MarkStep(s: State, a: Action, i: nat, j: nat)
    requires Inv(s) && Enabled(s, a)
    ensures Marked(Do(s, a).units, i, j)
            == Marked(s.units, i, j) + if a == WriteSector(j) && s.log[s.claimed - 1] == i then 1 else 0
  {
    if a.WriteSector? {
      WriteSectorUnit(s, a.j);
      LoadedUnit(s);
      hide Inv, Do;
    } else {
      AppliedStep(s, a);
      hide Inv, Do, Enabled;
    }
  }

  /** The marks tell how often each sector has been written: never or once. */
  lemma {:induction false} WrittenOnce(s0: State, acts: seq<Action>, i: nat, j: nat)
    requires Init(s0) && Runs(s0, acts)
    ensures Writes(s0, acts, i, j) == Marked(Exec(s0, acts).units, i, j)
    decreases |acts|
  {
    hide Inv, Ledgers, SerialInv, Do, Enabled, Marked;
    if acts == [] {
      Unmarked(s0, i, j);
    } else {
      var front := acts[..|acts| - 1];
      RunInvariant(s0, front);
      WrittenOnce(s0, front, i, j);
      MarkStep(Exec(s0, front), acts[|acts| - 1], i, j);
    }
  }

  lemma Unmarked(s: State, i: nat, j: nat)
    requires Init(s)
    ensures Marked(s.units, i, j) == 0
  {}

  /** Every unit is posted at most once, exactly the handed-over units are posted, every sector of a
      posted task but the loaded one has been written to the parity disk exactly once, no sector ever
      twice, and no sector of a unit that is not posted. */
  lemma {:induction false} ExactlyOnce(s0: State, acts: seq<Action>)
    requires Init(s0) && Runs(s0, acts)
    ensures var s := Exec(s0, acts);
      && multiset(s.log) == multiset(set i | 0 <= i < |s.units| && s.units[i].phase.Handed?)
      && (forall k :: 0 <= k < Finished(s) ==>
            s.log[k] < |s.units| && Full(s.units[s.log[k]].applied, s.units[s.log[k]].task.Sectors()))
      && (forall k, j: nat :: 0 <= k < Finished(s) && j < s.units[s.log[k]].task.Sectors() ==>
            Writes(s0, acts, s.log[k], j) == 1)
      && (forall i :: 0 <= i < |s.units| && i !in s.log ==> s.units[i].applied == {})
      && (forall i: nat, j: nat :: Writes(s0, acts, i, j) <= 1)
      && (forall i: nat, j: nat :: i !in s.log ==> Writes(s0, acts, i, j) == 0)
  {
    hide Init, Runs, Exec, Writes;
    RunInvariant(s0, acts);
    var s := Exec(s0, acts);
    PostedOnce(s);
    hide Inv;
    forall i: nat, j: nat ensures Writes(s0, acts, i, j) == Marked(s.units, i, j) {
      WrittenOnce(s0, acts, i, j);
    }
  }

  lemma PostedOnce(s: State)
    requires Inv(s)
    ensures multiset(s.log) == multiset(set i | 0 <= i < |s.units| && s.units[i].phase.Handed?)
    ensures forall k :: 0 <= k < Finished(s) ==>
      s.log[k] < |s.units| && Full(s.units[s.log[k]].applied, s.units[s.log[k]].task.Sectors())
    ensures forall i: nat :: i < |s.units| && i !in s.log ==> s.units[i].applied == {}
  {
    forall i | 0 <= i < |s.units| ensures UnitOk(s.units[i], i, s.pieces, |s.disks|, |s.sh.parity|) {}
    var handed := set i | 0 <= i < |s.units| && s.units[i].phase.Handed?;
    DistinctIsSet(s.log);
    assert Members(s.log) == handed;
  }

  ghost function Members(log: seq<nat>): set<nat> { set i | i in log }

  lemma {:induction false} DistinctIsSet(log: seq<nat>)
    requires forall k, l :: 0 <= k < l < |log| ==> log[k] != log[l]
    ensures multiset(log) == multiset(Members(log))
  {
    if log != [] {
      var n := |log| - 1;
      DistinctIsSet(log[..n]);
      assert log == log[..n] + [log[n]];
      assert Members(log) == Members(log[..n]) + {log[n]};
    }
  }

  /** The interleaved protocol refines serial, atomic application: whenever nothing is loaded the
      parity disk is the starting disk with the posted tasks applied in posting order. */
  lemma {:induction false} SerialEquivalence(s0: State, acts: seq<Action>)
    requires Init(s0) && Runs(s0, acts)
    ensures var s := Exec(s0, acts);
      LogFits(s.log, s.units) && (!Loaded(s) ==> s.sh.parity == ApplyAll(s0.sh.parity, LogTasks(s.log, s.units)))
  {
    RunInvariant(s0, acts);
    var s := Exec(s0, acts);
    assert LogTasks(s.log, s.units)[..|s.log|] == LogTasks(s.log, s.units);
  }

  // ----- the discrepancy

  /** What unit u contributes to the discrepancy at byte b. */
  function Outstanding(u: Unit, b: nat): Byte
    requires u.task.Valid() && |u.prev| == 4096
  {
    ByteXor(AppliedDelta(u, b), LandedDelta(u, b))
  }

  ghost function OutstandingDeltas(units: seq<Unit>, b: nat): seq<Byte>
    requires UnitsFit(units)
  {
    seq(|units|, i requires 0 <= i < |units| => Outstanding(units[i], b))
  }

  /** In every reachable state, overlapping writes or not, parity and data differ at each byte by
      exactly the xor of the units' outstanding contributions. */
  lemma {:induction false} Discrepancy(s0: State, acts: seq<Action>, b: nat)
    requires Init(s0) && Runs(s0, acts) && b < |Exec(s0, acts).sh.parity|
    ensures var s := Exec(s0, acts);
      UnitsFit(s.units) && Uniform(s.disks, |s.sh.parity|)
      && ByteXor(s.sh.parity[b], Stripe(s.disks, b)) == XorSum(OutstandingDeltas(s.units, b))
  {
    RunInvariant(s0, acts);
    DiscrepancyAt(s0.sh.parity, Exec(s0, acts), b);
  }

  lemma DiscrepancyAt(parity0: seq<Byte>, s: State, b: nat)
    requires Ledgers(parity0, s) && b < |s.sh.parity|
    ensures ByteXor(s.sh.parity[b], Stripe(s.disks, b)) == XorSum(OutstandingDeltas(s.units, b))
  {
    var x, y := XorSum(AppliedDeltas(s.units, b)), XorSum(LandedDeltas(s.units, b));
    XorSumPairwise(AppliedDeltas(s.units, b), LandedDeltas(s.units, b), OutstandingDeltas(s.units, b));
    XorShuffle(parity0[b], x, parity0[b], y);
    XorSelf(parity0[b]);
    XorCommutes(0, ByteXor(x, y));
    XorZero(ByteXor(x, y));
  }

  /** In careful runs a unit is outstanding by (old xor new), exactly while one but not both of "data
      landed" and "parity applied" has happened to the byte's sector. */
  lemma {:induction false} CarefulDiscrepancy(s0: State, acts: seq<Action>, i: nat, b: nat)
    requires Init(s0) && Runs(s0, acts) && Careful(s0, acts) && i < |Exec(s0, acts).units|
    ensures var u := Exec(s0, acts).units[i];
      && u.task.Valid() && |u.prev| == 4096
      && Outstanding(u, b) == if Reached(u, u.applied, b) != Reached(u, u.landed, b)
                              then ByteXor(u.task.OldAt(b), u.task.NewAt(b)) else 0
  {
    CarefulInvariant(s0, acts);
    var s := Exec(s0, acts);
    InvFits(s);
    var u := s.units[i];
    assert Captured(u);
    var d := if u.task.Covers(b) then ByteXor(u.task.OldAt(b), u.task.NewAt(b)) else 0;
    XorSelf(d);
    XorSelf(0);
    XorZero(d);
    XorCommutes(0, d);
  }

  /** What unit u leaves open at byte b: (old xor new) while it is half done there. */
  function HalfDone(u: Unit, b: nat): Byte
    requires u.task.Valid()
  {
    if Reached(u, u.applied, b) != Reached(u, u.landed, b) then ByteXor(u.task.OldAt(b), u.task.NewAt(b)) else 0
  }

  ghost function HalfDones(units: seq<Unit>, b: nat): seq<Byte>
    requires UnitsFit(units)
  {
    seq(|units|, i requires 0 <= i < |units| => HalfDone(units[i], b))
  }

  /** The exact discrepancy of careful runs: at each byte, parity xor data is the xor of (old xor new)
      over the units of which just one of data and parity has arrived there. */
  lemma {:induction false} ExactDiscrepancy(s0: State, acts: seq<Action>, b: nat)
    requires Init(s0) && Runs(s0, acts) && Careful(s0, acts) && b < |Exec(s0, acts).sh.parity|
    ensures var s := Exec(s0, acts);
      UnitsFit(s.units) && Uniform(s.disks, |s.sh.parity|)
      && ByteXor(s.sh.parity[b], Stripe(s.disks, b)) == XorSum(HalfDones(s.units, b))
  {
    Discrepancy(s0, acts, b);
    var s := Exec(s0, acts);
    hide Init, Runs, Exec, Careful, Stripe, Outstanding, ByteXor, XorSum;
    forall i | 0 <= i < |s.units| ensures Outstanding(s.units[i], b) == HalfDone(s.units[i], b) {
      CarefulDiscrepancy(s0, acts, i, b);
    }
    assert OutstandingDeltas(s.units, b) == HalfDones(s.units, b);
  }

  /** Old-data capture: just before a sector's new data lands, the disk holds what the task calls old. */
  lemma {:induction false} OldDataCapture(s0: State, acts: seq<Action>, i: nat, j: nat, b: nat)
    requires Init(s0) && Runs(s0, acts) && Careful(s0, acts) && Enabled(Exec(s0, acts), Land(i, j))
    requires Exec(s0, acts).units[i].task.Covers(b) && Exec(s0, acts).units[i].task.SectorOf(b) == j
    ensures var s := Exec(s0, acts);
      s.units[i].task.OldAt(b) == s.disks[s.units[i].disk][b]
  {
    CarefulInvariant(s0, acts);
    var s := Exec(s0, acts);
    InvFits(s);
    ReleasedMeansRead(s, i);
    assert ReadFresh(s.units[i], s.disks[s.units[i].disk]);
    assert Reached(s.units[i], s.units[i].read, b) && Pending(s.units[i], b);
  }

  /** No data lands before every task of its piece is at least queued. */
  lemma {:induction false} QueuedBeforeLanded(s0: State, acts: seq<Action>, i: nat, k: nat)
    requires Init(s0) && Runs(s0, acts)
    requires i < |Exec(s0, acts).units| && k < |Exec(s0, acts).units|
    requires Exec(s0, acts).units[i].landed != {} && Exec(s0, acts).units[k].piece == Exec(s0, acts).units[i].piece
    ensures !Exec(s0, acts).units[k].phase.Waiting?
  {
    RunInvariant(s0, acts);
    var s := Exec(s0, acts);
    assert UnitOk(s.units[i], i, s.pieces, |s.disks|, |s.sh.parity|);
    assert UnitOk(s.units[k], k, s.pieces, |s.disks|, |s.sh.parity|);
    assert PieceOk(s.pieces[s.units[i].piece], s.units[i].piece, s.units);
  }

  // ----- quiescence

  /** Nothing in flight: all pieces released and landed, all tasks handed over and claimed, dispatcher
      idle, no interrupt pending. */
  ghost predicate Quiescent(s: State) {
    && (forall i :: 0 <= i < |s.units| ==>
          s.units[i].phase.Handed? && Full(s.units[i].landed, s.units[i].task.Sectors()))
    && (forall p :: 0 <= p < |s.pieces| ==> s.pieces[p].released)
    && s.disp.Idle? && s.claimed == |s.log| && s.sh.irq == 0
  }

  lemma QuiescentUnits(s: State, i: nat, b: nat)
    requires Inv(s) && Quiescent(s) && i < |s.units| && s.units[i].task.Covers(b)
    ensures Reached(s.units[i], s.units[i].applied, b) && Reached(s.units[i], s.units[i].landed, b)
  {}

  /** Quiescent consistency: with careful submissions, whenever the system is quiet the parity disk is
      the xor of the data disks everywhere. */
  lemma {:induction false} QuiescentConsistency(s0: State, acts: seq<Action>)
    requires Init(s0) && Runs(s0, acts) && Careful(s0, acts) && Quiescent(Exec(s0, acts))
    ensures Consistent(Exec(s0, acts).disks, Exec(s0, acts).sh.parity)
  {
    hide Init, Runs, Exec, Careful, Ledgers, SerialInv, Stripe, Quiescent;
    var s := Exec(s0, acts);
    RunInvariant(s0, acts);
    InvFits(s);
    assert Uniform(s.disks, |s.sh.parity|);
    hide Inv;
    forall b: nat | b < |s.sh.parity| ensures s.sh.parity[b] == Stripe(s.disks, b) {
      ExactDiscrepancy(s0, acts, b);
      NothingHalfDone(s, b);
      XorIsZero(s.sh.parity[b], Stripe(s.disks, b));
    }
  }

  lemma NothingHalfDone(s: State, b: nat)
    requires Inv(s) && Quiescent(s) && UnitsFit(s.units)
    ensures XorSum(HalfDones(s.units, b)) == 0
  {
    forall i | 0 <= i < |s.units| ensures HalfDone(s.units[i], b) == 0 {
      if s.units[i].task.Covers(b) { QuiescentUnits(s, i, b); }
    }
    hide Inv, Quiescent, HalfDone, XorSum;
    XorSumZero(HalfDones(s.units, b));
  }

  /** Recoverability: a quiet system can rebuild any one lost data disk. */
  lemma {:induction false} QuiescentRecovery(s0: State, acts: seq<Action>, d: nat, b: nat)
    requires Init(s0) && Runs(s0, acts) && Careful(s0, acts) && Quiescent(Exec(s0, acts))
    requires d < |Exec(s0, acts).disks| && b < |Exec(s0, acts).sh.parity|
    ensures var s := Exec(s0, acts);
      && Uniform(s.disks, |s.sh.parity|)
      && s.disks[d][b] == ByteXor(s.sh.parity[b], Stripe(s.disks[..d] + s.disks[d + 1..], b))
  {
    QuiescentConsistency(s0, acts);
    Recover(Exec(s0, acts).disks, Exec(s0, acts).sh.parity, d, b);
  }

  /** By how much unit u's old page misses what its data really replaced at byte b. */
  function Miss(u: Unit, b: nat): Byte
    requires u.task.Valid() && |u.prev| == 4096
  {
    if u.task.Covers(b) then ByteXor(u.task.OldAt(b), u.prev[u.task.InPage(b)]) else 0
  }

  ghost function Misses(units: seq<Unit>, b: nat): seq<Byte>
    requires UnitsFit(units)
  {
    seq(|units|, i requires 0 <= i < |units| => Miss(units[i], b))
  }

  /** With submissions of any kind, a quiet system is consistent at byte b exactly when the stale
      snapshots taken there cancel out. */
  lemma {:induction false} QuiescentExactly(s0: State, acts: seq<Action>, b: nat)
    requires Init(s0) && Runs(s0, acts) && Quiescent(Exec(s0, acts)) && b < |Exec(s0, acts).sh.parity|
    ensures var s := Exec(s0, acts);
      && UnitsFit(s.units) && Uniform(s.disks, |s.sh.parity|)
      && (s.sh.parity[b] == Stripe(s.disks, b) <==> XorSum(Misses(s.units, b)) == 0)
  {
    RunInvariant(s0, acts);
    hide Inv, Ledgers, SerialInv, Quiescent, Exec, Runs;
    ConsistentExactly(s0.sh.parity, Exec(s0, acts), b);
  }

  lemma ConsistentExactly(parity0: seq<Byte>, s: State, b: nat)
    requires Inv(s) && Ledgers(parity0, s) && Quiescent(s) && b < |s.sh.parity|
    ensures UnitsFit(s.units) && Uniform(s.disks, |s.sh.parity|)
    ensures s.sh.parity[b] == Stripe(s.disks, b) <==> XorSum(Misses(s.units, b)) == 0
  {
    InvFits(s);
    DiscrepancyAt(parity0, s, b);
    forall i | 0 <= i < |s.units| ensures Outstanding(s.units[i], b) == Miss(s.units[i], b) {
      OutstandingIsMiss(s, i, b);
    }
    hide Inv, Ledgers, Quiescent, Outstanding, Miss, Stripe;
    assert OutstandingDeltas(s.units, b) == Misses(s.units, b);
    XorIsZero(s.sh.parity[b], Stripe(s.disks, b));
  }

  lemma OutstandingIsMiss(s: State, i: nat, b: nat)
    requires Inv(s) && Quiescent(s) && i < |s.units|
    ensures UnitsFit(s.units) && Outstanding(s.units[i], b) == Miss(s.units[i], b)
  {
    InvFits(s);
    var u := s.units[i];
    if u.task.Covers(b) {
      QuiescentUnits(s, i, b);
      XorShuffle(u.task.OldAt(b), u.task.NewAt(b), u.prev[u.task.InPage(b)], u.task.NewAt(b));
      XorSelf(u.task.NewAt(b));
      XorZero(Miss(u, b));
    } else {
      XorSelf(0);
    }
  }
}
