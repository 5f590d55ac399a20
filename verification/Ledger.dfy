/** Where parity and data stand relative to each other in every reachable state: an exact
    discrepancy, sector by sector, that empties as the protocol drains. */
module Ledger {
  import opened Bytes
  import opened Parity
  import opened Engine
  import opened Machine
  import opened Invariant

  /** Disk byte b of unit u lies in one of the given sectors of its task. */
  predicate Reached(u: Unit, sectors: set<nat>, b: nat) {
    u.task.Covers(b) && u.task.SectorOf(b) in sectors
  }

  /** What u's applied sectors have added to parity byte b. */
  function AppliedDelta(u: Unit, b: nat): Byte
    requires u.task.Valid()
  {
    if Reached(u, u.applied, b) then ByteXor(u.task.OldAt(b), u.task.NewAt(b)) else 0
  }

  /** What u's landed sectors have changed in data byte b. */
  function LandedDelta(u: Unit, b: nat): Byte
    requires u.task.Valid() && |u.prev| == 4096
  {
    if Reached(u, u.landed, b) then ByteXor(u.prev[u.task.InPage(b)], u.task.NewAt(b)) else 0
  }

  ghost predicate UnitsFit(units: seq<Unit>) {
    forall i :: 0 <= i < |units| ==> units[i].task.Valid() && |units[i].prev| == 4096
  }

  ghost function AppliedDeltas(units: seq<Unit>, b: nat): (r: seq<Byte>)
    requires UnitsFit(units)
    ensures |r| == |units|
  {
    seq(|units|, i requires 0 <= i < |units| => AppliedDelta(units[i], b))
  }

  ghost function LandedDeltas(units: seq<Unit>, b: nat): (r: seq<Byte>)
    requires UnitsFit(units)
    ensures |r| == |units|
  {
    seq(|units|, i requires 0 <= i < |units| => LandedDelta(units[i], b))
  }

  /** Parity byte b is its starting value xor every applied delta, each exactly once. */
  ghost predicate ParityLedger(parity0: seq<Byte>, parity: seq<Byte>, units: seq<Unit>) {
    && UnitsFit(units) && |parity| == |parity0|
    && forall b :: 0 <= b < |parity| ==> parity[b] == ByteXor(parity0[b], XorSum(AppliedDeltas(units, b)))
  }

  /** The stripe over the data disks is its starting value xor every landed delta. */
  ghost predicate DataLedger(parity0: seq<Byte>, disks: seq<seq<Byte>>, units: seq<Unit>) {
    && UnitsFit(units) && Uniform(disks, |parity0|)
    && forall b :: 0 <= b < |parity0| ==> Stripe(disks, b) == ByteXor(parity0[b], XorSum(LandedDeltas(units, b)))
  }

  // ----- folds under change

  lemma AppliedChange(units: seq<Unit>, i: nat, u: Unit, b: nat)
    requires UnitsFit(units) && i < |units| && u.task.Valid() && |u.prev| == 4096
    ensures XorSum(AppliedDeltas(units[i := u], b))
         == ByteXor(XorSum(AppliedDeltas(units, b)), ByteXor(AppliedDelta(units[i], b), AppliedDelta(u, b)))
  {
    XorSumUpdate(AppliedDeltas(units, b), i, AppliedDelta(u, b));
    assert AppliedDeltas(units[i := u], b) == AppliedDeltas(units, b)[i := AppliedDelta(u, b)];
  }

  lemma LandedChange(units: seq<Unit>, i: nat, u: Unit, b: nat)
    requires UnitsFit(units) && i < |units| && u.task.Valid() && |u.prev| == 4096
    ensures XorSum(LandedDeltas(units[i := u], b))
         == ByteXor(XorSum(LandedDeltas(units, b)), ByteXor(LandedDelta(units[i], b), LandedDelta(u, b)))
  {
    XorSumUpdate(LandedDeltas(units, b), i, LandedDelta(u, b));
    assert LandedDeltas(units[i := u], b) == LandedDeltas(units, b)[i := LandedDelta(u, b)];
  }

  /** Units that have done nothing yet add nothing. */
  lemma NewUnitsAddNothing(units: seq<Unit>, news: seq<Unit>, b: nat)
    requires UnitsFit(units) && UnitsFit(news) && UnitsFit(units + news)
    requires forall k :: 0 <= k < |news| ==> news[k].applied == {} && news[k].landed == {}
    ensures XorSum(AppliedDeltas(units + news, b)) == XorSum(AppliedDeltas(units, b))
    ensures XorSum(LandedDeltas(units + news, b)) == XorSum(LandedDeltas(units, b))
  {
    hide XorSum, Xor;
    XorSumAppend(AppliedDeltas(units, b), AppliedDeltas(news, b));
    XorSumAppend(LandedDeltas(units, b), LandedDeltas(news, b));
    assert AppliedDeltas(units + news, b) == AppliedDeltas(units, b) + AppliedDeltas(news, b);
    assert LandedDeltas(units + news, b) == LandedDeltas(units, b) + LandedDeltas(news, b);
    XorSumZero(AppliedDeltas(news, b));
    XorSumZero(LandedDeltas(news, b));
    XorZero(XorSum(AppliedDeltas(units, b)));
    XorZero(XorSum(LandedDeltas(units, b)));
  }

  // ----- the two steps that move the ledgers

  /** Writing one parity sector is one atomic exclusive-or of that sector with the task's pages. */
  lemma WriteSectorXors(s: State, j: nat, b: nat)
    requires Inv(s) && Enabled(s, WriteSector(j)) && b < |s.sh.parity|
    ensures s.claimed > 0 && s.log[s.claimed - 1] == s.holder < |s.units| && s.units[s.holder].task.Valid()
    ensures s.units[s.holder].phase.Handed? && j !in s.units[s.holder].applied
    ensures var t := s.units[s.holder].task;
      Do(s, WriteSector(j)).sh.parity[b] ==
      if t.Covers(b) && t.SectorOf(b) == j then ByteXor(s.sh.parity[b], ByteXor(t.OldAt(b), t.NewAt(b)))
      else s.sh.parity[b]
  {
    hide Full, PieceOk, StagedUpTo, Mixed, Working, Counters, AppliedAll;
    var u := s.units[s.holder];
    assert UnitOk(u, s.holder, s.pieces, |s.disks|, |s.sh.parity|);
    MixedSector(s.sh, s.disp, u.task, u.applied, j, b);
  }

  lemma MixedSector(sh: Shared, disp: Dispatcher, t: Task, applied: set<nat>, j: nat, b: nat)
    requires sh.Sized() && t.Valid() && t.Base() + t.size <= |sh.parity| && b < |sh.parity|
    requires disp.Writing? && Working(sh, disp, t, applied)
    requires j !in disp.written && AtSector(j) + 512 <= |disp.content|
    ensures j !in applied && AtSector(disp.sector) + |disp.content| <= |sh.parity|
    ensures Splice(sh.parity, AtSector(disp.sector) + AtSector(j), disp.content[AtSector(j)..AtSector(j) + 512])[b] ==
      if t.Covers(b) && t.SectorOf(b) == j then ByteXor(sh.parity[b], ByteXor(t.OldAt(b), t.NewAt(b)))
      else sh.parity[b]
  {
    if t.Covers(b) {
      var x := b - t.Base();
      SectorBytes(t, j, b);
      assert disp.content[x] ==
        if x / 512 in disp.written then sh.parity[t.Base() + x] else Mixed(t, sh.parity, t.offset + x);
      XorRegroup(sh.parity[b], t.OldAt(b), t.NewAt(b));
    }
  }

  lemma WriteSectorLedger(parity0: seq<Byte>, s: State, j: nat)
    requires Inv(s) && Enabled(s, WriteSector(j)) && ParityLedger(parity0, s.sh.parity, s.units)
    ensures ParityLedger(parity0, Do(s, WriteSector(j)).sh.parity, Do(s, WriteSector(j)).units)
  {
    hide Inv;
    WriteSectorKeeps(s, j);
    var s', h := Do(s, WriteSector(j)), s.holder;
    InvFits(s);
    InvFits(s');
    forall b | 0 <= b < |s'.sh.parity|
      ensures s'.sh.parity[b] == ByteXor(parity0[b], XorSum(AppliedDeltas(s'.units, b)))
    {
      WriteSectorXors(s, j, b);
      AppliedChange(s.units, h, s'.units[h], b);
      WriteSectorDelta(s.units[h], s'.units[h], j, b);
      var d := ByteXor(AppliedDelta(s.units[h], b), AppliedDelta(s'.units[h], b));
      XorRegroup(parity0[b], XorSum(AppliedDeltas(s.units, b)), d);
      XorZero(s.sh.parity[b]);
    }
  }

  lemma InvFits(s: State)
    requires Inv(s)
    ensures UnitsFit(s.units) && Uniform(s.disks, |s.sh.parity|)
    ensures forall i :: 0 <= i < |s.units| ==>
      s.units[i].disk < |s.disks| && s.units[i].task.Base() + s.units[i].task.size <= |s.sh.parity|
  {}

  lemma WriteSectorDelta(u: Unit, u': Unit, j: nat, b: nat)
    requires u.task.Valid() && j !in u.applied && u' == u.(applied := u.applied + {j})
    ensures ByteXor(AppliedDelta(u, b), AppliedDelta(u', b)) ==
            if u.task.Covers(b) && u.task.SectorOf(b) == j then ByteXor(u.task.OldAt(b), u.task.NewAt(b)) else 0
  {
    XorSelf(AppliedDelta(u, b));
    XorCommutes(0, AppliedDelta(u', b));
    XorZero(AppliedDelta(u', b));
  }

  lemma LandDelta(u: Unit, u': Unit, disk: seq<Byte>, j: nat, b: nat)
    requires u.task.Valid() && |u.prev| == 4096 && u.task.Base() + u.task.size <= |disk| && b < |disk|
    requires j < u.task.Sectors() && j !in u.landed
    requires u' == u.(prev := TakeSector(u.prev, disk, u.task, j), landed := u.landed + {j})
    ensures ByteXor(LandedDelta(u, b), LandedDelta(u', b)) == ByteXor(disk[b], PutSector(disk, u.task, j)[b])
  {
    var t := u.task;
    XorSelf(disk[b]);
    XorSelf(LandedDelta(u, b));
    XorCommutes(0, LandedDelta(u', b));
    XorZero(LandedDelta(u', b));
    if t.Covers(b) {
      SectorBytes(t, j, b);
    } else {
      SectorInside(t, j);
    }
  }

  lemma SectorInside(t: Task, j: nat)
    requires t.Valid() && j < t.Sectors()
    ensures AtSector(j) + 512 <= t.size
  {}

  lemma SectorBytes(t: Task, j: nat, b: nat)
    requires t.Valid() && t.Covers(b)
    ensures t.SectorOf(b) == j <==> t.Base() + AtSector(j) <= b < t.Base() + AtSector(j) + 512
    ensures t.SectorOf(b) == j <==> t.offset + AtSector(j) <= t.InPage(b) < t.offset + AtSector(j) + 512
  {}

  lemma LandLedger(parity0: seq<Byte>, s: State, i: nat, j: nat)
    requires Inv(s) && Enabled(s, Land(i, j)) && DataLedger(parity0, s.disks, s.units)
    requires |s.sh.parity| == |parity0|
    ensures DataLedger(parity0, Do(s, Land(i, j)).disks, Do(s, Land(i, j)).units)
  {
    hide Inv;
    LandKeeps(s, i, j);
    var s', u := Do(s, Land(i, j)), s.units[i];
    InvFits(s);
    InvFits(s');
    var disk := s.disks[u.disk];
    forall b | 0 <= b < |parity0|
      ensures Stripe(s'.disks, b) == ByteXor(parity0[b], XorSum(LandedDeltas(s'.units, b)))
    {
      StripeUpdate(s.disks, u.disk, PutSector(disk, u.task, j), b);
      LandedChange(s.units, i, s'.units[i], b);
      LandDelta(u, s'.units[i], disk, j, b);
      XorRegroup(parity0[b], XorSum(LandedDeltas(s.units, b)), ByteXor(disk[b], PutSector(disk, u.task, j)[b]));
    }
  }

  // ----- all steps

  ghost predicate Ledgers(parity0: seq<Byte>, s: State) {
    ParityLedger(parity0, s.sh.parity, s.units) && DataLedger(parity0, s.disks, s.units)
  }

  /** A unit whose share in both ledgers does not change. */
  ghost predicate SameShare(u: Unit, u': Unit) {
    && u'.applied == u.applied && u'.landed == u.landed && u'.prev == u.prev
    && (u'.task == u.task || (u.applied == {} && u.landed == {}))
  }

  /** Steps that change no applied or landed sector leave both ledgers as they are. */
  lemma StillLedgers(parity0: seq<Byte>, s: State, s': State)
    requires Ledgers(parity0, s) && UnitsFit(s'.units)
    requires s'.sh.parity == s.sh.parity && s'.disks == s.disks && |s'.units| == |s.units|
    requires forall i :: 0 <= i < |s.units| ==> SameShare(s.units[i], s'.units[i])
    ensures Ledgers(parity0, s')
  {
    forall b: nat | b < |s.sh.parity|
      ensures AppliedDeltas(s'.units, b) == AppliedDeltas(s.units, b)
      ensures LandedDeltas(s'.units, b) == LandedDeltas(s.units, b)
    {
      forall i | 0 <= i < |s.units|
        ensures AppliedDelta(s'.units[i], b) == AppliedDelta(s.units[i], b)
        ensures LandedDelta(s'.units[i], b) == LandedDelta(s.units[i], b)
      {
        assert SameShare(s.units[i], s'.units[i]);
      }
    }
  }

  lemma SubmitLedgers(parity0: seq<Byte>, s: State, a: Action)
    requires Inv(s) && Ledgers(parity0, s) && a.Submit? && Enabled(s, a)
    ensures Ledgers(parity0, Do(s, a))
  {
    hide Inv;
    var s', news := Do(s, a), NewUnits(|s.pieces|, a);
    SubmitKeeps(s, a);
    InvFits(s');
    forall k | 0 <= k < |news| ensures news[k] == s'.units[|s.units| + k] {}
    forall b: nat | b < |s.sh.parity|
      ensures XorSum(AppliedDeltas(s'.units, b)) == XorSum(AppliedDeltas(s.units, b))
      ensures XorSum(LandedDeltas(s'.units, b)) == XorSum(LandedDeltas(s.units, b))
    {
      NewUnitsAddNothing(s.units, news, b);
    }
  }

  /** Every step of every actor keeps both ledgers. */
  lemma {:induction false} StepLedgers(parity0: seq<Byte>, s: State, a: Action)
    requires Inv(s) && Ledgers(parity0, s) && Enabled(s, a)
    ensures Ledgers(parity0, Do(s, a))
  {
    var s' := Do(s, a);
    match a
    case Submit(_, _, _, _) => SubmitLedgers(parity0, s, a);
    case WriteSector(j) =>
      WriteSectorLedger(parity0, s, j);
      WriteSectorLanded(parity0, s, j);
    case Land(i, j) =>
      LandLedger(parity0, s, i, j);
      LandApplied(parity0, s, i, j);
    case _ => QuietLedgers(parity0, s, a);
  }

  lemma WriteSectorLanded(parity0: seq<Byte>, s: State, j: nat)
    requires Inv(s) && Ledgers(parity0, s) && Enabled(s, WriteSector(j))
    ensures DataLedger(parity0, Do(s, WriteSector(j)).disks, Do(s, WriteSector(j)).units)
  {
    hide Inv;
    var s' := Do(s, WriteSector(j));
    WriteSectorKeeps(s, j);
    InvFits(s');
    forall b: nat | b < |parity0| ensures LandedDeltas(s'.units, b) == LandedDeltas(s.units, b) {}
  }

  lemma LandApplied(parity0: seq<Byte>, s: State, i: nat, j: nat)
    requires Inv(s) && Ledgers(parity0, s) && Enabled(s, Land(i, j))
    ensures ParityLedger(parity0, Do(s, Land(i, j)).sh.parity, Do(s, Land(i, j)).units)
  {
    hide Inv;
    var s' := Do(s, Land(i, j));
    LandKeeps(s, i, j);
    InvFits(s');
    forall b: nat | b < |parity0| ensures AppliedDeltas(s'.units, b) == AppliedDeltas(s.units, b) {}
  }

  lemma QuietLedgers(parity0: seq<Byte>, s: State, a: Action)
    requires Inv(s) && Ledgers(parity0, s) && Enabled(s, a)
    requires !a.Submit? && !a.WriteSector? && !a.Land?
    ensures Ledgers(parity0, Do(s, a))
  {
    var s' := Do(s, a);
    StepKeeps(s, a);
    InvFits(s');
    if a.ReadSector? || a.Enqueue? || a.Release? { QuietHostUnits(s, a); } else { QuietEngineUnits(s, a); }
    hide Inv, Do, Enabled;
    StillLedgers(parity0, s, s');
  }

  lemma QuietHostUnits(s: State, a: Action)
    requires Inv(s) && Enabled(s, a) && (a.ReadSector? || a.Enqueue? || a.Release?)
    ensures Do(s, a).sh.parity == s.sh.parity && Do(s, a).disks == s.disks && |Do(s, a).units| == |s.units|
    ensures forall i :: 0 <= i < |s.units| ==> SameShare(s.units[i], Do(s, a).units[i])
  {
    if a.ReadSector? { ReadSectorSame(s, a.unit, a.j); }
    hide Inv;
  }

  lemma QuietEngineUnits(s: State, a: Action)
    requires Enabled(s, a)
    requires !a.Submit? && !a.ReadSector? && !a.Enqueue? && !a.Release? && !a.Land? && !a.WriteSector?
    ensures Do(s, a).sh.parity == s.sh.parity && Do(s, a).disks == s.disks && |Do(s, a).units| == |s.units|
    ensures forall i :: 0 <= i < |s.units| ==> SameShare(s.units[i], Do(s, a).units[i])
  {
    hide HasWork;
  }

  /** An old-data read only touches a unit that has neither landed nor been applied. */
  lemma ReadSectorSame(s: State, i: nat, j: nat)
    requires Inv(s) && Enabled(s, ReadSector(i, j))
    ensures s.units[i].applied == {} && s.units[i].landed == {}
  {}
}
