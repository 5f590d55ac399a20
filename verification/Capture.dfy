/** When in-flight writes never overlap, the old page of every task is what the disk held just before
    that same write's data landed. */
module Capture {
  import opened Bytes
  import opened Segments
  import opened Machine
  import opened Invariant
  import opened Ledger

  /** Byte b of unit u has been submitted but its new data has not landed yet. */
  predicate Pending(u: Unit, b: nat) {
    u.task.Covers(b) && u.task.SectorOf(b) !in u.landed
  }

  /** The bytes a submission is about to claim on its disk. */
  predicate Claims(a: Action, b: nat)
    requires a.Submit?
  {
    AtSector(a.sector) <= b < AtSector(a.sector) + Length(a.segs)
  }

  /** What the callers must respect: a new write stays clear of every write whose data is still on its
      way to the same disk. Writes whose data has landed may be overlapped, applied or not. */
  ghost predicate Apart(s: State, a: Action) {
    a.Submit? ==>
      forall i, b :: 0 <= i < |s.units| && s.units[i].disk == a.disk && Pending(s.units[i], b) ==> !Claims(a, b)
  }

  /** Bytes still pending for one unit are not touched by any unit submitted later. */
  ghost predicate PendingApart(units: seq<Unit>) {
    forall i, k, b :: 0 <= i < k < |units| && units[i].disk == units[k].disk && Pending(units[i], b) ==>
      !units[k].task.Covers(b)
  }

  /** A sector that has been read and has not landed still is on the disk as it was read. */
  ghost predicate ReadFresh(u: Unit, disk: seq<Byte>)
    requires u.task.Valid() && u.task.Base() + u.task.size <= |disk|
  {
    forall b: nat :: Reached(u, u.read, b) && Pending(u, b) ==> u.task.OldAt(b) == disk[b]
  }

  /** A sector that has landed replaced exactly what the task calls old. */
  ghost predicate Captured(u: Unit)
    requires u.task.Valid() && |u.prev| == 4096
  {
    forall b: nat :: Reached(u, u.landed, b) ==> u.prev[u.task.InPage(b)] == u.task.OldAt(b)
  }

  ghost predicate CaptureInv(s: State)
    requires Inv(s)
  {
    InvFits(s);
    && PendingApart(s.units)
    && (forall i :: 0 <= i < |s.units| ==> ReadFresh(s.units[i], s.disks[s.units[i].disk]))
    && (forall i :: 0 <= i < |s.units| ==> Captured(s.units[i]))
  }

  /** Units that keep their place on the disks. */
  ghost predicate Unmoved(u: Unit, u': Unit) {
    u'.disk == u.disk && u'.task == u.task && u'.landed == u.landed && u'.read == u.read && u'.prev == u.prev
  }

  lemma StillCaptured(s: State, s': State)
    requires Inv(s) && Inv(s') && CaptureInv(s)
    requires s'.disks == s.disks && |s'.units| == |s.units|
    requires forall i :: 0 <= i < |s.units| ==> Unmoved(s.units[i], s'.units[i])
    ensures CaptureInv(s')
  {}

  lemma OthersUnmoved(s: State, a: Action)
    requires Inv(s) && Enabled(s, a) && !a.Submit? && !a.ReadSector? && !a.Land?
    ensures Do(s, a).disks == s.disks && |Do(s, a).units| == |s.units|
    ensures forall i :: 0 <= i < |s.units| ==> Unmoved(s.units[i], Do(s, a).units[i])
  {
    hide Inv;
  }

  // ----- submitting

  lemma NewUnitBytes(p: nat, a: Action, k: nat, b: nat)
    requires a.Submit? && AllFit(a.segs) && WholeSectors(a.segs) && |a.blank| == |a.segs| && k < |a.segs|
    requires NewUnits(p, a)[k].task.Covers(b)
    ensures Claims(a, b)
    ensures forall l :: 0 <= l < |a.segs| && l != k ==> !NewUnits(p, a)[l].task.Covers(b)
  {
    TasksInside(a.sector, a.segs, a.blank, k);
    OnlyOneCovers(a.sector, a.segs, a.blank, k, b);
  }

  lemma SubmitApart(s: State, a: Action)
    requires a.Submit? && Enabled(s, a) && Apart(s, a) && PendingApart(s.units)
    ensures PendingApart(Do(s, a).units)
  {
    var units, n := Do(s, a).units, |s.units|;
    var news := NewUnits(|s.pieces|, a);
    forall i, k, b | 0 <= i < k < |units| && units[i].disk == units[k].disk && Pending(units[i], b)
      ensures !units[k].task.Covers(b)
    {
      if i >= n {
        NewUnitBytes(|s.pieces|, a, i - n, b);
        assert units[k] == news[k - n];
      } else if k >= n {
        assert Pending(s.units[i], b) && !Claims(a, b);
        if units[k].task.Covers(b) { NewUnitBytes(|s.pieces|, a, k - n, b); }
      }
    }
  }

  lemma SubmitCaptures(s: State, a: Action)
    requires Inv(s) && CaptureInv(s) && a.Submit? && Enabled(s, a) && Apart(s, a)
    ensures Inv(Do(s, a)) && CaptureInv(Do(s, a))
  {
    SubmitKeeps(s, a);
    var s', n := Do(s, a), |s.units|;
    InvFits(s);
    InvFits(s');
    SubmitApart(s, a);
    hide Inv, Enabled, Apart;
    forall i | 0 <= i < |s'.units| ensures ReadFresh(s'.units[i], s'.disks[s'.units[i].disk]) && Captured(s'.units[i]) {
      if i < n {
        assert s'.units[i] == s.units[i];
        assert ReadFresh(s.units[i], s.disks[s.units[i].disk]);
      } else {
        assert s'.units[i] == NewUnits(|s.pieces|, a)[i - n];
      }
    }
  }

  // ----- reading

  lemma ReadUnit(u: Unit, u': Unit, disk: seq<Byte>, j: nat)
    requires u.task.Valid() && |u.prev| == 4096 && u.task.Base() + u.task.size <= |disk|
    requires j < u.task.Sectors() && u.landed == {} && ReadFresh(u, disk)
    requires u' == u.(task := u.task.(pageOld := TakeSector(u.task.pageOld, disk, u.task, j)), read := u.read + {j})
    ensures u'.task.Valid() && u'.task.Base() + u'.task.size <= |disk|
    ensures ReadFresh(u', disk) && Captured(u')
    ensures forall b: nat :: Pending(u', b) ==> Pending(u, b)
  {
    forall b: nat | Reached(u', u'.read, b) && Pending(u', b) ensures u'.task.OldAt(b) == disk[b] {
      SectorBytes(u.task, j, b);
      SectorInside(u.task, j);
      if u.task.SectorOf(b) != j {
        assert Reached(u, u.read, b) && Pending(u, b);
      }
    }
  }

  lemma ReadSectorCaptures(s: State, i: nat, j: nat)
    requires Inv(s) && CaptureInv(s) && Enabled(s, ReadSector(i, j))
    ensures Inv(Do(s, ReadSector(i, j))) && CaptureInv(Do(s, ReadSector(i, j)))
  {
    hide Inv;
    ReadSectorKeeps(s, i, j);
    var s', u := Do(s, ReadSector(i, j)), s.units[i];
    InvFits(s);
    InvFits(s');
    ReadSectorSame(s, i, j);
    assert s' == DoReadSector(s, i, j) && ReadFresh(u, s.disks[u.disk]);
    ReadUnit(u, s'.units[i], s.disks[u.disk], j);
    hide Enabled, Do;
    forall k | 0 <= k < |s'.units| ensures ReadFresh(s'.units[k], s'.disks[s'.units[k].disk]) && Captured(s'.units[k]) {
      if k != i { assert s'.units[k] == s.units[k] && ReadFresh(s.units[k], s.disks[s.units[k].disk]); }
    }
    ApartStays(s.units, s'.units);
  }

  lemma ApartStays(units: seq<Unit>, units': seq<Unit>)
    requires PendingApart(units) && |units'| == |units|
    requires forall i :: 0 <= i < |units| ==> units'[i].disk == units[i].disk
    requires forall i, b: nat :: 0 <= i < |units| && Pending(units'[i], b) ==> Pending(units[i], b)
    requires forall i, b: nat :: 0 <= i < |units| && units'[i].task.Covers(b) ==> units[i].task.Covers(b)
    ensures PendingApart(units')
  {}

  // ----- landing

  lemma LandUnit(u: Unit, u': Unit, disk: seq<Byte>, j: nat)
    requires u.task.Valid() && |u.prev| == 4096 && u.task.Base() + u.task.size <= |disk|
    requires j < u.task.Sectors() && j !in u.landed && Full(u.read, u.task.Sectors())
    requires ReadFresh(u, disk) && Captured(u)
    requires u' == u.(prev := TakeSector(u.prev, disk, u.task, j), landed := u.landed + {j})
    ensures ReadFresh(u', PutSector(disk, u.task, j)) && Captured(u')
    ensures forall b: nat :: Pending(u', b) ==> Pending(u, b)
  {
    SectorInside(u.task, j);
    forall b: nat | u.task.Covers(b)
      ensures Reached(u', u'.landed, b) ==> u'.prev[u.task.InPage(b)] == u.task.OldAt(b)
      ensures Pending(u', b) ==> Pending(u, b) && u.task.OldAt(b) == PutSector(disk, u.task, j)[b]
    {
      SectorBytes(u.task, j, b);
      assert u.task.SectorOf(b) in u.read;
      assert Reached(u, u.read, b);
      if u.task.SectorOf(b) == j {
        assert Pending(u, b);
      }
    }
  }

  /** The bytes a landing changes are pending for the landing unit, so no other unit waits on them. */
  lemma LandElsewhere(u: Unit, w: Unit, disk: seq<Byte>, j: nat)
    requires u.task.Valid() && w.task.Valid()
    requires u.task.Base() + u.task.size <= |disk| && w.task.Base() + w.task.size <= |disk|
    requires j < u.task.Sectors() && j !in u.landed && ReadFresh(w, disk)
    requires forall b: nat :: Pending(u, b) ==> !Pending(w, b)
    ensures ReadFresh(w, PutSector(disk, u.task, j))
  {}

  lemma LandCaptures(s: State, i: nat, j: nat)
    requires Inv(s) && CaptureInv(s) && Enabled(s, Land(i, j))
    ensures Inv(Do(s, Land(i, j))) && CaptureInv(Do(s, Land(i, j)))
  {
    LandKeeps(s, i, j);
    var s', u := Do(s, Land(i, j)), s.units[i];
    InvFits(s);
    InvFits(s');
    ReleasedMeansRead(s, i);
    assert ReadFresh(u, s.disks[u.disk]) && Captured(u);
    LandUnit(u, s'.units[i], s.disks[u.disk], j);
    hide Inv, Enabled;
    forall k | 0 <= k < |s'.units| ensures ReadFresh(s'.units[k], s'.disks[s'.units[k].disk]) && Captured(s'.units[k]) {
      if k != i {
        assert s'.units[k] == s.units[k] && ReadFresh(s.units[k], s.disks[s.units[k].disk]);
        if s.units[k].disk == u.disk {
          assert forall b: nat :: Pending(u, b) ==> !Pending(s.units[k], b);
          LandElsewhere(u, s.units[k], s.disks[u.disk], j);
        }
      }
    }
    ApartStays(s.units, s'.units);
  }

  /** A piece is released only after all of its old data has been read and queued. */
  lemma ReleasedMeansRead(s: State, i: nat)
    requires Inv(s) && i < |s.units|
    ensures s.units[i].piece < |s.pieces|
    ensures s.pieces[s.units[i].piece].released ==>
              !s.units[i].phase.Waiting? && Full(s.units[i].read, s.units[i].task.Sectors())
  {}

  /** Every step keeps the captures as long as submissions stay clear of pending data. */
  lemma StepCaptures(s: State, a: Action)
    requires Inv(s) && CaptureInv(s) && Enabled(s, a) && Apart(s, a)
    ensures Inv(Do(s, a)) && CaptureInv(Do(s, a))
  {
    hide Inv, CaptureInv, Apart, Do, Enabled;
    StepKeeps(s, a);
    match a
    case Submit(_, _, _, _) => SubmitCaptures(s, a);
    case ReadSector(i, j) => ReadSectorCaptures(s, i, j);
    case Land(i, j) => LandCaptures(s, i, j);
    case _ =>
      OthersUnmoved(s, a);
      StillCaptured(s, Do(s, a));
  }
}
