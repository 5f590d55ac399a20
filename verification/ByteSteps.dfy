/** Every step of the machine, seen at one byte position. */
module ByteSteps {
  import opened Bytes
  import opened Parity
  import opened Machine
  import opened Invariant
  import opened Ledger
  import Capture
  import opened ByteView

  function UnitAt(u: Unit, b: nat): ByteUnit
    requires u.task.Valid() && |u.prev| == 4096
  {
    if u.task.Covers(b) then
      ByteUnit(u.disk, true, u.task.SectorOf(b) in u.read, u.task.SectorOf(b) in u.landed,
               u.task.OldAt(b), u.task.NewAt(b), u.prev[u.task.InPage(b)])
    else ByteUnit(u.disk, false, false, false, 0, 0, 0)
  }

  ghost predicate Fits(s: State, b: nat) {
    && UnitsFit(s.units) && Uniform(s.disks, |s.sh.parity|) && b < |s.sh.parity|
    && forall i :: 0 <= i < |s.units| ==> s.units[i].disk < |s.disks|
  }

  ghost function UnitsAt(units: seq<Unit>, b: nat): (r: seq<ByteUnit>)
    requires UnitsFit(units)
    ensures |r| == |units|
  {
    seq(|units|, i requires 0 <= i < |units| => UnitAt(units[i], b))
  }

  ghost function ViewAt(s: State, b: nat): (v: View)
    requires Fits(s, b)
    ensures v.Valid() && |v.units| == |s.units| && |v.column| == |s.disks|
  {
    View(Column(s.disks, b), UnitsAt(s.units, b))
  }

  lemma InvFitsAt(s: State, b: nat)
    requires Inv(s) && b < |s.sh.parity|
    ensures Fits(s, b)
  {
    hide Inv;
    InvFits(s);
  }

  lemma ReadUnitAt(u: Unit, disk: seq<Byte>, j: nat, b: nat)
    requires u.task.Valid() && |u.prev| == 4096 && u.task.Base() + u.task.size <= |disk| && b < |disk|
    requires j < u.task.Sectors()
    ensures var u' := u.(task := u.task.(pageOld := TakeSector(u.task.pageOld, disk, u.task, j)), read := u.read + {j});
      u'.task.Valid() && UnitAt(u', b) ==
      if u.task.Covers(b) && u.task.SectorOf(b) == j then UnitAt(u, b).(read := true, was := disk[b]) else UnitAt(u, b)
  {
    SectorInside(u.task, j);
    if u.task.Covers(b) { SectorBytes(u.task, j, b); }
  }

  lemma LandUnitAt(u: Unit, disk: seq<Byte>, j: nat, b: nat)
    requires u.task.Valid() && |u.prev| == 4096 && u.task.Base() + u.task.size <= |disk| && b < |disk|
    requires j < u.task.Sectors()
    ensures var u' := u.(prev := TakeSector(u.prev, disk, u.task, j), landed := u.landed + {j});
      UnitAt(u', b) ==
      if u.task.Covers(b) && u.task.SectorOf(b) == j
      then UnitAt(u, b).(landed := true, prev := disk[b])
      else UnitAt(u, b)
    ensures PutSector(disk, u.task, j)[b] ==
      if u.task.Covers(b) && u.task.SectorOf(b) == j then u.task.NewAt(b) else disk[b]
  {
    SectorInside(u.task, j);
    if u.task.Covers(b) { SectorBytes(u.task, j, b); }
  }

  lemma ReadEffect(s: State, i: nat, j: nat, b: nat) returns (e: Effect)
    requires Inv(s) && Enabled(s, ReadSector(i, j)) && Fits(s, b) && Fits(Do(s, ReadSector(i, j)), b)
    ensures !e.Lands? && Possible(ViewAt(s, b), e) && ViewAt(Do(s, ReadSector(i, j)), b) == After(ViewAt(s, b), e)
  {
    ReadSectorSame(s, i, j);
    hide Inv;
    var s', u := Do(s, ReadSector(i, j)), s.units[i];
    ReadUnitAt(u, s.disks[u.disk], j, b);
    e := if u.task.Covers(b) && u.task.SectorOf(b) == j then Reads(i) else Still;
    assert s'.units == s.units[i := s'.units[i]] && s'.disks == s.disks;
    hide UnitAt, Do, Enabled;
    assert ViewAt(s', b).units == After(ViewAt(s, b), e).units;
  }

  lemma LandEffect(s: State, i: nat, j: nat, b: nat) returns (e: Effect)
    requires Inv(s) && Enabled(s, Land(i, j)) && Fits(s, b) && Fits(Do(s, Land(i, j)), b)
    ensures e == if s.units[i].task.Covers(b) && s.units[i].task.SectorOf(b) == j then Lands(i) else Still
    ensures Possible(ViewAt(s, b), e) && ViewAt(Do(s, Land(i, j)), b) == After(ViewAt(s, b), e)
  {
    Capture.ReleasedMeansRead(s, i);
    hide Inv;
    var s', u := Do(s, Land(i, j)), s.units[i];
    LandUnitAt(u, s.disks[u.disk], j, b);
    e := if u.task.Covers(b) && u.task.SectorOf(b) == j then Lands(i) else Still;
    assert s'.units == s.units[i := s'.units[i]];
    assert s'.disks == s.disks[u.disk := PutSector(s.disks[u.disk], u.task, j)];
    hide UnitAt, Do, Enabled;
    assert ViewAt(s', b).units == After(ViewAt(s, b), e).units;
    assert ViewAt(s', b).column == After(ViewAt(s, b), e).column;
  }

  /** Every step but a submission reads byte b for one unit, lands it for one unit, or leaves it alone. */
  lemma StepEffect(s: State, a: Action, b: nat) returns (e: Effect)
    requires Inv(s) && Enabled(s, a) && !a.Submit? && b < |s.sh.parity|
    ensures Fits(s, b) && Fits(Do(s, a), b) && (e.Lands? ==> a.Land?)
    ensures Possible(ViewAt(s, b), e) && ViewAt(Do(s, a), b) == After(ViewAt(s, b), e)
  {
    hide Inv, Do, Enabled, ViewAt;
    StepKeeps(s, a);
    StepCount(s, a);
    InvFitsAt(s, b);
    InvFitsAt(Do(s, a), b);
    match a
    case ReadSector(i, j) => e := ReadEffect(s, i, j, b);
    case Land(i, j) => e := LandEffect(s, i, j, b);
    case _ => e := Still; OtherEffect(s, a, b);
  }

  lemma OtherEffect(s: State, a: Action, b: nat)
    requires Inv(s) && Enabled(s, a) && !a.Submit? && !a.ReadSector? && !a.Land?
    requires Fits(s, b) && Fits(Do(s, a), b)
    ensures ViewAt(Do(s, a), b) == ViewAt(s, b)
  {
    Capture.OthersUnmoved(s, a);
    hide Inv, Do, Enabled;
    forall i | 0 <= i < |s.units| ensures UnitAt(Do(s, a).units[i], b) == UnitAt(s.units[i], b) {
      assert Capture.Unmoved(s.units[i], Do(s, a).units[i]);
    }
    assert ViewAt(Do(s, a), b).units == ViewAt(s, b).units;
  }

  /** In a careful run the view is calm at every byte. */
  lemma CaptureCalm(s: State, b: nat)
    requires Inv(s) && Capture.CaptureInv(s) && b < |s.sh.parity|
    ensures Fits(s, b) && Calm(ViewAt(s, b))
  {
    InvFitsAt(s, b);
    InvFits(s);
    hide Inv;
    var v := ViewAt(s, b);
    forall i | 0 <= i < |s.units|
      ensures v.units[i].Pending() && v.units[i].read ==> v.units[i].was == v.column[v.units[i].disk]
      ensures v.units[i].landed ==> v.units[i].prev == v.units[i].was
    {
      assert Capture.ReadFresh(s.units[i], s.disks[s.units[i].disk]) && Capture.Captured(s.units[i]);
      assert Reached(s.units[i], s.units[i].read, b) <==> v.units[i].read;
      assert Reached(s.units[i], s.units[i].landed, b) <==> v.units[i].landed;
    }
    forall i, k ensures !Rivals(v, i, k) {
      assert Rivals(v, i, k) ==> Capture.Pending(s.units[i], b) && Capture.Pending(s.units[k], b);
    }
  }
}
