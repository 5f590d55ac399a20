/** What the data disks hold: landings come in any order, and the disks still end up as if every
    submitted piece had been written at once, one piece after another, in the order of submission. */
module Contents {
  import opened Bytes
  import opened Engine
  import opened Segments
  import opened Machine
  import opened Invariant
  import opened Ledger
  import opened Capture
  import opened Theorems

  /** Unit u writes byte b of disk d; with landedOnly, it has done so already. */
  predicate Touches(u: Unit, d: nat, b: nat, landedOnly: bool) {
    u.disk == d && u.task.Covers(b) && (landedOnly ==> u.task.SectorOf(b) in u.landed)
  }

  /** The byte of the last unit, in submission order, that touches byte b of disk d, or x if none does. */
  ghost function Latest(units: seq<Unit>, d: nat, b: nat, landedOnly: bool, x: Byte): Byte
    requires UnitsFit(units)
  {
    if units == [] then x
    else
      var n := |units| - 1;
      if Touches(units[n], d, b, landedOnly) then units[n].task.NewAt(b) else Latest(units[..n], d, b, landedOnly, x)
  }

  lemma {:induction false} LatestSkips(units: seq<Unit>, n: nat, d: nat, b: nat, landedOnly: bool, x: Byte)
    requires UnitsFit(units) && n <= |units|
    requires forall k :: n <= k < |units| ==> !Touches(units[k], d, b, landedOnly)
    ensures Latest(units, d, b, landedOnly, x) == Latest(units[..n], d, b, landedOnly, x)
  {
    if n < |units| {
      var m := |units| - 1;
      LatestSkips(units[..m], n, d, b, landedOnly, x);
      assert units[..m][..n] == units[..n];
    } else {
      assert units[..n] == units;
    }
  }

  lemma LatestIs(units: seq<Unit>, i: nat, d: nat, b: nat, landedOnly: bool, x: Byte)
    requires UnitsFit(units) && i < |units| && Touches(units[i], d, b, landedOnly)
    requires forall k :: i < k < |units| ==> !Touches(units[k], d, b, landedOnly)
    ensures Latest(units, d, b, landedOnly, x) == units[i].task.NewAt(b)
  {}

  /** u' writes the same bytes to the same place as u. */
  predicate SameWrite(u: Unit, u': Unit) {
    u'.disk == u.disk && u'.task.(pageOld := u.task.pageOld) == u.task
  }

  lemma {:induction false} LatestSame(units: seq<Unit>, units': seq<Unit>, d: nat, b: nat, landedOnly: bool, x: Byte)
    requires UnitsFit(units) && UnitsFit(units') && |units'| == |units|
    requires forall i :: 0 <= i < |units| ==> SameWrite(units[i], units'[i])
    requires forall i :: 0 <= i < |units| ==>
      Touches(units[i], d, b, landedOnly) == Touches(units'[i], d, b, landedOnly)
    ensures Latest(units', d, b, landedOnly, x) == Latest(units, d, b, landedOnly, x)
  {
    if units != [] {
      var n := |units| - 1;
      assert SameWrite(units[n], units'[n]);
      LatestSame(units[..n], units'[..n], d, b, landedOnly, x);
    }
  }

  // ----- the disks follow the landings

  /** Every disk byte is that of the latest submitted unit that has landed on it. */
  ghost predicate LandedInv(disks0: seq<seq<Byte>>, s: State) {
    && UnitsFit(s.units) && |s.disks| == |disks0|
    && (forall d :: 0 <= d < |disks0| ==> |s.disks[d]| == |disks0[d]|)
    && forall d, b :: 0 <= d < |disks0| && 0 <= b < |disks0[d]| ==>
         s.disks[d][b] == Latest(s.units, d, b, true, disks0[d][b])
  }

  lemma LandChanges(s: State, i: nat, j: nat, d: nat, b: nat)
    requires Inv(s) && Enabled(s, Land(i, j)) && d < |s.disks| && b < |s.disks[d]|
    ensures |Do(s, Land(i, j)).units| == |s.units| && |Do(s, Land(i, j)).disks| == |s.disks|
    ensures forall c :: 0 <= c < |s.disks| ==> |Do(s, Land(i, j)).disks[c]| == |s.disks[c]|
    ensures forall k :: 0 <= k < |s.units| ==> SameWrite(s.units[k], Do(s, Land(i, j)).units[k])
    ensures forall k :: 0 <= k < |s.units| && k != i ==> Do(s, Land(i, j)).units[k] == s.units[k]
    ensures Do(s, Land(i, j)).units[i].landed == s.units[i].landed + {j} && s.units[i].task.Valid()
    ensures var u := s.units[i];
      Do(s, Land(i, j)).disks[d][b] ==
      if u.disk == d && u.task.Covers(b) && u.task.SectorOf(b) == j then u.task.NewAt(b) else s.disks[d][b]
  {
    hide Inv;
    var u := s.units[i];
    SectorInside(u.task, j);
    if u.task.Covers(b) { SectorBytes(u.task, j, b); }
  }

  lemma LandByte(disks0: seq<seq<Byte>>, s: State, i: nat, j: nat, d: nat, b: nat)
    requires Inv(s) && CaptureInv(s) && LandedInv(disks0, s) && Enabled(s, Land(i, j))
    requires d < |disks0| && b < |disks0[d]| && UnitsFit(Do(s, Land(i, j)).units)
    ensures |Do(s, Land(i, j)).disks| == |disks0| && |Do(s, Land(i, j)).disks[d]| == |disks0[d]|
    ensures Do(s, Land(i, j)).disks[d][b] == Latest(Do(s, Land(i, j)).units, d, b, true, disks0[d][b])
  {
    var s', u := Do(s, Land(i, j)), s.units[i];
    LandChanges(s, i, j, d, b);
    assert PendingApart(s.units) && j !in u.landed;
    hide Inv, Latest, Do, CaptureInv, Enabled;
    if u.disk == d && u.task.Covers(b) && u.task.SectorOf(b) == j {
      assert Pending(u, b);
      LatestIs(s'.units, i, d, b, true, disks0[d][b]);
    } else {
      LatestSame(s.units, s'.units, d, b, true, disks0[d][b]);
    }
  }

  /** A step that lands nothing leaves disks and writes as they are. */
  lemma OtherWrites(s: State, a: Action)
    requires Inv(s) && Enabled(s, a) && !a.Submit? && !a.Land?
    ensures Do(s, a).disks == s.disks && |Do(s, a).units| == |s.units|
    ensures forall i :: 0 <= i < |s.units| ==>
      SameWrite(s.units[i], Do(s, a).units[i]) && Do(s, a).units[i].landed == s.units[i].landed
  {
    if !a.ReadSector? { OthersUnmoved(s, a); }
    hide Inv, HasWork, InBounds;
  }

  lemma LandKeepsLanded(disks0: seq<seq<Byte>>, s: State, i: nat, j: nat)
    requires Inv(s) && CaptureInv(s) && LandedInv(disks0, s) && Enabled(s, Land(i, j))
    ensures LandedInv(disks0, Do(s, Land(i, j)))
  {
    LandKeeps(s, i, j);
    var s' := Do(s, Land(i, j));
    InvFits(s');
    hide Inv, Latest, Do, Enabled, CaptureInv;
    forall d | 0 <= d < |disks0| ensures |s'.disks| == |disks0| && |s'.disks[d]| == |disks0[d]| {
      LandShape(s, i, j);
    }
    LandShape(s, i, j);
    forall d, b | 0 <= d < |disks0| && 0 <= b < |disks0[d]|
      ensures s'.disks[d][b] == Latest(s'.units, d, b, true, disks0[d][b])
    {
      LandByte(disks0, s, i, j, d, b);
    }
  }

  lemma LandShape(s: State, i: nat, j: nat)
    requires Enabled(s, Land(i, j))
    ensures |Do(s, Land(i, j)).disks| == |s.disks| && |Do(s, Land(i, j)).units| == |s.units|
    ensures forall d :: 0 <= d < |s.disks| ==> |Do(s, Land(i, j)).disks[d]| == |s.disks[d]|
    ensures forall k :: 0 <= k < |s.units| ==> SameWrite(s.units[k], Do(s, Land(i, j)).units[k])
  {}

  lemma SubmitKeepsLanded(disks0: seq<seq<Byte>>, s: State, a: Action)
    requires Inv(s) && LandedInv(disks0, s) && Enabled(s, a) && a.Submit?
    ensures LandedInv(disks0, Do(s, a))
  {
    SubmitKeeps(s, a);
    var s' := Do(s, a);
    InvFits(s');
    assert s'.units[..|s.units|] == s.units && s'.disks == s.disks;
    assert forall k :: |s.units| <= k < |s'.units| ==> s'.units[k].landed == {};
    hide Inv, Latest, Do, Enabled;
    forall d, b | 0 <= d < |disks0| && 0 <= b < |disks0[d]|
      ensures s'.disks[d][b] == Latest(s'.units, d, b, true, disks0[d][b])
    {
      LatestSkips(s'.units, |s.units|, d, b, true, disks0[d][b]);
    }
  }

  lemma StepFits(s: State, a: Action)
    requires Inv(s) && Enabled(s, a)
    ensures UnitsFit(Do(s, a).units)
  {
    StepKeeps(s, a);
    hide Do, Enabled;
    InvFits(Do(s, a));
  }

  lemma StillLanded(disks0: seq<seq<Byte>>, s: State, s': State)
    requires LandedInv(disks0, s) && UnitsFit(s'.units) && s'.disks == s.disks && |s'.units| == |s.units|
    requires forall i :: 0 <= i < |s.units| ==>
      SameWrite(s.units[i], s'.units[i]) && s'.units[i].landed == s.units[i].landed
    ensures LandedInv(disks0, s')
  {
    hide Latest;
    forall d, b | 0 <= d < |disks0| && 0 <= b < |disks0[d]|
      ensures s'.disks[d][b] == Latest(s'.units, d, b, true, disks0[d][b])
    {
      LatestSame(s.units, s'.units, d, b, true, disks0[d][b]);
    }
  }

  lemma OtherKeepsLanded(disks0: seq<seq<Byte>>, s: State, a: Action)
    requires Inv(s) && LandedInv(disks0, s) && Enabled(s, a) && !a.Submit? && !a.Land?
    ensures LandedInv(disks0, Do(s, a))
  {
    hide Inv, LandedInv, Do, Enabled, UnitsFit;
    StepFits(s, a);
    OtherWrites(s, a);
    StillLanded(disks0, s, Do(s, a));
  }

  lemma StepLands(disks0: seq<seq<Byte>>, s: State, a: Action)
    requires Inv(s) && CaptureInv(s) && LandedInv(disks0, s) && Enabled(s, a)
    ensures LandedInv(disks0, Do(s, a))
  {
    hide Inv, CaptureInv, LandedInv, Do, Enabled;
    if a.Land? {
      LandKeepsLanded(disks0, s, a.unit, a.j);
    } else if a.Submit? {
      SubmitKeepsLanded(disks0, s, a);
    } else {
      OtherKeepsLanded(disks0, s, a);
    }
  }

  /** In every reachable state of a careful run a disk byte is that of the latest submitted unit whose
      data has landed there: a landing is never overtaken by an older one. */
  lemma {:induction false} DisksFollowLandings(s0: State, acts: seq<Action>)
    requires Init(s0) && Runs(s0, acts) && Careful(s0, acts)
    ensures LandedInv(s0.disks, Exec(s0, acts))
    decreases |acts|
  {
    if acts != [] {
      var front, a := acts[..|acts| - 1], acts[|acts| - 1];
      DisksFollowLandings(s0, front);
      CarefulInvariant(s0, front);
      hide Inv, CaptureInv, LandedInv, Do, Enabled;
      StepLands(s0.disks, Exec(s0, front), a);
    }
  }

  // ----- the units follow the submissions

  ghost predicate SubmitsFit(acts: seq<Action>) {
    forall k :: 0 <= k < |acts| && acts[k].Submit? ==> AllFit(acts[k].segs)
  }

  /** The byte that the last submitted piece covering byte b of disk d carries for it, or x. */
  ghost function LastSubmitted(acts: seq<Action>, d: nat, b: nat, x: Byte): Byte
    requires SubmitsFit(acts)
    decreases |acts|
  {
    if acts == [] then x
    else
      var a := acts[|acts| - 1];
      if a.Submit? && a.disk == d && Claims(a, b) then DataOf(a.segs)[b - AtSector(a.sector)]
      else LastSubmitted(acts[..|acts| - 1], d, b, x)
  }

  lemma NewWrites(s: State, a: Action)
    requires a.Submit? && Enabled(s, a)
    ensures Do(s, a).units == s.units + NewUnits(|s.pieces|, a)
    ensures AllFit(a.segs) && AllFit(a.blank) && WholeSectors(a.segs) && SameShape(a.segs, a.blank)
  {}

  /** The new units of a piece touch exactly the bytes it claims, with the bytes it carries. */
  lemma NewUnitsTouch(p: nat, a: Action, d: nat, b: nat) returns (k: nat)
    requires a.Submit? && AllFit(a.segs) && AllFit(a.blank) && WholeSectors(a.segs) && SameShape(a.segs, a.blank)
    ensures a.disk == d && Claims(a, b) ==>
      && k < |a.segs| && Touches(NewUnits(p, a)[k], d, b, false)
      && NewUnits(p, a)[k].task.Valid() && NewUnits(p, a)[k].task.NewAt(b) == DataOf(a.segs)[b - AtSector(a.sector)]
      && forall l :: k < l < |a.segs| ==> !Touches(NewUnits(p, a)[l], d, b, false)
    ensures !(a.disk == d && Claims(a, b)) ==>
      forall l :: 0 <= l < |a.segs| ==> !Touches(NewUnits(p, a)[l], d, b, false)
  {
    k := 0;
    var news := NewUnits(p, a);
    if a.disk == d && Claims(a, b) {
      k := Tiling(a.sector, a.segs, a.blank, b);
    } else {
      forall l | 0 <= l < |news| ensures !Touches(news[l], d, b, false) {
        if news[l].task.Covers(b) { NewUnitBytes(p, a, l, b); }
      }
    }
  }

  lemma SubmitTouches(units: seq<Unit>, p: nat, a: Action, d: nat, b: nat, x: Byte)
    requires a.Submit? && AllFit(a.segs) && AllFit(a.blank) && WholeSectors(a.segs) && SameShape(a.segs, a.blank)
    requires UnitsFit(units) && UnitsFit(units + NewUnits(p, a))
    ensures Latest(units + NewUnits(p, a), d, b, false, x) ==
            if a.disk == d && Claims(a, b) then DataOf(a.segs)[b - AtSector(a.sector)]
            else Latest(units, d, b, false, x)
  {
    var n, news := |units|, NewUnits(p, a);
    var all := units + news;
    assert all[..n] == units;
    var k := NewUnitsTouch(p, a, d, b);
    hide Latest, NewUnits, Claims, SameShape, AllFit, WholeSectors, Touches;
    if a.disk == d && Claims(a, b) {
      assert all[n + k] == news[k];
      forall l | n + k < l < |all| ensures !Touches(all[l], d, b, false) { assert all[l] == news[l - n]; }
      LatestIs(all, n + k, d, b, false, x);
    } else {
      forall l | n <= l < |all| ensures !Touches(all[l], d, b, false) { assert all[l] == news[l - n]; }
      LatestSkips(all, n, d, b, false, x);
    }
  }

  lemma StepSubmissions(s: State, a: Action, d: nat, b: nat, x: Byte)
    requires Inv(s) && Enabled(s, a) && UnitsFit(s.units) && UnitsFit(Do(s, a).units)
    ensures a.Submit? ==> AllFit(a.segs)
    ensures Latest(Do(s, a).units, d, b, false, x) ==
            if a.Submit? && a.disk == d && Claims(a, b) then DataOf(a.segs)[b - AtSector(a.sector)]
            else Latest(s.units, d, b, false, x)
  {
    if a.Submit? {
      hide Inv, Latest, Do, Enabled;
      NewWrites(s, a);
      SubmitTouches(s.units, |s.pieces|, a, d, b, x);
    } else {
      hide Inv, Latest, Do, Enabled;
      if a.Land? { LandShape(s, a.unit, a.j); } else { OtherWrites(s, a); }
      LatestSame(s.units, Do(s, a).units, d, b, false, x);
    }
  }

  lemma {:induction false} SubmissionsFit(s0: State, acts: seq<Action>)
    requires Runs(s0, acts)
    ensures SubmitsFit(acts)
    decreases |acts|
  {
    if acts != [] {
      var front, a := acts[..|acts| - 1], acts[|acts| - 1];
      SubmissionsFit(s0, front);
      assert a.Submit? ==> AllFit(a.segs);
      hide Runs, Exec, Enabled, AllFit;
      forall k | 0 <= k < |acts| && acts[k].Submit? ensures AllFit(acts[k].segs) {
        if k < |front| { assert acts[k] == front[k]; }
      }
    }
  }

  lemma RunUnitsFit(s0: State, acts: seq<Action>)
    requires Init(s0) && Runs(s0, acts)
    ensures Inv(Exec(s0, acts)) && UnitsFit(Exec(s0, acts).units)
  {
    RunInvariant(s0, acts);
    InvFits(Exec(s0, acts));
  }

  lemma LastStep(s0: State, acts: seq<Action>)
    requires Runs(s0, acts) && acts != []
    ensures Runs(s0, acts[..|acts| - 1]) && Enabled(Exec(s0, acts[..|acts| - 1]), acts[|acts| - 1])
    ensures Exec(s0, acts) == Do(Exec(s0, acts[..|acts| - 1]), acts[|acts| - 1])
  {}

  lemma {:induction false} UnitsFollowSubmissions(s0: State, acts: seq<Action>, d: nat, b: nat, x: Byte)
    requires Init(s0) && Runs(s0, acts)
    ensures SubmitsFit(acts) && UnitsFit(Exec(s0, acts).units)
    ensures Latest(Exec(s0, acts).units, d, b, false, x) == LastSubmitted(acts, d, b, x)
    decreases |acts|
  {
    hide Inv, Do, Enabled, UnitsFit, SubmitsFit;
    SubmissionsFit(s0, acts);
    RunUnitsFit(s0, acts);
    if acts == [] {
      assert Exec(s0, acts).units == [];
    } else {
      LastStep(s0, acts);
      hide Latest, Runs, Exec, Init;
      var front := acts[..|acts| - 1];
      UnitsFollowSubmissions(s0, front, d, b, x);
      RunUnitsFit(s0, front);
      StepSubmissions(Exec(s0, front), acts[|acts| - 1], d, b, x);
    }
  }

  // ----- the main result

  /** The asynchronous array refines plain disks: however the actors interleave, a quiet system holds
      the data of all submitted pieces as if each had been written at once, in submission order. */
  lemma {:induction false} QuiescentContents(s0: State, acts: seq<Action>, d: nat, b: nat)
    requires Init(s0) && Runs(s0, acts) && Careful(s0, acts) && Quiescent(Exec(s0, acts))
    requires d < |s0.disks| && b < |s0.disks[d]|
    ensures SubmitsFit(acts)
    ensures var s := Exec(s0, acts);
      && |s.disks| == |s0.disks| && |s.disks[d]| == |s0.disks[d]|
      && s.disks[d][b] == LastSubmitted(acts, d, b, s0.disks[d][b])
  {
    var s := Exec(s0, acts);
    DisksFollowLandings(s0, acts);
    UnitsFollowSubmissions(s0, acts, d, b, s0.disks[d][b]);
    RunInvariant(s0, acts);
    forall i | 0 <= i < |s.units| && s.units[i].task.Covers(b)
      ensures Touches(s.units[i], d, b, true) == Touches(s.units[i], d, b, false)
    {
      QuiescentUnits(s, i, b);
    }
    LatestLanded(s.units, d, b, s0.disks[d][b]);
  }

  lemma {:induction false} LatestLanded(units: seq<Unit>, d: nat, b: nat, x: Byte)
    requires UnitsFit(units)
    requires forall i :: 0 <= i < |units| ==> Touches(units[i], d, b, true) == Touches(units[i], d, b, false)
    ensures Latest(units, d, b, true, x) == Latest(units, d, b, false, x)
  {
    if units != [] { LatestLanded(units[..|units| - 1], d, b, x); }
  }
}
