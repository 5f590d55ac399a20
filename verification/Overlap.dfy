/** Writes submitted while others of the same sector are in flight: why submissions must stay clear of
    pending data, and exactly which ones may do without. */
module Overlap {
  import opened Bytes
  import opened Parity
  import opened Engine
  import opened Segments
  import opened Machine
  import opened Invariant
  import opened Ledger
  import opened Capture
  import Theorems
  import opened Progress
  import Contents
  import opened Draining
  import opened ByteView
  import opened ByteSteps

  /** Parity byte b is the xor of the data disks. */
  ghost predicate ConsistentAt(s: State, b: nat) {
    Uniform(s.disks, |s.sh.parity|) && b < |s.sh.parity| && s.sh.parity[b] == Stripe(s.disks, b)
  }

  /** However the protocol drains from here on, byte b ends up consistent. */
  ghost predicate SafeAt(s0: State, acts: seq<Action>, b: nat) {
    forall more :: NoSubmits(more) && Runs(s0, acts + more) && Theorems.Quiescent(Exec(s0, acts + more)) ==>
      ConsistentAt(Exec(s0, acts + more), b)
  }

  /** The byte a submission carries for byte b of its disk. */
  function Carried(a: Action, b: nat): Byte
    requires a.Submit? && AllFit(a.segs) && Claims(a, b)
  {
    DataOf(a.segs)[b - AtSector(a.sector)]
  }

  /** Where a submission meets pending data, both it and that data bring what is on the disk already. */
  ghost predicate Harmless(s: State, a: Action, b: nat)
    requires a.Submit? && AllFit(a.segs) && Fits(s, b) && a.disk < |s.disks|
  {
    Claims(a, b) ==>
      forall i :: 0 <= i < |s.units| && s.units[i].disk == a.disk && Pending(s.units[i], b) ==>
        s.units[i].task.NewAt(b) == s.disks[a.disk][b] == Carried(a, b)
  }

  // ----- a submission at one byte

  /** At most one unit of a new piece covers b, and it carries the piece's byte. */
  lemma NewUnitsAt(p: nat, a: Action, b: nat) returns (k: nat)
    requires a.Submit? && AllFit(a.segs) && AllFit(a.blank) && WholeSectors(a.segs) && SameShape(a.segs, a.blank)
    requires UnitsFit(NewUnits(p, a))
    ensures var us := UnitsAt(NewUnits(p, a), b);
      && (forall q :: 0 <= q < |us| ==> !us[q].read && !us[q].landed && us[q].disk == a.disk)
      && (forall q :: 0 <= q < |us| && us[q].covers ==> Claims(a, b) && q == k)
      && (Claims(a, b) ==> k < |us| && us[k].covers && us[k].data == Carried(a, b))
  {
    var news := NewUnits(p, a);
    k := Contents.NewUnitsTouch(p, a, a.disk, b);
    forall q | 0 <= q < |news| && news[q].task.Covers(b) ensures Claims(a, b) && q == k { NewUnitBytes(p, a, q, b); }
  }

  /** Byte b after a submission: the new units come behind the old ones. */
  lemma SubmitView(s: State, a: Action, b: nat)
    requires Inv(s) && a.Submit? && Enabled(s, a) && b < |s.sh.parity|
    ensures Fits(s, b) && Fits(Do(s, a), b) && UnitsFit(NewUnits(|s.pieces|, a))
    ensures ViewAt(Do(s, a), b) == View(ViewAt(s, b).column, ViewAt(s, b).units + UnitsAt(NewUnits(|s.pieces|, a), b))
  {
    hide Inv, Enabled, UnitAt;
    SubmitKeeps(s, a);
    InvFitsAt(s, b);
    InvFitsAt(Do(s, a), b);
    Contents.NewWrites(s, a);
    var units, news := Do(s, a).units, NewUnits(|s.pieces|, a);
    assert forall q :: 0 <= q < |news| ==> news[q] == units[|s.units| + q];
    assert UnitsAt(units, b) == UnitsAt(s.units, b) + UnitsAt(news, b);
  }

  // ----- continuations at one byte

  lemma {:induction false} SoundRun(s0: State, acts: seq<Action>, more: seq<Action>, b: nat, odd: int)
    requires Init(s0) && Runs(s0, acts) && Runs(s0, acts + more) && NoSubmits(more)
    requires Fits(Exec(s0, acts), b) && Sound(ViewAt(Exec(s0, acts), b), odd)
    ensures Fits(Exec(s0, acts + more), b) && Sound(ViewAt(Exec(s0, acts + more), b), odd)
    ensures 0 <= odd ==> ViewAt(Exec(s0, acts + more), b).units[odd] == ViewAt(Exec(s0, acts), b).units[odd]
    decreases |more|
  {
    hide Inv, Ledgers, Runs, Exec, Do, Enabled, Init, Sound, ViewAt, Fits, Possible, After;
    if more == [] {
      assert acts + more == acts;
    } else {
      LastOf(s0, acts, more);
      var front, a := more[..|more| - 1], more[|more| - 1];
      SoundRun(s0, acts, front, b, odd);
      Theorems.RunInvariant(s0, acts + front);
      OnParity(Exec(s0, acts + front), b);
      var e := StepEffect(Exec(s0, acts + front), a, b);
      AfterSound(ViewAt(Exec(s0, acts + front), b), e, odd);
    }
  }

  lemma OnParity(s: State, b: nat)
    requires Fits(s, b)
    ensures b < |s.sh.parity|
  {}

  /** Running on, without landing anything, until every piece is released. */
  lemma {:induction false} Prepare(s0: State, acts: seq<Action>, b: nat, i: nat, k: nat) returns (more: seq<Action>)
    requires Init(s0) && Runs(s0, acts) && Fits(Exec(s0, acts), b) && Contest(ViewAt(Exec(s0, acts), b), i, k)
    ensures NoSubmits(more) && Runs(s0, acts + more)
    ensures var s, s' := Exec(s0, acts), Exec(s0, acts + more);
      && Fits(s', b) && Contest(ViewAt(s', b), i, k) && ViewAt(s', b).column == ViewAt(s, b).column
      && ViewAt(s', b).units[i].data == ViewAt(s, b).units[i].data
      && ViewAt(s', b).units[k].data == ViewAt(s, b).units[k].data
      && ViewAt(s', b).units[i].disk == ViewAt(s, b).units[i].disk
      && forall p :: 0 <= p < |s'.pieces| ==> s'.pieces[p].released
    decreases Measure(Exec(s0, acts))
  {
    hide Inv, Ledgers, Runs, Exec, Do, Enabled, Init, Measure, ViewAt, Fits, Possible, After;
    assert acts + [] == acts;
    DrainLength(s0, acts, []);
    Theorems.RunInvariant(s0, acts);
    var s := Exec(s0, acts);
    if forall p :: 0 <= p < |s.pieces| ==> s.pieces[p].released {
      more := [];
    } else {
      var a := HostStep(s);
      RunStep(s0, acts, a);
      StepDecreases(s, a);
      OnParity(s, b);
      var e := StepEffect(s, a, b);
      AfterContest(ViewAt(s, b), e, i, k);
      var rest := Prepare(s0, acts + [a], b, i, k);
      more := [a] + rest;
      assert acts + [a] + rest == acts + more;
      forall q | 0 <= q < |more| ensures !more[q].Submit? {
        if q > 0 { assert more[q] == rest[q - 1]; }
      }
    }
  }

  /** A pending byte of a released piece has been read and can land next. */
  lemma CanLand(s: State, i: nat, b: nat) returns (a: Action)
    requires Inv(s) && Fits(s, b) && i < |s.units| && ViewAt(s, b).units[i].Pending()
    requires forall p :: 0 <= p < |s.pieces| ==> s.pieces[p].released
    ensures ViewAt(s, b).units[i].read && Enabled(s, a) && a.Land? && Do(s, a).pieces == s.pieces
    ensures Fits(Do(s, a), b) && Possible(ViewAt(s, b), Lands(i))
    ensures ViewAt(Do(s, a), b) == After(ViewAt(s, b), Lands(i))
  {
    UnitIsReady(s, i);
    ReleasedMeansRead(s, i);
    var t := s.units[i].task;
    assert t.Covers(b);
    a := Land(i, t.SectorOf(b));
    hide Inv, UnitOk, PieceOk;
    assert Enabled(s, a) && Do(s, a).pieces == s.pieces;
    hide Enabled, Do;
    StepKeeps(s, a);
    StepCount(s, a);
    InvFitsAt(Do(s, a), b);
    var e := LandEffect(s, i, t.SectorOf(b), b);
  }

  /** Both rivals land, first and then second. */
  lemma LandBoth(s0: State, acts: seq<Action>, b: nat, first: nat, second: nat) returns (more: seq<Action>)
    requires Init(s0) && Runs(s0, acts) && Fits(Exec(s0, acts), b) && Contest(ViewAt(Exec(s0, acts), b), first, second)
    requires forall p :: 0 <= p < |Exec(s0, acts).pieces| ==> Exec(s0, acts).pieces[p].released
    ensures NoSubmits(more) && Runs(s0, acts + more) && Fits(Exec(s0, acts + more), b)
    ensures var v, v' := ViewAt(Exec(s0, acts), b), ViewAt(Exec(s0, acts + more), b);
      Sound(v', second) && Gap(v'.units[second]) == ByteXor(v.column[v.units[first].disk], v.units[first].data)
  {
    hide Inv, Ledgers, Runs, Exec, Do, Enabled, Init, ViewAt, Fits, Fresh, Replaced;
    Theorems.RunInvariant(s0, acts);
    var s := Exec(s0, acts);
    UnitForUnit(s, b);
    var a1 := CanLand(s, first, b);
    var wasRead := CanLand(s, second, b);
    TwoLandings(ViewAt(s, b), first, second);
    RunStep(s0, acts, a1);
    Theorems.RunInvariant(s0, acts + [a1]);
    var a2 := CanLand(Exec(s0, acts + [a1]), second, b);
    RunStep(s0, acts + [a1], a2);
    more := [a1, a2];
    assert acts + [a1] + [a2] == acts + more;
  }

  lemma UnitForUnit(s: State, b: nat)
    requires Fits(s, b)
    ensures |ViewAt(s, b).units| == |s.units|
  {}

  // ----- quiet states at one byte

  /** In a quiet state nothing is pending, and byte b is consistent exactly when the misses cancel out. */
  lemma QuietView(s0: State, acts: seq<Action>, b: nat)
    requires Init(s0) && Runs(s0, acts) && Theorems.Quiescent(Exec(s0, acts)) && Fits(Exec(s0, acts), b)
    ensures var s := Exec(s0, acts);
      && (forall i :: 0 <= i < |ViewAt(s, b).units| ==> !ViewAt(s, b).units[i].Pending())
      && (ConsistentAt(s, b) <==> XorSum(Gaps(ViewAt(s, b))) == 0)
  {
    Theorems.RunInvariant(s0, acts);
    Theorems.QuiescentExactly(s0, acts, b);
    var s := Exec(s0, acts);
    hide Ledgers, Runs, Exec, Init;
    forall i | 0 <= i < |s.units| && s.units[i].task.Covers(b) ensures !ViewAt(s, b).units[i].Pending() {
      Theorems.QuiescentUnits(s, i, b);
    }
    GapsAreMisses(s, b);
  }

  lemma GapsAreMisses(s: State, b: nat)
    requires Fits(s, b)
    ensures Theorems.Misses(s.units, b) == Gaps(ViewAt(s, b))
  {
    XorSelf(0);
    assert |Gaps(ViewAt(s, b))| == |s.units|;
  }

  // ----- the exact condition

  /** Two continuations without submissions make one. */
  lemma Continue(acts: seq<Action>, m1: seq<Action>, m2: seq<Action>)
    requires NoSubmits(m1) && NoSubmits(m2)
    ensures NoSubmits(m1 + m2) && acts + m1 + m2 == acts + (m1 + m2)
  {}

  /** Both rivals read, first lands, then second. */
  lemma StaleLanding(s0: State, acts: seq<Action>, b: nat, first: nat, second: nat) returns (more: seq<Action>)
    requires Init(s0) && Runs(s0, acts) && Fits(Exec(s0, acts), b)
    requires Contest(ViewAt(Exec(s0, acts), b), first, second)
    ensures NoSubmits(more) && Runs(s0, acts + more) && Fits(Exec(s0, acts + more), b)
    ensures var v, v' := ViewAt(Exec(s0, acts), b), ViewAt(Exec(s0, acts + more), b);
      Sound(v', second) && Gap(v'.units[second]) == ByteXor(v.column[v.units[first].disk], v.units[first].data)
  {
    hide Runs, Exec, Init, ViewAt, Fits, Contest, Sound, NoSubmits;
    var prepared := Prepare(s0, acts, b, first, second);
    var landed := LandBoth(s0, acts + prepared, b, first, second);
    Continue(acts, prepared, landed);
    more := prepared + landed;
  }

  /** A run drained from a state with one missing snapshot ends inconsistent. */
  lemma StaleDrain(s0: State, acts: seq<Action>, b: nat, odd: nat) returns (more: seq<Action>)
    requires Init(s0) && Runs(s0, acts) && |Exec(s0, acts).units| < U32_RANGE
    requires Fits(Exec(s0, acts), b) && Sound(ViewAt(Exec(s0, acts), b), odd)
    requires Gap(ViewAt(Exec(s0, acts), b).units[odd]) != 0
    ensures NoSubmits(more) && Runs(s0, acts + more) && Theorems.Quiescent(Exec(s0, acts + more))
    ensures !ConsistentAt(Exec(s0, acts + more), b)
  {
    hide Runs, Exec, Init, ViewAt, Fits, ConsistentAt, Theorems.Quiescent, Sound, Blocked, NoSubmits, Gap, Gaps;
    more := Drain(s0, acts);
    RunCount(s0, acts, more);
    DrainsExactly(s0, acts + more);
    SoundRun(s0, acts, more, b, odd);
    QuietView(s0, acts + more, b);
    SoundGaps(ViewAt(Exec(s0, acts + more), b), odd);
  }

  /** A schedule that breaks byte b: both rivals read, first lands, then second; then all drains. */
  lemma BreakingRun(s0: State, acts: seq<Action>, b: nat, first: nat, second: nat) returns (more: seq<Action>)
    requires Init(s0) && Runs(s0, acts) && |Exec(s0, acts).units| < U32_RANGE
    requires Fits(Exec(s0, acts), b) && Contest(ViewAt(Exec(s0, acts), b), first, second)
    requires var v := ViewAt(Exec(s0, acts), b); v.units[first].data != v.column[v.units[first].disk]
    ensures NoSubmits(more) && Runs(s0, acts + more) && Theorems.Quiescent(Exec(s0, acts + more))
    ensures !ConsistentAt(Exec(s0, acts + more), b)
  {
    var v := ViewAt(Exec(s0, acts), b);
    XorIsZero(v.column[v.units[first].disk], v.units[first].data);
    hide Runs, Exec, Init, ViewAt, Fits, ConsistentAt, Theorems.Quiescent, Contest, Sound, NoSubmits, Gap;
    var stale := StaleLanding(s0, acts, b, first, second);
    RunCount(s0, acts, stale);
    var drained := StaleDrain(s0, acts + stale, b, second);
    Continue(acts, stale, drained);
    more := stale + drained;
  }

  /** A sound byte stays safe whatever comes. */
  lemma SoundIsSafe(s0: State, acts: seq<Action>, b: nat)
    requires Init(s0) && Runs(s0, acts) && Fits(Exec(s0, acts), b) && Sound(ViewAt(Exec(s0, acts), b), -1)
    ensures SafeAt(s0, acts, b)
  {
    hide Runs, Exec, Init, ViewAt, Fits, ConsistentAt, Theorems.Quiescent, Sound;
    forall more | NoSubmits(more) && Runs(s0, acts + more) && Theorems.Quiescent(Exec(s0, acts + more))
      ensures ConsistentAt(Exec(s0, acts + more), b)
    {
      SoundRun(s0, acts, more, b, -1);
      QuietView(s0, acts + more, b);
      SoundGaps(ViewAt(Exec(s0, acts + more), b), -1);
    }
  }

  /** Unit i does not wait for byte b of the disk, or it and the new byte bring what is there. */
  predicate Agrees(u: ByteUnit, disk: nat, there: Byte, brought: Byte) {
    u.disk == disk && u.Pending() ==> u.data == there == brought
  }

  lemma HarmlessView(s: State, a: Action, b: nat)
    requires a.Submit? && AllFit(a.segs) && Fits(s, b) && a.disk < |s.disks| && Claims(a, b)
    ensures Harmless(s, a, b) <==>
      forall i :: 0 <= i < |s.units| ==>
        Agrees(ViewAt(s, b).units[i], a.disk, ViewAt(s, b).column[a.disk], Carried(a, b))
  {
    hide Carried;
    assert ViewAt(s, b).column[a.disk] == s.disks[a.disk][b];
    forall i | 0 <= i < |s.units|
      ensures ViewAt(s, b).units[i].Pending() <==> Pending(s.units[i], b)
      ensures ViewAt(s, b).units[i].disk == s.units[i].disk
      ensures Pending(s.units[i], b) ==> ViewAt(s, b).units[i].data == s.units[i].task.NewAt(b)
    {}
  }

  /** Byte b around a submission after a careful run. */
  lemma {:induction false} SubmitNews(s0: State, acts: seq<Action>, a: Action, b: nat)
    returns (news: seq<ByteUnit>, k: nat)
    requires Init(s0) && Runs(s0, acts) && Theorems.Careful(s0, acts) && a.Submit? && Enabled(Exec(s0, acts), a)
    requires b < |Exec(s0, acts).sh.parity|
    ensures Runs(s0, acts + [a]) && |Exec(s0, acts + [a]).units| == |Exec(s0, acts).units| + |a.segs|
    ensures AllFit(a.segs) && a.disk < |Exec(s0, acts).disks|
    ensures Fits(Exec(s0, acts), b) && Fits(Exec(s0, acts + [a]), b)
    ensures var v := ViewAt(Exec(s0, acts), b);
      && Calm(v) && News(v, news, a.disk, k)
      && ViewAt(Exec(s0, acts + [a]), b) == View(v.column, v.units + news)
      && (Claims(a, b) <==> k < |news| && news[k].covers)
      && (Claims(a, b) ==> news[k].data == Carried(a, b))
  {
    hide Runs, Exec, Init, Theorems.Careful, Inv, CaptureInv, Do, Calm, ViewAt, UnitsAt, Carried;
    Theorems.CarefulInvariant(s0, acts);
    var s := Exec(s0, acts);
    RunStep(s0, acts, a);
    StepCount(s, a);
    CaptureCalm(s, b);
    assert a.disk < |s.disks|;
    hide Enabled, Fits;
    SubmitView(s, a, b);
    Contents.NewWrites(s, a);
    news := UnitsAt(NewUnits(|s.pieces|, a), b);
    k := NewUnitsAt(|s.pieces|, a, b);
    NewsOf(s, a, b, k);
  }

  /** After any careful run, a submission keeps byte b safe whatever the schedule if and only if it is
      harmless there: clear of all pending data, or both it and the data pending bring what is there. */
  lemma {:induction false} SubmitExactly(s0: State, acts: seq<Action>, a: Action, b: nat)
    requires Init(s0) && Runs(s0, acts) && Theorems.Careful(s0, acts) && a.Submit? && Enabled(Exec(s0, acts), a)
    requires b < |Exec(s0, acts).sh.parity| && |Exec(s0, acts).units| + |a.segs| < U32_RANGE
    ensures Runs(s0, acts + [a]) && AllFit(a.segs) && Fits(Exec(s0, acts), b) && a.disk < |Exec(s0, acts).disks|
    ensures SafeAt(s0, acts + [a], b) <==> Harmless(Exec(s0, acts), a, b)
  {
    hide Runs, Exec, Init, Theorems.Careful, SafeAt, Enabled, Calm, Contest, Sound, ViewAt, Carried;
    var s := Exec(s0, acts);
    var news, k := SubmitNews(s0, acts, a, b);
    var v := ViewAt(s, b);
    assert Claims(a, b) || Harmless(s, a, b);
    hide Harmless, Fits;
    if Claims(a, b) { HarmlessView(s, a, b); }
    if Harmless(s, a, b) {
      JoinSound(v, news, a.disk, k);
      SoundIsSafe(s0, acts + [a], b);
    } else {
      var i: nat :| i < |v.units| && !Agrees(v.units[i], a.disk, v.column[a.disk], Carried(a, b));
      JoinContest(v, news, a.disk, k, i);
      var more := BreakingSubmit(s0, acts + [a], b, i, |v.units| + k);
      Unsafe(s0, acts + [a], more, b);
    }
  }

  /** If either rival brings something new, landing that one first breaks byte b. */
  lemma BreakingSubmit(s0: State, acts: seq<Action>, b: nat, i: nat, k: nat) returns (more: seq<Action>)
    requires Init(s0) && Runs(s0, acts) && |Exec(s0, acts).units| < U32_RANGE
    requires Fits(Exec(s0, acts), b) && Contest(ViewAt(Exec(s0, acts), b), i, k)
    requires var v := ViewAt(Exec(s0, acts), b);
      !(v.units[i].data == v.column[v.units[i].disk] == v.units[k].data)
    ensures NoSubmits(more) && Runs(s0, acts + more) && Theorems.Quiescent(Exec(s0, acts + more))
    ensures !ConsistentAt(Exec(s0, acts + more), b)
  {
    var v := ViewAt(Exec(s0, acts), b);
    assert v.units[i].disk == v.units[k].disk;
    var brings := v.units[i].data != v.column[v.units[i].disk];
    hide Runs, Exec, Init, ViewAt, Fits, Contest, ConsistentAt, Theorems.Quiescent;
    if brings {
      more := BreakingRun(s0, acts, b, i, k);
    } else {
      ContestFlips(v, i, k);
      more := BreakingRun(s0, acts, b, k, i);
    }
  }

  lemma Unsafe(s0: State, acts: seq<Action>, more: seq<Action>, b: nat)
    requires NoSubmits(more) && Runs(s0, acts + more) && Theorems.Quiescent(Exec(s0, acts + more))
    requires !ConsistentAt(Exec(s0, acts + more), b)
    ensures !SafeAt(s0, acts, b)
  {}

  lemma NewsOf(s: State, a: Action, b: nat, k: nat)
    requires a.Submit? && Enabled(s, a) && Fits(s, b) && Fits(Do(s, a), b) && UnitsFit(NewUnits(|s.pieces|, a))
    requires ViewAt(Do(s, a), b) == View(ViewAt(s, b).column, ViewAt(s, b).units + UnitsAt(NewUnits(|s.pieces|, a), b))
    requires var us := UnitsAt(NewUnits(|s.pieces|, a), b);
      forall q :: 0 <= q < |us| ==> !us[q].read && !us[q].landed && us[q].disk == a.disk && (us[q].covers ==> q == k)
    ensures News(ViewAt(s, b), UnitsAt(NewUnits(|s.pieces|, a), b), a.disk, k)
  {
    hide Do, UnitAt;
  }

  /** The smallest case: of two one-sector writes submitted back to back, every byte both leave alone is
      safe, and every other byte can be broken. */
  lemma TwoWrites(s0: State, p1: seq<Byte>, p2: seq<Byte>, b: nat)
    requires Init(s0) && |p1| == |p2| == 4096 && |s0.disks| > 0 && |s0.sh.parity| >= 512 && b < 512
    ensures Runs(s0, [OneSector(p1), OneSector(p2)]) && b < |s0.disks[0]|
    ensures SafeAt(s0, [OneSector(p1), OneSector(p2)], b) <==> p1[b] == s0.disks[0][b] == p2[b]
  {
    hide Runs, Exec, Theorems.Careful, SafeAt, Harmless, Do, Enabled, Init, OneSector, Fits;
    var a1, a2 := OneSector(p1), OneSector(p2);
    FirstWrite(s0, p1, p2);
    SubmitExactly(s0, [a1], a2, b);
    assert [a1] + [a2] == [a1, a2];
    FirstPending(s0, p1, p2, b);
  }

  lemma FirstWrite(s0: State, p1: seq<Byte>, p2: seq<Byte>)
    requires Init(s0) && |p1| == |p2| == 4096 && |s0.disks| > 0 && |s0.sh.parity| >= 512
    ensures var a1, a2 := OneSector(p1), OneSector(p2);
      && Enabled(s0, a1) && Runs(s0, [a1]) && Exec(s0, [a1]) == Do(s0, a1) && Theorems.Careful(s0, [a1])
      && a2.Submit? && Enabled(Do(s0, a1), a2) && |a2.segs| == 1
      && |Do(s0, a1).units| == 1 && |Do(s0, a1).sh.parity| == |s0.sh.parity|
  {
    var a1 := OneSector(p1);
    InitInv(s0);
    assert s0.units == [];
    assert Apart(s0, a1);
    OneSectorEnabled(s0, p1);
    hide Inv, Do, Enabled, Apart, Init;
    assert [a1][..0] == [];
    assert Runs(s0, []) && Exec(s0, []) == s0 && Theorems.Careful(s0, []);
    assert Runs(s0, [a1]);
    StepKeeps(s0, a1);
    StepCount(s0, a1);
    OneSectorEnabled(Do(s0, a1), p2);
  }

  lemma FirstPending(s0: State, p1: seq<Byte>, p2: seq<Byte>, b: nat)
    requires Init(s0) && |p1| == |p2| == 4096 && |s0.disks| > 0 && |s0.sh.parity| >= 512 && b < 512
    requires Enabled(s0, OneSector(p1)) && Fits(Do(s0, OneSector(p1)), b)
    ensures AllFit(OneSector(p2).segs) && b < |s0.disks[0]|
    ensures Harmless(Do(s0, OneSector(p1)), OneSector(p2), b) <==> p1[b] == s0.disks[0][b] == p2[b]
  {
    var a1, a2 := OneSector(p1), OneSector(p2);
    var s := Do(s0, a1);
    assert |s0.disks[0]| == |s0.sh.parity|;
    assert s.units[0].task == Task(p1, p1, 0, 0, 512) && s.units[0].disk == 0 && s.units[0].landed == {};
    assert Pending(s.units[0], b) && s.units[0].task.NewAt(b) == p1[b];
    assert Length(a2.segs) == 512 + Length([]);
    assert DataOf(a2.segs) == p2[0..512] + DataOf(a2.segs[1..]);
    assert Claims(a2, b) && Carried(a2, b) == p2[b];
  }
}
