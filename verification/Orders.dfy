/** What the freedom of the actors means for parity: both halves of a write can come first, and the tasks
    of landed writes can be applied in any order, that of overlapping writes included. */
module Orders {
  import opened Bytes
  import opened Parity
  import opened Engine
  import opened Segments
  import opened Machine
  import opened Invariant
  import opened Ledger
  import opened Capture
  import opened Serial
  import opened Theorems
  import opened Progress
  import opened Draining
  import opened Contents
  import opened Freedom

  // ----- either half first

  /** Byte b of unit u has its parity applied and its data not landed. */
  predicate ParityFirst(u: Unit, b: nat) { Reached(u, u.applied, b) && !Reached(u, u.landed, b) }

  /** Byte b of unit u has its data landed and its parity not applied. */
  predicate DataFirst(u: Unit, b: nat) { Reached(u, u.landed, b) && !Reached(u, u.applied, b) }

  lemma ReachedAll(u: Unit, sectors: set<nat>, b: nat)
    requires u.task.Valid() && u.task.Covers(b) && Full(sectors, u.task.Sectors())
    ensures Reached(u, sectors, b)
  {
    assert 512 * u.task.Sectors() == u.task.size;
  }

  /** Every queued unit whose data has not landed can have its parity applied first, at every byte, or its
      data landed first, at every byte: the discrepancy takes both of its forms. */
  lemma {:induction false} EitherHalfFirst(s0: State, acts: seq<Action>, i: nat)
    returns (parity: seq<Action>, data: seq<Action>)
    requires Init(s0) && Runs(s0, acts) && |Exec(s0, acts).units| < U32_RANGE
    requires i < |Exec(s0, acts).units| && Exec(s0, acts).units[i].phase.Queued? && Exec(s0, acts).units[i].landed == {}
    ensures Runs(s0, acts + parity) && i < |Exec(s0, acts + parity).units|
    ensures forall b: nat :: Exec(s0, acts).units[i].task.Covers(b) ==> ParityFirst(Exec(s0, acts + parity).units[i], b)
    ensures Runs(s0, acts + data) && i < |Exec(s0, acts + data).units|
    ensures forall b: nat :: Exec(s0, acts + data).units[i].task.Covers(b) ==>
      DataFirst(Exec(s0, acts + data).units[i], b)
  {
    parity := ParityHalf(s0, acts, i);
    data := DataHalf(s0, acts, i);
  }

  lemma {:induction false} ParityHalf(s0: State, acts: seq<Action>, i: nat) returns (more: seq<Action>)
    requires Init(s0) && Runs(s0, acts) && |Exec(s0, acts).units| < U32_RANGE
    requires i < |Exec(s0, acts).units| && Exec(s0, acts).units[i].phase.Queued? && Exec(s0, acts).units[i].landed == {}
    ensures Runs(s0, acts + more) && i < |Exec(s0, acts + more).units|
    ensures forall b: nat :: Exec(s0, acts).units[i].task.Covers(b) ==> ParityFirst(Exec(s0, acts + more).units[i], b)
  {
    hide Init, Runs, Exec, Inv, Ledgers, SerialInv;
    var order := [i];
    more := AnyPostingOrder(s0, acts, order);
    assert order[0] == i;
    RunInvariant(s0, acts + more);
    var u, u' := Exec(s0, acts).units[i], Exec(s0, acts + more).units[i];
    UnitIsReady(Exec(s0, acts + more), i);
    assert u'.task == u.task && u'.landed == {} && Full(u'.applied, u'.task.Sectors());
    forall b: nat | u.task.Covers(b) ensures ParityFirst(u', b) { ReachedAll(u', u'.applied, b); }
  }

  lemma {:induction false} DataHalf(s0: State, acts: seq<Action>, i: nat) returns (more: seq<Action>)
    requires Init(s0) && Runs(s0, acts)
    requires i < |Exec(s0, acts).units| && Exec(s0, acts).units[i].phase.Queued?
    ensures Runs(s0, acts + more) && i < |Exec(s0, acts + more).units|
    ensures forall b: nat :: Exec(s0, acts + more).units[i].task.Covers(b) ==>
      DataFirst(Exec(s0, acts + more).units[i], b)
  {
    hide Init, Runs, Exec, Inv, Ledgers, SerialInv;
    RunInvariant(s0, acts);
    UnitIsReady(Exec(s0, acts), i);
    NotPosted(Exec(s0, acts), i);
    var p := Exec(s0, acts).units[i].piece;
    more := AnyPieceLands(s0, acts, p);
    RunInvariant(s0, acts + more);
    var s' := Exec(s0, acts + more);
    UnitIsReady(s', i);
    PostedOnce(s');
    var u' := s'.units[i];
    assert u'.applied == {} && Full(u'.landed, u'.task.Sectors());
    forall b: nat | u'.task.Covers(b) ensures DataFirst(u', b) { ReachedAll(u', u'.landed, b); }
  }

  lemma NotPosted(s: State, i: nat)
    requires Inv(s) && i < |s.units| && !s.units[i].phase.Handed?
    ensures i !in s.log
  {
    hide Structure, Token, Counters, AppliedAll, Staged;
  }

  // ----- any order of the tasks

  lemma FreeIsIdle(s: State)
    requires Inv(s) && s.sh.sem == 1
    ensures s.disp.Idle? && s.claimed == |s.log| && s.sh.irq == 0
    ensures forall i :: 0 <= i < |s.units| && i in s.log ==> s.units[i].phase.Handed?
  {
    hide Structure, Counters, AppliedAll, Staged;
  }

  /** When the data of all pieces has landed, the queued tasks can be applied in any order, and every order
      ends in a quiet state whose parity is the xor of the data disks. */
  lemma {:induction false} AnyOrderIsConsistent(s0: State, acts: seq<Action>, order: seq<nat>)
    returns (more: seq<Action>)
    requires Init(s0) && Runs(s0, acts) && Careful(s0, acts) && HostDone(Exec(s0, acts))
    requires |Exec(s0, acts).units| < U32_RANGE && Distinct(order) && AllQueued(Exec(s0, acts), order)
    requires forall i :: 0 <= i < |Exec(s0, acts).units| && Exec(s0, acts).units[i].phase.Queued? ==> i in order
    ensures NoSubmits(more) && Runs(s0, acts + more) && Careful(s0, acts + more)
    ensures var s, s' := Exec(s0, acts), Exec(s0, acts + more);
      && s'.log == s.log + Coming(s) + order && s'.disks == s.disks
      && Quiescent(s') && Consistent(s'.disks, s'.sh.parity)
  {
    hide Init, Runs, Exec, Inv, Ledgers, SerialInv, Careful, Quiescent, Consistent;
    RunInvariant(s0, acts);
    more := AnyPostingOrder(s0, acts, order);
    assert NoSubmits(more);
    RunInvariant(s0, acts + more);
    CarefulExtends(s0, acts, more);
    AllHanded(Exec(s0, acts), Exec(s0, acts + more), order);
    QuiescentConsistency(s0, acts + more);
  }

  lemma AllHanded(s: State, s': State, order: seq<nat>)
    requires Inv(s) && Inv(s') && HostDone(s) && SameHost(s, s') && s'.sh.sem == 1
    requires s'.log == s.log + Coming(s) + order
    requires forall i :: 0 <= i < |s.units| && s.units[i].phase.Queued? ==> i in order
    ensures Quiescent(s')
  {
    FreeIsIdle(s');
    HandedAreLogged(s);
    hide Inv;
    forall i | 0 <= i < |s'.units|
      ensures s'.units[i].phase.Handed? && Full(s'.units[i].landed, s'.units[i].task.Sectors())
    {
      assert i in s'.log;
    }
  }

  lemma HandedAreLogged(s: State)
    requires Inv(s)
    ensures forall i :: 0 <= i < |s.units| && s.units[i].phase.Handed? ==> i in s.log
    ensures forall i :: 0 <= i < |s.units| && s.units[i].phase.Staging? ==> i in Coming(s)
  {
    hide Structure, Counters, AppliedAll, Staged;
    forall i: nat | i < |s.units| && s.units[i].phase.Staging? ensures i in Coming(s) { assert IsStaging(s.units, i); }
  }

  // ----- two writes of one sector, their tasks in reverse

  /** The state once the data of every piece has landed and no task has been taken. */
  ghost predicate Landed(s: State, n: nat) {
    && Inv(s) && HostDone(s) && |s.units| == n && s.log == [] && s.sh.sem == 1
    && forall i :: 0 <= i < |s.units| ==> s.units[i].phase.Queued?
  }

  /** After the pieces so far have landed, one more piece of one segment is submitted and lands. */
  lemma OneMoreLands(s0: State, acts: seq<Action>, page: seq<Byte>, n: nat) returns (longer: seq<Action>)
    requires Init(s0) && Runs(s0, acts) && Careful(s0, acts) && Landed(Exec(s0, acts), n)
    requires |page| == 4096 && |s0.disks| > 0 && |s0.sh.parity| >= 512
    ensures Runs(s0, longer) && Careful(s0, longer) && Landed(Exec(s0, longer), n + 1)
    ensures SubmitsFit(longer) && SubmitsFit(acts)
    ensures forall b: nat, x :: b < 512 ==> LastSubmitted(longer, 0, b, x) == page[b]
  {
    hide Init, Runs, Exec, Careful, Inv, Ledgers, SerialInv, Do, Enabled, Landed, HostDone, Apart, LastSubmitted;
    var s, a := Exec(s0, acts), OneSector(page);
    RunInvariant(s0, acts);
    RunShape(s0, acts);
    OneSectorEnabled(s, page);
    RunStep(s0, acts, a);
    LandedApart(s, a, n);
    assert (acts + [a])[..|acts + [a]| - 1] == acts;
    OneSectorSubmitted(s, page, n);
    StepKeeps(s, a);
    var s1 := Do(s, a);
    var more := PieceAlone(s1, |s.pieces|);
    RunJoin(s0, acts + [a], more);
    longer := acts + [a] + more;
    PieceOnlyIsNoSubmit(s1.units, more, |s.pieces|);
    CarefulExtends(s0, acts + [a], more);
    LandedAgain(s, s1, Exec(s1, more), n);
    SubmissionsFit(s0, acts);
    SubmissionsFit(s0, longer);
    forall b: nat, x | b < 512 ensures LastSubmitted(longer, 0, b, x) == page[b] {
      LastIsPage(acts, page, more, b, x);
    }
  }

  lemma LandedApart(s: State, a: Action, n: nat)
    requires Landed(s, n)
    ensures Apart(s, a)
  {
    if a.Submit? {
      forall i, b: nat | 0 <= i < |s.units| ensures !Pending(s.units[i], b) {
        UnitIsReady(s, i);
        if s.units[i].task.Covers(b) { ReachedAll(s.units[i], s.units[i].landed, b); }
      }
    }
  }

  lemma OneSectorSubmitted(s: State, page: seq<Byte>, n: nat)
    requires |page| == 4096 && Enabled(s, OneSector(page)) && Landed(s, n)
    ensures var s1 := Do(s, OneSector(page));
      && |s1.units| == n + 1 && s1.units[..n] == s.units && s1.units[n].piece == |s.pieces|
      && |s1.pieces| == |s.pieces| + 1 && s1.pieces[..|s.pieces|] == s.pieces && s1.log == [] && s1.sh == s.sh
      && s1.disp == s.disp
  {}

  lemma PieceOnlyIsNoSubmit(units: seq<Unit>, more: seq<Action>, p: nat)
    requires PieceOnly(units, more, p)
    ensures NoSubmits(more)
  {
    forall k | 0 <= k < |more| ensures !more[k].Submit? { assert PieceAct(units, more[k], p); }
  }

  lemma LandedAgain(s: State, s1: State, s2: State, n: nat)
    requires Landed(s, n) && Inv(s2) && OnlyPiece(s1, s2, |s.pieces|) && PieceLanded(s2, |s.pieces|)
    requires |s1.units| == n + 1 && s1.units[..n] == s.units && s1.units[n].piece == |s.pieces|
    requires |s1.pieces| == |s.pieces| + 1 && s1.pieces[..|s.pieces|] == s.pieces && s1.log == [] && s1.sh == s.sh
    ensures Landed(s2, n + 1)
  {
    forall i | 0 <= i < n ensures s2.units[i] == s.units[i] {
      UnitIsReady(s, i);
      assert s1.units[..n][i] == s1.units[i];
    }
    forall p | 0 <= p < |s2.pieces| ensures s2.pieces[p].released {
      if p < |s.pieces| { assert s1.pieces[..|s.pieces|][p] == s1.pieces[p]; }
    }
    UnitIsReady(s2, n);
    PostedOnce(s2);
    NoStaging(s2);
    HandedAreLogged(s2);
    assert Full(s2.units[n].landed, s2.units[n].task.Sectors());
    ReleasedMeansRead(s2, n);
  }

  lemma NoStaging(s: State)
    requires Inv(s) && s.sh.sem == 1
    ensures forall i :: 0 <= i < |s.units| ==> !s.units[i].phase.Staging?
  {
    hide Structure, Counters, AppliedAll, Staged;
    forall i: nat | i < |s.units| ensures !s.units[i].phase.Staging? { assert !IsStaging(s.units, i); }
  }

  lemma OneSectorByte(page: seq<Byte>, b: nat)
    requires |page| == 4096 && b < 512
    ensures var a := OneSector(page);
      AllFit(a.segs) && Claims(a, b) && DataOf(a.segs)[b - AtSector(a.sector)] == page[b]
  {
    var segs := OneSector(page).segs;
    assert Length(segs) == 512 + Length(segs[1..]);
    assert DataOf(segs) == page[0..512] + DataOf(segs[1..]);
  }

  lemma {:induction false} LastIsPage(acts: seq<Action>, page: seq<Byte>, more: seq<Action>, b: nat, x: Byte)
    requires |page| == 4096 && b < 512 && NoSubmits(more) && SubmitsFit(acts + [OneSector(page)] + more)
    ensures LastSubmitted(acts + [OneSector(page)] + more, 0, b, x) == page[b]
    decreases |more|
  {
    var a := OneSector(page);
    var all := acts + [a] + more;
    if more == [] {
      assert all[|all| - 1] == a;
      OneSectorByte(page, b);
    } else {
      var n := |more| - 1;
      assert all[..|all| - 1] == acts + [a] + more[..n] && all[|all| - 1] == more[n];
      LastIsPage(acts, page, more[..n], b, x);
    }
  }

  /** Two writes of one sector, the second submitted when the first's data has landed and its task waits. */
  lemma BothLand(s0: State, p1: seq<Byte>, p2: seq<Byte>) returns (acts: seq<Action>)
    requires Init(s0) && |p1| == |p2| == 4096 && |s0.disks| > 0 && |s0.sh.parity| >= 512
    ensures Runs(s0, acts) && Careful(s0, acts) && Landed(Exec(s0, acts), 2) && SubmitsFit(acts)
    ensures forall b: nat, x :: b < 512 ==> LastSubmitted(acts, 0, b, x) == p2[b]
  {
    hide Init, Runs, Exec, Careful, LastSubmitted, Landed, SubmitsFit;
    NothingSubmittedYet(s0);
    var first := OneMoreLands(s0, [], p1, 0);
    acts := OneMoreLands(s0, first, p2, 1);
  }

  /** What disk 0 holds once all is quiet is what was submitted last. */
  lemma LastHolds(s0: State, acts: seq<Action>, more: seq<Action>, page: seq<Byte>, b: nat)
    requires Init(s0) && Runs(s0, acts + more) && Careful(s0, acts + more) && Quiescent(Exec(s0, acts + more))
    requires NoSubmits(more) && SubmitsFit(acts) && |s0.disks| > 0 && |page| == 4096 && b < 512 <= |s0.disks[0]|
    requires forall x :: LastSubmitted(acts, 0, b, x) == page[b]
    ensures var s := Exec(s0, acts + more);
      |s.disks| == |s0.disks| && |s.disks[0]| == |s0.disks[0]| && s.disks[0][b] == page[b]
  {
    hide Init, Runs, Exec, Careful, Quiescent, LastSubmitted;
    QuiescentContents(s0, acts + more, 0, b);
    SameLast(s0, acts, more, b, s0.disks[0][b]);
  }

  /** Two writes of one sector, the second submitted when the first's data has landed and its task still
      waits; both tasks are then applied, the second one first. The system comes to rest consistent, and
      the disk holds the second write. */
  lemma {:induction false} TwoInReverse(s0: State, p1: seq<Byte>, p2: seq<Byte>) returns (acts: seq<Action>)
    requires Init(s0) && |p1| == |p2| == 4096 && |s0.disks| > 0 && |s0.sh.parity| >= 512
    ensures Runs(s0, acts) && Careful(s0, acts) && Quiescent(Exec(s0, acts)) && Exec(s0, acts).log == [1, 0]
    ensures Consistent(Exec(s0, acts).disks, Exec(s0, acts).sh.parity)
    ensures |Exec(s0, acts).disks| == |s0.disks| && |Exec(s0, acts).disks[0]| == |s0.disks[0]| >= 512
    ensures forall b :: 0 <= b < 512 ==> Exec(s0, acts).disks[0][b] == p2[b]
  {
    hide Init, Runs, Exec, Careful, Quiescent, Consistent, LastSubmitted, HostDone, Landed, Coming, AllQueued, Distinct;
    hide SubmitsFit;
    NothingSubmittedYet(s0);
    var both := BothLand(s0, p1, p2);
    NoneComing(Exec(s0, both));
    var more := AnyOrderIsConsistent(s0, both, [1, 0]);
    acts := both + more;
    LastHolds(s0, both, more, p2, 0);
    forall b: nat | b < 512 ensures Exec(s0, acts).disks[0][b] == p2[b] { LastHolds(s0, both, more, p2, b); }
  }

  lemma NothingSubmittedYet(s0: State)
    requires Init(s0)
    ensures Runs(s0, []) && Careful(s0, []) && Landed(Exec(s0, []), 0)
    ensures forall d :: 0 <= d < |s0.disks| ==> |s0.disks[d]| == |s0.sh.parity|
  {
    InitInv(s0);
    hide Inv;
  }

  lemma NoneComing(s: State)
    requires Landed(s, 2)
    ensures |s.units| == 2 && s.log == [] && Coming(s) == [] && AllQueued(s, [1, 0]) && Distinct([1, 0]) && HostDone(s)
    ensures forall i :: 0 <= i < |s.units| ==> i in [1, 0]
  {
    NothingComing(s);
    hide Inv;
    assert [1, 0][0] == 1 && [1, 0][1] == 0;
  }

  /** Steps that submit nothing leave the last submitted byte. */
  lemma {:induction false} SameLast(s0: State, acts: seq<Action>, more: seq<Action>, b: nat, x: Byte)
    requires Init(s0) && Runs(s0, acts + more) && NoSubmits(more) && SubmitsFit(acts) && SubmitsFit(acts + more)
    ensures LastSubmitted(acts + more, 0, b, x) == LastSubmitted(acts, 0, b, x)
    decreases |more|
  {
    if more == [] {
      assert acts + more == acts;
    } else {
      LastOf(s0, acts, more);
      var n := |more| - 1;
      assert (acts + more)[..|acts + more| - 1] == acts + more[..n] && (acts + more)[|acts + more| - 1] == more[n];
      SubmissionsFit(s0, acts + more[..n]);
      SameLast(s0, acts, more[..n], b, x);
    }
  }
}
