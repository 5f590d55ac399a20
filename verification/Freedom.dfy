/** No actor waits for one it does not depend on: workers and dispatcher run whatever the disks do, every
    piece's data lands whatever the engine does, disks finish in any order, and queued tasks are posted in
    any order. */
module Freedom {
  import opened Bytes
  import opened Parity
  import opened Engine
  import opened Segments
  import opened Machine
  import opened Invariant
  import opened Ledger
  import opened Serial
  import opened Theorems
  import opened Progress
  import opened Draining

  // ----- workers and dispatcher alone

  /** A step of a worker, of the dispatcher or of the interrupt handler. */
  predicate EngineAct(a: Action) {
    || a.Acquire? || a.Work? || a.PostWork? || a.ClaimWork? || a.Dispatch? || a.WriteSector? || a.Signal?
    || a.Interrupt?
  }

  ghost predicate EngineOnly(acts: seq<Action>) {
    forall k :: 0 <= k < |acts| ==> EngineAct(acts[k])
  }

  /** What the host's side sees is the same: disks, pieces, pages, what has been read and what has landed. */
  ghost predicate SameHost(s: State, s': State) {
    && s'.disks == s.disks && s'.pieces == s.pieces && |s'.units| == |s.units|
    && forall i :: 0 <= i < |s.units| ==>
         s'.units[i].(phase := s.units[i].phase, applied := s.units[i].applied) == s.units[i]
  }

  /** The unit whose worker is at work, which is the next to be posted. */
  function Coming(s: State): seq<nat> {
    if s.holder < |s.units| && s.units[s.holder].phase.Staging? then [s.holder] else []
  }

  lemma EngineFrame(s: State, a: Action)
    requires Enabled(s, a) && EngineAct(a)
    ensures SameHost(s, Do(s, a))
    ensures forall i :: 0 <= i < |s.units| ==>
      (Do(s, a).units[i].phase.Queued? <==> s.units[i].phase.Queued? && a != Acquire(i))
  {
    hide HasWork, InBounds;
  }

  /** While the token is away from the semaphore, the engine has a step that does not take it. */
  lemma SettleStep(s: State) returns (a: Action)
    requires Inv(s) && s.sh.sem == 0 && |s.units| < U32_RANGE
    ensures Enabled(s, a) && EngineAct(a) && !a.Acquire?
    ensures Do(s, a).log + Coming(Do(s, a)) == s.log + Coming(s)
  {
    LogWithinUnits(s);
    EngineFacts(s);
    if s.sh.irq > 0 {
      a := Interrupt;
      hide Inv;
    } else if IsStaging(s.units, s.holder) {
      hide Inv, Counters;
      a := if s.units[s.holder].phase.step < 5 then Work(s.holder) else PostWork(s.holder);
    } else if !s.disp.Idle? {
      a := BusyStep(s);
    } else {
      CounterDifference(|s.log|, s.claimed);
      a := ClaimWork;
      hide Inv;
    }
  }

  lemma BusyStep(s: State) returns (a: Action)
    requires Inv(s) && !s.disp.Idle?
    ensures Enabled(s, a) && EngineAct(a) && !a.Acquire?
    ensures Do(s, a).log + Coming(Do(s, a)) == s.log + Coming(s)
  {
    LoadedUnit(s);
    a := DispatcherStep(s);
    hide Inv, InBounds, HasWork, UnitOk, Working, StagedUpTo;
  }

  /** What a stretch of engine steps leaves of a state: the host's side, the waiting units, and the log
      grown by the given posts. */
  ghost predicate Posted(s: State, s': State, posts: seq<nat>) {
    && Inv(s') && SameHost(s, s') && s'.log == s.log + posts
    && forall i :: 0 <= i < |s.units| ==>
         (s'.units[i].phase.Queued? <==> s.units[i].phase.Queued? && i !in posts)
  }

  /** The engine runs on, taking no further task, until the semaphore is free again. */
  lemma {:induction false} Settle(s: State) returns (more: seq<Action>)
    requires Inv(s) && |s.units| < U32_RANGE
    ensures EngineOnly(more) && Runs(s, more) && Posted(s, Exec(s, more), Coming(s)) && Exec(s, more).sh.sem == 1
    decreases Measure(s)
  {
    hide Inv, Runs, Exec, Do, Enabled, Measure, SameHost;
    SemaphoreIsBinary(s);
    if s.sh.sem == 0 {
      var a := SettleStep(s);
      StepDecreases(s, a);
      MeasureIsNatural(s);
      StepKeeps(s, a);
      EngineFrame(s, a);
      SameCount(s, Do(s, a));
      var rest := Settle(Do(s, a));
      RunCons(s, a, rest);
      more := [a] + rest;
      ComingIsStaging(s);
      ComingIsStaging(Do(s, a));
      SameHostTwice(s, Do(s, a), Exec(s, more));
      SettledPosts(s, a, Exec(s, more));
    } else {
      more := [];
      RunsNothing(s);
      NothingComing(s);
    }
  }

  lemma RunsNothing(s: State)
    ensures Runs(s, []) && Exec(s, []) == s && SameHost(s, s)
  {}

  lemma SemaphoreIsBinary(s: State)
    requires Inv(s)
    ensures s.sh.sem <= 1
  {
    hide Structure, Staged, Logged, AppliedAll, Counters;
  }

  lemma NothingComing(s: State)
    requires Inv(s) && s.sh.sem > 0
    ensures Coming(s) == []
  {
    hide Structure, Staged, Logged, AppliedAll, Counters;
  }

  lemma ComingIsStaging(s: State)
    ensures forall i :: i in Coming(s) ==> i < |s.units| && s.units[i].phase.Staging?
  {}

  lemma SameCount(s: State, s': State)
    requires SameHost(s, s')
    ensures |s'.units| == |s.units|
  {}

  lemma SameHostTwice(s: State, s': State, s'': State)
    requires SameHost(s, s') && SameHost(s', s'')
    ensures SameHost(s, s'')
  {}

  lemma SettledPosts(s: State, a: Action, s'': State)
    requires Enabled(s, a) && EngineAct(a) && !a.Acquire? && |Do(s, a).units| == |s.units| == |s''.units|
    requires Do(s, a).log + Coming(Do(s, a)) == s.log + Coming(s)
    requires forall i :: 0 <= i < |s.units| ==> (Do(s, a).units[i].phase.Queued? <==> s.units[i].phase.Queued?)
    requires s''.log == Do(s, a).log + Coming(Do(s, a))
    requires forall i :: 0 <= i < |s.units| ==>
      (s''.units[i].phase.Queued? <==> Do(s, a).units[i].phase.Queued? && i !in Coming(Do(s, a)))
    ensures s''.log == s.log + Coming(s)
    ensures forall i :: 0 <= i < |s.units| ==>
      (s''.units[i].phase.Queued? <==> s.units[i].phase.Queued? && i !in Coming(s))
  {
    hide Do, Enabled;
  }

  /** With the semaphore free, any one queued task can be posted and applied next. */
  lemma PostNext(s: State, i: nat) returns (more: seq<Action>)
    requires Inv(s) && |s.units| < U32_RANGE && s.sh.sem == 1 && i < |s.units| && s.units[i].phase.Queued?
    ensures EngineOnly(more) && Runs(s, more) && Posted(s, Exec(s, more), [i]) && Exec(s, more).sh.sem == 1
  {
    hide Inv, Runs, Exec, Measure, SameHost;
    var a := Acquire(i);
    assert Enabled(s, a) && Coming(Do(s, a)) == [i] && Do(s, a).log == s.log;
    StepKeeps(s, a);
    EngineFrame(s, a);
    hide Do, Enabled;
    SameCount(s, Do(s, a));
    var rest := Settle(Do(s, a));
    RunCons(s, a, rest);
    more := [a] + rest;
    SameHostTwice(s, Do(s, a), Exec(s, more));
  }

  ghost predicate Distinct(order: seq<nat>) {
    forall k, l :: 0 <= k < l < |order| ==> order[k] != order[l]
  }

  ghost predicate AllQueued(s: State, order: seq<nat>) {
    forall k :: 0 <= k < |order| ==> order[k] < |s.units| && s.units[order[k]].phase.Queued?
  }

  lemma {:induction false} PostInOrder(s: State, order: seq<nat>) returns (more: seq<Action>)
    requires Inv(s) && |s.units| < U32_RANGE && s.sh.sem == 1 && Distinct(order) && AllQueued(s, order)
    ensures EngineOnly(more) && Runs(s, more) && Posted(s, Exec(s, more), order) && Exec(s, more).sh.sem == 1
    decreases |order|
  {
    hide Inv, Runs, Exec, SameHost, EngineOnly, Posted;
    if order == [] {
      more := [];
      RunsNothing(s);
      NothingPosted(s);
    } else {
      var first := PostNext(s, order[0]);
      var s' := Exec(s, first);
      PostedFirst(s, s', order);
      var rest := PostInOrder(s', order[1..]);
      RunJoin(s, first, rest);
      more := first + rest;
      PostedBoth(s, s', Exec(s, more), order);
      EngineBoth(first, rest);
    }
  }

  lemma NothingPosted(s: State)
    requires Inv(s)
    ensures Posted(s, s, []) && EngineOnly([])
  {
    hide Inv;
  }

  lemma EngineBoth(first: seq<Action>, rest: seq<Action>)
    requires EngineOnly(first) && EngineOnly(rest)
    ensures EngineOnly(first + rest)
  {}

  lemma PostedFirst(s: State, s': State, order: seq<nat>)
    requires order != [] && Distinct(order) && AllQueued(s, order) && Posted(s, s', [order[0]])
    ensures Inv(s') && |s'.units| == |s.units| && Distinct(order[1..]) && AllQueued(s', order[1..])
  {
    hide Inv;
  }

  lemma PostedBoth(s: State, s': State, s'': State, order: seq<nat>)
    requires order != [] && Posted(s, s', [order[0]]) && Posted(s', s'', order[1..])
    ensures Posted(s, s'', order)
  {
    hide Inv, SameHost;
    SameCount(s, s');
    SameHostTwice(s, s', s'');
    assert [order[0]] + order[1..] == order;
  }

  /** Everything posted has been applied when the semaphore is free. */
  lemma FreeMeansApplied(s: State)
    requires Inv(s) && s.sh.sem == 1
    ensures forall k :: 0 <= k < |s.log| ==>
      s.log[k] < |s.units| && Full(s.units[s.log[k]].applied, s.units[s.log[k]].task.Sectors())
  {
    assert !Loaded(s) by { hide Structure, Staged, Logged, AppliedAll, Counters; }
    PostedOnce(s);
    hide Inv;
  }

  /** From every reachable state, and whatever the disks and the host do meanwhile, the engine can post the
      queued tasks in any order at all, and apply each of them completely: no data has to land first. */
  lemma {:induction false} AnyPostingOrder(s0: State, acts: seq<Action>, order: seq<nat>) returns (more: seq<Action>)
    requires Init(s0) && Runs(s0, acts) && |Exec(s0, acts).units| < U32_RANGE
    requires Distinct(order) && AllQueued(Exec(s0, acts), order)
    ensures EngineOnly(more) && Runs(s0, acts + more)
    ensures var s, s' := Exec(s0, acts), Exec(s0, acts + more);
      && SameHost(s, s') && s'.log == s.log + Coming(s) + order && s'.sh.sem == 1
      && forall k :: 0 <= k < |order| ==> Full(s'.units[order[k]].applied, s'.units[order[k]].task.Sectors())
  {
    hide Inv, Ledgers, SerialInv, Runs, Exec, Init, SameHost;
    RunInvariant(s0, acts);
    var s := Exec(s0, acts);
    var settled := Settle(s);
    var s1 := Exec(s, settled);
    SameCount(s, s1);
    ComingIsStaging(s);
    var posted := PostInOrder(s1, order);
    RunJoin(s, settled, posted);
    more := settled + posted;
    RunJoin(s0, acts, more);
    var s' := Exec(s, more);
    SameHostTwice(s, s1, s');
    FreeMeansApplied(s');
    forall k | 0 <= k < |order| ensures Full(s'.units[order[k]].applied, s'.units[order[k]].task.Sectors()) {
      assert s'.log[|s1.log| + k] == order[k];
    }
  }

  // ----- one piece alone

  /** A step of the disks or of the end-io for piece p. */
  predicate PieceAct(units: seq<Unit>, a: Action, p: nat) {
    match a
    case ReadSector(i, _) => i < |units| && units[i].piece == p
    case Land(i, _) => i < |units| && units[i].piece == p
    case Enqueue(q) => q == p
    case Release(q) => q == p
    case _ => false
  }

  /** The data write of piece p has been released and has landed completely. */
  ghost predicate PieceLanded(s: State, p: nat) {
    && p < |s.pieces| && s.pieces[p].released
    && forall i :: 0 <= i < |s.units| && s.units[i].piece == p ==> Full(s.units[i].landed, s.units[i].task.Sectors())
  }

  /** Nothing but piece p and its disk has moved. */
  ghost predicate OnlyPiece(s: State, s': State, p: nat) {
    && s'.sh == s.sh && s'.disp == s.disp && s'.log == s.log && s'.claimed == s.claimed && s'.holder == s.holder
    && |s'.units| == |s.units| && |s'.pieces| == |s.pieces|
    && (forall q :: 0 <= q < |s.pieces| && q != p ==> s'.pieces[q] == s.pieces[q])
    && (forall i :: 0 <= i < |s.units| ==>
          s'.units[i].piece == s.units[i].piece && (s.units[i].piece != p ==> s'.units[i] == s.units[i]))
  }

  lemma PieceFrame(s: State, a: Action, p: nat)
    requires Inv(s) && Enabled(s, a) && PieceAct(s.units, a, p)
    ensures OnlyPiece(s, Do(s, a), p)
  {
    if a.Enqueue? { assert PieceOk(s.pieces[p], p, s.units); }
    hide Inv, UnitOk;
  }

  /** Short of having landed, a piece has a step of its own. */
  lemma PieceAloneStep(s: State, p: nat) returns (a: Action)
    requires Inv(s) && p < |s.pieces| && !PieceLanded(s, p)
    ensures Enabled(s, a) && PieceAct(s.units, a, p)
  {
    if i :| 0 <= i < |s.units| && s.units[i].piece == p && !Full(s.units[i].read, s.units[i].task.Sectors()) {
      UnitIsReady(s, i);
      hide Inv;
      var j :| 0 <= j < s.units[i].task.Sectors() && j !in s.units[i].read;
      a := ReadSector(i, j);
    } else if !s.pieces[p].released {
      assert PieceOk(s.pieces[p], p, s.units);
      hide Inv;
      a := if s.pieces[p].queued < s.pieces[p].count then Enqueue(p) else Release(p);
    } else {
      var i :| 0 <= i < |s.units| && s.units[i].piece == p && !Full(s.units[i].landed, s.units[i].task.Sectors());
      UnitIsReady(s, i);
      hide Inv;
      var j :| 0 <= j < s.units[i].task.Sectors() && j !in s.units[i].landed;
      a := Land(i, j);
    }
  }

  ghost predicate PieceOnly(units: seq<Unit>, acts: seq<Action>, p: nat) {
    forall k :: 0 <= k < |acts| ==> PieceAct(units, acts[k], p)
  }

  lemma PieceOnlyCons(s: State, s': State, a: Action, rest: seq<Action>, p: nat)
    requires OnlyPiece(s, s', p) && PieceAct(s.units, a, p) && PieceOnly(s'.units, rest, p)
    ensures PieceOnly(s.units, [a] + rest, p)
  {
    forall k | 0 <= k < |[a] + rest| ensures PieceAct(s.units, ([a] + rest)[k], p) {
      if k > 0 { assert ([a] + rest)[k] == rest[k - 1] && PieceAct(s'.units, rest[k - 1], p); }
    }
  }

  /** Whatever worker, dispatcher and the other pieces do or leave undone, a piece can read its old data,
      queue its tasks, be released and land completely, by steps of its own. */
  lemma {:induction false} PieceAlone(s: State, p: nat) returns (more: seq<Action>)
    requires Inv(s) && p < |s.pieces|
    ensures PieceOnly(s.units, more, p) && Runs(s, more) && Inv(Exec(s, more))
    ensures OnlyPiece(s, Exec(s, more), p) && PieceLanded(Exec(s, more), p)
    decreases Measure(s)
  {
    hide Inv, Runs, Exec, Do, Enabled, Measure, PieceLanded, OnlyPiece, PieceOnly, PieceAct;
    if PieceLanded(s, p) {
      more := [];
      RunsNothing(s);
      OnlyNothing(s, p);
    } else {
      var a := PieceAloneStep(s, p);
      NotSubmit(s, a, p);
      StepDecreases(s, a);
      MeasureIsNatural(s);
      StepKeeps(s, a);
      PieceFrame(s, a, p);
      OnlyPieceTwice(s, Do(s, a), Do(s, a), p);
      var rest := PieceAlone(Do(s, a), p);
      RunCons(s, a, rest);
      more := [a] + rest;
      OnlyPieceTwice(s, Do(s, a), Exec(s, more), p);
      PieceOnlyCons(s, Do(s, a), a, rest, p);
    }
  }

  lemma OnlyNothing(s: State, p: nat)
    ensures OnlyPiece(s, s, p) && PieceOnly(s.units, [], p)
  {}

  lemma NotSubmit(s: State, a: Action, p: nat)
    requires PieceAct(s.units, a, p)
    ensures !a.Submit?
  {}

  lemma OnlyPieceTwice(s: State, s': State, s'': State, p: nat)
    requires OnlyPiece(s, s', p) && (s'' == s' || OnlyPiece(s', s'', p))
    ensures OnlyPiece(s, s'', p) && |s'.pieces| == |s.pieces|
  {}

  /** From every reachable state every piece can land with no help from the engine and the other pieces. */
  lemma {:induction false} AnyPieceLands(s0: State, acts: seq<Action>, p: nat) returns (more: seq<Action>)
    requires Init(s0) && Runs(s0, acts) && p < |Exec(s0, acts).pieces|
    ensures PieceOnly(Exec(s0, acts).units, more, p) && Runs(s0, acts + more)
    ensures OnlyPiece(Exec(s0, acts), Exec(s0, acts + more), p) && PieceLanded(Exec(s0, acts + more), p)
  {
    hide Inv, Ledgers, SerialInv, Runs, Exec, Init, PieceLanded, OnlyPiece, PieceOnly;
    RunInvariant(s0, acts);
    more := PieceAlone(Exec(s0, acts), p);
    RunJoin(s0, acts, more);
  }

  // ----- submissions at any time

  /** A cleared BAR and a free semaphore over any chunk contents and any consistent disks are a start. */
  lemma AnyStart(o: seq<Byte>, n: seq<Byte>, v: seq<Byte>, disks: seq<seq<Byte>>, parity: seq<Byte>)
    requires |o| == |n| == |v| == 4096
    requires forall d :: 0 <= d < |disks| ==> |disks[d]| == |parity|
    requires forall b :: 0 <= b < |parity| ==> parity[b] == XorSum(Column(disks, b))
    ensures Init(State(Shared(1, Bar(0, 0, 0, 0, 0), o, n, v, parity, 0), Idle, disks, [], [], [], 0, 0))
  {}

  /** Any piece of whole sectors that lies on a data disk can be submitted in any reachable state. */
  lemma {:induction false} AnyTimeSubmits(s0: State, acts: seq<Action>, disk: nat, sector: nat, segs: seq<Segment>,
                                          blank: seq<Segment>)
    requires Init(s0) && Runs(s0, acts) && disk < |s0.disks|
    requires AllFit(segs) && WholeSectors(segs) && AllFit(blank) && SameShape(segs, blank)
    requires 512 * sector + Length(segs) <= |s0.disks[disk]|
    ensures Runs(s0, acts + [Submit(disk, sector, segs, blank)])
  {
    assert |s0.disks[disk]| == |s0.sh.parity|;
    RunInvariant(s0, acts);
    RunShape(s0, acts);
    var s := Exec(s0, acts);
    InvFits(s);
    hide Inv, Ledgers, SerialInv, Runs, Exec, Init;
    assert |s.disks[disk]| == |s.sh.parity|;
    RunStep(s0, acts, Submit(disk, sector, segs, blank));
  }

  // ----- disks in any order

  /** One of the disks finishes a sector: an old-data read, a data write, or a write of the parity. */
  predicate DiskAct(a: Action) { a.ReadSector? || a.Land? || a.WriteSector? }

  lemma ReadLeavesEnabled(s: State, i: nat, j: nat, b: Action)
    requires DiskAct(b) && b != ReadSector(i, j) && Enabled(s, ReadSector(i, j)) && Enabled(s, b)
    ensures Enabled(DoReadSector(s, i, j), b)
  {}

  lemma LandLeavesEnabled(s: State, i: nat, j: nat, b: Action)
    requires DiskAct(b) && b != Land(i, j) && Enabled(s, Land(i, j)) && Enabled(s, b)
    ensures Enabled(DoLand(s, i, j), b)
  {}

  lemma WriteLeavesEnabled(s: State, j: nat, b: Action)
    requires DiskAct(b) && b != WriteSector(j) && Enabled(s, WriteSector(j)) && Enabled(s, b)
    ensures Enabled(DoWriteSector(s, j), b)
  {}

  lemma StillEnabled(s: State, a: Action, b: Action)
    requires DiskAct(a) && DiskAct(b) && a != b && Enabled(s, a) && Enabled(s, b)
    ensures Enabled(Do(s, a), b)
  {
    hide Enabled;
    match a
    case ReadSector(i, j) => ReadLeavesEnabled(s, i, j, b);
    case Land(i, j) => LandLeavesEnabled(s, i, j, b);
    case WriteSector(j) => WriteLeavesEnabled(s, j, b);
  }

  /** Whatever sectors the disks are at work on, data and parity alike, they can finish in any order. */
  lemma {:induction false} DisksInAnyOrder(s: State, order: seq<Action>)
    requires forall k :: 0 <= k < |order| ==> DiskAct(order[k]) && Enabled(s, order[k])
    requires forall k, l :: 0 <= k < l < |order| ==> order[k] != order[l]
    ensures Runs(s, order)
    decreases |order|
  {
    hide Enabled, Do, Runs, Exec;
    if order == [] {
      RunsNothing(s);
    } else {
      var a, rest := order[0], order[1..];
      forall k | 0 <= k < |rest| ensures Enabled(Do(s, a), rest[k]) { StillEnabled(s, a, rest[k]); }
      DisksInAnyOrder(Do(s, a), rest);
      RunCons(s, a, rest);
      assert [a] + rest == order;
    }
  }
}
