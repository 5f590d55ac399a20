/** What every step of the protocol keeps: the pieces and their units fit together, one token moves
    between semaphore, worker, BAR, dispatcher and interrupt, and staging stays frozen while loaded. */
module Invariant {
  import opened Bytes
  import opened Parity
  import opened Engine
  import opened Segments
  import opened Machine

  // ----- structure of pieces and units

  ghost predicate UnitOk(u: Unit, i: nat, pieces: seq<Piece>, disks: nat, len: nat) {
    && u.task.Valid() && |u.prev| == 4096 && u.disk < disks && u.task.Base() + u.task.size <= len
    && (forall j :: j in u.read ==> j < u.task.Sectors())
    && (forall j :: j in u.landed ==> j < u.task.Sectors())
    && (forall j :: j in u.applied ==> j < u.task.Sectors())
    && u.piece < |pieces|
    && pieces[u.piece].first <= i < pieces[u.piece].first + pieces[u.piece].count
    && (u.phase.Waiting? <==> i - pieces[u.piece].first >= pieces[u.piece].queued)
    && (!u.phase.Waiting? ==> Full(u.read, u.task.Sectors()))
    && (u.landed != {} ==> pieces[u.piece].released)
    && (!u.phase.Handed? ==> u.applied == {})
    && (u.phase.Staging? ==> u.phase.step <= 5)
  }

  ghost predicate PieceOk(q: Piece, p: nat, units: seq<Unit>) {
    && q.first + q.count <= |units| && q.queued <= q.count && (q.released ==> q.queued == q.count)
    && forall i :: q.first <= i < q.first + q.count ==> units[i].piece == p
  }

  ghost predicate Structure(units: seq<Unit>, pieces: seq<Piece>, disks: nat, len: nat) {
    && (forall i :: 0 <= i < |units| ==> UnitOk(units[i], i, pieces, disks, len))
    && (forall p :: 0 <= p < |pieces| ==> PieceOk(pieces[p], p, units))
  }

  // ----- the token

  ghost predicate IsStaging(units: seq<Unit>, i: nat) { i < |units| && units[i].phase.Staging? }

  /** A task is in the staging chunks and registers: posted, or being computed. */
  ghost predicate Loaded(s: State) { s.claimed < |s.log| || !s.disp.Idle? }

  ghost predicate Token(sem: nat, irq: nat, units: seq<Unit>, posted: nat, claimed: nat, disp: Dispatcher,
                        holder: nat)
  {
    && claimed <= posted
    && sem + (if IsStaging(units, holder) then 1 else 0) + (posted - claimed) + (if disp.Idle? then 0 else 1) + irq == 1
    && forall i :: IsStaging(units, i) ==> i == holder
  }

  // ----- the log of posted tasks

  ghost predicate Logged(log: seq<nat>, units: seq<Unit>) {
    && (forall k :: 0 <= k < |log| ==> log[k] < |units| && units[log[k]].phase.Handed?)
    && (forall k, l :: 0 <= k < l < |log| ==> log[k] != log[l])
    && (forall i :: 0 <= i < |units| && units[i].phase.Handed? ==> i in log)
  }

  ghost predicate Counters(bar: Bar, posted: nat, claimed: nat) {
    bar.ioNum == posted % U32_RANGE && bar.ioDone == claimed % U32_RANGE
  }

  /** Every posted task but the loaded one has been applied to all of its parity sectors. */
  ghost predicate AppliedAll(log: seq<nat>, units: seq<Unit>, loaded: bool) {
    forall k :: 0 <= k < |log| && (k < |log| - 1 || !loaded) && log[k] < |units| ==>
      Full(units[log[k]].applied, units[log[k]].task.Sectors())
  }

  // ----- staging

  /** The first k worker statements for t have taken effect and still stand. */
  ghost predicate StagedUpTo(sh: Shared, t: Task, k: nat)
    requires sh.Sized() && t.Valid()
  {
    && (k >= 1 ==> forall p :: t.offset <= p < t.offset + t.size ==> sh.o[p] == t.pageOld[p])
    && (k >= 2 ==> forall p :: t.offset <= p < t.offset + t.size ==> sh.n[p] == t.pageNew[p])
    && (k >= 3 ==> sh.bar.offset == t.offset)
    && (k >= 4 ==> sh.bar.size == t.size)
    && (k >= 5 ==> sh.bar.sectorSta == t.numSector)
  }

  /** Parity byte p of the window, p counted in the page, before and after mixing. */
  ghost function Before(t: Task, parity: seq<Byte>, p: nat): Byte
    requires t.offset <= p < t.offset + t.size && t.Base() + t.size <= |parity|
  { parity[t.Base() + (p - t.offset)] }

  ghost function Mixed(t: Task, parity: seq<Byte>, p: nat): Byte
    requires t.Valid() && t.offset <= p < t.offset + t.size && t.Base() + t.size <= |parity|
  { ByteXor(ByteXor(Before(t, parity, p), t.pageOld[p]), t.pageNew[p]) }

  /** The dispatcher works on task t: what it latched is t's, what it fetched is still on the disk,
      and what it is about to write is the old parity mixed with t, sector by sector. */
  ghost predicate Working(sh: Shared, disp: Dispatcher, t: Task, applied: set<nat>)
    requires sh.Sized() && t.Valid() && t.Base() + t.size <= |sh.parity|
  {
    match disp
    case Idle => applied == {}
    case Claimed => applied == {}
    case GotOffset(offset) => applied == {} && offset == t.offset
    case GotRegs(offset, size) => applied == {} && offset == t.offset && size == t.size
    case Mixing(offset, size, words) =>
      && applied == {} && offset == t.offset && size == t.size && AtWord(words) <= size
      && (forall p :: t.offset <= p < t.offset + AtWord(words) ==> sh.v[p] == Mixed(t, sh.parity, p))
      && (forall p :: t.offset + AtWord(words) <= p < t.offset + t.size ==> sh.v[p] == Before(t, sh.parity, p))
    case Writing(sector, content, written) =>
      && applied == written && sector == t.numSector && |content| == t.size
      && forall x {:trigger content[x]} :: 0 <= x < t.size ==>
           content[x] == if x / 512 in written then sh.parity[t.Base() + x] else Mixed(t, sh.parity, t.offset + x)
  }

  ghost predicate Staged(s: State)
    requires s.sh.Sized() && Structure(s.units, s.pieces, |s.disks|, |s.sh.parity|)
  {
    && (IsStaging(s.units, s.holder) ==> StagedUpTo(s.sh, s.units[s.holder].task, s.units[s.holder].phase.step))
    && (Loaded(s) ==>
          && s.holder < |s.units| && 0 < |s.log| && s.log[|s.log| - 1] == s.holder
          && StagedUpTo(s.sh, s.units[s.holder].task, 5)
          && Working(s.sh, s.disp, s.units[s.holder].task, s.units[s.holder].applied))
  }

  ghost predicate Inv(s: State) {
    && s.sh.Sized() && Uniform(s.disks, |s.sh.parity|)
    && Structure(s.units, s.pieces, |s.disks|, |s.sh.parity|)
    && Token(s.sh.sem, s.sh.irq, s.units, |s.log|, s.claimed, s.disp, s.holder)
    && Logged(s.log, s.units) && Counters(s.sh.bar, |s.log|, s.claimed)
    && AppliedAll(s.log, s.units, Loaded(s))
    && Staged(s)
  }

  lemma InitInv(s: State)
    requires Init(s)
    ensures Inv(s)
  {}

  // ----- steps that leave engine, dispatcher and log alone

  /** A unit whose place in the engine does not change. */
  ghost predicate Quiet(u: Unit, u': Unit) {
    || (u'.phase == u.phase && u'.task == u.task && u'.applied == u.applied)
    || ((u.phase.Waiting? || u.phase.Queued?) && (u'.phase.Waiting? || u'.phase.Queued?))
  }

  ghost predicate AllQuiet(units: seq<Unit>, units': seq<Unit>) {
    && |units| <= |units'|
    && (forall i :: 0 <= i < |units| ==> Quiet(units[i], units'[i]))
    && (forall i :: |units| <= i < |units'| ==> units'[i].phase.Waiting?)
  }

  lemma QuietToken(sem: nat, irq: nat, units: seq<Unit>, units': seq<Unit>, posted: nat, claimed: nat,
                   disp: Dispatcher, holder: nat)
    requires AllQuiet(units, units') && Token(sem, irq, units, posted, claimed, disp, holder)
    ensures Token(sem, irq, units', posted, claimed, disp, holder)
  {
    forall i: nat | IsStaging(units', i) ensures i == holder {
      assert i < |units|;
      assert Quiet(units[i], units'[i]);
      assert IsStaging(units, i);
    }
    if holder < |units| { assert Quiet(units[holder], units'[holder]); }
  }

  lemma QuietLogged(log: seq<nat>, units: seq<Unit>, units': seq<Unit>, loaded: bool)
    requires AllQuiet(units, units') && Logged(log, units) && AppliedAll(log, units, loaded)
    ensures Logged(log, units') && AppliedAll(log, units', loaded)
  {}

  /** Submitting, reading, queueing, releasing and landing keep the invariant. */
  lemma QuietKeeps(s: State, s': State)
    requires Inv(s) && AllQuiet(s.units, s'.units)
    requires s'.sh == s.sh && s'.disp == s.disp && s'.log == s.log && s'.claimed == s.claimed && s'.holder == s.holder
    requires Uniform(s'.disks, |s.sh.parity|) && Structure(s'.units, s'.pieces, |s'.disks|, |s.sh.parity|)
    ensures Inv(s')
  {
    hide UnitOk, PieceOk, Mixed, Before, Full;
    QuietToken(s.sh.sem, s.sh.irq, s.units, s'.units, |s.log|, s.claimed, s.disp, s.holder);
    QuietLogged(s.log, s.units, s'.units, Loaded(s));
    assert Staged(s') by {
      if s.holder < |s.units| { assert Quiet(s.units[s.holder], s'.units[s.holder]); }
    }
  }

  lemma UnitChange(units: seq<Unit>, i: nat, u: Unit, pieces: seq<Piece>, disks: nat, len: nat)
    requires Structure(units, pieces, disks, len) && i < |units|
    requires u.piece == units[i].piece && UnitOk(u, i, pieces, disks, len)
    ensures Structure(units[i := u], pieces, disks, len)
  {}

  /** The units of a new piece are well formed. */
  lemma NewUnitOk(p: nat, a: Action, k: nat, first: nat, pieces: seq<Piece>, disks: nat, len: nat)
    requires a.Submit? && AllFit(a.segs) && AllFit(a.blank) && WholeSectors(a.segs) && |a.blank| == |a.segs|
    requires a.disk < disks && AtSector(a.sector) + Length(a.segs) <= len
    requires p < |pieces| && pieces[p] == Piece(first, |a.segs|, 0, false) && k < |a.segs|
    ensures UnitOk(NewUnits(p, a)[k], first + k, pieces, disks, len) && NewUnits(p, a)[k].piece == p
  {
    TaskFields(a.sector, a.segs, a.blank, k);
    TasksInside(a.sector, a.segs, a.blank, k);
  }

  lemma SubmitKeeps(s: State, a: Action)
    requires Inv(s) && a.Submit? && Enabled(s, a)
    ensures Inv(Do(s, a))
  {
    hide Mixed, Before, StagedUpTo, Working;
    var s', p := Do(s, a), |s.pieces|;
    forall i | 0 <= i < |s'.units|
      ensures UnitOk(s'.units[i], i, s'.pieces, |s.disks|, |s.sh.parity|)
      ensures i >= |s.units| ==> s'.units[i].piece == p
    {
      if i < |s.units| {
        assert UnitOk(s.units[i], i, s.pieces, |s.disks|, |s.sh.parity|);
      } else {
        NewUnitOk(p, a, i - |s.units|, |s.units|, s'.pieces, |s.disks|, |s.sh.parity|);
      }
    }
    forall r | 0 <= r < |s'.pieces| ensures PieceOk(s'.pieces[r], r, s'.units) {
      if r < p { assert PieceOk(s.pieces[r], r, s.units); }
    }
    QuietKeeps(s, s');
  }

  lemma ReadSectorKeeps(s: State, i: nat, j: nat)
    requires Inv(s) && Enabled(s, ReadSector(i, j))
    ensures Inv(Do(s, ReadSector(i, j)))
  {
    hide PieceOk, Mixed, Before, StagedUpTo, Working;
    var s' := Do(s, ReadSector(i, j));
    assert UnitOk(s.units[i], i, s.pieces, |s.disks|, |s.sh.parity|);
    UnitChange(s.units, i, s'.units[i], s.pieces, |s.disks|, |s.sh.parity|);
    QuietKeeps(s, s');
  }

  lemma EnqueueKeeps(s: State, p: nat)
    requires Inv(s) && Enabled(s, Enqueue(p))
    ensures Inv(Do(s, Enqueue(p)))
  {
    hide Mixed, Before, StagedUpTo, Working;
    var s' := Do(s, Enqueue(p));
    assert PieceOk(s.pieces[p], p, s.units);
    forall i | 0 <= i < |s'.units| ensures UnitOk(s'.units[i], i, s'.pieces, |s.disks|, |s.sh.parity|) {
      assert UnitOk(s.units[i], i, s.pieces, |s.disks|, |s.sh.parity|);
    }
    forall r | 0 <= r < |s'.pieces| ensures PieceOk(s'.pieces[r], r, s'.units) {
      assert PieceOk(s.pieces[r], r, s.units);
    }
    var i := s.pieces[p].first + s.pieces[p].queued;
    assert UnitOk(s.units[i], i, s.pieces, |s.disks|, |s.sh.parity|);
    QuietKeeps(s, s');
  }

  lemma ReleaseKeeps(s: State, p: nat)
    requires Inv(s) && Enabled(s, Release(p))
    ensures Inv(Do(s, Release(p)))
  {
    hide Mixed, Before, StagedUpTo, Working;
    var s' := Do(s, Release(p));
    forall i | 0 <= i < |s'.units| ensures UnitOk(s'.units[i], i, s'.pieces, |s.disks|, |s.sh.parity|) {
      assert UnitOk(s.units[i], i, s.pieces, |s.disks|, |s.sh.parity|);
    }
    forall r | 0 <= r < |s'.pieces| ensures PieceOk(s'.pieces[r], r, s'.units) {
      assert PieceOk(s.pieces[r], r, s.units);
    }
    QuietKeeps(s, s');
  }

  lemma LandKeeps(s: State, i: nat, j: nat)
    requires Inv(s) && Enabled(s, Land(i, j))
    ensures Inv(Do(s, Land(i, j)))
  {
    hide PieceOk, Mixed, Before, StagedUpTo, Working;
    var s' := Do(s, Land(i, j));
    assert UnitOk(s.units[i], i, s.pieces, |s.disks|, |s.sh.parity|);
    UnitChange(s.units, i, s'.units[i], s.pieces, |s.disks|, |s.sh.parity|);
    QuietKeeps(s, s');
  }

  // ----- worker steps

  lemma AcquireKeeps(s: State, i: nat)
    requires Inv(s) && Enabled(s, Acquire(i))
    ensures Inv(Do(s, Acquire(i)))
  {
    var s' := Do(s, Acquire(i));
    assert UnitOk(s.units[i], i, s.pieces, |s.disks|, |s.sh.parity|);
    UnitChange(s.units, i, s'.units[i], s.pieces, |s.disks|, |s.sh.parity|);
    NoOtherStaging(s, s', i);
    SameLog(s, s', i);
  }

  lemma NoOtherStaging(s: State, s': State, i: nat)
    requires i < |s.units| == |s'.units| && (forall k :: 0 <= k < |s.units| && k != i ==> s'.units[k] == s.units[k])
    requires forall k :: IsStaging(s.units, k) ==> k == i
    ensures forall k :: IsStaging(s'.units, k) ==> k == i
  {
    forall k: nat | IsStaging(s'.units, k) ensures k == i {
      if k != i { assert IsStaging(s.units, k); }
    }
  }

  /** A unit that is not posted, before and after, does not touch the log. */
  lemma SameLog(s: State, s': State, i: nat)
    requires i < |s.units| == |s'.units| && s'.units == s.units[i := s'.units[i]] && s'.log == s.log
    requires !s.units[i].phase.Handed? && !s'.units[i].phase.Handed?
    requires Logged(s.log, s.units) && AppliedAll(s.log, s.units, Loaded(s)) && Loaded(s') == Loaded(s)
    ensures Logged(s'.log, s'.units) && AppliedAll(s'.log, s'.units, Loaded(s'))
  {}

  lemma WorkKeeps(s: State, i: nat)
    requires Inv(s) && Enabled(s, Work(i))
    ensures Inv(Do(s, Work(i)))
  {
    hide PieceOk, Mixed, Before;
    var s' := Do(s, Work(i));
    assert IsStaging(s.units, i);
    assert UnitOk(s.units[i], i, s.pieces, |s.disks|, |s.sh.parity|);
    UnitChange(s.units, i, s'.units[i], s.pieces, |s.disks|, |s.sh.parity|);
    assert IsStaging(s'.units, i);
    NoOtherStaging(s, s', i);
    SameLog(s, s', i);
    WorkStages(s.sh, s.units[i].task, s.units[i].phase.step);
  }

  lemma WorkStages(sh: Shared, t: Task, k: nat)
    requires sh.Sized() && t.Valid() && k < 5 && StagedUpTo(sh, t, k)
    ensures StagedUpTo(WorkStep(sh, t, k), t, k + 1)
  {}

  lemma PostWorkKeeps(s: State, i: nat)
    requires Inv(s) && Enabled(s, PostWork(i))
    ensures Inv(Do(s, PostWork(i)))
  {
    hide PieceOk, Mixed, Before, Full;
    var s' := Do(s, PostWork(i));
    assert IsStaging(s.units, i);
    assert UnitOk(s.units[i], i, s.pieces, |s.disks|, |s.sh.parity|);
    UnitChange(s.units, i, s'.units[i], s.pieces, |s.disks|, |s.sh.parity|);
    NoOtherStaging(s, s', i);
    LogGrows(s, s', i);
    assert Token(s'.sh.sem, s'.sh.irq, s'.units, |s'.log|, s'.claimed, s'.disp, s'.holder);
    assert Counters(s'.sh.bar, |s'.log|, s'.claimed);
  }

  lemma LogGrows(s: State, s': State, i: nat)
    requires i < |s.units| == |s'.units| && s'.units == s.units[i := s'.units[i]] && s'.log == s.log + [i]
    requires !s.units[i].phase.Handed? && s'.units[i].phase.Handed?
    requires Logged(s.log, s.units) && AppliedAll(s.log, s.units, false)
    ensures Logged(s'.log, s'.units) && AppliedAll(s'.log, s'.units, true)
  {}

  // ----- dispatcher steps

  lemma ClaimWorkKeeps(s: State)
    requires Inv(s) && Enabled(s, ClaimWork)
    ensures Inv(Do(s, ClaimWork))
  {
    hide UnitOk, PieceOk, Mixed, Before, Full;
    assert s.claimed < |s.log|;
  }

  lemma DispatchKeeps(s: State)
    requires Inv(s) && Enabled(s, Dispatch)
    ensures Inv(Do(s, Dispatch))
  {
    hide PieceOk, Mixed, Before, Full;
    var s', u := Do(s, Dispatch), s.units[s.holder];
    assert UnitOk(u, s.holder, s.pieces, |s.disks|, |s.sh.parity|);
    DispatchWorking(s.sh, s.disp, s'.sh, s'.disp, u.task, u.applied);
  }

  /** The next dispatcher statement keeps what the dispatcher knows about its task. */
  lemma DispatchWorking(sh: Shared, disp: Dispatcher, sh': Shared, disp': Dispatcher, t: Task, applied: set<nat>)
    requires sh.Sized() && sh'.Sized() && t.Valid() && t.Base() + t.size <= |sh.parity| && |sh'.parity| == |sh.parity|
    requires StagedUpTo(sh, t, 5) && Working(sh, disp, t, applied)
    requires
      match disp
      case Claimed => sh' == sh && disp' == GotOffset(sh.bar.offset)
      case GotOffset(offset) => sh' == sh && disp' == GotRegs(offset, sh.bar.size)
      case GotRegs(offset, size) =>
        && InBounds(offset, size, sh.bar.sectorSta, |sh.parity|)
        && sh' == sh.(v := ReadParity(sh.v, sh.parity, offset, size, sh.bar.sectorSta))
        && disp' == Mixing(offset, size, 0)
      case Mixing(offset, size, words) =>
        if words < WordCount(size) then
          && offset + AtWord(words) + 8 <= 4096
          && sh' == sh.(v := XorWord(sh.o, sh.n, sh.v, offset + AtWord(words)))
          && disp' == Mixing(offset, size, words + 1)
        else
          && offset + size <= 4096 && sh' == sh
          && disp' == Writing(sh.bar.sectorSta, sh.v[offset..offset + size], {})
      case _ => false
    ensures Working(sh', disp', t, applied)
  {
    ValidTaskInBounds(t, |sh.parity|);
    hide Mixed, Before, XorWord;
    match disp
    case GotRegs(_, _) => FetchWindow(sh, t);
    case Mixing(_, size, words) =>
      if words < WordCount(size) {
        MixOneWord(sh, sh', t, words);
      } else {
        FinishMixing(sh, t);
      }
    case _ =>
  }

  lemma FetchWindow(sh: Shared, t: Task)
    requires sh.Sized() && t.Valid() && t.Base() + t.size <= |sh.parity|
    ensures InBounds(t.offset, t.size, t.numSector, |sh.parity|)
    ensures Working(sh.(v := ReadParity(sh.v, sh.parity, t.offset, t.size, t.numSector)),
                    Mixing(t.offset, t.size, 0), t, {})
  {
    ValidTaskInBounds(t, |sh.parity|);
  }

  lemma FinishMixing(sh: Shared, t: Task)
    requires sh.Sized() && t.Valid() && t.Base() + t.size <= |sh.parity|
    requires Working(sh, Mixing(t.offset, t.size, WordCount(t.size)), t, {})
    ensures Working(sh, Writing(t.numSector, sh.v[t.offset..t.offset + t.size], {}), t, {})
  {}

  lemma MixOneWord(sh: Shared, sh': Shared, t: Task, words: nat)
    requires sh.Sized() && sh'.Sized() && t.Valid() && t.Base() + t.size <= |sh.parity|
    requires StagedUpTo(sh, t, 5) && t.offset + AtWord(words) + 8 <= 4096
    requires Working(sh, Mixing(t.offset, t.size, words), t, {}) && AtWord(words + 1) <= t.size
    requires sh' == sh.(v := XorWord(sh.o, sh.n, sh.v, t.offset + AtWord(words)))
    ensures Working(sh', Mixing(t.offset, t.size, words + 1), t, {})
  {}

  /** What the invariant says about the unit whose task is being written back. */
  lemma LoadedUnit(s: State)
    requires Inv(s) && !s.disp.Idle?
    ensures s.claimed == |s.log| > 0 && s.log[s.claimed - 1] == s.holder < |s.units| && Loaded(s)
    ensures UnitOk(s.units[s.holder], s.holder, s.pieces, |s.disks|, |s.sh.parity|) && s.units[s.holder].phase.Handed?
    ensures StagedUpTo(s.sh, s.units[s.holder].task, 5)
    ensures Working(s.sh, s.disp, s.units[s.holder].task, s.units[s.holder].applied)
  {
    hide Full, PieceOk, StagedUpTo, Working, AppliedAll;
  }

  lemma WriteSectorKeeps(s: State, j: nat)
    requires Inv(s) && Enabled(s, WriteSector(j))
    ensures Inv(Do(s, WriteSector(j)))
  {
    LoadedUnit(s);
    var s', h := Do(s, WriteSector(j)), s.holder;
    WriteWorking(s.sh, s.disp, s.units[h].task, s.units[h].applied, j);
    hide PieceOk, Working, StagedUpTo, Full;
    assert s'.units == s.units[h := s'.units[h]];
    assert UnitOk(s'.units[h], h, s.pieces, |s.disks|, |s.sh.parity|);
    hide UnitOk;
    UnitChange(s.units, h, s'.units[h], s.pieces, |s.disks|, |s.sh.parity|);
    hide Structure;
    AppliedGrows(s, s', h, j);
    hide Logged, AppliedAll, Token;
  }

  lemma AppliedGrows(s: State, s': State, h: nat, j: nat)
    requires h < |s.units| && s'.units == s.units[h := s.units[h].(applied := s.units[h].applied + {j})]
    requires s'.log == s.log && Logged(s.log, s.units) && AppliedAll(s.log, s.units, true)
    requires Token(s.sh.sem, s.sh.irq, s.units, |s.log|, s.claimed, s.disp, s.holder)
    requires s'.claimed == s.claimed && s'.holder == s.holder && s'.disp.Idle? == s.disp.Idle?
    requires s'.sh.sem == s.sh.sem && s'.sh.irq == s.sh.irq
    ensures Logged(s'.log, s'.units) && AppliedAll(s'.log, s'.units, true)
    ensures Token(s'.sh.sem, s'.sh.irq, s'.units, |s'.log|, s'.claimed, s'.disp, s'.holder)
  {
    assert forall k :: IsStaging(s'.units, k) ==> IsStaging(s.units, k);
  }

  /** Writing one sector back turns its bytes into the mixed ones and leaves the rest. */
  lemma WriteWorking(sh: Shared, disp: Dispatcher, t: Task, applied: set<nat>, j: nat)
    requires sh.Sized() && t.Valid() && t.Base() + t.size <= |sh.parity| && disp.Writing?
    requires Working(sh, disp, t, applied) && StagedUpTo(sh, t, 5)
    requires j !in disp.written && AtSector(j) + 512 <= |disp.content|
    ensures AtSector(disp.sector) + |disp.content| <= |sh.parity| && AtSector(j) + 512 <= t.size
    ensures var sh' := sh.(parity :=
        Splice(sh.parity, AtSector(disp.sector) + AtSector(j), disp.content[AtSector(j)..AtSector(j) + 512]));
      Working(sh', disp.(written := disp.written + {j}), t, applied + {j}) && StagedUpTo(sh', t, 5)
  {
    var sh' := sh.(parity := Splice(sh.parity, t.Base() + AtSector(j), disp.content[AtSector(j)..AtSector(j) + 512]));
    forall x | 0 <= x < t.size
      ensures disp.content[x] ==
        if x / 512 in disp.written + {j} then sh'.parity[t.Base() + x] else Mixed(t, sh'.parity, t.offset + x)
    {
      assert x / 512 == j <==> AtSector(j) <= x < AtSector(j) + 512;
    }
  }

  lemma SignalKeeps(s: State)
    requires Inv(s) && Enabled(s, Signal)
    ensures Inv(Do(s, Signal))
  {
    assert Full(s.units[s.holder].applied, s.units[s.holder].task.Sectors());
  }

  lemma InterruptKeeps(s: State)
    requires Inv(s) && Enabled(s, Interrupt)
    ensures Inv(Do(s, Interrupt))
  {}

  /** Every step of every actor keeps the invariant. */
  lemma StepKeeps(s: State, a: Action)
    requires Inv(s) && Enabled(s, a)
    ensures Inv(Do(s, a))
  {
    hide Inv;
    match a
    case Submit(_, _, _, _) => SubmitKeeps(s, a);
    case ReadSector(i, j) => ReadSectorKeeps(s, i, j);
    case Enqueue(p) => EnqueueKeeps(s, p);
    case Release(p) => ReleaseKeeps(s, p);
    case Land(i, j) => LandKeeps(s, i, j);
    case Acquire(i) => AcquireKeeps(s, i);
    case Work(i) => WorkKeeps(s, i);
    case PostWork(i) => PostWorkKeeps(s, i);
    case ClaimWork => ClaimWorkKeeps(s);
    case Dispatch => DispatchKeeps(s);
    case WriteSector(j) => WriteSectorKeeps(s, j);
    case Signal => SignalKeeps(s);
    case Interrupt => InterruptKeeps(s);
  }
}
