/** The parity-update protocol as a transition system: host pieces, kworkers, dispatcher and
    interrupt handler take small steps in any order on one shared state. */
module Machine {
  import opened Bytes
  import opened Parity
  import opened Engine
  import opened Segments

  /** Where the verify work of one segment stands. The steps of a staging worker are counted. */
  datatype Phase = Waiting | Queued | Staging(step: nat) | Handed

  /** One segment of a submitted write piece, together with its verify task.
      The task's old page fills up while the old-data read runs. The last three fields record
      history only: no step looks at prev or applied, and landed is what the disk has done so far. */
  datatype Unit = Unit(
    piece: nat, disk: nat, task: Task, phase: Phase,
    read: set<nat>,      // sectors of the old-data read that have completed
    prev: seq<Byte>,     // what each sector held on the disk just before the new data landed
    landed: set<nat>,    // sectors of the data write that have reached the disk
    applied: set<nat>)   // sectors whose parity has been written back

  /** A write piece: its units are first .. first + count. */
  datatype Piece = Piece(first: nat, count: nat, queued: nat, released: bool)

  datatype Dispatcher =
    | Idle
    | Claimed
    | GotOffset(offset: nat)
    | GotRegs(offset: nat, size: nat)
    | Mixing(offset: nat, size: nat, words: nat)
    | Writing(sector: nat, content: seq<Byte>, written: set<nat>)

  datatype State = State(
    sh: Shared,
    disp: Dispatcher,
    disks: seq<seq<Byte>>,
    units: seq<Unit>,
    pieces: seq<Piece>,
    log: seq<nat>,       // units in the order their workers posted them
    claimed: nat,        // how many of them the dispatcher has claimed
    holder: nat)         // the unit whose worker last took the semaphore

  predicate Full(sectors: set<nat>, count: nat) {
    forall j :: 0 <= j < count ==> j in sectors
  }

  /** Every old-data sector of the piece has been read: its end-io runs. */
  predicate ReadDone(s: State, p: nat) {
    && p < |s.pieces|
    && s.pieces[p].first + s.pieces[p].count <= |s.units|
    && forall i :: s.pieces[p].first <= i < s.pieces[p].first + s.pieces[p].count ==>
         Full(s.units[i].read, s.units[i].task.Sectors())
  }

  datatype Action =
    | Submit(disk: nat, sector: nat, segs: seq<Segment>, blank: seq<Segment>)
    | ReadSector(unit: nat, j: nat)
    | Enqueue(piece: nat)
    | Release(piece: nat)
    | Land(unit: nat, j: nat)
    | Acquire(unit: nat)
    | Work(unit: nat)
    | PostWork(unit: nat)
    | ClaimWork
    | Dispatch
    | WriteSector(j: nat)
    | Signal
    | Interrupt

  // ----- sector copies

  function TakeSector(page: seq<Byte>, disk: seq<Byte>, t: Task, j: nat): (r: seq<Byte>)
    requires t.Valid() && |page| == 4096 && j < t.Sectors() && t.Base() + t.size <= |disk|
    ensures |r| == 4096
  {
    Splice(page, t.offset + AtSector(j), disk[t.Base() + AtSector(j)..t.Base() + AtSector(j) + 512])
  }

  function PutSector(disk: seq<Byte>, t: Task, j: nat): (r: seq<Byte>)
    requires t.Valid() && j < t.Sectors() && t.Base() + t.size <= |disk|
    ensures |r| == |disk|
  {
    Splice(disk, t.Base() + AtSector(j), t.pageNew[t.offset + AtSector(j)..t.offset + AtSector(j) + 512])
  }

  // ----- steps

  function NewUnits(p: nat, a: Action): (r: seq<Unit>)
    requires a.Submit? && |a.blank| == |a.segs|
    ensures |r| == |a.segs|
  {
    var ts := TasksFrom(a.sector, a.segs, a.blank);
    seq(|ts|, k requires 0 <= k < |ts| => Unit(p, a.disk, ts[k], Waiting, {}, ts[k].pageOld, {}, {}))
  }

  predicate UnitReady(s: State, i: nat) {
    && i < |s.units| && s.units[i].task.Valid() && |s.units[i].prev| == 4096
    && s.units[i].disk < |s.disks|
    && s.units[i].task.Base() + s.units[i].task.size <= |s.disks[s.units[i].disk]|
    && s.units[i].piece < |s.pieces|
  }

  predicate DispatchReady(s: State) {
    && s.sh.Sized()
    && match s.disp
       case Claimed => true
       case GotOffset(_) => true
       case GotRegs(offset, size) => InBounds(offset, size, s.sh.bar.sectorSta, |s.sh.parity|)
       case Mixing(offset, size, words) => offset + AtWord(WordCount(size)) <= 4096 && words <= WordCount(size)
       case _ => false
  }

  predicate Enabled(s: State, a: Action) {
    match a
    case Submit(disk, sector, segs, blank) =>
      && disk < |s.disks| && AllFit(segs) && AllFit(blank) && WholeSectors(segs)
      && |blank| == |segs|
      && (forall k :: 0 <= k < |segs| ==> blank[k].offset == segs[k].offset && blank[k].len == segs[k].len)
      && AtSector(sector) + Length(segs) <= |s.disks[disk]|
    case ReadSector(i, j) =>
      UnitReady(s, i) && s.units[i].phase.Waiting? && j < s.units[i].task.Sectors() && j !in s.units[i].read
    case Enqueue(p) =>
      ReadDone(s, p) && s.pieces[p].queued < s.pieces[p].count
    case Release(p) =>
      ReadDone(s, p) && s.pieces[p].queued == s.pieces[p].count && !s.pieces[p].released
    case Land(i, j) =>
      UnitReady(s, i) && s.pieces[s.units[i].piece].released && j < s.units[i].task.Sectors() && j !in s.units[i].landed
    case Acquire(i) =>
      i < |s.units| && s.units[i].phase.Queued? && s.sh.sem > 0
    case Work(i) =>
      UnitReady(s, i) && s.units[i].phase.Staging? && s.units[i].phase.step < 5 && s.sh.Sized()
    case PostWork(i) =>
      i < |s.units| && s.units[i].phase == Staging(5)
    case ClaimWork =>
      s.disp.Idle? && HasWork(s.sh.bar)
    case Dispatch =>
      DispatchReady(s)
    case WriteSector(j) =>
      && s.disp.Writing? && AtSector(j) + 512 <= |s.disp.content| && j !in s.disp.written
      && AtSector(s.disp.sector) + |s.disp.content| <= |s.sh.parity|
      && 0 < s.claimed <= |s.log| && s.log[s.claimed - 1] < |s.units|
    case Signal =>
      s.disp.Writing? && Full(s.disp.written, |s.disp.content| / 512)
    case Interrupt =>
      s.sh.irq > 0
  }

  /** Submit: the split layer hands over a piece; its old-data read starts into newly allocated pages. */
  function DoSubmit(s: State, a: Action): State
    requires a.Submit? && Enabled(s, a)
  {
    s.(units := s.units + NewUnits(|s.pieces|, a),
       pieces := s.pieces + [Piece(|s.units|, |a.segs|, 0, false)])
  }

  function DoReadSector(s: State, i: nat, j: nat): State
    requires Enabled(s, ReadSector(i, j))
  {
    var u := s.units[i];
    s.(units := s.units[i := u.(task := u.task.(pageOld := TakeSector(u.task.pageOld, s.disks[u.disk], u.task, j)),
                                read := u.read + {j})])
  }

  function DoEnqueue(s: State, p: nat): State
    requires Enabled(s, Enqueue(p))
  {
    var i := s.pieces[p].first + s.pieces[p].queued;
    s.(units := s.units[i := s.units[i].(phase := Queued)],
       pieces := s.pieces[p := s.pieces[p].(queued := s.pieces[p].queued + 1)])
  }

  function DoRelease(s: State, p: nat): State
    requires Enabled(s, Release(p))
  {
    s.(pieces := s.pieces[p := s.pieces[p].(released := true)])
  }

  function DoLand(s: State, i: nat, j: nat): State
    requires Enabled(s, Land(i, j))
  {
    var u := s.units[i];
    s.(disks := s.disks[u.disk := PutSector(s.disks[u.disk], u.task, j)],
       units := s.units[i := u.(prev := TakeSector(u.prev, s.disks[u.disk], u.task, j), landed := u.landed + {j})])
  }

  function DoAcquire(s: State, i: nat): State
    requires Enabled(s, Acquire(i))
  {
    s.(sh := s.sh.(sem := s.sh.sem - 1), units := s.units[i := s.units[i].(phase := Staging(0))], holder := i)
  }

  function DoWork(s: State, i: nat): State
    requires Enabled(s, Work(i))
  {
    var u := s.units[i];
    s.(sh := WorkStep(s.sh, u.task, u.phase.step), units := s.units[i := u.(phase := Staging(u.phase.step + 1))])
  }

  function DoPostWork(s: State, i: nat): State
    requires Enabled(s, PostWork(i))
  {
    s.(sh := Post(s.sh), units := s.units[i := s.units[i].(phase := Handed)], log := s.log + [i])
  }

  function DoClaimWork(s: State): State
    requires Enabled(s, ClaimWork)
  {
    s.(sh := Claim(s.sh), disp := Claimed, claimed := s.claimed + 1)
  }

  /** The next statement of the dispatcher between its claim and the write of the result. */
  function DoDispatch(s: State): State
    requires Enabled(s, Dispatch)
  {
    match s.disp
    case Claimed => s.(disp := GotOffset(s.sh.bar.offset))
    case GotOffset(offset) => s.(disp := GotRegs(offset, s.sh.bar.size))
    case GotRegs(offset, size) =>
      s.(sh := s.sh.(v := ReadParity(s.sh.v, s.sh.parity, offset, size, s.sh.bar.sectorSta)),
         disp := Mixing(offset, size, 0))
    case Mixing(offset, size, words) =>
      if words < WordCount(size) then
        s.(sh := s.sh.(v := XorWord(s.sh.o, s.sh.n, s.sh.v, offset + AtWord(words))),
           disp := Mixing(offset, size, words + 1))
      else
        s.(disp := Writing(s.sh.bar.sectorSta, s.sh.v[offset..offset + size], {}))
  }

  function DoWriteSector(s: State, j: nat): State
    requires Enabled(s, WriteSector(j))
  {
    var d, i := s.disp, s.log[s.claimed - 1];
    s.(sh := s.sh.(parity :=
         Splice(s.sh.parity, AtSector(d.sector) + AtSector(j), d.content[AtSector(j)..AtSector(j) + 512])),
       disp := d.(written := d.written + {j}),
       units := s.units[i := s.units[i].(applied := s.units[i].applied + {j})])
  }

  function DoSignal(s: State): State
    requires Enabled(s, Signal)
  {
    s.(sh := s.sh.(irq := s.sh.irq + 1), disp := Idle)
  }

  function DoInterrupt(s: State): State
    requires Enabled(s, Interrupt)
  {
    s.(sh := s.sh.(irq := s.sh.irq - 1, sem := s.sh.sem + 1))
  }

  function Do(s: State, a: Action): State
    requires Enabled(s, a)
  {
    match a
    case Submit(_, _, _, _) => DoSubmit(s, a)
    case ReadSector(i, j) => DoReadSector(s, i, j)
    case Enqueue(p) => DoEnqueue(s, p)
    case Release(p) => DoRelease(s, p)
    case Land(i, j) => DoLand(s, i, j)
    case Acquire(i) => DoAcquire(s, i)
    case Work(i) => DoWork(s, i)
    case PostWork(i) => DoPostWork(s, i)
    case ClaimWork => DoClaimWork(s)
    case Dispatch => DoDispatch(s)
    case WriteSector(j) => DoWriteSector(s, j)
    case Signal => DoSignal(s)
    case Interrupt => DoInterrupt(s)
  }

  /** Steps other than submissions make no units. */
  lemma StepCount(s: State, a: Action)
    requires Enabled(s, a)
    ensures |Do(s, a).units| == |s.units| + if a.Submit? then |a.segs| else 0
    ensures |Do(s, a).disks| == |s.disks| && |Do(s, a).sh.parity| == |s.sh.parity|
  {
    hide HasWork, InBounds;
  }

  // ----- runs

  /** Set-up: cleared BAR, free semaphore, nothing in flight, data and parity disks consistent. */
  ghost predicate Init(s: State) {
    && s.sh.Sized() && s.sh.sem == 1 && s.sh.irq == 0
    && s.sh.bar.ioNum == 0 && s.sh.bar.ioDone == 0
    && s.disp.Idle? && s.units == [] && s.pieces == [] && s.log == [] && s.claimed == 0
    && Consistent(s.disks, s.sh.parity)
  }

  /** The steps as can be taken one after another from s. */
  ghost predicate Runs(s: State, acts: seq<Action>)
    decreases |acts|, 0
  {
    acts == [] || (Runs(s, acts[..|acts| - 1]) && Enabled(Exec(s, acts[..|acts| - 1]), acts[|acts| - 1]))
  }

  ghost function Exec(s: State, acts: seq<Action>): State
    requires Runs(s, acts)
    decreases |acts|, 1
  {
    if acts == [] then s else Do(Exec(s, acts[..|acts| - 1]), acts[|acts| - 1])
  }

  lemma {:induction false} RunCons(s: State, a: Action, rest: seq<Action>)
    requires Enabled(s, a) && Runs(Do(s, a), rest)
    ensures Runs(s, [a] + rest) && Exec(s, [a] + rest) == Exec(Do(s, a), rest)
    decreases |rest|
  {
    hide Enabled, Do;
    if rest == [] {
      assert [a] + rest == [a] && [a][..0] == [];
      assert Runs(s, []) && Exec(s, []) == s;
    } else {
      var n := |rest| - 1;
      RunCons(s, a, rest[..n]);
      assert ([a] + rest)[..n + 1] == [a] + rest[..n] && ([a] + rest)[n + 1] == rest[n];
    }
  }

  lemma {:induction false} RunJoin(s: State, first: seq<Action>, second: seq<Action>)
    requires Runs(s, first) && Runs(Exec(s, first), second)
    ensures Runs(s, first + second) && Exec(s, first + second) == Exec(Exec(s, first), second)
    decreases |second|
  {
    hide Enabled, Do;
    if second == [] {
      assert first + second == first;
    } else {
      var n := |second| - 1;
      RunJoin(s, first, second[..n]);
      assert (first + second)[..|first| + n] == first + second[..n] && (first + second)[|first| + n] == second[n];
    }
  }
}
