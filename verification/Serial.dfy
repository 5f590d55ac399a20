/** The interleaved protocol refines a serial one: at every moment the parity disk is the starting
    disk with the posted tasks applied atomically, one after another, in the order of posting. */
module Serial {
  import opened Bytes
  import opened Parity
  import opened Engine
  import opened Machine
  import opened Invariant
  import opened Ledger

  ghost predicate LogFits(log: seq<nat>, units: seq<Unit>) {
    forall k :: 0 <= k < |log| ==> log[k] < |units| && units[log[k]].task.Valid()
  }

  /** The posted tasks in the order of posting. */
  ghost function LogTasks(log: seq<nat>, units: seq<Unit>): (ts: seq<Task>)
    requires LogFits(log, units)
    ensures |ts| == |log| && AllValid(ts)
  {
    seq(|log|, k requires 0 <= k < |log| => units[log[k]].task)
  }

  /** How many posted tasks are behind us: all but the one that is loaded. */
  ghost function Finished(s: State): nat {
    if Loaded(s) && |s.log| > 0 then |s.log| - 1 else |s.log|
  }

  /** base with task t applied to the given sectors only. */
  ghost predicate PartlyApplied(base: seq<Byte>, parity: seq<Byte>, u: Unit)
    requires u.task.Valid() && |parity| == |base|
  {
    forall b :: 0 <= b < |base| ==>
      parity[b] == if Reached(u, u.applied, b) then ApplyTask(base, u.task)[b] else base[b]
  }

  ghost predicate SerialInv(parity0: seq<Byte>, s: State) {
    && LogFits(s.log, s.units) && |s.sh.parity| == |parity0|
    && var base := ApplyAll(parity0, LogTasks(s.log, s.units)[..Finished(s)]);
       if Loaded(s) then
         && s.holder < |s.units| && s.units[s.holder].task.Valid()
         && PartlyApplied(base, s.sh.parity, s.units[s.holder])
       else s.sh.parity == base
  }

  lemma InvLogFits(s: State)
    requires Inv(s)
    ensures LogFits(s.log, s.units)
    ensures Loaded(s) ==> 0 < |s.log| && s.log[|s.log| - 1] == s.holder < |s.units|
  {}

  lemma PostWorkSerial(parity0: seq<Byte>, s: State, i: nat)
    requires Inv(s) && SerialInv(parity0, s) && Enabled(s, PostWork(i))
    ensures SerialInv(parity0, Do(s, PostWork(i)))
  {
    PostWorkKeeps(s, i);
    var s' := Do(s, PostWork(i));
    assert IsStaging(s.units, i);
    assert !Loaded(s) && Loaded(s');
    assert UnitOk(s.units[i], i, s.pieces, |s.disks|, |s.sh.parity|);
    InvLogFits(s);
    InvLogFits(s');
    hide Inv, ApplyAll, ApplyTask, Structure;
    forall k | 0 <= k < |s.log| ensures s'.units[s'.log[k]].task == s.units[s.log[k]].task {}
    assert LogTasks(s'.log, s'.units)[..Finished(s')] == LogTasks(s.log, s.units)[..Finished(s)];
  }

  /** Byte b after sector j of a partly applied unit has been written back as well. */
  lemma WriteByte(base: seq<Byte>, parity: seq<Byte>, parity': seq<Byte>, u: Unit, j: nat, b: nat)
    requires u.task.Valid() && |parity'| == |parity| == |base| && b < |base| && j !in u.applied
    requires parity[b] == if Reached(u, u.applied, b) then ApplyTask(base, u.task)[b] else base[b]
    requires parity'[b] == if u.task.Covers(b) && u.task.SectorOf(b) == j
                           then ByteXor(parity[b], ByteXor(u.task.OldAt(b), u.task.NewAt(b))) else parity[b]
    ensures var u' := u.(applied := u.applied + {j});
      parity'[b] == if Reached(u', u'.applied, b) then ApplyTask(base, u.task)[b] else base[b]
  {
    hide ByteXor;
    if u.task.Covers(b) { AppliedByte(base, u.task, b); }
  }

  lemma WriteSectorSerial(parity0: seq<Byte>, s: State, j: nat)
    requires Inv(s) && SerialInv(parity0, s) && Enabled(s, WriteSector(j))
    ensures SerialInv(parity0, Do(s, WriteSector(j)))
  {
    hide Inv, ApplyAll, ApplyTask, Reached, Do, Enabled;
    WriteSectorKeeps(s, j);
    var s', h := Do(s, WriteSector(j)), s.holder;
    InvLogFits(s);
    InvLogFits(s');
    WriteSectorUnit(s, j);
    var base, u := ApplyAll(parity0, LogTasks(s.log, s.units)[..Finished(s)]), s.units[h];
    assert LogTasks(s'.log, s'.units)[..Finished(s')] == LogTasks(s.log, s.units)[..Finished(s)];
    assert PartlyApplied(base, s.sh.parity, u);
    forall b | 0 <= b < |base|
      ensures s'.sh.parity[b] ==
        if Reached(s'.units[h], s'.units[h].applied, b) then ApplyTask(base, u.task)[b] else base[b]
    {
      WriteSectorXors(s, j, b);
      WriteByte(base, s.sh.parity, s'.sh.parity, u, j, b);
    }
  }

  /** What writing sector j changes: the parity disk, and the mark of that sector on the loaded unit. */
  lemma WriteSectorUnit(s: State, j: nat)
    requires Inv(s) && Enabled(s, WriteSector(j))
    ensures var s' := Do(s, WriteSector(j));
      && s.holder < |s.units| && s.units[s.holder].task.Valid() && j !in s.units[s.holder].applied
      && s'.units == s.units[s.holder := s.units[s.holder].(applied := s.units[s.holder].applied + {j})]
      && s'.log == s.log && s'.claimed == s.claimed && s'.holder == s.holder && |s'.sh.parity| == |s.sh.parity|
      && Loaded(s) && Loaded(s')
  {
    hide Full, PieceOk, StagedUpTo, Mixed, Counters, AppliedAll;
    assert UnitOk(s.units[s.holder], s.holder, s.pieces, |s.disks|, |s.sh.parity|);
  }

  lemma AppliedByte(base: seq<Byte>, t: Task, b: nat)
    requires t.Valid() && b < |base| && t.Covers(b)
    ensures ApplyTask(base, t)[b] == ByteXor(base[b], ByteXor(t.OldAt(b), t.NewAt(b)))
  {}

  lemma SignalSerial(parity0: seq<Byte>, s: State)
    requires Inv(s) && SerialInv(parity0, s) && Enabled(s, Signal)
    ensures SerialInv(parity0, Do(s, Signal))
  {
    var s', u := Do(s, Signal), s.units[s.holder];
    SignalApplied(s);
    InvLogFits(s);
    hide Inv;
    var ts, n := LogTasks(s.log, s.units), |s.log| - 1;
    var base := ApplyAll(parity0, ts[..n]);
    assert ts[..|s.log|] == ts && ts[n] == u.task;
    assert PartlyApplied(base, s.sh.parity, u);
    forall b | 0 <= b < |base| ensures s.sh.parity[b] == ApplyTask(base, u.task)[b] {
      if !u.task.Covers(b) { XorZero(base[b]); }
    }
    assert s.sh.parity == ApplyTask(base, u.task);
  }

  /** When the dispatcher signals, every sector of the loaded task has been written back. */
  lemma SignalApplied(s: State)
    requires Inv(s) && Enabled(s, Signal)
    ensures s.claimed == |s.log| > 0 && s.log[|s.log| - 1] == s.holder < |s.units| && s.units[s.holder].task.Valid()
    ensures Full(s.units[s.holder].applied, s.units[s.holder].task.Sectors())
    ensures forall b :: s.units[s.holder].task.Covers(b) ==> Reached(s.units[s.holder], s.units[s.holder].applied, b)
  {}

  /** Units that look the same to the log. */
  ghost predicate SameTask(u: Unit, u': Unit) {
    u.phase.Handed? ==> u'.task == u.task && u'.applied == u.applied
  }

  lemma StillSerial(parity0: seq<Byte>, s: State, s': State)
    requires Inv(s) && Inv(s') && SerialInv(parity0, s)
    requires s'.log == s.log && s'.sh.parity == s.sh.parity && Loaded(s') == Loaded(s) && |s.units| <= |s'.units|
    requires Loaded(s) ==> s'.holder == s.holder
    requires forall i :: 0 <= i < |s.units| ==> SameTask(s.units[i], s'.units[i])
    ensures SerialInv(parity0, s')
  {
    InvLogFits(s);
    InvLogFits(s');
    assert Logged(s.log, s.units);
    hide Inv, ApplyAll, ApplyTask;
    forall k | 0 <= k < |s.log| ensures s'.units[s.log[k]].task == s.units[s.log[k]].task {
      assert SameTask(s.units[s.log[k]], s'.units[s.log[k]]);
    }
    assert LogTasks(s'.log, s'.units) == LogTasks(s.log, s.units);
    if Loaded(s) { assert SameTask(s.units[s.holder], s'.units[s.holder]); }
  }

  lemma HostTasks(s: State, a: Action)
    requires Enabled(s, a) && (a.Submit? || a.ReadSector? || a.Enqueue? || a.Release? || a.Land?)
    ensures var s' := Do(s, a);
      && s'.log == s.log && s'.sh.parity == s.sh.parity && Loaded(s') == Loaded(s) && |s.units| <= |s'.units|
      && (Loaded(s) ==> s'.holder == s.holder)
      && forall i :: 0 <= i < |s.units| ==> SameTask(s.units[i], s'.units[i])
  {}

  lemma EngineTasks(s: State, a: Action)
    requires Inv(s) && Enabled(s, a) && (a.Acquire? || a.Work? || a.ClaimWork? || a.Dispatch? || a.Interrupt?)
    ensures var s' := Do(s, a);
      && s'.log == s.log && s'.sh.parity == s.sh.parity && Loaded(s') == Loaded(s) && |s.units| <= |s'.units|
      && (Loaded(s) ==> s'.holder == s.holder)
      && forall i :: 0 <= i < |s.units| ==> SameTask(s.units[i], s'.units[i])
  {
    hide Inv, HasWork;
    FreeMeansUnloaded(s);
    if a.ClaimWork? { ClaimMeansPosted(s); }
  }

  lemma FreeMeansUnloaded(s: State)
    requires Inv(s)
    ensures s.sh.sem > 0 ==> !Loaded(s)
  {}

  lemma ClaimMeansPosted(s: State)
    requires Inv(s) && Enabled(s, ClaimWork)
    ensures s.claimed < |s.log|
  {}

  /** Every step keeps the parity disk where serial application would have it. */
  lemma {:induction false} StepSerial(parity0: seq<Byte>, s: State, a: Action)
    requires Inv(s) && SerialInv(parity0, s) && Enabled(s, a)
    ensures SerialInv(parity0, Do(s, a))
  {
    hide Inv, SerialInv, Do, Enabled;
    match a
    case PostWork(i) => PostWorkSerial(parity0, s, i);
    case WriteSector(j) => WriteSectorSerial(parity0, s, j);
    case Signal => SignalSerial(parity0, s);
    case _ =>
      StepKeeps(s, a);
      if a.Submit? || a.ReadSector? || a.Enqueue? || a.Release? || a.Land? {
        HostTasks(s, a);
      } else {
        EngineTasks(s, a);
      }
      StillSerial(parity0, s, Do(s, a));
  }
}
