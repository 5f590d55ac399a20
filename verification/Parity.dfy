/** The XOR algebra of verify tasks: what a task does to the parity disk, in any order. */
module Parity {
  import opened Bytes

  /** One queued unit of parity work: the old and new page, and the window they cover. */
  datatype Task = Task(pageNew: seq<Byte>, pageOld: seq<Byte>, numSector: nat, offset: nat, size: nat) {

    predicate Valid() {
      && |pageNew| == |pageOld| == CHUNK_SIZE
      && offset + size <= CHUNK_SIZE
      && size % 512 == 0
    }

    function Base(): nat { AtSector(numSector) }

    function Sectors(): nat { size / 512 }

    predicate Covers(b: nat) { Base() <= b < Base() + size }

    /** Position in the pages of disk byte b. */
    function InPage(b: nat): nat
      requires Covers(b)
    { offset + (b - Base()) }

    /** Which of the task's sectors disk byte b lies in. */
    function SectorOf(b: nat): nat
      requires Covers(b)
    { (b - Base()) / 512 }

    function OldAt(b: nat): Byte
      requires Valid() && Covers(b)
    { pageOld[InPage(b)] }

    function NewAt(b: nat): Byte
      requires Valid() && Covers(b)
    { pageNew[InPage(b)] }

    /** What the task adds to the parity byte b. */
    function Delta(b: nat): Byte
      requires Valid()
    { if Covers(b) then ByteXor(OldAt(b), NewAt(b)) else 0 }
  }

  /** The parity disk after one task, taken as a single atomic step. */
  function ApplyTask(parity: seq<Byte>, t: Task): (r: seq<Byte>)
    requires t.Valid()
    ensures |r| == |parity|
  {
    seq(|parity|, b requires 0 <= b < |parity| => ByteXor(parity[b], t.Delta(b)))
  }

  ghost predicate AllValid(ts: seq<Task>) {
    forall k :: 0 <= k < |ts| ==> ts[k].Valid()
  }

  /** The parity disk after a list of tasks applied one after another. */
  function ApplyAll(parity: seq<Byte>, ts: seq<Task>): (r: seq<Byte>)
    requires forall k :: 0 <= k < |ts| ==> ts[k].Valid()
    ensures |r| == |parity|
  {
    if ts == [] then parity else ApplyTask(ApplyAll(parity, ts[..|ts| - 1]), ts[|ts| - 1])
  }

  function Deltas(ts: seq<Task>, b: nat): seq<Byte>
    requires forall k :: 0 <= k < |ts| ==> ts[k].Valid()
  {
    seq(|ts|, k requires 0 <= k < |ts| => ts[k].Delta(b))
  }

  lemma {:induction false} ApplyAllIsDeltaSum(parity: seq<Byte>, ts: seq<Task>, b: nat)
    requires AllValid(ts) && b < |parity|
    ensures ApplyAll(parity, ts)[b] == ByteXor(parity[b], XorSum(Deltas(ts, b)))
  {
    var n := |ts| - 1;
    if ts == [] {
      XorRegroup(parity[b], 0, 0);
    } else {
      ApplyAllIsDeltaSum(parity, ts[..n], b);
      var ds := Deltas(ts, b);
      assert ds[..n] == Deltas(ts[..n], b);
      assert ApplyAll(parity, ts) == ApplyTask(ApplyAll(parity, ts[..n]), ts[n]);
      XorRegroup(parity[b], XorSum(Deltas(ts[..n], b)), ts[n].Delta(b));
    }
  }

  lemma {:induction false} DeltaSumPermutes(ts: seq<Task>, us: seq<Task>, b: nat)
    requires AllValid(ts) && AllValid(us) && multiset(ts) == multiset(us)
    ensures XorSum(Deltas(ts, b)) == XorSum(Deltas(us, b))
  {
    if ts == [] {
      assert |multiset(us)| == 0;
    } else {
      var k := PermutationStep(ts, us);
      DeltaSumPermutes(ts[..|ts| - 1], us[..k] + us[k + 1..], b);
      DeltasWithout(us, k, b);
      DeltasWithout(ts, |ts| - 1, b);
      assert ts[..|ts| - 1] + ts[|ts|..] == ts[..|ts| - 1];
    }
  }

  lemma DeltasWithout(ts: seq<Task>, k: nat, b: nat)
    requires AllValid(ts) && k < |ts|
    ensures AllValid(ts[..k] + ts[k + 1..])
    ensures XorSum(Deltas(ts, b)) == ByteXor(XorSum(Deltas(ts[..k] + ts[k + 1..], b)), ts[k].Delta(b))
  {
    XorSumRemove(Deltas(ts, b), k);
    hide XorSum, ByteXor;
    assert Deltas(ts, b)[..k] + Deltas(ts, b)[k + 1..] == Deltas(ts[..k] + ts[k + 1..], b);
  }

  /** The last element of one ordering sits somewhere in the other; without it they are still permutations. */
  lemma PermutationStep(ts: seq<Task>, us: seq<Task>) returns (k: nat)
    requires |ts| > 0 && multiset(ts) == multiset(us)
    ensures k < |us| && us[k] == ts[|ts| - 1]
    ensures multiset(ts[..|ts| - 1]) == multiset(us[..k] + us[k + 1..])
  {
    var n := |ts| - 1;
    assert ts == ts[..n] + [ts[n]];
    assert ts[n] in multiset(us);
    k :| 0 <= k < |us| && us[k] == ts[n];
    assert us == us[..k] + [us[k]] + us[k + 1..];
    assert multiset(us[..k] + us[k + 1..]) == multiset(us) - multiset{us[k]};
    assert multiset(ts[..n]) == multiset(ts) - multiset{ts[n]};
  }

  /** Schedule independence: every order of the same tasks leaves the same parity disk. */
  lemma {:induction false} ScheduleIndependence(parity: seq<Byte>, ts: seq<Task>, us: seq<Task>)
    requires AllValid(ts) && AllValid(us) && multiset(ts) == multiset(us)
    ensures ApplyAll(parity, ts) == ApplyAll(parity, us)
  {
    forall b | 0 <= b < |parity| ensures ApplyAll(parity, ts)[b] == ApplyAll(parity, us)[b] {
      ApplyAllIsDeltaSum(parity, ts, b);
      ApplyAllIsDeltaSum(parity, us, b);
      DeltaSumPermutes(ts, us, b);
    }
  }

  /** Back-to-back writes of byte b: each task's old byte is the new byte of the one before. */
  ghost predicate Chained(ts: seq<Task>, b: nat)
    requires AllValid(ts)
  {
    && (forall k :: 0 <= k < |ts| ==> ts[k].Covers(b))
    && (forall k :: 0 < k < |ts| ==> ts[k].OldAt(b) == ts[k - 1].NewAt(b))
  }

  lemma {:induction false} ChainTelescopes(ts: seq<Task>, b: nat)
    requires AllValid(ts) && |ts| > 0 && Chained(ts, b)
    ensures XorSum(Deltas(ts, b)) == ByteXor(ts[0].OldAt(b), ts[|ts| - 1].NewAt(b))
  {
    var n := |ts| - 1;
    assert Deltas(ts, b)[..n] == Deltas(ts[..n], b);
    if n == 0 {
      XorCommutes(0, ts[0].Delta(b));
      XorZero(ts[0].Delta(b));
    } else {
      ChainTelescopes(ts[..n], b);
      XorRewire(ts[0].OldAt(b), ts[n - 1].NewAt(b), ts[n].NewAt(b));
    }
  }

  /** Back-to-back writes telescope to (first old, last new) in whatever order their tasks are applied. */
  lemma {:induction false} Telescoping(parity: seq<Byte>, ts: seq<Task>, us: seq<Task>, b: nat)
    requires AllValid(ts) && |ts| > 0 && b < |parity| && Chained(ts, b)
    requires AllValid(us) && multiset(us) == multiset(ts)
    ensures ApplyAll(parity, us)[b] == ByteXor(ByteXor(parity[b], ts[0].OldAt(b)), ts[|ts| - 1].NewAt(b))
  {
    ScheduleIndependence(parity, ts, us);
    ApplyAllIsDeltaSum(parity, ts, b);
    ChainTelescopes(ts, b);
    XorRegroup(parity[b], ts[0].OldAt(b), ts[|ts| - 1].NewAt(b));
  }

  // ----- data disks and full parity

  /** All disks hold len bytes. */
  ghost predicate Uniform(disks: seq<seq<Byte>>, len: nat) {
    forall d :: 0 <= d < |disks| ==> |disks[d]| == len
  }

  function Column(disks: seq<seq<Byte>>, b: nat): seq<Byte>
    requires forall d :: 0 <= d < |disks| ==> b < |disks[d]|
  {
    seq(|disks|, d requires 0 <= d < |disks| => disks[d][b])
  }

  /** XOR of all disks at byte b: the whole-stripe parity. */
  function Stripe(disks: seq<seq<Byte>>, b: nat): Byte
    requires forall d :: 0 <= d < |disks| ==> b < |disks[d]|
  {
    XorSum(Column(disks, b))
  }

  ghost predicate Consistent(disks: seq<seq<Byte>>, parity: seq<Byte>) {
    && Uniform(disks, |parity|)
    && forall b :: 0 <= b < |parity| ==> parity[b] == Stripe(disks, b)
  }

  /** Changing one disk changes the whole-stripe parity by (old xor new) of that disk. */
  lemma StripeUpdate(disks: seq<seq<Byte>>, d: nat, disk: seq<Byte>, b: nat)
    requires d < |disks| && Uniform(disks, |disk|) && b < |disk|
    ensures Stripe(disks[d := disk], b) == ByteXor(Stripe(disks, b), ByteXor(disks[d][b], disk[b]))
  {
    XorSumUpdate(Column(disks, b), d, disk[b]);
    assert Column(disks[d := disk], b) == Column(disks, b)[d := disk[b]];
  }

  /** Recoverability: a lost data disk is the XOR of the parity disk and the remaining data disks. */
  lemma Recover(disks: seq<seq<Byte>>, parity: seq<Byte>, d: nat, b: nat)
    requires Consistent(disks, parity) && d < |disks| && b < |parity|
    ensures disks[d][b] == ByteXor(parity[b], Stripe(disks[..d] + disks[d + 1..], b))
  {
    var rest := disks[..d] + disks[d + 1..];
    forall e | 0 <= e < |rest| ensures |rest[e]| == |parity| {
      assert rest[e] == disks[if e < d then e else e + 1];
    }
    XorSumRemove(Column(disks, b), d);
    assert Column(disks, b)[..d] + Column(disks, b)[d + 1..] == Column(rest, b);
    XorRegroup(disks[d][b], Stripe(rest, b), Stripe(rest, b));
  }

  /** The disk after a task's new bytes have landed on it. */
  function Landed(disk: seq<Byte>, t: Task): (r: seq<Byte>)
    requires t.Valid() && t.Base() + t.size <= |disk|
    ensures |r| == |disk|
  {
    Splice(disk, t.Base(), t.pageNew[t.offset..t.offset + t.size])
  }

  /** The task's old page holds what the disk holds in the task's window. */
  ghost predicate Captures(t: Task, disk: seq<Byte>)
    requires t.Valid() && t.Base() + t.size <= |disk|
  {
    forall b: nat :: t.Covers(b) ==> t.OldAt(b) == disk[b]
  }

  /** A write of one data disk together with the task that was made for it. */
  datatype DiskWrite = DiskWrite(disk: nat, task: Task)

  ghost predicate Applicable(disks: seq<seq<Byte>>, w: DiskWrite) {
    && w.disk < |disks| && w.task.Valid()
    && w.task.Base() + w.task.size <= |disks[w.disk]|
    && Captures(w.task, disks[w.disk])
  }

  ghost predicate AllApplicable(disks: seq<seq<Byte>>, ws: seq<DiskWrite>)
    decreases |ws|
  {
    ws == [] || (Applicable(disks, ws[0]) && AllApplicable(AfterWrite(disks, ws[0]), ws[1..]))
  }

  ghost function AfterWrite(disks: seq<seq<Byte>>, w: DiskWrite): seq<seq<Byte>>
    requires Applicable(disks, w)
  {
    disks[w.disk := Landed(disks[w.disk], w.task)]
  }

  ghost function AfterWrites(disks: seq<seq<Byte>>, ws: seq<DiskWrite>): seq<seq<Byte>>
    requires AllApplicable(disks, ws)
    decreases |ws|
  {
    if ws == [] then disks else AfterWrites(AfterWrite(disks, ws[0]), ws[1..])
  }

  /** One delta keeps the parity equal to a full recompute over all data chunks. */
  lemma IncrementalStep(disks: seq<seq<Byte>>, parity: seq<Byte>, w: DiskWrite)
    requires Consistent(disks, parity) && Applicable(disks, w)
    ensures Consistent(AfterWrite(disks, w), ApplyTask(parity, w.task))
  {
    var disk := Landed(disks[w.disk], w.task);
    forall b | 0 <= b < |parity|
      ensures ApplyTask(parity, w.task)[b] == Stripe(AfterWrite(disks, w), b)
    {
      StripeUpdate(disks, w.disk, disk, b);
      if !w.task.Covers(b) {
        assert disk[b] == disks[w.disk][b];
        XorRegroup(Stripe(disks, b), disk[b], disk[b]);
      }
    }
  }

  /** The task is made from a copy of the caller's page, the data write reads that page again. If the page
      has changed meanwhile, a byte is consistent exactly when that byte has not. */
  lemma UnstablePageExactly(disks: seq<seq<Byte>>, parity: seq<Byte>, w: DiskWrite, page: seq<Byte>, b: nat)
    requires Consistent(disks, parity) && Applicable(disks, w) && |page| == CHUNK_SIZE && w.task.Covers(b)
    ensures b < |parity|
    ensures var disks' := disks[w.disk := Landed(disks[w.disk], w.task.(pageNew := page))];
      ApplyTask(parity, w.task)[b] == Stripe(disks', b) <==> page[w.task.InPage(b)] == w.task.NewAt(b)
  {
    var t, disk := w.task, Landed(disks[w.disk], w.task.(pageNew := page));
    StripeUpdate(disks, w.disk, disk, b);
    var was, now, copied := t.OldAt(b), page[t.InPage(b)], t.NewAt(b);
    assert disk[b] == now;
    hide Xor;
    SameShift(parity[b], was, copied, now);
  }

  lemma SameShift(p: Byte, a: Byte, x: Byte, y: Byte)
    ensures ByteXor(p, ByteXor(a, x)) == ByteXor(p, ByteXor(a, y)) <==> x == y
  {
    if ByteXor(p, ByteXor(a, x)) == ByteXor(p, ByteXor(a, y)) {
      XorRegroup(ByteXor(a, x), p, p);
      XorRegroup(ByteXor(a, y), p, p);
      XorRegroup(p, ByteXor(a, x), p);
      XorRegroup(p, ByteXor(a, y), p);
      XorRegroup(x, a, a);
      XorRegroup(y, a, a);
      XorRegroup(a, x, a);
      XorRegroup(a, y, a);
    }
  }

  /** The incremental delta updates refine the full recompute over any sequence of writes and any task order. */
  lemma {:induction false} IncrementalRefinesFull(disks: seq<seq<Byte>>, parity: seq<Byte>, ws: seq<DiskWrite>,
                                                  us: seq<Task>)
    requires Consistent(disks, parity) && AllApplicable(disks, ws)
    requires AllValid(us) && multiset(us) == multiset(seq(|ws|, k requires 0 <= k < |ws| => ws[k].task))
    ensures Consistent(AfterWrites(disks, ws), ApplyAll(parity, us))
  {
    var ts := seq(|ws|, k requires 0 <= k < |ws| => ws[k].task);
    forall k | 0 <= k < |ts| ensures ts[k].Valid() {
      assert ts[k] in multiset(us);
      var j :| 0 <= j < |us| && us[j] == ts[k];
    }
    ScheduleIndependence(parity, ts, us);
    IncrementalInOrder(disks, parity, ws, ts);
  }

  lemma {:induction false} IncrementalInOrder(disks: seq<seq<Byte>>, parity: seq<Byte>, ws: seq<DiskWrite>,
                                              ts: seq<Task>)
    requires Consistent(disks, parity) && AllApplicable(disks, ws)
    requires AllValid(ts) && |ts| == |ws| && forall k :: 0 <= k < |ws| ==> ts[k] == ws[k].task
    ensures Consistent(AfterWrites(disks, ws), ApplyAll(parity, ts))
    decreases |ws|
  {
    if ws != [] {
      IncrementalStep(disks, parity, ws[0]);
      IncrementalInOrder(AfterWrite(disks, ws[0]), ApplyTask(parity, ts[0]), ws[1..], ts[1..]);
      ApplyAllHead(parity, ts);
    }
  }

  lemma {:induction false} ApplyAllHead(parity: seq<Byte>, ts: seq<Task>)
    requires AllValid(ts) && |ts| > 0
    ensures ApplyAll(parity, ts) == ApplyAll(ApplyTask(parity, ts[0]), ts[1..])
  {
    var n := |ts| - 1;
    if n == 0 {
      assert ts[..0] == [];
      assert ApplyAll(parity, ts[..0]) == parity;
    } else {
      ApplyAllHead(parity, ts[..n]);
      assert ts[..n][1..] == ts[1..][..n - 1];
    }
  }
}
