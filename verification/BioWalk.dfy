/** The host side of one write piece: building the old-data read, walking both bios in its end-io, and
    exactly when that walk pairs the right pages. */
module BioWalk {
  import opened Bytes
  import opened Parity
  import opened Segments

  /** A bvec_iter: sector, index into the vector, bytes done in that entry, bytes left. */
  datatype Iter = Iter(sector: nat, idx: nat, done: nat, size: nat)

  datatype Bio = Bio(vec: seq<Segment>, iter: Iter)

  /** The bytes left in the vector from an iterator's position. */
  function Room(vec: seq<Segment>, idx: nat, done: nat): int {
    if idx >= |vec| then 0 else Length(vec[idx..]) - done
  }

  /** A bio whose iterator lies inside its vector, as the block layer hands them out. */
  ghost predicate WellFormed(vec: seq<Segment>, it: Iter) {
    && AllFit(vec) && (forall k :: 0 <= k < |vec| ==> vec[k].len > 0)
    && it.size <= Room(vec, it.idx, it.done)
    && (it.size > 0 ==> it.idx < |vec| && it.done < vec[it.idx].len)
  }

  /** bio_iter_iovec: the segment at the iterator. */
  function SegAt(vec: seq<Segment>, it: Iter): (r: Segment)
    requires it.idx < |vec| && it.done <= vec[it.idx].len
  {
    var v := vec[it.idx];
    Segment(v.page, v.offset + it.done, if it.size < v.len - it.done then it.size else v.len - it.done)
  }

  /** bio_advance_iter_single. */
  function Advance(vec: seq<Segment>, it: Iter, bytes: nat): (r: Iter)
    requires it.idx < |vec| && bytes <= it.size && it.done + bytes <= vec[it.idx].len
  {
    if it.done + bytes == vec[it.idx].len then Iter(it.sector + bytes / 512, it.idx + 1, 0, it.size - bytes)
    else Iter(it.sector + bytes / 512, it.idx, it.done + bytes, it.size - bytes)
  }

  lemma AdvanceKeeps(vec: seq<Segment>, it: Iter)
    requires WellFormed(vec, it) && it.size > 0
    ensures var seg := SegAt(vec, it);
      && 0 < seg.len <= it.size && it.done + seg.len <= vec[it.idx].len && seg.Valid()
      && WellFormed(vec, Advance(vec, it, seg.len))
      && Advance(vec, it, seg.len).size == it.size - seg.len
  {
    var rest := vec[it.idx..];
    assert rest[0] == vec[it.idx] && rest[1..] == vec[it.idx + 1..];
    assert Length(rest) == vec[it.idx].len + Length(vec[it.idx + 1..]);
    if it.idx + 1 == |vec| { assert vec[it.idx + 1..] == []; }
  }

  /** The segments bio_for_each_segment visits. */
  ghost function SegmentsOf(vec: seq<Segment>, it: Iter): (r: seq<Segment>)
    requires WellFormed(vec, it)
    decreases it.size
  {
    if it.size == 0 then []
    else
      AdvanceKeeps(vec, it);
      [SegAt(vec, it)] + SegmentsOf(vec, Advance(vec, it, SegAt(vec, it).len))
  }

  /** The vector of the read bio: one newly allocated page per segment of the write, same shape. */
  ghost predicate ReadVector(segs: seq<Segment>, vec: seq<Segment>) {
    AllFit(vec) && SameShape(segs, vec)
  }

  /** How the end-io ends: it refuses mismatched bios, it trips over a BUG_ON with these tasks already
      queued, or it queues these tasks and releases the write. */
  datatype Outcome = Refused | Bug(made: seq<Task>) | Queued(tasks: seq<Task>) {

    /** What stands on the work queue in the end. */
    function OnQueue(): seq<Task> {
      match this
      case Refused => []
      case Bug(made) => made
      case Queued(tasks) => tasks
    }
  }

  function Prepend(t: Task, o: Outcome): Outcome {
    match o
    case Queued(tasks) => Queued([t] + tasks)
    case Bug(made) => Bug([t] + made)
    case Refused => o
  }

  /** An iterator stands on an entry of its vector. */
  predicate OnEntry(vec: seq<Segment>, it: Iter) {
    it.idx < |vec| && it.done < vec[it.idx].len
  }

  /** Both iterators stand on entries of the same window: what the two BUG_ONs of the walk demand. */
  predicate Matching(oldVec: seq<Segment>, newVec: seq<Segment>, itOld: Iter, itNew: Iter) {
    && OnEntry(oldVec, itOld) && OnEntry(newVec, itNew)
    && SegAt(oldVec, itOld).len == SegAt(newVec, itNew).len
    && SegAt(oldVec, itOld).offset == SegAt(newVec, itNew).offset
  }

  /** An iterator moved past the segment it stands on. */
  function Next(vec: seq<Segment>, it: Iter): Iter
    requires OnEntry(vec, it)
  {
    Advance(vec, it, SegAt(vec, it).len)
  }

  /** The task of one turn of the walk. */
  function TurnTask(oldVec: seq<Segment>, newVec: seq<Segment>, itOld: Iter, itNew: Iter, pos: nat): Task
    requires Matching(oldVec, newVec, itOld, itNew)
  {
    var segNew := SegAt(newVec, itNew);
    Task(segNew.page, SegAt(oldVec, itOld).page, pos, segNew.offset, segNew.len)
  }

  /** The loop of pciev_read_bio_endio. itOld walks the read bio's vector, itNew the write bio's; an
      iterator outside its vector counts as a bug. */
  function Walk(oldVec: seq<Segment>, newVec: seq<Segment>, itOld: Iter, itNew: Iter, pos: nat): (r: Outcome)
    ensures !r.Refused?
    decreases itOld.size
  {
    if itOld.size == 0 || itNew.size == 0 then Queued([])
    else if !Matching(oldVec, newVec, itOld, itNew) then Bug([])
    else
      var t := TurnTask(oldVec, newVec, itOld, itNew, pos);
      Prepend(t, Walk(oldVec, newVec, Next(oldVec, itOld), Next(newVec, itNew), pos + t.size / 512))
  }

  /** The whole outcome is what has been made so far, then what the rest of the walk gives. */
  ghost predicate Continues(whole: Outcome, made: seq<Task>, rest: Outcome) {
    (whole.Queued? <==> rest.Queued?) && whole.OnQueue() == made + rest.OnQueue()
  }

  lemma ContinueWith(whole: Outcome, made: seq<Task>, t: Task, rest: Outcome)
    requires Continues(whole, made, Prepend(t, rest)) && !rest.Refused?
    ensures Continues(whole, made + [t], rest)
  {
    assert made + ([t] + rest.OnQueue()) == made + [t] + rest.OnQueue();
  }

  /** pciev_read_bio_endio: the vector lengths must agree, then both vectors are walked with the write
      bio's iterator. */
  function EndIo(readVec: seq<Segment>, write: Bio): Outcome {
    if |readVec| != |write.vec| then Refused
    else Walk(readVec, write.vec, write.iter, write.iter, write.iter.sector)
  }

  lemma WalkTurn(oldVec: seq<Segment>, newVec: seq<Segment>, itOld: Iter, itNew: Iter, pos: nat)
    ensures Walk(oldVec, newVec, itOld, itNew, pos) ==
      if itOld.size == 0 || itNew.size == 0 then Queued([])
      else if !Matching(oldVec, newVec, itOld, itNew) then Bug([])
      else
        var t := TurnTask(oldVec, newVec, itOld, itNew, pos);
        Prepend(t, Walk(oldVec, newVec, Next(oldVec, itOld), Next(newVec, itNew), pos + t.size / 512))
    ensures Matching(oldVec, newVec, itOld, itNew) && itOld.size > 0 && itNew.size > 0 ==>
              Next(oldVec, itOld).size < itOld.size
  {}

  // ----- when the walk is right

  lemma SegmentsUnfold(vec: seq<Segment>, it: Iter)
    requires WellFormed(vec, it) && it.size > 0
    ensures OnEntry(vec, it) && 0 < SegAt(vec, it).len <= it.size
    ensures WellFormed(vec, Next(vec, it)) && Next(vec, it).size == it.size - SegAt(vec, it).len
    ensures Next(vec, it).size > 0 ==> Next(vec, it).idx == it.idx + 1 && Next(vec, it).done == 0
    ensures SegmentsOf(vec, it) == [SegAt(vec, it)] + SegmentsOf(vec, Next(vec, it))
  {
    AdvanceKeeps(vec, it);
  }

  /** One turn of the walk makes the first task, if the rest of the walk makes the others. */
  lemma TurnPairs(oldVec: seq<Segment>, newVec: seq<Segment>, it: Iter, itNew: Iter, pos: nat,
                  segs: seq<Segment>, was: seq<Segment>)
    requires it.size > 0 && itNew.size > 0 && OnEntry(oldVec, it) && OnEntry(newVec, itNew)
    requires SameShape(segs, was) && |segs| > 0 && segs[0] == SegAt(newVec, itNew) && was[0] == SegAt(oldVec, it)
    requires Walk(oldVec, newVec, Next(oldVec, it), Next(newVec, itNew), pos + segs[0].len / 512)
             == Queued(TasksFrom(pos + segs[0].len / 512, segs[1..], was[1..]))
    ensures Walk(oldVec, newVec, it, itNew, pos) == Queued(TasksFrom(pos, segs, was))
  {
    hide SegAt, Next, OnEntry;
  }

  /** At the start of an entry as long as the segment at hand, that entry is the segment read. */
  lemma AlignedNext(vec: seq<Segment>, it: Iter, seg: Segment, rest: seq<Segment>)
    requires it.idx < |vec| && it.done == 0 && rest == vec[it.idx..] && rest[0].len == seg.len && 0 < seg.len <= it.size
    ensures OnEntry(vec, it) && SegAt(vec, it) == rest[0]
    ensures Next(vec, it).idx == it.idx + 1 && Next(vec, it).done == 0 && Next(vec, it).size == it.size - seg.len
    ensures rest[1..] == vec[it.idx + 1..]
  {}

  lemma WalkEnds(oldVec: seq<Segment>, newVec: seq<Segment>, it: Iter, itNew: Iter, pos: nat)
    requires WellFormed(newVec, itNew) && it.size == itNew.size == 0
    ensures SegmentsOf(newVec, itNew) == [] && Walk(oldVec, newVec, it, itNew, pos) == Queued(TasksFrom(pos, [], []))
  {}

  /** From aligned positions the walk makes the tasks of the remaining segments. */
  lemma {:induction false} WalkPairs(oldVec: seq<Segment>, newVec: seq<Segment>, it: Iter, itNew: Iter, pos: nat,
                                     segs: seq<Segment>, was: seq<Segment>)
    requires WellFormed(newVec, itNew) && itNew.size == it.size && it.idx <= |oldVec|
    requires it.done == 0 && (it.size > 0 ==> itNew.idx == it.idx && itNew.done == 0)
    requires segs == SegmentsOf(newVec, itNew) && was == oldVec[it.idx..] && SameShape(segs, was)
    ensures Walk(oldVec, newVec, it, itNew, pos) == Queued(TasksFrom(pos, segs, was))
    decreases it.size
  {
    hide WellFormed, SegmentsOf, Walk, TasksFrom, SegAt, OnEntry, Matching, AllFit, Next;
    if it.size == 0 {
      WalkEnds(oldVec, newVec, it, itNew, pos);
    } else {
      SegmentsUnfold(newVec, itNew);
      AlignedNext(oldVec, it, segs[0], was);
      var next, nextNew := Next(oldVec, it), Next(newVec, itNew);
      WalkPairs(oldVec, newVec, next, nextNew, pos + segs[0].len / 512, segs[1..], was[1..]);
      TurnPairs(oldVec, newVec, it, itNew, pos, segs, was);
    }
  }

  /** A walk visits at most the entries that are left. */
  lemma {:induction false} SegmentCount(vec: seq<Segment>, it: Iter)
    requires WellFormed(vec, it)
    ensures it.idx <= |vec| ==> |SegmentsOf(vec, it)| <= |vec| - it.idx
    ensures it.size > 0 ==> |SegmentsOf(vec, it)| > 0
    decreases it.size
  {
    if it.size > 0 {
      AdvanceKeeps(vec, it);
      var next := Advance(vec, it, SegAt(vec, it).len);
      if next.size > 0 {
        SegmentCount(vec, next);
      } else {
        assert SegmentsOf(vec, next) == [];
      }
    }
  }

  /** The end-io queues the piece's tasks and releases the write exactly when the write bio's iterator
      stands at the front of its vector and runs through every entry; otherwise it queues nothing. */
  lemma EndIoExactly(write: Bio, readVec: seq<Segment>)
    requires WellFormed(write.vec, write.iter) && write.iter.size > 0
    requires ReadVector(SegmentsOf(write.vec, write.iter), readVec)
    ensures EndIo(readVec, write).Queued? <==>
              write.iter.idx == 0 && write.iter.done == 0 && |SegmentsOf(write.vec, write.iter)| == |write.vec|
    ensures EndIo(readVec, write).OnQueue() ==
            if EndIo(readVec, write).Queued?
            then TasksFrom(write.iter.sector, SegmentsOf(write.vec, write.iter), readVec)
            else []
  {
    var it := write.iter;
    SegmentCount(write.vec, it);
    if it.idx == 0 && it.done == 0 && |readVec| == |write.vec| {
      assert readVec[0..] == readVec;
      WalkPairs(readVec, write.vec, it, it, it.sector, SegmentsOf(write.vec, it), readVec);
    } else if |readVec| == |write.vec| {
      // idx == 0 by the count, so done > 0: the first pair of offsets differs
      AdvanceKeeps(write.vec, it);
      assert SegmentsOf(write.vec, it)[0] == SegAt(write.vec, it);
      assert readVec[0].offset == write.vec[0].offset + it.done;
    }
  }

  /** The case it gets wrong: after bio_split the parent's iterator has moved off the front, so the last
      piece of every split write is refused or trips a BUG_ON, and its data is never released. */
  lemma SplitParentNeverReleased(write: Bio, readVec: seq<Segment>)
    requires WellFormed(write.vec, write.iter) && write.iter.size > 0
    requires ReadVector(SegmentsOf(write.vec, write.iter), readVec)
    requires write.iter.idx > 0 || write.iter.done > 0
    ensures !EndIo(readVec, write).Queued? && EndIo(readVec, write).OnQueue() == []
  {
    EndIoExactly(write, readVec);
  }

  /** A concrete one: two full pages, of which bio_split has taken the first. */
  lemma TwoPageWriteFails(p1: seq<Byte>, p2: seq<Byte>, blank: seq<Byte>)
    requires |p1| == |p2| == |blank| == 4096
    ensures var write := Bio([Segment(p1, 0, 4096), Segment(p2, 0, 4096)], Iter(8, 1, 0, 4096));
      && WellFormed(write.vec, write.iter) && SegmentsOf(write.vec, write.iter) == [Segment(p2, 0, 4096)]
      && EndIo([Segment(blank, 0, 4096)], write) == Refused
  {}

  // ----- the imperative code

  /** The driver's work queue and the bios it has handed to the block layer. */
  class Driver {
    var queue: seq<Task>
    var submitted: seq<Bio>

    constructor ()
      ensures queue == [] && submitted == []
    {
      queue, submitted := [], [];
    }

    /** pcievdrv_submit_verify: one page per segment, pages[k] being what the allocator returns. */
    method SubmitVerify(write: Bio, pages: seq<seq<Byte>>) returns (read: Bio)
      requires WellFormed(write.vec, write.iter)
      requires |pages| >= |SegmentsOf(write.vec, write.iter)| && forall k :: 0 <= k < |pages| ==> |pages[k]| == 4096
      ensures ReadVector(SegmentsOf(write.vec, write.iter), read.vec)
      ensures forall k :: 0 <= k < |read.vec| ==> read.vec[k].page == pages[k]
      ensures read.iter == Iter(write.iter.sector, 0, 0, write.iter.size)
    {
      var it, vec, size := write.iter, [], 0;
      ghost var all := SegmentsOf(write.vec, write.iter);
      while it.size > 0
        invariant WellFormed(write.vec, it) && |vec| <= |all| && size + it.size == write.iter.size
        invariant all[|vec|..] == SegmentsOf(write.vec, it)
        invariant ReadVector(all[..|vec|], vec)
        invariant forall k :: 0 <= k < |vec| ==> vec[k].page == pages[k]
        decreases it.size
      {
        AdvanceKeeps(write.vec, it);
        var seg := SegAt(write.vec, it);
        assert all[|vec|..][0] == seg && all[|vec|..][1..] == all[|vec| + 1..];
        vec := vec + [Segment(pages[|vec|], seg.offset, seg.len)];
        size := size + seg.len;
        it := Advance(write.vec, it, seg.len);
      }
      assert all[..|vec|] == all;
      read := Bio(vec, Iter(write.iter.sector, 0, 0, size));
    }

    method AddVerifyTask(t: Task)
      modifies this`queue
      ensures queue == old(queue) + [t]
    {
      queue := queue + [t];
    }

    /** pciev_read_bio_endio. Tasks queued before a BUG_ON stay queued; the write is released last. */
    method ReadEndIo(readVec: seq<Segment>, write: Bio) returns (released: bool)
      modifies this
      ensures released <==> EndIo(readVec, write).Queued?
      ensures queue == old(queue) + EndIo(readVec, write).OnQueue()
      ensures submitted == if released then old(submitted) + [write] else old(submitted)
    {
      hide Walk, SegAt, Next, OnEntry, Advance, TurnTask, Prepend;
      if |readVec| != |write.vec| {
        return false;
      }
      var itOld, itNew := write.iter, write.iter;
      var pos: nat := write.iter.sector;
      ghost var made: seq<Task>, whole := [], EndIo(readVec, write);
      while itOld.size > 0 && itNew.size > 0
        invariant queue == old(queue) + made && submitted == old(submitted)
        invariant Continues(whole, made, Walk(readVec, write.vec, itOld, itNew, pos))
        decreases itOld.size
      {
        WalkTurn(readVec, write.vec, itOld, itNew, pos);
        if !Matching(readVec, write.vec, itOld, itNew) {
          return false;
        }
        hide Matching, Continues;
        var t := TurnTask(readVec, write.vec, itOld, itNew, pos);
        var nextOld, nextNew := Next(readVec, itOld), Next(write.vec, itNew);
        ContinueWith(whole, made, t, Walk(readVec, write.vec, nextOld, nextNew, pos + t.size / 512));
        AddVerifyTask(t);
        made := made + [t];
        pos := pos + t.size / 512;
        itOld, itNew := nextOld, nextNew;
      }
      WalkTurn(readVec, write.vec, itOld, itNew, pos);
      submitted := submitted + [write];
      return true;
    }
  }
}
