/** What a bio's iterator stands for: the stretch of bytes its segments name, what bio_split makes of it,
    and exactly how far the end-io's walk over two bios gets. */
module BioData {
  import opened Bytes
  import opened Segments
  import opened BioWalk

  // ----- the bytes of a bio

  /** Where an iterator stands, in bytes from the front of its vector. */
  function Position(vec: seq<Segment>, it: Iter): nat
    requires it.idx <= |vec|
  {
    Length(vec[..it.idx]) + it.done
  }

  lemma NextPosition(vec: seq<Segment>, it: Iter)
    requires WellFormed(vec, it) && it.size > 0
    ensures OnEntry(vec, it) && Next(vec, it).idx <= |vec|
    ensures Position(vec, Next(vec, it)) == Position(vec, it) + SegAt(vec, it).len
    ensures Position(vec, it) + SegAt(vec, it).len <= Length(vec)
  {
    PrefixLength(vec, it.idx);
    NextPrefix(vec, it.idx);
  }

  lemma {:induction false} NextPrefix(vec: seq<Segment>, k: nat)
    requires k < |vec|
    ensures Length(vec[..k + 1]) == Length(vec[..k]) + vec[k].len
    decreases k
  {
    if k == 0 {
      assert vec[..1][1..] == [] && vec[..0] == [];
    } else {
      NextPrefix(vec[1..], k - 1);
      assert vec[..k + 1][1..] == vec[1..][..k] && vec[..k][1..] == vec[1..][..k - 1];
    }
  }

  /** n bytes of data from x on. */
  function Stretch(data: seq<Byte>, x: nat, n: nat): (r: seq<Byte>)
    requires x + n <= |data|
    ensures |r| == n
  {
    data[x..x + n]
  }

  lemma StretchBehind(first: seq<Byte>, rest: seq<Byte>, a: nat, n: nat)
    requires a + n <= |rest|
    ensures Stretch(first + rest, |first| + a, n) == Stretch(rest, a, n)
  {}

  lemma StretchInFront(data: seq<Byte>, x: nat, size: nat, rest: seq<Byte>, a: nat, n: nat)
    requires x + size <= |data| && a + n <= size
    ensures Stretch(Stretch(data, x, size) + rest, a, n) == Stretch(data, x + a, n)
  {
    var inner := Stretch(data, x, size);
    var left, right := Stretch(inner + rest, a, n), Stretch(data, x + a, n);
    forall i | 0 <= i < n ensures left[i] == right[i] {
      assert left[i] == (inner + rest)[a + i] == inner[a + i] == data[x + a + i] == right[i];
    }
  }

  lemma JoinStretches(data: seq<Byte>, x: nat, m: nat, k: nat, front: seq<Byte>, behind: seq<Byte>, all: seq<Byte>)
    requires x + m + k <= |data|
    requires front == Stretch(data, x, m) && behind == Stretch(data, x + m, k) && all == Stretch(data, x, m + k)
    ensures front + behind == all
  {}

  lemma DataUnfold(vec: seq<Segment>)
    requires AllFit(vec) && |vec| > 0
    ensures AllFit(vec[1..]) && vec[0].Valid() && Length(vec) == vec[0].len + Length(vec[1..])
    ensures DataOf(vec) == Stretch(vec[0].page, vec[0].offset, vec[0].len) + DataOf(vec[1..])
  {}

  lemma PrefixUnfold(vec: seq<Segment>, k: nat)
    requires k < |vec|
    ensures Length(vec[..k]) == if k == 0 then 0 else vec[0].len + Length(vec[1..][..k - 1])
  {
    if k == 0 {
      assert vec[..0] == [];
    } else {
      assert vec[..k][1..] == vec[1..][..k - 1];
    }
  }

  /** A stretch of one entry, in the vector's data and on its page. */
  lemma {:induction false} EntryData(vec: seq<Segment>, k: nat, a: nat, len: nat)
    requires AllFit(vec) && k < |vec| && a + len <= vec[k].len && vec[k].Valid()
    ensures var x := Length(vec[..k]) + a;
      x + len <= Length(vec) && Stretch(DataOf(vec), x, len) == Stretch(vec[k].page, vec[k].offset + a, len)
    decreases k
  {
    hide DataOf, AllFit, Length, Stretch;
    DataUnfold(vec);
    PrefixUnfold(vec, k);
    var rest := vec[1..];
    if k == 0 {
      StretchInFront(vec[0].page, vec[0].offset, vec[0].len, DataOf(rest), a, len);
    } else {
      EntryData(rest, k - 1, a, len);
      StretchBehind(Stretch(vec[0].page, vec[0].offset, vec[0].len), DataOf(rest), Length(rest[..k - 1]) + a, len);
    }
  }

  lemma SegmentFields(vec: seq<Segment>, it: Iter)
    requires WellFormed(vec, it) && it.size > 0
    ensures OnEntry(vec, it) && SegAt(vec, it).Valid() && AllFit(vec) && vec[it.idx].Valid()
    ensures SegAt(vec, it).page == vec[it.idx].page && SegAt(vec, it).offset == vec[it.idx].offset + it.done
    ensures it.done + SegAt(vec, it).len <= vec[it.idx].len
  {}

  /** The segment at an iterator names the bytes from the iterator's position on. */
  lemma SegmentData(vec: seq<Segment>, it: Iter)
    requires WellFormed(vec, it) && it.size > 0
    ensures OnEntry(vec, it) && SegAt(vec, it).Valid() && AllFit(vec)
    ensures Position(vec, it) + SegAt(vec, it).len <= Length(vec)
    ensures var x, seg := Position(vec, it), SegAt(vec, it);
      Stretch(DataOf(vec), x, seg.len) == Stretch(seg.page, seg.offset, seg.len)
  {
    hide WellFormed, DataOf, Length, AllFit, Stretch, SegAt;
    SegmentFields(vec, it);
    EntryData(vec, it.idx, it.done, SegAt(vec, it).len);
  }

  /** The segments of a bio are exactly its stretch of the vector's bytes. */
  lemma {:induction false} SegmentsData(vec: seq<Segment>, it: Iter)
    requires WellFormed(vec, it) && it.size > 0
    ensures it.idx < |vec| && AllFit(vec) && AllFit(SegmentsOf(vec, it))
    ensures Position(vec, it) + it.size <= Length(vec)
    ensures DataOf(SegmentsOf(vec, it)) == Stretch(DataOf(vec), Position(vec, it), it.size)
    decreases it.size
  {
    hide WellFormed, SegmentsOf, SegAt, Next, Position, Length, DataOf, AllFit, Stretch;
    SegmentsUnfold(vec, it);
    SegmentData(vec, it);
    NextPosition(vec, it);
    var seg, next := SegAt(vec, it), Next(vec, it);
    var rest := SegmentsOf(vec, next);
    if next.size == 0 {
      NoSegments(vec, next);
      OneMore(seg, rest);
    } else {
      SegmentsData(vec, next);
      OneMore(seg, rest);
      JoinStretches(DataOf(vec), Position(vec, it), seg.len, next.size, Stretch(seg.page, seg.offset, seg.len),
                    DataOf(rest), Stretch(DataOf(vec), Position(vec, it), it.size));
    }
  }

  /** ... that is, the bytes of the vector from the iterator's position on, as many as are left. */
  lemma BioBytes(vec: seq<Segment>, it: Iter)
    requires WellFormed(vec, it) && it.size > 0
    ensures it.idx < |vec| && AllFit(vec) && AllFit(SegmentsOf(vec, it))
    ensures var x := Length(vec[..it.idx]) + it.done;
      x + it.size <= |DataOf(vec)| && DataOf(SegmentsOf(vec, it)) == DataOf(vec)[x..x + it.size]
  {
    hide WellFormed, SegmentsOf, DataOf, Length, AllFit;
    SegmentsData(vec, it);
  }

  lemma OneMore(seg: Segment, rest: seq<Segment>)
    requires seg.Valid() && (rest == [] || AllFit(rest))
    ensures AllFit(rest) && AllFit([seg] + rest)
    ensures DataOf([seg] + rest) == Stretch(seg.page, seg.offset, seg.len) + DataOf(rest)
    ensures rest == [] ==> DataOf(rest) == []
  {
    assert ([seg] + rest)[1..] == rest;
  }

  lemma NoSegments(vec: seq<Segment>, it: Iter)
    requires WellFormed(vec, it) && it.size == 0
    ensures SegmentsOf(vec, it) == []
  {}

  /** Segment k lies in entry idx + k: on its page, at its offset, the first one behind the bytes already
      done; and all but the last run to the end of their entries. */
  lemma {:induction false} SegmentPlace(vec: seq<Segment>, it: Iter, k: nat)
    requires WellFormed(vec, it) && k < |SegmentsOf(vec, it)|
    ensures it.idx + k < |vec|
    ensures var seg, entry := SegmentsOf(vec, it)[k], vec[it.idx + k];
      && seg.page == entry.page && seg.offset == entry.offset + (if k == 0 then it.done else 0)
      && seg.offset + seg.len <= entry.offset + entry.len
      && (k < |SegmentsOf(vec, it)| - 1 ==> seg.offset + seg.len == entry.offset + entry.len)
    decreases it.size
  {
    if it.size == 0 {
      NoSegments(vec, it);
      assert false;
    } else {
      SegmentsUnfold(vec, it);
      var next := Next(vec, it);
      if next.size == 0 { NoSegments(vec, next); }
      hide WellFormed, SegmentsOf;
      if k > 0 { SegmentPlace(vec, next, k - 1); }
    }
  }

  /** A bio at the front of a vector of non-empty entries is well formed, whatever part of it is left. */
  lemma FrontIsWellFormed(vec: seq<Segment>, sector: nat, size: nat)
    requires AllFit(vec) && (forall k :: 0 <= k < |vec| ==> vec[k].len > 0) && 0 < size <= Length(vec)
    ensures WellFormed(vec, Iter(sector, 0, 0, size))
  {
    assert vec[0..] == vec;
  }

  // ----- bio_split

  /** bio_advance_iter: the iterator moved on by so many bytes. */
  ghost function AdvanceBy(vec: seq<Segment>, it: Iter, bytes: nat): (r: Iter)
    requires WellFormed(vec, it) && bytes <= it.size
    ensures WellFormed(vec, r) && r.size == it.size - bytes && r.sector == it.sector + bytes / 512
    decreases bytes
  {
    if bytes == 0 then it
    else
      AdvanceKeeps(vec, it);
      var len := SegAt(vec, it).len;
      if bytes < len then it.(sector := it.sector + bytes / 512, done := it.done + bytes, size := it.size - bytes)
      else AdvanceBy(vec, Next(vec, it), bytes - len).(sector := it.sector + bytes / 512)
  }

  lemma {:induction false} AdvancePosition(vec: seq<Segment>, it: Iter, bytes: nat)
    requires WellFormed(vec, it) && 0 < bytes < it.size
    ensures var r := AdvanceBy(vec, it, bytes);
      && r.idx < |vec| && it.idx < |vec| && Position(vec, r) == Position(vec, it) + bytes
      && r.idx >= it.idx && (r.idx == it.idx ==> r.done > it.done)
    decreases bytes
  {
    AdvanceKeeps(vec, it);
    NextPosition(vec, it);
    var len, next := SegAt(vec, it).len, Next(vec, it);
    hide WellFormed, Length;
    if bytes > len { AdvancePosition(vec, next, bytes - len); }
  }

  /** bio_split loses nothing and keeps the order: the data of the child in front and of the parent behind
      make up the data of the bio that was split. */
  lemma SplitConserves(vec: seq<Segment>, it: Iter, bytes: nat)
    requires WellFormed(vec, it) && 0 < bytes < it.size
    ensures var child, parent := it.(size := bytes), AdvanceBy(vec, it, bytes);
      && WellFormed(vec, child) && AllFit(SegmentsOf(vec, child)) && AllFit(SegmentsOf(vec, parent))
      && AllFit(SegmentsOf(vec, it))
      && DataOf(SegmentsOf(vec, child)) + DataOf(SegmentsOf(vec, parent)) == DataOf(SegmentsOf(vec, it))
      && parent.sector == it.sector + bytes / 512
  {
    var parent := AdvanceBy(vec, it, bytes);
    hide WellFormed, SegmentsOf, DataOf, Length, AllFit, Position;
    FrontFits(vec, it, bytes);
    AdvancePosition(vec, it, bytes);
    DataOfParts(vec, it, it.(size := bytes), parent, bytes);
  }

  lemma FrontFits(vec: seq<Segment>, it: Iter, bytes: nat)
    requires WellFormed(vec, it) && 0 < bytes < it.size
    ensures it.idx < |vec| && WellFormed(vec, it.(size := bytes))
    ensures Position(vec, it.(size := bytes)) == Position(vec, it)
  {}

  lemma DataOfParts(vec: seq<Segment>, it: Iter, front: Iter, behind: Iter, bytes: nat)
    requires WellFormed(vec, it) && WellFormed(vec, front) && WellFormed(vec, behind)
    requires front.size == bytes && behind.size == it.size - bytes && 0 < bytes < it.size
    requires it.idx < |vec| && front.idx < |vec| && behind.idx < |vec|
    requires Position(vec, front) == Position(vec, it) && Position(vec, behind) == Position(vec, it) + bytes
    ensures AllFit(SegmentsOf(vec, it)) && AllFit(SegmentsOf(vec, front)) && AllFit(SegmentsOf(vec, behind))
    ensures DataOf(SegmentsOf(vec, front)) + DataOf(SegmentsOf(vec, behind)) == DataOf(SegmentsOf(vec, it))
  {
    hide WellFormed, SegmentsOf, DataOf, Length, AllFit, Position, Stretch;
    SegmentsData(vec, front);
    SegmentsData(vec, behind);
    SegmentsData(vec, it);
    JoinStretches(DataOf(vec), Position(vec, it), bytes, behind.size,
                  DataOf(SegmentsOf(vec, front)), DataOf(SegmentsOf(vec, behind)), DataOf(SegmentsOf(vec, it)));
  }

  /** So of every write that bio_split cuts, whatever the cut, the part behind is never written. */
  lemma SplitLosesRest(vec: seq<Segment>, it: Iter, bytes: nat, readVec: seq<Segment>)
    requires WellFormed(vec, it) && 0 < bytes < it.size
    requires ReadVector(SegmentsOf(vec, AdvanceBy(vec, it, bytes)), readVec)
    ensures var outcome := EndIo(readVec, Bio(vec, AdvanceBy(vec, it, bytes)));
      !outcome.Queued? && outcome.OnQueue() == []
  {
    hide AdvanceBy;
    AdvancePosition(vec, it, bytes);
    SplitParentNeverReleased(Bio(vec, AdvanceBy(vec, it, bytes)), readVec);
  }

  // ----- how far the walk gets

  /** How many segments of two lists agree in window, from the front on. */
  function Agreeing(was: seq<Segment>, segs: seq<Segment>): (r: nat)
    ensures r <= |was| && r <= |segs|
    decreases |was|
  {
    if was == [] || segs == [] then 0
    else if was[0].len != segs[0].len || was[0].offset != segs[0].offset then 0
    else 1 + Agreeing(was[1..], segs[1..])
  }

  /** The walk makes the tasks of the segments that agree, and ends well exactly when one of the bios runs
      out before two segments disagree. */
  lemma {:induction false} WalkExactly(oldVec: seq<Segment>, newVec: seq<Segment>, itOld: Iter, itNew: Iter, pos: nat)
    requires WellFormed(oldVec, itOld) && WellFormed(newVec, itNew)
    ensures var was, segs := SegmentsOf(oldVec, itOld), SegmentsOf(newVec, itNew);
      var j := Agreeing(was, segs);
      Walk(oldVec, newVec, itOld, itNew, pos) ==
      if j == |was| || j == |segs| then Queued(TasksFrom(pos, segs[..j], was[..j]))
      else Bug(TasksFrom(pos, segs[..j], was[..j]))
    decreases itOld.size
  {
    hide WellFormed, SegmentsOf, Walk, SegAt, Next, OnEntry;
    var was, segs := SegmentsOf(oldVec, itOld), SegmentsOf(newVec, itNew);
    WalkTurn(oldVec, newVec, itOld, itNew, pos);
    if itOld.size == 0 {
      NoSegments(oldVec, itOld);
    } else if itNew.size == 0 {
      NoSegments(newVec, itNew);
    } else {
      SegmentsUnfold(oldVec, itOld);
      SegmentsUnfold(newVec, itNew);
      assert was[1..] == SegmentsOf(oldVec, Next(oldVec, itOld));
      assert segs[1..] == SegmentsOf(newVec, Next(newVec, itNew));
      if Matching(oldVec, newVec, itOld, itNew) {
        WalkExactly(oldVec, newVec, Next(oldVec, itOld), Next(newVec, itNew), pos + segs[0].len / 512);
        var j := Agreeing(was, segs);
        assert segs[..j][1..] == segs[1..][..j - 1] && was[..j][1..] == was[1..][..j - 1];
      }
    }
  }
}
