/** From the page segments of a write piece to its verify tasks. */
module Segments {
  import opened Bytes
  import opened Parity

  /** One bio_vec: a page and the window of it that takes part in the transfer. */
  datatype Segment = Segment(page: seq<Byte>, offset: nat, len: nat) {
    predicate Valid() { |page| == 4096 && offset + len <= 4096 }
  }

  predicate AllFit(segs: seq<Segment>) {
    forall k :: 0 <= k < |segs| ==> segs[k].Valid()
  }

  predicate WholeSectors(segs: seq<Segment>) {
    forall k :: 0 <= k < |segs| ==> segs[k].len % 512 == 0
  }

  function Length(segs: seq<Segment>): nat {
    if segs == [] then 0 else segs[0].len + Length(segs[1..])
  }

  /** The tasks of the segments from sector pos on: each starts where the sector counter stands. */
  function TasksFrom(pos: nat, segs: seq<Segment>, was: seq<Segment>): (r: seq<Task>)
    requires |was| == |segs|
    ensures |r| == |segs|
    decreases |segs|
  {
    if segs == [] then []
    else [Task(segs[0].page, was[0].page, pos, segs[0].offset, segs[0].len)]
         + TasksFrom(pos + segs[0].len / 512, segs[1..], was[1..])
  }

  lemma {:induction false} TaskFields(pos: nat, segs: seq<Segment>, was: seq<Segment>, k: nat)
    requires |was| == |segs| && k < |segs|
    ensures var t := TasksFrom(pos, segs, was)[k];
      t.pageNew == segs[k].page && t.pageOld == was[k].page && t.offset == segs[k].offset && t.size == segs[k].len
    decreases |segs|
  {
    if k > 0 { TaskFields(pos + segs[0].len / 512, segs[1..], was[1..], k - 1); }
  }

  /** Task k starts at the sector of its segment's first byte, when every earlier segment is whole sectors. */
  lemma {:induction false} TaskStart(pos: nat, segs: seq<Segment>, was: seq<Segment>, k: nat)
    requires |was| == |segs| && k < |segs|
    requires forall j :: 0 <= j < k ==> segs[j].len % 512 == 0
    ensures TasksFrom(pos, segs, was)[k].Base() == AtSector(pos) + Length(segs[..k])
    decreases |segs|
  {
    if k > 0 {
      TaskStart(pos + segs[0].len / 512, segs[1..], was[1..], k - 1);
      assert segs[..k][1..] == segs[1..][..k - 1];
      assert segs[..k][0] == segs[0];
    } else {
      assert segs[..0] == [];
    }
  }

  /** A segment that is not whole sectors puts every later task before its data. */
  lemma {:induction false} TaskStartsEarly(pos: nat, segs: seq<Segment>, was: seq<Segment>, j: nat, k: nat)
    requires |was| == |segs| && j < k < |segs| && segs[j].len % 512 != 0
    ensures TasksFrom(pos, segs, was)[k].Base() < AtSector(pos) + Length(segs[..k])
    decreases k
  {
    var pos' := pos + segs[0].len / 512;
    assert segs[..k][1..] == segs[1..][..k - 1];
    if j > 0 {
      TaskStartsEarly(pos', segs[1..], was[1..], j - 1, k - 1);
    } else {
      TaskStartsNoLater(pos', segs[1..], was[1..], k - 1);
    }
  }

  lemma {:induction false} TaskStartsNoLater(pos: nat, segs: seq<Segment>, was: seq<Segment>, k: nat)
    requires |was| == |segs| && k < |segs|
    ensures TasksFrom(pos, segs, was)[k].Base() <= AtSector(pos) + Length(segs[..k])
    decreases |segs|
  {
    if k > 0 {
      assert segs[..k][1..] == segs[1..][..k - 1];
      TaskStartsNoLater(pos + segs[0].len / 512, segs[1..], was[1..], k - 1);
    } else {
      assert segs[..0] == [];
    }
  }

  /** Every task starts on its own data exactly when all segments but the last are whole sectors. */
  ghost predicate StartsOnData(pos: nat, segs: seq<Segment>, was: seq<Segment>)
    requires |was| == |segs|
  {
    forall k :: 0 <= k < |segs| ==> TasksFrom(pos, segs, was)[k].Base() == AtSector(pos) + Length(segs[..k])
  }

  lemma StartsOnDataExactly(pos: nat, segs: seq<Segment>, was: seq<Segment>)
    requires |was| == |segs|
    ensures StartsOnData(pos, segs, was) <==> forall j :: 0 <= j < |segs| - 1 ==> segs[j].len % 512 == 0
  {
    if forall j :: 0 <= j < |segs| - 1 ==> segs[j].len % 512 == 0 {
      forall k | 0 <= k < |segs|
        ensures TasksFrom(pos, segs, was)[k].Base() == AtSector(pos) + Length(segs[..k])
      {
        TaskStart(pos, segs, was, k);
      }
    } else {
      var j :| 0 <= j < |segs| - 1 && segs[j].len % 512 != 0;
      var last := |segs| - 1;
      TaskStartsEarly(pos, segs, was, j, last);
      assert TasksFrom(pos, segs, was)[last].Base() != AtSector(pos) + Length(segs[..last]);
    }
  }

  // ----- tiling

  /** The bytes of the piece in transfer order. */
  function DataOf(segs: seq<Segment>): (r: seq<Byte>)
    requires AllFit(segs)
    ensures |r| == Length(segs)
  {
    if segs == [] then [] else segs[0].page[segs[0].offset..segs[0].offset + segs[0].len] + DataOf(segs[1..])
  }

  lemma {:induction false} SameLength(was: seq<Segment>, segs: seq<Segment>)
    requires |was| == |segs| && forall j :: 0 <= j < |segs| ==> was[j].len == segs[j].len
    ensures Length(was) == Length(segs)
    decreases |segs|
  {
    if segs != [] { SameLength(was[1..], segs[1..]); }
  }

  lemma {:induction false} NoTaskBefore(pos: nat, segs: seq<Segment>, was: seq<Segment>, k: nat)
    requires |was| == |segs| && k < |segs|
    ensures TasksFrom(pos, segs, was)[k].Base() >= AtSector(pos)
    decreases |segs|
  {
    if k > 0 { NoTaskBefore(pos + segs[0].len / 512, segs[1..], was[1..], k - 1); }
  }

  /** The tasks stay inside the piece and never overlap one another. */
  lemma TasksInside(pos: nat, segs: seq<Segment>, was: seq<Segment>, k: nat)
    requires |was| == |segs| && WholeSectors(segs) && k < |segs|
    ensures var t := TasksFrom(pos, segs, was)[k];
      AtSector(pos) <= t.Base() && t.Base() + t.size <= AtSector(pos) + Length(segs)
  {
    TaskStart(pos, segs, was, k);
    TaskFields(pos, segs, was, k);
    PrefixLength(segs, k);
  }

  lemma {:induction false} PrefixLength(segs: seq<Segment>, k: nat)
    requires k < |segs|
    ensures Length(segs[..k]) + segs[k].len <= Length(segs)
    decreases |segs|
  {
    if k > 0 {
      PrefixLength(segs[1..], k - 1);
      assert segs[..k][1..] == segs[1..][..k - 1];
    }
  }

  lemma {:induction false} TasksApart(pos: nat, segs: seq<Segment>, was: seq<Segment>, j: nat, k: nat)
    requires |was| == |segs| && WholeSectors(segs) && j < k < |segs|
    ensures var ts := TasksFrom(pos, segs, was); ts[j].Base() + ts[j].size <= ts[k].Base()
    decreases |segs|
  {
    var pos' := pos + segs[0].len / 512;
    if j == 0 {
      NoTaskBefore(pos', segs[1..], was[1..], k - 1);
    } else {
      TasksApart(pos', segs[1..], was[1..], j - 1, k - 1);
    }
  }

  /** The segment that holds byte x of the piece. */
  lemma {:induction false} SegmentOf(segs: seq<Segment>, x: nat) returns (k: nat)
    requires x < Length(segs)
    ensures k < |segs| && Length(segs[..k]) <= x < Length(segs[..k]) + segs[k].len
    decreases |segs|
  {
    if x < segs[0].len {
      k := 0;
      assert segs[..0] == [];
    } else {
      var j := SegmentOf(segs[1..], x - segs[0].len);
      k := j + 1;
      assert segs[..k][1..] == segs[1..][..j];
    }
  }

  /** Byte x of segment k is where the piece's data has it. */
  lemma {:induction false} DataAt(segs: seq<Segment>, k: nat, x: nat)
    requires AllFit(segs) && k < |segs| && x < segs[k].len
    ensures Length(segs[..k]) + x < Length(segs)
    ensures DataOf(segs)[Length(segs[..k]) + x] == segs[k].page[segs[k].offset + x]
    decreases |segs|
  {
    if k == 0 {
      assert segs[..0] == [];
    } else {
      DataAt(segs[1..], k - 1, x);
      assert segs[..k][1..] == segs[1..][..k - 1];
    }
  }

  ghost predicate SameShape(segs: seq<Segment>, was: seq<Segment>) {
    |was| == |segs| && forall j :: 0 <= j < |segs| ==> was[j].offset == segs[j].offset && was[j].len == segs[j].len
  }

  /** Each byte of the piece is covered by exactly one task, which pairs the new byte, the old byte
      and the parity byte of that same disk position. */
  lemma Tiling(pos: nat, segs: seq<Segment>, was: seq<Segment>, b: nat) returns (k: nat)
    requires SameShape(segs, was) && AllFit(segs) && AllFit(was) && WholeSectors(segs)
    requires AtSector(pos) <= b < AtSector(pos) + Length(segs)
    ensures Length(was) == Length(segs) && k < |segs|
    ensures var ts := TasksFrom(pos, segs, was);
      && ts[k].Valid() && ts[k].Covers(b)
      && ts[k].NewAt(b) == DataOf(segs)[b - AtSector(pos)]
      && ts[k].OldAt(b) == DataOf(was)[b - AtSector(pos)]
      && forall j :: 0 <= j < |ts| && ts[j].Covers(b) ==> j == k
  {
    hide TasksFrom, DataOf, Length, WholeSectors;
    var x := b - AtSector(pos);
    k := SegmentOf(segs, x);
    SameLength(was, segs);
    SameLength(was[..k], segs[..k]);
    TaskCovers(pos, segs, was, k, b);
    DataAt(segs, k, x - Length(segs[..k]));
    DataAt(was, k, x - Length(segs[..k]));
    OnlyOneCovers(pos, segs, was, k, b);
  }

  lemma TaskCovers(pos: nat, segs: seq<Segment>, was: seq<Segment>, k: nat, b: nat)
    requires |was| == |segs| && AllFit(segs) && AllFit(was) && WholeSectors(segs) && k < |segs|
    requires Length(segs[..k]) <= b - AtSector(pos) < Length(segs[..k]) + segs[k].len
    ensures var t := TasksFrom(pos, segs, was)[k];
      var p := segs[k].offset + (b - AtSector(pos) - Length(segs[..k]));
      t.Valid() && t.Covers(b) && t.NewAt(b) == segs[k].page[p] && t.OldAt(b) == was[k].page[p]
  {
    TaskStart(pos, segs, was, k);
    TaskFields(pos, segs, was, k);
  }

  lemma OnlyOneCovers(pos: nat, segs: seq<Segment>, was: seq<Segment>, k: nat, b: nat)
    requires |was| == |segs| && WholeSectors(segs) && k < |segs| && TasksFrom(pos, segs, was)[k].Covers(b)
    ensures forall j :: 0 <= j < |segs| && TasksFrom(pos, segs, was)[j].Covers(b) ==> j == k
  {
    forall j | 0 <= j < |segs| && TasksFrom(pos, segs, was)[j].Covers(b) ensures j == k {
      if j < k {
        TasksApart(pos, segs, was, j, k);
      } else if k < j {
        TasksApart(pos, segs, was, k, j);
      }
    }
  }
}
