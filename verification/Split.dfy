/** The split loop of the block layer, and the flat disk that the striped disks add up to. */
module Split {
  import opened Bytes
  import opened AddressMap

  /** What is submitted for one piece: a member disk and a range of its sectors. */
  datatype Target = Target(disk: nat, local: nat, count: nat)

  /** The pieces of a request for count sectors from sta on. An empty request gives one empty piece. */
  function Pieces(sta: nat, count: nat, n: nat): (r: seq<Target>)
    requires n > 0
    ensures |r| > 0
    decreases count
  {
    var end := ChunkEndSector(sta);
    MapArithmetic(sta, n);
    if end + 1 >= sta + count then [Target(DiskOf(sta, n), SectorWholeToI(sta, n), count)]
    else [Target(DiskOf(sta, n), SectorWholeToI(sta, n), end - sta + 1)] + Pieces(end + 1, count - (end - sta + 1), n)
  }

  /** Whether the split loop cuts a piece off, what the piece is, and what remains. */
  lemma PieceHead(sta: nat, count: nat, n: nat)
    requires n > 0
    ensures var ps, cut := Pieces(sta, count, n), ChunkEndSector(sta) + 1 - sta;
      && cut > 0
      && ps[0] == Target(DiskOf(sta, n), SectorWholeToI(sta, n), if cut < count then cut else count)
      && if cut < count then ps == [ps[0]] + Pieces(sta + cut, count - cut, n) else ps == [ps[0]]
  {
    MapArithmetic(sta, n);
  }

  /** One turn of the split loop moves one piece from the rest to the submitted ones. */
  lemma NextPiece(submitted: seq<Target>, sta: nat, count: nat, n: nat, all: seq<Target>)
    requires n > 0 && submitted + Pieces(sta, count, n) == all
    ensures ChunkEndSector(sta) >= sta
    ensures var disk, local, cut := DiskOf(sta, n), SectorWholeToI(sta, n), ChunkEndSector(sta) - sta + 1;
      if cut < count then submitted + [Target(disk, local, cut)] + Pieces(sta + cut, count - cut, n) == all
      else submitted + [Target(disk, local, count)] == all
  {
    PieceHead(sta, count, n);
    hide Pieces, ChunkEndSector, DiskOf, SectorWholeToI;
    var ps, cut := Pieces(sta, count, n), ChunkEndSector(sta) - sta + 1;
    if cut < count {
      var rest := Pieces(sta + cut, count - cut, n);
      assert submitted + [ps[0]] + rest == submitted + ([ps[0]] + rest);
    }
  }

  /** A struct bio on its way through the block layer. */
  class Request {
    var sector: nat
    var sectors: nat
    var disk: nat

    constructor (sector: nat, sectors: nat)
      ensures this.sector == sector && this.sectors == sectors
    {
      this.sector, this.sectors, this.disk := sector, sectors, 0;
    }

    /** bio_split, as the block layer promises it: the first count sectors go to a new bio and this one
        keeps the rest. */
    method SplitOff(count: nat) returns (child: Request)
      requires 0 < count < sectors
      modifies this
      ensures fresh(child) && child.sector == old(sector) && child.sectors == count
      ensures sector == old(sector) + count && sectors == old(sectors) - count && disk == old(disk)
    {
      child := new Request(sector, count);
      sector, sectors := sector + count, sectors - count;
    }
  }

  /** The split loop: pieces are cut off the front of bio, retargeted in place and submitted; the last
      piece is bio itself. chained counts the children that bio waits for. */
  method SubmitBio(bio: Request, n: nat) returns (submitted: seq<Target>, chained: nat)
    requires n > 0
    modifies bio
    ensures submitted == Pieces(old(bio.sector), old(bio.sectors), n)
    ensures chained == |submitted| - 1
    ensures submitted[|submitted| - 1] == Target(bio.disk, bio.sector, bio.sectors)
  {
    ghost var sta0, count0 := bio.sector, bio.sectors;
    submitted, chained := [], 0;
    var flag := true;
    while flag
      invariant chained == |submitted| - (if flag then 0 else 1)
      invariant flag ==> submitted + Pieces(bio.sector, bio.sectors, n) == Pieces(sta0, count0, n)
      invariant !flag ==> submitted == Pieces(sta0, count0, n) && |submitted| > 0
                          && submitted[|submitted| - 1] == Target(bio.disk, bio.sector, bio.sectors)
      decreases flag, bio.sectors
    {
      hide Pieces, ChunkEndSector, DiskOf, SectorWholeToI;
      var staSector := bio.sector;
      var endSector := ChunkEndSector(staSector);
      var tarBio := bio;
      flag := endSector + 1 < bio.sector + bio.sectors;
      NextPiece(submitted, staSector, bio.sectors, n, Pieces(sta0, count0, n));
      if flag {
        var cntSectors := endSector - staSector + 1;
        tarBio := bio.SplitOff(cntSectors);
      }
      tarBio.disk := DiskOf(staSector, n);
      tarBio.sector := SectorWholeToI(staSector, n);
      if flag {
        chained := chained + 1;
      }
      submitted := submitted + [Target(tarBio.disk, tarBio.sector, tarBio.sectors)];
    }
  }

  // ----- what the pieces cover

  function Total(ps: seq<Target>): nat {
    if ps == [] then 0 else ps[0].count + Total(ps[1..])
  }

  /** First array sector of piece k. */
  function Start(sta: nat, ps: seq<Target>, k: nat): nat
    requires k <= |ps|
  {
    sta + Total(ps[..k])
  }

  /** Sectors that share a chunk lie next to each other on the same disk. */
  lemma ChunkIsContiguous(sta: nat, i: nat, n: nat)
    requires n > 0 && sta + i <= ChunkEndSector(sta)
    ensures DiskOf(sta + i, n) == DiskOf(sta, n)
    ensures SectorWholeToI(sta + i, n) == SectorWholeToI(sta, n) + i
    ensures ChunkNum(sta + i) == ChunkNum(sta)
  {
    MapArithmetic(sta, n);
    MapArithmetic(sta + i, n);
    MaskAndShift(sta);
    MaskAndShift(sta + i);
  }

  /** Target t holds the array sectors from sta on, in order, all from one chunk. */
  ghost predicate Holds(sta: nat, t: Target, n: nat)
    requires n > 0
  {
    forall s: nat :: sta <= s < sta + t.count ==>
      DiskOf(s, n) == t.disk && SectorWholeToI(s, n) == t.local + (s - sta) && ChunkNum(s) == ChunkNum(sta)
  }

  lemma FirstPiece(sta: nat, count: nat, n: nat)
    requires n > 0
    ensures var t := Pieces(sta, count, n)[0];
      && Holds(sta, t, n) && t.count <= count && (count > 0 ==> t.count > 0)
      && (sta + t.count == ChunkEndSector(sta) + 1 || Pieces(sta, count, n) == [t])
  {
    var t := Pieces(sta, count, n)[0];
    MapArithmetic(sta, n);
    forall s: nat | sta <= s < sta + t.count
      ensures DiskOf(s, n) == t.disk && SectorWholeToI(s, n) == t.local + (s - sta) && ChunkNum(s) == ChunkNum(sta)
    {
      ChunkIsContiguous(sta, s - sta, n);
    }
  }

  /** The rest of the pieces are the pieces of the rest. */
  lemma RestOfPieces(sta: nat, count: nat, n: nat)
    requires n > 0
    ensures var ps := Pieces(sta, count, n);
      && ps[0].count <= count
      && if |ps| == 1 then ps[0].count == count && ps[1..] == []
         else ps[0].count < count && ps[1..] == Pieces(sta + ps[0].count, count - ps[0].count, n)
  {}

  lemma {:induction false} PiecesTotal(sta: nat, count: nat, n: nat)
    requires n > 0
    ensures Total(Pieces(sta, count, n)) == count
    decreases count
  {
    RestOfPieces(sta, count, n);
    var ps := Pieces(sta, count, n);
    hide Pieces, ChunkEndSector;
    if |ps| > 1 { PiecesTotal(sta + ps[0].count, count - ps[0].count, n); }
  }

  lemma StartOfRest(sta: nat, ps: seq<Target>, k: nat)
    requires k < |ps|
    ensures Start(sta, ps, k) == if k == 0 then sta else Start(sta + ps[0].count, ps[1..], k - 1)
  {
    if k > 0 { assert ps[..k][1..] == ps[1..][..k - 1] && ps[..k][0] == ps[0]; }
  }

  /** The pieces cover the request in order, without gap or overlap; each lies in one chunk and on one
      disk, where its sectors keep their array order. */
  lemma {:induction false} PiecesTile(sta: nat, count: nat, n: nat, k: nat)
    requires n > 0 && k < |Pieces(sta, count, n)|
    ensures var ps := Pieces(sta, count, n);
      && Total(ps) == count && Start(sta, ps, k) + ps[k].count <= sta + count
      && (count > 0 ==> ps[k].count > 0)
      && Holds(Start(sta, ps, k), ps[k], n)
    decreases count
  {
    PiecesTotal(sta, count, n);
    FirstPiece(sta, count, n);
    RestOfPieces(sta, count, n);
    var ps := Pieces(sta, count, n);
    StartOfRest(sta, ps, k);
    hide Pieces, Holds, ChunkEndSector, Start, Total;
    if k > 0 { PiecesTile(sta + ps[0].count, count - ps[0].count, n, k - 1); }
  }

  /** A non-empty request is cut into one piece per chunk it touches. */
  lemma {:induction false} PieceCount(sta: nat, count: nat, n: nat)
    requires n > 0 && count > 0
    ensures |Pieces(sta, count, n)| == ChunkNum(sta + count - 1) - ChunkNum(sta) + 1
    decreases count
  {
    hide Pieces, ChunkNum, ChunkEndSector, DiskOf, SectorWholeToI;
    PieceHead(sta, count, n);
    ChunkArithmetic(sta);
    ChunkArithmetic(sta + count - 1);
    var end := ChunkEndSector(sta);
    if end + 1 < sta + count {
      ChunkArithmetic(end + 1);
      PieceCount(end + 1, count - (end + 1 - sta), n);
    }
  }

  // ----- the flat disk

  /** n member disks of p sectors each. */
  ghost predicate Array<T>(disks: seq<seq<T>>, n: nat, p: nat) {
    n > 0 && |disks| == n && p % 8 == 0 && forall d :: 0 <= d < n ==> |disks[d]| == p
  }

  /** Disks of whole chunks, as the per-disk size gives them, make an array that holds the whole device. */
  lemma WholeChunksMakeArray<T>(disks: seq<seq<T>>, perSize: nat)
    requires |disks| > 0 && perSize % 4096 == 0
    requires forall d :: 0 <= d < |disks| ==> |disks[d]| == DiskSectors(perSize)
    ensures Array(disks, |disks|, DiskSectors(perSize))
    ensures DiskSectors(perSize) * |disks| == ArraySectors(perSize, |disks|)
  {
    SplitSize(perSize, |disks|);
    Regroup(perSize / 4096, |disks|);
  }

  lemma InArray(s: nat, n: nat, p: nat)
    requires n > 0 && p % 8 == 0 && s < p * n
    ensures DiskOf(s, n) < n && SectorWholeToI(s, n) < p
  {
    MapArithmetic(s, n);
    var k := p / 8;
    assert p * n == 8 * (k * n) by { assert p == 8 * k; Regroup(k, n); }
    BelowStripes(s / 8, k, n);
  }

  lemma Regroup(k: nat, n: nat)
    ensures 8 * k * n == 8 * (k * n)
  {}

  /** The array as one flat disk. */
  ghost function Flat<T>(disks: seq<seq<T>>, n: nat, p: nat): (r: seq<T>)
    requires Array(disks, n, p)
    ensures |r| == p * n
  {
    seq(p * n, s requires 0 <= s < p * n => InArray(s, n, p); disks[DiskOf(s, n)][SectorWholeToI(s, n)])
  }

  ghost predicate OnDisks(ps: seq<Target>, n: nat, p: nat) {
    forall k :: 0 <= k < |ps| ==> ps[k].disk < n && ps[k].local + ps[k].count <= p
  }

  /** count entries of a disk from at on. */
  function Range<T>(disk: seq<T>, at: nat, count: nat): (r: seq<T>)
    requires at + count <= |disk|
    ensures |r| == count
    ensures forall i :: 0 <= i < count ==> r[i] == disk[at + i]
  {
    disk[at..at + count]
  }

  /** The member disks after the pieces have taken the data, front to back. */
  ghost function WritePieces<T>(disks: seq<seq<T>>, ps: seq<Target>, data: seq<T>, n: nat, p: nat): (r: seq<seq<T>>)
    requires Array(disks, n, p) && OnDisks(ps, n, p) && |data| == Total(ps)
    ensures Array(r, n, p)
    decreases |ps|
  {
    if ps == [] then disks
    else
      var t := ps[0];
      WritePieces(disks[t.disk := Splice(disks[t.disk], t.local, data[..t.count])], ps[1..], data[t.count..], n, p)
  }

  ghost function ReadPieces<T>(disks: seq<seq<T>>, ps: seq<Target>, n: nat, p: nat): (r: seq<T>)
    requires Array(disks, n, p) && OnDisks(ps, n, p)
    ensures |r| == Total(ps)
    decreases |ps|
  {
    if ps == [] then []
    else Range(disks[ps[0].disk], ps[0].local, ps[0].count) + ReadPieces(disks, ps[1..], n, p)
  }

  lemma PiecesOnDisks(sta: nat, count: nat, n: nat, p: nat)
    requires n > 0 && p % 8 == 0 && 0 < count && sta + count <= p * n
    ensures OnDisks(Pieces(sta, count, n), n, p) && Total(Pieces(sta, count, n)) == count
  {
    var ps := Pieces(sta, count, n);
    forall k | 0 <= k < |ps| ensures ps[k].disk < n && ps[k].local + ps[k].count <= p {
      PiecesTile(sta, count, n, k);
      var last := Start(sta, ps, k) + ps[k].count - 1;
      InArray(last, n, p);
      assert DiskOf(last, n) == ps[k].disk && SectorWholeToI(last, n) == ps[k].local + ps[k].count - 1;
    }
    PiecesTile(sta, count, n, 0);
  }

  /** A piece written to its disk is, seen through the map, a write of one range of the flat disk. */
  lemma PieceWritten<T>(disks: seq<seq<T>>, sta: nat, t: Target, data: seq<T>, n: nat, p: nat)
    requires Array(disks, n, p) && t.disk < n && t.local + t.count <= p && |data| == t.count && sta + t.count <= p * n
    requires Holds(sta, t, n)
    ensures var disks' := disks[t.disk := Splice(disks[t.disk], t.local, data)];
      Array(disks', n, p) && Flat(disks', n, p) == Splice(Flat(disks, n, p), sta, data)
  {
    var disks' := disks[t.disk := Splice(disks[t.disk], t.local, data)];
    hide DiskOf, SectorWholeToI, ChunkNum, Splice;
    forall s: nat | s < p * n ensures Flat(disks', n, p)[s] == Splice(Flat(disks, n, p), sta, data)[s] {
      InArray(s, n, p);
      var d, l := DiskOf(s, n), SectorWholeToI(s, n);
      if d == t.disk && t.local <= l < t.local + t.count {
        var s' := sta + (l - t.local);
        assert DiskOf(s', n) == t.disk;
        OneSectorPerPlace(s, s', n);
      }
    }
  }

  /** The same piece read: the disk range is the range of the flat disk. */
  lemma PieceRead<T>(disks: seq<seq<T>>, sta: nat, t: Target, n: nat, p: nat)
    requires Array(disks, n, p) && t.disk < n && t.local + t.count <= p && sta + t.count <= p * n
    requires Holds(sta, t, n)
    ensures Range(disks[t.disk], t.local, t.count) == Range(Flat(disks, n, p), sta, t.count)
  {
    hide DiskOf, SectorWholeToI, ChunkNum;
    var window, range := Range(disks[t.disk], t.local, t.count), Range(Flat(disks, n, p), sta, t.count);
    forall i | 0 <= i < t.count ensures window[i] == range[i] {
      InArray(sta + i, n, p);
      assert DiskOf(sta + i, n) == t.disk;
    }
    assert window == range;
  }

  lemma OneSectorPerPlace(s: nat, t: nat, n: nat)
    requires n > 0 && DiskOf(s, n) == DiskOf(t, n) && SectorWholeToI(s, n) == SectorWholeToI(t, n)
    ensures s == t
  {
    MapInverse(s, n);
    MapInverse(t, n);
  }

  /** The targets hold the array sectors from sta on, one after the other. */
  ghost predicate Tiles(sta: nat, ps: seq<Target>, n: nat)
    requires n > 0
    decreases |ps|
  {
    ps == [] || (Holds(sta, ps[0], n) && Tiles(sta + ps[0].count, ps[1..], n))
  }

  lemma {:induction false} PiecesTiles(sta: nat, count: nat, n: nat)
    requires n > 0
    ensures Tiles(sta, Pieces(sta, count, n), n)
    decreases count
  {
    FirstPiece(sta, count, n);
    RestOfPieces(sta, count, n);
    var ps := Pieces(sta, count, n);
    hide Pieces, Holds, ChunkEndSector;
    if |ps| > 1 { PiecesTiles(sta + ps[0].count, count - ps[0].count, n); }
  }

  lemma {:induction false} WriteTiles<T>(disks: seq<seq<T>>, sta: nat, ps: seq<Target>, data: seq<T>, n: nat, p: nat)
    requires Array(disks, n, p) && OnDisks(ps, n, p) && Tiles(sta, ps, n)
    requires Total(ps) == |data| && sta + |data| <= p * n
    ensures Flat(WritePieces(disks, ps, data, n, p), n, p) == Splice(Flat(disks, n, p), sta, data)
    decreases |ps|
  {
    if ps != [] {
      var t := ps[0];
      hide Holds, Flat;
      PieceWritten(disks, sta, t, data[..t.count], n, p);
      var disks' := disks[t.disk := Splice(disks[t.disk], t.local, data[..t.count])];
      WriteTiles(disks', sta + t.count, ps[1..], data[t.count..], n, p);
      SpliceTwice(Flat(disks, n, p), sta, data, t.count);
    }
  }

  lemma SpliceTwice<T>(disk: seq<T>, at: nat, data: seq<T>, k: nat)
    requires at + |data| <= |disk| && k <= |data|
    ensures Splice(Splice(disk, at, data[..k]), at + k, data[k..]) == Splice(disk, at, data)
  {}

  lemma JoinRanges<T>(disk: seq<T>, at: nat, m: nat, k: nat)
    requires at + m + k <= |disk|
    ensures Range(disk, at, m) + Range(disk, at + m, k) == Range(disk, at, m + k)
  {}

  lemma ReadUnfolds<T>(disks: seq<seq<T>>, ps: seq<Target>, n: nat, p: nat)
    requires Array(disks, n, p) && OnDisks(ps, n, p) && ps != []
    ensures ps[0].disk < n && ps[0].local + ps[0].count <= p && OnDisks(ps[1..], n, p)
    ensures ReadPieces(disks, ps, n, p)
         == Range(disks[ps[0].disk], ps[0].local, ps[0].count) + ReadPieces(disks, ps[1..], n, p)
  {}

  lemma {:induction false} ReadTiles<T>(disks: seq<seq<T>>, sta: nat, ps: seq<Target>, n: nat, p: nat)
    requires Array(disks, n, p) && OnDisks(ps, n, p) && Tiles(sta, ps, n) && sta + Total(ps) <= p * n
    ensures ReadPieces(disks, ps, n, p) == Range(Flat(disks, n, p), sta, Total(ps))
    decreases |ps|
  {
    assert n > 0;
    hide Holds, Tiles, Total, ReadPieces, Range, OnDisks, Flat, Array;
    TilesUnfold(sta, ps, n);
    if ps == [] {
      ReadNothing(disks, n, p);
      EmptyRange(Flat(disks, n, p), sta);
    } else {
      var t, flat, rest := ps[0], Flat(disks, n, p), Total(ps[1..]);
      ReadUnfolds(disks, ps, n, p);
      PieceRead(disks, sta, t, n, p);
      ReadTiles(disks, sta + t.count, ps[1..], n, p);
      JoinRanges(flat, sta, t.count, rest);
    }
  }

  lemma TilesUnfold(sta: nat, ps: seq<Target>, n: nat)
    requires n > 0 && Tiles(sta, ps, n)
    ensures if ps == [] then Total(ps) == 0
            else
              && Total(ps) == ps[0].count + Total(ps[1..])
              && Holds(sta, ps[0], n) && Tiles(sta + ps[0].count, ps[1..], n)
  {}

  lemma ReadNothing<T>(disks: seq<seq<T>>, n: nat, p: nat)
    requires Array(disks, n, p)
    ensures OnDisks([], n, p) && ReadPieces(disks, [], n, p) == []
  {}

  lemma EmptyRange<T>(disk: seq<T>, at: nat)
    requires at <= |disk|
    ensures Range(disk, at, 0) == []
  {}

  /** A split and mapped write is a write of the same range of the flat disk. */
  lemma WriteIsFlat<T>(disks: seq<seq<T>>, sta: nat, data: seq<T>, n: nat, p: nat)
    requires Array(disks, n, p) && 0 < |data| && sta + |data| <= p * n
    ensures OnDisks(Pieces(sta, |data|, n), n, p) && Total(Pieces(sta, |data|, n)) == |data|
    ensures Flat(WritePieces(disks, Pieces(sta, |data|, n), data, n, p), n, p) == Splice(Flat(disks, n, p), sta, data)
  {
    PiecesOnDisks(sta, |data|, n, p);
    PiecesTiles(sta, |data|, n);
    WriteTiles(disks, sta, Pieces(sta, |data|, n), data, n, p);
  }

  /** A split and mapped read returns the same range of the flat disk. */
  lemma ReadIsFlat<T>(disks: seq<seq<T>>, sta: nat, count: nat, n: nat, p: nat)
    requires Array(disks, n, p) && 0 < count && sta + count <= p * n
    ensures OnDisks(Pieces(sta, count, n), n, p)
    ensures ReadPieces(disks, Pieces(sta, count, n), n, p) == Range(Flat(disks, n, p), sta, count)
  {
    PiecesOnDisks(sta, count, n, p);
    PiecesTiles(sta, count, n);
    ReadTiles(disks, sta, Pieces(sta, count, n), n, p);
  }

  /** Sector i of a read is the sector that the address map names for array sector sta + i. */
  lemma ReadSectors<T>(disks: seq<seq<T>>, sta: nat, count: nat, n: nat, p: nat, i: nat)
    requires Array(disks, n, p) && i < count && sta + count <= p * n
    ensures OnDisks(Pieces(sta, count, n), n, p) && Total(Pieces(sta, count, n)) == count
    ensures DiskOf(sta + i, n) < n && SectorWholeToI(sta + i, n) < p
    ensures ReadPieces(disks, Pieces(sta, count, n), n, p)[i] == disks[DiskOf(sta + i, n)][SectorWholeToI(sta + i, n)]
  {
    hide Pieces, ReadPieces, OnDisks, DiskOf, SectorWholeToI;
    InArray(sta + i, n, p);
    PiecesOnDisks(sta, count, n, p);
    ReadIsFlat(disks, sta, count, n, p);
  }

  /** After a write, the place of array sector q holds the sector written to q, or what it held before. */
  lemma WrittenSectors<T>(disks: seq<seq<T>>, sta: nat, data: seq<T>, n: nat, p: nat, q: nat)
    requires Array(disks, n, p) && 0 < |data| && sta + |data| <= p * n && q < p * n
    ensures OnDisks(Pieces(sta, |data|, n), n, p) && Total(Pieces(sta, |data|, n)) == |data|
    ensures DiskOf(q, n) < n && SectorWholeToI(q, n) < p
    ensures WritePieces(disks, Pieces(sta, |data|, n), data, n, p)[DiskOf(q, n)][SectorWholeToI(q, n)] ==
            if sta <= q < sta + |data| then data[q - sta] else disks[DiskOf(q, n)][SectorWholeToI(q, n)]
  {
    hide Pieces, WritePieces, OnDisks, DiskOf, SectorWholeToI;
    InArray(q, n, p);
    WriteIsFlat(disks, sta, data, n, p);
    var after := WritePieces(disks, Pieces(sta, |data|, n), data, n, p);
    assert Flat(after, n, p)[q] == Splice(Flat(disks, n, p), sta, data)[q];
  }

  /** A read right after a write of the same range returns what was written. */
  lemma ReadAfterWrite<T>(disks: seq<seq<T>>, sta: nat, data: seq<T>, n: nat, p: nat)
    requires Array(disks, n, p) && 0 < |data| && sta + |data| <= p * n
    ensures OnDisks(Pieces(sta, |data|, n), n, p) && Total(Pieces(sta, |data|, n)) == |data|
    ensures var ps := Pieces(sta, |data|, n); ReadPieces(WritePieces(disks, ps, data, n, p), ps, n, p) == data
  {
    hide Pieces, WritePieces, ReadPieces, OnDisks, DiskOf, SectorWholeToI;
    PiecesOnDisks(sta, |data|, n, p);
    var ps := Pieces(sta, |data|, n);
    var after := WritePieces(disks, ps, data, n, p);
    forall i: nat | i < |data| ensures ReadPieces(after, ps, n, p)[i] == data[i] {
      ReadSectors(after, sta, |data|, n, p, i);
      WrittenSectors(disks, sta, data, n, p, sta + i);
    }
  }

  // ----- any sequence of requests

  datatype Io<T> = WriteReq(sta: nat, data: seq<T>) | ReadReq(sta: nat, count: nat)

  ghost predicate InRange<T>(ios: seq<Io<T>>, size: nat) {
    forall k :: 0 <= k < |ios| ==>
      match ios[k]
      case WriteReq(sta, data) => 0 < |data| && sta + |data| <= size
      case ReadReq(sta, count) => 0 < count && sta + count <= size
  }

  /** What the reads of a request sequence return from one flat disk. */
  ghost function FlatRun<T>(disk: seq<T>, ios: seq<Io<T>>): (r: (seq<T>, seq<seq<T>>))
    requires InRange(ios, |disk|)
    ensures |r.0| == |disk|
    decreases |ios|
  {
    if ios == [] then (disk, [])
    else
      match ios[0]
      case WriteReq(sta, data) => FlatRun(Splice(disk, sta, data), ios[1..])
      case ReadReq(sta, count) => var rest := FlatRun(disk, ios[1..]); (rest.0, [Range(disk, sta, count)] + rest.1)
  }

  /** The same requests split and mapped onto the member disks. */
  ghost function StripedRun<T>(disks: seq<seq<T>>, ios: seq<Io<T>>, n: nat, p: nat): (r: (seq<seq<T>>, seq<seq<T>>))
    requires Array(disks, n, p) && InRange(ios, p * n)
    ensures Array(r.0, n, p)
    decreases |ios|
  {
    if ios == [] then (disks, [])
    else
      match ios[0]
      case WriteReq(sta, data) =>
        PiecesOnDisks(sta, |data|, n, p);
        StripedRun(WritePieces(disks, Pieces(sta, |data|, n), data, n, p), ios[1..], n, p)
      case ReadReq(sta, count) =>
        PiecesOnDisks(sta, count, n, p);
        var rest := StripedRun(disks, ios[1..], n, p);
        (rest.0, [ReadPieces(disks, Pieces(sta, count, n), n, p)] + rest.1)
  }

  /** The striped array refines a flat disk: every sequence of requests reads the same data and leaves
      the same flat contents. */
  lemma {:induction false} StripedRefinesFlat<T>(disks: seq<seq<T>>, ios: seq<Io<T>>, n: nat, p: nat)
    requires Array(disks, n, p) && InRange(ios, p * n)
    ensures var striped, flat := StripedRun(disks, ios, n, p), FlatRun(Flat(disks, n, p), ios);
      Flat(striped.0, n, p) == flat.0 && striped.1 == flat.1
    decreases |ios|
  {
    if ios != [] {
      match ios[0]
      case WriteReq(sta, data) =>
        WriteIsFlat(disks, sta, data, n, p);
        StripedRefinesFlat(WritePieces(disks, Pieces(sta, |data|, n), data, n, p), ios[1..], n, p);
      case ReadReq(sta, count) =>
        ReadIsFlat(disks, sta, count, n, p);
        StripedRefinesFlat(disks, ios[1..], n, p);
    }
  }

  // ----- what the reads of a request sequence return

  /** What array sector q holds after the requests, if it held x before: the sector of the last write
      that covers it. */
  ghost function LastWritten<T>(x: T, ios: seq<Io<T>>, q: nat): T
    decreases |ios|
  {
    if ios == [] then x
    else
      var io := ios[0];
      LastWritten(if io.WriteReq? && io.sta <= q < io.sta + |io.data| then io.data[q - io.sta] else x, ios[1..], q)
  }

  function ReadCount<T>(ios: seq<Io<T>>): nat {
    if ios == [] then 0 else (if ios[0].ReadReq? then 1 else 0) + ReadCount(ios[1..])
  }

  lemma {:induction false} FlatHolds<T>(disk: seq<T>, ios: seq<Io<T>>, q: nat)
    requires InRange(ios, |disk|) && q < |disk|
    ensures FlatRun(disk, ios).0[q] == LastWritten(disk[q], ios, q)
    decreases |ios|
  {
    if ios != [] {
      match ios[0]
      case WriteReq(sta, data) => FlatHolds(Splice(disk, sta, data), ios[1..], q);
      case ReadReq(_, _) => FlatHolds(disk, ios[1..], q);
    }
  }

  lemma {:induction false} FlatAnswers<T>(disk: seq<T>, ios: seq<Io<T>>, k: nat, i: nat)
    requires InRange(ios, |disk|) && k < |ios| && ios[k].ReadReq? && i < ios[k].count
    ensures ReadCount(ios[..k]) < |FlatRun(disk, ios).1| && ios[k].sta + i < |disk|
    ensures var answer := FlatRun(disk, ios).1[ReadCount(ios[..k])];
      |answer| == ios[k].count && answer[i] == LastWritten(disk[ios[k].sta + i], ios[..k], ios[k].sta + i)
    decreases |ios|
  {
    hide InRange, Splice, Range;
    RequestFits(ios, k, |disk|);
    if k == 0 {
      assert ios[..0] == [];
    } else {
      RequestFits(ios, 0, |disk|);
      assert ios[..k][0] == ios[0] && ios[..k][1..] == ios[1..][..k - 1];
      match ios[0]
      case WriteReq(sta, data) => FlatAnswers(Splice(disk, sta, data), ios[1..], k - 1, i);
      case ReadReq(_, _) => FlatAnswers(disk, ios[1..], k - 1, i);
    }
  }

  lemma RequestFits<T>(ios: seq<Io<T>>, k: nat, size: nat)
    requires InRange(ios, size) && k < |ios|
    ensures match ios[k]
            case WriteReq(sta, data) => 0 < |data| && sta + |data| <= size
            case ReadReq(sta, count) => 0 < count && sta + count <= size
    ensures InRange(ios[1..], size)
  {}

  /** Every non-empty request inside the array is in range, and lists of such requests are. */
  lemma RequestsInRange<T>(ios: seq<Io<T>>, io: Io<T>, size: nat)
    ensures InRange<T>([], size)
    ensures InRange(ios + [io], size) <==>
      InRange(ios, size) && (if io.WriteReq? then 0 < |io.data| && io.sta + |io.data| <= size
                             else 0 < io.count && io.sta + io.count <= size)
  {
    assert forall k :: 0 <= k < |ios| ==> (ios + [io])[k] == ios[k];
    assert (ios + [io])[|ios|] == io;
  }

  /** Each read returns the last values written: sector i of the answer to request k is that of the last
      write before it that covers the sector, or what the place of that sector held at the start. */
  lemma StripedAnswers<T>(disks: seq<seq<T>>, ios: seq<Io<T>>, n: nat, p: nat, k: nat, i: nat)
    requires Array(disks, n, p) && InRange(ios, p * n) && k < |ios| && ios[k].ReadReq? && i < ios[k].count
    ensures var q, answers := ios[k].sta + i, StripedRun(disks, ios, n, p).1;
      && DiskOf(q, n) < n && SectorWholeToI(q, n) < p
      && ReadCount(ios[..k]) < |answers| && |answers[ReadCount(ios[..k])]| == ios[k].count
      && answers[ReadCount(ios[..k])][i] == LastWritten(disks[DiskOf(q, n)][SectorWholeToI(q, n)], ios[..k], q)
  {
    hide StripedRun, FlatRun, DiskOf, SectorWholeToI, InRange, LastWritten;
    RequestFits(ios, k, p * n);
    InArray(ios[k].sta + i, n, p);
    StripedRefinesFlat(disks, ios, n, p);
    FlatAnswers(Flat(disks, n, p), ios, k, i);
  }

  /** Each array sector ends up at its place as the last write that covers it left it. */
  lemma StripedHolds<T>(disks: seq<seq<T>>, ios: seq<Io<T>>, n: nat, p: nat, q: nat)
    requires Array(disks, n, p) && InRange(ios, p * n) && q < p * n
    ensures var d, l := DiskOf(q, n), SectorWholeToI(q, n);
      d < n && l < p && StripedRun(disks, ios, n, p).0[d][l] == LastWritten(disks[d][l], ios, q)
  {
    hide StripedRun, FlatRun, DiskOf, SectorWholeToI, InRange, LastWritten;
    InArray(q, n, p);
    StripedRefinesFlat(disks, ios, n, p);
    FlatHolds(Flat(disks, n, p), ios, q);
    assert Flat(StripedRun(disks, ios, n, p).0, n, p)[q] == FlatRun(Flat(disks, n, p), ios).0[q];
  }
}
