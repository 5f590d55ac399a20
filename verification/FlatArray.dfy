/** The layers stacked: write requests, split and mapped, carried by the asynchronous protocol, leave the
    contents of one flat disk, and any one member disk can be rebuilt from the others. */
module FlatArray {
  import opened Bytes
  import opened Parity
  import opened Segments
  import opened Split
  import opened Machine
  import opened Capture
  import opened Theorems
  import opened Contents

  // ----- sectors

  /** The sectors of a disk, or of a piece's data. */
  function SectorsOf(bytes: seq<Byte>): (r: seq<seq<Byte>>)
    ensures |r| == |bytes| / 512
    ensures forall k :: 0 <= k < |r| ==> |r[k]| == 512
  {
    seq(|bytes| / 512, k requires 0 <= k < |bytes| / 512 => bytes[AtSector(k)..AtSector(k) + 512])
  }

  lemma SectorByte(bytes: seq<Byte>, l: nat, r: nat)
    requires l < |bytes| / 512 && r < 512
    ensures AtSector(l) + r < |bytes| && SectorsOf(bytes)[l][r] == bytes[AtSector(l) + r]
  {}

  function BySector(disks: seq<seq<Byte>>): (r: seq<seq<seq<Byte>>>)
    ensures |r| == |disks|
  {
    seq(|disks|, d requires 0 <= d < |disks| => SectorsOf(disks[d]))
  }

  // ----- piece writes

  /** Sectors written to one member disk. */
  datatype PieceWrite = PieceWrite(disk: nat, local: nat, data: seq<seq<Byte>>) {
    predicate Covers(d: nat, l: nat) { disk == d && local <= l < local + |data| }
  }

  /** Sector l of disk d after the writes, one after another, if it held x before. */
  function SectorAfter(x: seq<Byte>, writes: seq<PieceWrite>, d: nat, l: nat): seq<Byte>
    decreases |writes|
  {
    if writes == [] then x
    else SectorAfter(if writes[0].Covers(d, l) then writes[0].data[l - writes[0].local] else x, writes[1..], d, l)
  }

  lemma {:induction false} SectorAfterBoth(x: seq<Byte>, first: seq<PieceWrite>, second: seq<PieceWrite>,
                                           d: nat, l: nat)
    ensures SectorAfter(x, first + second, d, l) == SectorAfter(SectorAfter(x, first, d, l), second, d, l)
    decreases |first|
  {
    if first == [] {
      assert first + second == second;
    } else {
      var x' := if first[0].Covers(d, l) then first[0].data[l - first[0].local] else x;
      SectorAfterBoth(x', first[1..], second, d, l);
      assert (first + second)[1..] == first[1..] + second;
    }
  }

  /** The pieces of one request with the sectors they carry. */
  function PieceWrites(ps: seq<Target>, data: seq<seq<Byte>>): seq<PieceWrite>
    requires Total(ps) == |data|
    decreases |ps|
  {
    if ps == [] then []
    else [PieceWrite(ps[0].disk, ps[0].local, data[..ps[0].count])] + PieceWrites(ps[1..], data[ps[0].count..])
  }

  lemma {:induction false} PieceWritesAre(disks: seq<seq<seq<Byte>>>, ps: seq<Target>, data: seq<seq<Byte>>,
                                         n: nat, p: nat, d: nat, l: nat)
    requires Array(disks, n, p) && OnDisks(ps, n, p) && |data| == Total(ps) && d < n && l < p
    ensures WritePieces(disks, ps, data, n, p)[d][l] == SectorAfter(disks[d][l], PieceWrites(ps, data), d, l)
    decreases |ps|
  {
    if ps != [] {
      var t := ps[0];
      var disks' := disks[t.disk := Splice(disks[t.disk], t.local, data[..t.count])];
      PieceWritesAre(disks', ps[1..], data[t.count..], n, p, d, l);
      var writes := PieceWrites(ps, data);
      assert writes[1..] == PieceWrites(ps[1..], data[t.count..]);
      assert disks'[d][l] == if writes[0].Covers(d, l) then writes[0].data[l - t.local] else disks[d][l];
    }
  }

  /** The piece writes of all write requests of a list, in order. */
  function RequestWrites(ios: seq<Io<seq<Byte>>>, n: nat, size: nat): seq<PieceWrite>
    requires n > 0 && InRange(ios, size)
    decreases |ios|
  {
    if ios == [] then []
    else
      match ios[0]
      case WriteReq(sta, data) =>
        PiecesTotal(sta, |data|, n);
        PieceWrites(Pieces(sta, |data|, n), data) + RequestWrites(ios[1..], n, size)
      case ReadReq(_, _) => RequestWrites(ios[1..], n, size)
  }

  /** Sector by sector, the striped run of the requests is their piece writes. */
  lemma {:induction false} RequestWritesAre(disks: seq<seq<seq<Byte>>>, ios: seq<Io<seq<Byte>>>,
                                           n: nat, p: nat, d: nat, l: nat)
    requires Array(disks, n, p) && InRange(ios, p * n) && d < n && l < p
    ensures StripedRun(disks, ios, n, p).0[d][l] == SectorAfter(disks[d][l], RequestWrites(ios, n, p * n), d, l)
    decreases |ios|
  {
    hide WritePieces, Pieces, PieceWrites, SectorAfter, OnDisks;
    if ios == [] {
      assert SectorAfter(disks[d][l], [], d, l) == disks[d][l] by { NoWrites(disks[d][l], d, l); }
    } else {
      match ios[0]
      case WriteReq(sta, data) =>
        PiecesOnDisks(sta, |data|, n, p);
        var ps := Pieces(sta, |data|, n);
        PieceWritesAre(disks, ps, data, n, p, d, l);
        RequestWritesAre(WritePieces(disks, ps, data, n, p), ios[1..], n, p, d, l);
        SectorAfterBoth(disks[d][l], PieceWrites(ps, data), RequestWrites(ios[1..], n, p * n), d, l);
      case ReadReq(sta, count) =>
        RequestWritesAre(disks, ios[1..], n, p, d, l);
    }
  }

  lemma NoWrites(x: seq<Byte>, d: nat, l: nat)
    ensures SectorAfter(x, [], d, l) == x
  {}

  // ----- the submissions of a run

  ghost predicate SubmitsWhole(acts: seq<Action>) {
    forall k :: 0 <= k < |acts| && acts[k].Submit? ==> AllFit(acts[k].segs) && WholeSectors(acts[k].segs)
  }

  function WriteOf(a: Action): PieceWrite
    requires a.Submit? && AllFit(a.segs)
  {
    PieceWrite(a.disk, a.sector, SectorsOf(DataOf(a.segs)))
  }

  /** The piece writes a run submits, in order. */
  ghost function SubmittedWrites(acts: seq<Action>): seq<PieceWrite>
    requires SubmitsWhole(acts)
    decreases |acts|
  {
    if acts == [] then []
    else
      var front, a := SubmittedWrites(acts[..|acts| - 1]), acts[|acts| - 1];
      if a.Submit? then front + [WriteOf(a)] else front
  }

  lemma {:induction false} RunSubmitsWhole(s0: State, acts: seq<Action>)
    requires Runs(s0, acts)
    ensures SubmitsWhole(acts)
    decreases |acts|
  {
    hide Enabled, AllFit, WholeSectors, Do;
    if acts != [] {
      var front, a := acts[..|acts| - 1], acts[|acts| - 1];
      RunSubmitsWhole(s0, front);
      SubmitIsWhole(Exec(s0, front), a);
      forall k | 0 <= k < |acts| && acts[k].Submit? ensures AllFit(acts[k].segs) && WholeSectors(acts[k].segs) {
        if k < |front| { assert acts[k] == front[k]; }
      }
    }
  }

  lemma SubmitIsWhole(s: State, a: Action)
    requires Enabled(s, a)
    ensures a.Submit? ==> AllFit(a.segs) && WholeSectors(a.segs)
  {}

  lemma {:induction false} WholeLength(segs: seq<Segment>)
    requires WholeSectors(segs)
    ensures Length(segs) % 512 == 0
  {
    if segs != [] { WholeLength(segs[1..]); }
  }

  /** What a submission brings for byte r of sector l, in bytes and in sectors. */
  lemma WriteOfByte(a: Action, d: nat, l: nat, r: nat)
    requires a.Submit? && AllFit(a.segs) && WholeSectors(a.segs) && r < 512
    ensures a.disk == d && Claims(a, AtSector(l) + r) <==> WriteOf(a).Covers(d, l)
    ensures WriteOf(a).local == a.sector
    ensures WriteOf(a).Covers(d, l) ==>
      var sector := WriteOf(a).data[l - a.sector];
      |sector| == 512 && sector[r] == DataOf(a.segs)[AtSector(l) + r - AtSector(a.sector)]
  {
    WholeLength(a.segs);
    if WriteOf(a).Covers(d, l) { SectorByte(DataOf(a.segs), l - a.sector, r); }
  }

  /** The last submitted byte is that of the piece writes applied one after another. */
  lemma {:induction false} SubmittedBytes(acts: seq<Action>, x: seq<Byte>, d: nat, l: nat, r: nat)
    requires SubmitsWhole(acts) && SubmitsFit(acts) && |x| == 512 && r < 512
    ensures |SectorAfter(x, SubmittedWrites(acts), d, l)| == 512
    ensures LastSubmitted(acts, d, AtSector(l) + r, x[r]) == SectorAfter(x, SubmittedWrites(acts), d, l)[r]
    decreases |acts|
  {
    hide SectorAfter, WriteOf, Claims, AllFit, WholeSectors, DataOf;
    if acts == [] {
      NoWrites(x, d, l);
    } else {
      var front, a := acts[..|acts| - 1], acts[|acts| - 1];
      SubmittedBytes(front, x, d, l, r);
      if a.Submit? {
        SectorAfterBoth(x, SubmittedWrites(front), [WriteOf(a)], d, l);
        WriteOfByte(a, d, l, r);
        OneWrite(SectorAfter(x, SubmittedWrites(front), d, l), WriteOf(a), d, l);
      }
    }
  }

  lemma OneWrite(x: seq<Byte>, w: PieceWrite, d: nat, l: nat)
    ensures SectorAfter(x, [w], d, l) == if w.Covers(d, l) then w.data[l - w.local] else x
  {
    assert [w][1..] == [];
  }

  // ----- the main result

  /** Disk d as rebuilt from the parity disk and the other data disks. */
  ghost function Rebuilt(disks: seq<seq<Byte>>, parity: seq<Byte>, d: nat): seq<Byte>
    requires Uniform(disks, |parity|) && d < |disks|
  {
    seq(|parity|, b requires 0 <= b < |parity| => ByteXor(parity[b], Stripe(disks[..d] + disks[d + 1..], b)))
  }

  lemma SectorsAfterRun(s0: State, acts: seq<Action>, ios: seq<Io<seq<Byte>>>, n: nat, p: nat, d: nat, l: nat)
    requires Init(s0) && Runs(s0, acts) && Careful(s0, acts) && Quiescent(Exec(s0, acts))
    requires Array(BySector(s0.disks), n, p) && InRange(ios, p * n) && d < n && l < p
    requires SubmitsWhole(acts) && SubmittedWrites(acts) == RequestWrites(ios, n, p * n)
    ensures |Exec(s0, acts).disks| == n && |BySector(Exec(s0, acts).disks)[d]| == p
    ensures BySector(Exec(s0, acts).disks)[d][l] == StripedRun(BySector(s0.disks), ios, n, p).0[d][l]
  {
    hide Init, Runs, Exec, Careful, Quiescent, SubmittedWrites, RequestWrites, SectorAfter, LastSubmitted;
    var x, s := BySector(s0.disks)[d][l], Exec(s0, acts);
    RequestWritesAre(BySector(s0.disks), ios, n, p, d, l);
    forall r: nat | r < 512
      ensures |s.disks| == n && |s.disks[d]| == |s0.disks[d]| && |SectorAfter(x, SubmittedWrites(acts), d, l)| == 512
      ensures SectorsOf(s.disks[d])[l][r] == SectorAfter(x, SubmittedWrites(acts), d, l)[r]
    {
      SectorByte(s0.disks[d], l, r);
      QuiescentContents(s0, acts, d, AtSector(l) + r);
      SectorByte(s.disks[d], l, r);
      SubmittedBytes(acts, x, d, l, r);
    }
    assert SectorsOf(s.disks[d])[l][0] == SectorAfter(x, SubmittedWrites(acts), d, l)[0];
    assert SectorsOf(s.disks[d])[l] == SectorAfter(x, SubmittedWrites(acts), d, l);
  }

  /** A run leaves the array's shape alone. */
  lemma SameArray(s0: State, acts: seq<Action>, n: nat, p: nat)
    requires Init(s0) && Runs(s0, acts) && Careful(s0, acts) && Array(BySector(s0.disks), n, p)
    ensures Array(BySector(Exec(s0, acts).disks), n, p)
  {
    DisksFollowLandings(s0, acts);
    hide Init, Runs, Exec, Careful;
    var s := Exec(s0, acts);
    forall d | 0 <= d < n ensures |BySector(s.disks)[d]| == |BySector(s0.disks)[d]| {
      assert |s.disks[d]| == |s0.disks[d]|;
    }
  }

  /** In a quiet state every disk is what the others and the parity disk make of it. */
  lemma RebuiltIsSame(s0: State, acts: seq<Action>, d: nat)
    requires Init(s0) && Runs(s0, acts) && Careful(s0, acts) && Quiescent(Exec(s0, acts)) && d < |Exec(s0, acts).disks|
    ensures var s := Exec(s0, acts); Uniform(s.disks, |s.sh.parity|) && Rebuilt(s.disks, s.sh.parity, d) == s.disks[d]
  {
    hide Init, Runs, Exec, Careful, Quiescent, Stripe;
    QuiescentConsistency(s0, acts);
    var s := Exec(s0, acts);
    forall b | 0 <= b < |s.sh.parity|
      ensures s.disks[d][b] == ByteXor(s.sh.parity[b], Stripe(s.disks[..d] + s.disks[d + 1..], b))
    {
      QuiescentRecovery(s0, acts, d, b);
    }
  }

  /** The whole array is one flat disk: when the submissions of a careful run are the mapped pieces of a
      list of requests, a quiet state seen through the map holds what one flat disk holds after those
      requests, also after any one member disk has been lost and rebuilt. */
  lemma {:induction false} ArrayIsFlatDisk(s0: State, acts: seq<Action>, ios: seq<Io<seq<Byte>>>,
                                           n: nat, p: nat, lost: nat)
    requires Init(s0) && Runs(s0, acts) && Careful(s0, acts) && Quiescent(Exec(s0, acts))
    requires Array(BySector(s0.disks), n, p) && InRange(ios, p * n) && lost < n
    requires SubmitsWhole(acts) && SubmittedWrites(acts) == RequestWrites(ios, n, p * n)
    ensures var s, flat := Exec(s0, acts), FlatRun(Flat(BySector(s0.disks), n, p), ios).0;
      && Array(BySector(s.disks), n, p) && Flat(BySector(s.disks), n, p) == flat
      && Uniform(s.disks, |s.sh.parity|)
      && var repaired := s.disks[lost := Rebuilt(s.disks, s.sh.parity, lost)];
         Array(BySector(repaired), n, p) && Flat(BySector(repaired), n, p) == flat
  {
    hide Init, Runs, Exec, Careful, Quiescent, SubmittedWrites, RequestWrites;
    hide FlatRun, StripedRun, Flat, Rebuilt, InRange;
    var s, striped := Exec(s0, acts), StripedRun(BySector(s0.disks), ios, n, p).0;
    SameArray(s0, acts, n, p);
    forall d, l | 0 <= d < n && 0 <= l < p ensures BySector(s.disks)[d][l] == striped[d][l] {
      SectorsAfterRun(s0, acts, ios, n, p, d, l);
    }
    assert forall d :: 0 <= d < n ==> BySector(s.disks)[d] == striped[d];
    assert BySector(s.disks) == striped;
    StripedRefinesFlat(BySector(s0.disks), ios, n, p);
    RebuiltIsSame(s0, acts, lost);
    assert s.disks[lost := s.disks[lost]] == s.disks;
  }
}
