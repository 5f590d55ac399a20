/** Every list of requests can be carried out: a careful run that submits just its mapped pieces and
    comes to rest. */
module Requests {
  import opened Bytes
  import opened Parity
  import opened Engine
  import opened Segments
  import opened AddressMap
  import opened Split
  import opened Machine
  import Invariant
  import opened Theorems
  import Progress
  import opened Draining
  import opened FlatArray

  // ----- one piece in one page

  /** Sectors written one after another. */
  function Joined(sectors: seq<seq<Byte>>): (r: seq<Byte>)
    requires forall k :: 0 <= k < |sectors| ==> |sectors[k]| == 512
    ensures |r| == AtSector(|sectors|)
  {
    seq(AtSector(|sectors|), x requires 0 <= x < AtSector(|sectors|) => sectors[x / 512][x % 512])
  }

  lemma JoinedSectors(sectors: seq<seq<Byte>>)
    requires forall k :: 0 <= k < |sectors| ==> |sectors[k]| == 512
    ensures SectorsOf(Joined(sectors)) == sectors
  {
    forall k | 0 <= k < |sectors| ensures SectorsOf(Joined(sectors))[k] == sectors[k] {
      forall r: nat | r < 512 ensures SectorsOf(Joined(sectors))[k][r] == sectors[k][r] {
        SectorByte(Joined(sectors), k, r);
        assert (AtSector(k) + r) / 512 == k && (AtSector(k) + r) % 512 == r;
      }
    }
  }

  /** A write of at most one chunk inside a member disk. */
  predicate Fitting(w: PieceWrite, n: nat, p: nat) {
    && w.disk < n && w.local + |w.data| <= p && |w.data| <= 8
    && forall k :: 0 <= k < |w.data| ==> |w.data[k]| == 512
  }

  /** The submission of a piece whose data lies at the front of one page. */
  function PieceSubmit(w: PieceWrite): Action
    requires |w.data| <= 8 && forall k :: 0 <= k < |w.data| ==> |w.data[k]| == 512
  {
    var page := Joined(w.data) + seq(4096 - AtSector(|w.data|), _ => 0);
    var seg := Segment(page, 0, AtSector(|w.data|));
    Submit(w.disk, w.local, [seg], [seg])
  }

  lemma PieceSubmitWrites(w: PieceWrite)
    requires |w.data| <= 8 && forall k :: 0 <= k < |w.data| ==> |w.data[k]| == 512
    ensures var a := PieceSubmit(w);
      && AllFit(a.segs) && WholeSectors(a.segs) && Length(a.segs) == AtSector(|w.data|) && WriteOf(a) == w
  {
    var segs := PieceSubmit(w).segs;
    assert Length(segs) == segs[0].len + Length([]);
    assert DataOf(segs) == Joined(w.data) + DataOf([]);
    assert DataOf(segs) == Joined(w.data);
    JoinedSectors(w.data);
  }

  // ----- a list of pieces

  lemma {:induction false} DrainSubmitsNothing(acts: seq<Action>, more: seq<Action>)
    requires SubmitsWhole(acts) && SubmitsWhole(acts + more) && Progress.NoSubmits(more)
    ensures SubmittedWrites(acts + more) == SubmittedWrites(acts)
    decreases |more|
  {
    if more == [] {
      assert acts + more == acts;
    } else {
      var n := |more| - 1;
      assert (acts + more)[..|acts + more| - 1] == acts + more[..n];
      DrainSubmitsNothing(acts, more[..n]);
    }
  }

  lemma PieceEnabled(s: State, w: PieceWrite, n: nat, p: nat)
    requires Invariant.Inv(s) && |s.disks| == n && AtSector(p) <= |s.sh.parity| && Fitting(w, n, p)
    ensures Enabled(s, PieceSubmit(w))
  {
    PieceSubmitWrites(w);
    assert forall d :: 0 <= d < |s.disks| ==> |s.disks[d]| == |s.sh.parity|;
    hide Invariant.Inv, Joined, Length;
  }

  /** One more piece, submitted when all is quiet and drained again. */
  lemma OneMorePiece(s0: State, acts: seq<Action>, w: PieceWrite, n: nat, p: nat) returns (longer: seq<Action>)
    requires Init(s0) && |s0.disks| == n && AtSector(p) <= |s0.sh.parity| && Fitting(w, n, p)
    requires Runs(s0, acts) && Careful(s0, acts) && Quiescent(Exec(s0, acts)) && SubmitsWhole(acts)
    requires |Exec(s0, acts).units| + 1 < U32_RANGE
    ensures Runs(s0, longer) && Careful(s0, longer) && Quiescent(Exec(s0, longer)) && SubmitsWhole(longer)
    ensures |Exec(s0, longer).units| == |Exec(s0, acts).units| + 1
    ensures SubmittedWrites(longer) == SubmittedWrites(acts) + [w]
  {
    hide Runs, Exec, Do, Enabled, Init, Quiescent, Progress.Blocked, SubmitsWhole, WriteOf, PieceSubmit;
    var a := PieceSubmit(w);
    RunInvariant(s0, acts);
    RunShape(s0, acts);
    PieceEnabled(Exec(s0, acts), w, n, p);
    RunStep(s0, acts, a);
    OnePiece(Exec(s0, acts), w);
    QuietApart(Exec(s0, acts), a);
    assert (acts + [a])[..|acts + [a]| - 1] == acts;
    var more := Drain(s0, acts + [a]);
    longer := acts + [a] + more;
    CarefulExtends(s0, acts + [a], more);
    RunCount(s0, acts + [a], more);
    Progress.DrainsExactly(s0, longer);
    RunSubmitsWhole(s0, acts + [a]);
    RunSubmitsWhole(s0, longer);
    DrainSubmitsNothing(acts + [a], more);
  }

  lemma OnePiece(s: State, w: PieceWrite)
    requires |w.data| <= 8 && (forall k :: 0 <= k < |w.data| ==> |w.data[k]| == 512) && Enabled(s, PieceSubmit(w))
    ensures PieceSubmit(w).Submit? && AllFit(PieceSubmit(w).segs) && WriteOf(PieceSubmit(w)) == w
    ensures |Do(s, PieceSubmit(w)).units| == |s.units| + 1
  {
    PieceSubmitWrites(w);
    StepCount(s, PieceSubmit(w));
  }

  lemma {:induction false} SubmitAll(s0: State, writes: seq<PieceWrite>, n: nat, p: nat) returns (acts: seq<Action>)
    requires Init(s0) && |s0.disks| == n && AtSector(p) <= |s0.sh.parity| && |writes| < U32_RANGE
    requires forall k :: 0 <= k < |writes| ==> Fitting(writes[k], n, p)
    ensures Runs(s0, acts) && Careful(s0, acts) && Quiescent(Exec(s0, acts)) && SubmitsWhole(acts)
    ensures |Exec(s0, acts).units| == |writes| && SubmittedWrites(acts) == writes
    decreases |writes|
  {
    hide Runs, Exec, Careful, Init, Quiescent, SubmitsWhole, SubmittedWrites, Fitting;
    if writes == [] {
      acts := [];
      NothingSubmitted(s0);
    } else {
      var k := |writes| - 1;
      var front := SubmitAll(s0, writes[..k], n, p);
      acts := OneMorePiece(s0, front, writes[k], n, p);
      assert writes[..k] + [writes[k]] == writes;
    }
  }

  lemma NothingSubmitted(s0: State)
    requires Init(s0)
    ensures Runs(s0, []) && Careful(s0, []) && Quiescent(Exec(s0, [])) && SubmitsWhole([])
    ensures |Exec(s0, []).units| == 0 && SubmittedWrites([]) == []
  {}

  // ----- a list of requests

  lemma {:induction false} SmallPieces(sta: nat, count: nat, n: nat, k: nat)
    requires n > 0 && k < |Pieces(sta, count, n)|
    ensures Pieces(sta, count, n)[k].count <= 8
    decreases count
  {
    PieceHead(sta, count, n);
    ChunkArithmetic(sta);
    RestOfPieces(sta, count, n);
    hide Pieces, ChunkEndSector;
    var ps := Pieces(sta, count, n);
    if k > 0 { SmallPieces(sta + ps[0].count, count - ps[0].count, n, k - 1); }
  }

  ghost predicate AllFitting(writes: seq<PieceWrite>, n: nat, p: nat) {
    forall k :: 0 <= k < |writes| ==> Fitting(writes[k], n, p)
  }

  lemma {:induction false} PieceWritesFit(ps: seq<Target>, data: seq<seq<Byte>>, n: nat, p: nat)
    requires Total(ps) == |data| && OnDisks(ps, n, p) && forall k :: 0 <= k < |ps| ==> ps[k].count <= 8
    requires forall k :: 0 <= k < |data| ==> |data[k]| == 512
    ensures AllFitting(PieceWrites(ps, data), n, p)
    decreases |ps|
  {
    if ps != [] {
      PieceWritesFit(ps[1..], data[ps[0].count..], n, p);
    }
  }

  /** Every sector that is written has 512 bytes. */
  ghost predicate WholeData(ios: seq<Io<seq<Byte>>>) {
    forall k, q :: 0 <= k < |ios| && ios[k].WriteReq? && 0 <= q < |ios[k].data| ==> |ios[k].data[q]| == 512
  }

  lemma {:induction false} RequestWritesFit(ios: seq<Io<seq<Byte>>>, n: nat, p: nat)
    requires n > 0 && p % 8 == 0 && InRange(ios, p * n) && WholeData(ios)
    ensures AllFitting(RequestWrites(ios, n, p * n), n, p)
    decreases |ios|
  {
    hide Pieces, PieceWrites, OnDisks, Fitting;
    if ios != [] {
      RequestWritesFit(ios[1..], n, p);
      match ios[0]
      case WriteReq(sta, data) =>
        PiecesOnDisks(sta, |data|, n, p);
        var ps := Pieces(sta, |data|, n);
        forall k | 0 <= k < |ps| ensures ps[k].count <= 8 { SmallPieces(sta, |data|, n, k); }
        PieceWritesFit(ps, data, n, p);
      case ReadReq(_, _) =>
    }
  }

  /** Any list of requests that makes fewer than 2^32 pieces can be carried out, and leaves the array as
      one flat disk would be, whichever member disk is lost and rebuilt afterwards. */
  lemma {:induction false} RequestsServed(s0: State, ios: seq<Io<seq<Byte>>>, n: nat, p: nat, lost: nat)
    returns (acts: seq<Action>)
    requires Init(s0) && Array(BySector(s0.disks), n, p) && InRange(ios, p * n) && WholeData(ios) && lost < n
    requires |RequestWrites(ios, n, p * n)| < U32_RANGE
    ensures Runs(s0, acts) && Careful(s0, acts) && Quiescent(Exec(s0, acts))
    ensures SubmitsWhole(acts) && SubmittedWrites(acts) == RequestWrites(ios, n, p * n)
    ensures var s, flat := Exec(s0, acts), FlatRun(Flat(BySector(s0.disks), n, p), ios).0;
      && Array(BySector(s.disks), n, p) && Flat(BySector(s.disks), n, p) == flat
      && Uniform(s.disks, |s.sh.parity|)
      && var repaired := s.disks[lost := Rebuilt(s.disks, s.sh.parity, lost)];
         Array(BySector(repaired), n, p) && Flat(BySector(repaired), n, p) == flat
  {
    ParityLength(s0, n, p);
    RequestWritesFit(ios, n, p);
    hide Runs, Exec, Careful, Quiescent, Init, SubmitsWhole, SubmittedWrites, RequestWrites, Flat, FlatRun, Rebuilt;
    acts := SubmitAll(s0, RequestWrites(ios, n, p * n), n, p);
    ArrayIsFlatDisk(s0, acts, ios, n, p, lost);
  }

  lemma ParityLength(s0: State, n: nat, p: nat)
    requires Init(s0) && Array(BySector(s0.disks), n, p)
    ensures |s0.disks| == n && AtSector(p) <= |s0.sh.parity|
  {
    assert |BySector(s0.disks)[0]| == |s0.disks[0]| / 512;
  }
}
