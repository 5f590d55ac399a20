/** When the original request completes: bio_chain counting over the split loop, joined with a run of
    the protocol in which the request's pieces, and those of other requests, are on their way. */
module Completion {
  import opened Bytes
  import opened Engine
  import opened Segments
  import opened AddressMap
  import opened Split
  import opened Machine
  import opened Invariant
  import opened Progress
  import Capture
  import Contents
  import opened FlatArray
  import opened Requests
  import opened Freedom

  // ----- counting

  /** A request of m pieces. The first m - 1 are children chained to the request's own bio, which is
      itself the last piece. remaining is that bio's completion count. */
  datatype Chain = Chain(m: nat, submitted: nat, remaining: nat, done: set<nat>, completions: nat)

  /** bio_chain counts a child before it is submitted. */
  function CountUp(c: Chain): Chain {
    c.(submitted := c.submitted + 1, remaining := if c.submitted + 1 < c.m then c.remaining + 1 else c.remaining)
  }

  predicate CanFinish(c: Chain, k: nat) { k < c.submitted && k !in c.done && c.remaining > 0 }

  /** Every finished bio takes one count off; the request completes when its count reaches zero. */
  function CountDown(c: Chain, k: nat): Chain
    requires CanFinish(c, k)
  {
    c.(done := c.done + {k}, remaining := c.remaining - 1,
       completions := if c.remaining == 1 then c.completions + 1 else c.completions)
  }

  function NewChain(m: nat): Chain { Chain(m, 0, 1, {}, 0) }

  ghost predicate ChainInv(c: Chain) {
    && c.m > 0 && c.submitted <= c.m && (forall k :: k in c.done ==> k < c.submitted)
    && c.remaining + |c.done| == 1 + (if c.submitted < c.m then c.submitted else c.m - 1)
    && c.completions == if c.remaining == 0 then 1 else 0
  }

  lemma CountUpKeeps(c: Chain)
    requires ChainInv(c) && c.submitted < c.m
    ensures ChainInv(CountUp(c))
  {
    UpToSize(c.submitted);
    Subset(c.done, UpTo(c.submitted));
  }

  lemma CountDownKeeps(c: Chain, k: nat)
    requires ChainInv(c) && CanFinish(c, k)
    ensures ChainInv(CountDown(c, k))
  {}

  /** The count is zero exactly when every piece has been submitted and has finished. */
  lemma CountIsZero(c: Chain)
    requires ChainInv(c)
    ensures c.completions <= 1
    ensures c.completions == 1 <==> forall k: nat :: k < c.m ==> k in c.done
  {
    UpToSize(c.m);
    UpToSize(c.submitted);
    Subset(c.done, UpTo(c.submitted));
    if c.completions == 1 {
      assert c.submitted == c.m;
      SameSize(c.done, UpTo(c.m));
    }
    if forall k: nat :: k < c.m ==> k in c.done {
      Subset(UpTo(c.m), c.done);
    }
  }

  lemma SameSize(a: set<nat>, b: set<nat>)
    requires a <= b && |a| == |b|
    ensures a == b
  {
    if a != b {
      var x :| x in b && x !in a;
      Subset(a, b - {x});
    }
  }

  // ----- the protocol beside it

  /** The protocol's state, the request's count, and the protocol's number for each piece submitted. */
  datatype Joint = Joint(s: State, chain: Chain, ids: seq<nat>)

  /** A step of any actor, other requests included; the split loop's next submission; the block layer
      reporting one of the request's data writes finished. */
  datatype Event = Step(a: Action) | SubmitPiece(a: Action) | Finish(k: nat)

  ghost predicate Allowed(j: Joint, targets: seq<Target>, e: Event) {
    match e
    case Step(a) => Enabled(j.s, a)
    case SubmitPiece(a) =>
      && j.chain.submitted < |targets| && a.Submit? && Enabled(j.s, a)
      && var t := targets[j.chain.submitted];
         a.disk == t.disk && a.sector == t.local && Length(a.segs) == AtSector(t.count)
    case Finish(k) => CanFinish(j.chain, k) && k < |j.ids| && PieceLanded(j.s, j.ids[k])
  }

  ghost function Following(j: Joint, targets: seq<Target>, e: Event): Joint
    requires Allowed(j, targets, e)
  {
    match e
    case Step(a) => j.(s := Do(j.s, a))
    case SubmitPiece(a) => Joint(Do(j.s, a), CountUp(j.chain), j.ids + [|j.s.pieces|])
    case Finish(k) => j.(chain := CountDown(j.chain, k))
  }

  ghost predicate Happens(j: Joint, targets: seq<Target>, events: seq<Event>)
    decreases |events|, 0
  {
    events == [] || (Happens(j, targets, events[..|events| - 1])
                     && Allowed(Final(j, targets, events[..|events| - 1]), targets, events[|events| - 1]))
  }

  ghost function Final(j: Joint, targets: seq<Target>, events: seq<Event>): Joint
    requires Happens(j, targets, events)
    decreases |events|, 1
  {
    if events == [] then j else Following(Final(j, targets, events[..|events| - 1]), targets, events[|events| - 1])
  }

  // ----- what steps keep

  /** Unit u belongs to piece p and writes byte b of disk d. */
  predicate WritesTo(u: Unit, p: nat, d: nat, b: nat) {
    u.piece == p && u.disk == d && u.task.Covers(b)
  }

  /** Some unit of piece p writes byte b of disk d. */
  ghost predicate Written(s: State, p: nat, d: nat, b: nat) {
    exists i :: 0 <= i < |s.units| && WritesTo(s.units[i], p, d, b)
  }

  predicate InTarget(t: Target, b: nat) {
    AtSector(t.local) <= b < AtSector(t.local) + AtSector(t.count)
  }

  /** Every byte of target t is written by piece p. */
  ghost predicate PieceFor(s: State, p: nat, t: Target) {
    p < |s.pieces| && forall b: nat :: InTarget(t, b) ==> Written(s, p, t.disk, b)
  }

  /** What a unit has written stays written, and new units belong to new pieces. */
  lemma StepGrows(s: State, a: Action)
    requires Enabled(s, a)
    ensures |s.units| <= |Do(s, a).units| && |s.pieces| <= |Do(s, a).pieces|
    ensures forall p :: 0 <= p < |s.pieces| ==> (s.pieces[p].released ==> Do(s, a).pieces[p].released)
    ensures forall i :: |s.units| <= i < |Do(s, a).units| ==> Do(s, a).units[i].piece == |s.pieces|
    ensures forall i :: 0 <= i < |s.units| ==>
      var u, u' := s.units[i], Do(s, a).units[i];
      && u'.piece == u.piece && u'.disk == u.disk && u.landed <= u'.landed
      && u'.task.(pageOld := u.task.pageOld) == u.task
  {
    hide HasWork, InBounds;
  }

  /** A piece that has landed stays landed. */
  lemma LandedStays(s: State, a: Action, p: nat)
    requires Enabled(s, a) && PieceLanded(s, p)
    ensures PieceLanded(Do(s, a), p)
  {
    StepGrows(s, a);
    hide Enabled, Do;
  }

  lemma PieceForStays(s: State, a: Action, p: nat, t: Target)
    requires Enabled(s, a) && PieceFor(s, p, t)
    ensures PieceFor(Do(s, a), p, t)
  {
    StepGrows(s, a);
    hide Enabled, Do;
    forall b: nat | InTarget(t, b) ensures Written(Do(s, a), p, t.disk, b) {
      assert Written(s, p, t.disk, b);
      var i :| 0 <= i < |s.units| && WritesTo(s.units[i], p, t.disk, b);
      assert WritesTo(Do(s, a).units[i], p, t.disk, b);
    }
  }

  /** A submission makes a piece for its target. */
  lemma SubmitIsPieceFor(s: State, a: Action, t: Target)
    requires a.Submit? && Enabled(s, a)
    requires a.disk == t.disk && a.sector == t.local && Length(a.segs) == AtSector(t.count)
    ensures PieceFor(Do(s, a), |s.pieces|, t)
  {
    Contents.NewWrites(s, a);
    assert |Do(s, a).pieces| == |s.pieces| + 1;
    hide Enabled, Do, AllFit, WholeSectors, SameShape;
    var p, n := |s.pieces|, |s.units|;
    forall b: nat | InTarget(t, b) ensures Written(Do(s, a), p, t.disk, b) {
      var k := Contents.NewUnitsTouch(p, a, t.disk, b);
      assert Do(s, a).units[n + k] == NewUnits(p, a)[k];
      assert WritesTo(Do(s, a).units[n + k], p, t.disk, b);
    }
  }

  // ----- the joint run

  ghost predicate JointInv(j: Joint, targets: seq<Target>) {
    && Inv(j.s) && ChainInv(j.chain) && j.chain.m == |targets|
    && |j.ids| == j.chain.submitted <= |targets|
    && (forall k :: 0 <= k < |j.ids| ==> PieceFor(j.s, j.ids[k], targets[k]))
    && (forall k :: 0 <= k < |j.ids| && k in j.chain.done ==> PieceLanded(j.s, j.ids[k]))
  }

  lemma StepKeepsJoint(j: Joint, targets: seq<Target>, a: Action)
    requires JointInv(j, targets) && Enabled(j.s, a)
    ensures JointInv(j.(s := Do(j.s, a)), targets)
  {
    hide Inv, ChainInv, Do, Enabled, PieceFor, PieceLanded;
    StepKeeps(j.s, a);
    forall k | 0 <= k < |j.ids| ensures PieceFor(Do(j.s, a), j.ids[k], targets[k]) {
      PieceForStays(j.s, a, j.ids[k], targets[k]);
    }
    forall k | 0 <= k < |j.ids| && k in j.chain.done ensures PieceLanded(Do(j.s, a), j.ids[k]) {
      LandedStays(j.s, a, j.ids[k]);
    }
  }

  lemma EventKeeps(j: Joint, targets: seq<Target>, e: Event)
    requires JointInv(j, targets) && Allowed(j, targets, e)
    ensures JointInv(Following(j, targets, e), targets)
  {
    hide Inv, Do, Enabled, PieceFor, PieceLanded, Length;
    match e
    case Step(a) => StepKeepsJoint(j, targets, a);
    case SubmitPiece(a) =>
      StepKeepsJoint(j, targets, a);
      CountUpKeeps(j.chain);
      SubmitIsPieceFor(j.s, a, targets[j.chain.submitted]);
    case Finish(k) => CountDownKeeps(j.chain, k);
  }

  function NewJoint(s: State, targets: seq<Target>): Joint { Joint(s, NewChain(|targets|), []) }

  lemma {:induction false} JointRun(s0: State, targets: seq<Target>, events: seq<Event>)
    requires Init(s0) && |targets| > 0 && Happens(NewJoint(s0, targets), targets, events)
    ensures JointInv(Final(NewJoint(s0, targets), targets, events), targets)
    decreases |events|
  {
    hide Inv, Allowed, Following;
    if events == [] {
      InitInv(s0);
    } else {
      JointRun(s0, targets, events[..|events| - 1]);
      EventKeeps(Final(NewJoint(s0, targets), targets, events[..|events| - 1]), targets, events[|events| - 1]);
    }
  }

  /** Exactly once, and only when every piece has been submitted and has finished. */
  lemma CompletesExactly(s0: State, targets: seq<Target>, events: seq<Event>)
    requires Init(s0) && |targets| > 0 && Happens(NewJoint(s0, targets), targets, events)
    ensures var c := Final(NewJoint(s0, targets), targets, events).chain;
      && c.completions <= 1
      && (c.completions == 1 <==> forall k: nat :: k < |targets| ==> k in c.done)
  {
    hide Init, Happens, Final, Inv, ChainInv;
    JointRun(s0, targets, events);
    CountIsZero(Final(NewJoint(s0, targets), targets, events).chain);
  }

  // ----- the request

  /** The piece of a request that holds array sector q. */
  lemma {:induction false} PieceOf(sta: nat, count: nat, n: nat, q: nat) returns (k: nat)
    requires n > 0 && sta <= q < sta + count
    ensures var ps := Pieces(sta, count, n);
      k < |ps| && ps[k].disk == DiskOf(q, n) && ps[k].local <= SectorWholeToI(q, n) < ps[k].local + ps[k].count
    decreases count
  {
    FirstPiece(sta, count, n);
    RestOfPieces(sta, count, n);
    var ps := Pieces(sta, count, n);
    hide Pieces, ChunkEndSector, DiskOf, SectorWholeToI;
    if q < sta + ps[0].count {
      k := 0;
    } else {
      var rest := PieceOf(sta + ps[0].count, count - ps[0].count, n, q);
      k := rest + 1;
    }
  }

  /** Byte b of disk d has been written by a unit of piece p whose data has landed there and whose verify
      task is at least queued. */
  ghost predicate OnDisk(s: State, p: nat, d: nat, b: nat) {
    exists i :: 0 <= i < |s.units| && WritesTo(s.units[i], p, d, b)
                && s.units[i].task.SectorOf(b) in s.units[i].landed && !s.units[i].phase.Waiting?
  }

  lemma LandedIsOnDisk(s: State, p: nat, t: Target, b: nat)
    requires Inv(s) && PieceFor(s, p, t) && PieceLanded(s, p) && InTarget(t, b)
    ensures OnDisk(s, p, t.disk, b)
  {
    assert Written(s, p, t.disk, b);
    var i :| 0 <= i < |s.units| && WritesTo(s.units[i], p, t.disk, b);
    UnitIsReady(s, i);
    Capture.ReleasedMeansRead(s, i);
  }

  /** Once the original request has completed, every byte of every array sector it writes is on the
      sector's disk, put there by the request's own pieces, and every verify task of those pieces is at
      least queued. */
  lemma {:induction false} CompletionOrdering(s0: State, sta: nat, count: nat, n: nat, events: seq<Event>,
                                              q: nat, r: nat)
    requires Init(s0) && n > 0 && Happens(NewJoint(s0, Pieces(sta, count, n)), Pieces(sta, count, n), events)
    requires Final(NewJoint(s0, Pieces(sta, count, n)), Pieces(sta, count, n), events).chain.completions > 0
    requires sta <= q < sta + count && r < 512
    ensures var j := Final(NewJoint(s0, Pieces(sta, count, n)), Pieces(sta, count, n), events);
      && j.chain.completions == 1
      && exists k :: 0 <= k < |j.ids| && OnDisk(j.s, j.ids[k], DiskOf(q, n), AtSector(SectorWholeToI(q, n)) + r)
    ensures var j := Final(NewJoint(s0, Pieces(sta, count, n)), Pieces(sta, count, n), events);
      forall k, i :: 0 <= k < |j.ids| && 0 <= i < |j.s.units| && j.s.units[i].piece == j.ids[k] ==>
        Full(j.s.units[i].landed, j.s.units[i].task.Sectors()) && !j.s.units[i].phase.Waiting?
  {
    var targets := Pieces(sta, count, n);
    hide Init, Happens, Final, Inv, ChainInv, PieceFor, PieceLanded, Pieces, DiskOf, SectorWholeToI, OnDisk;
    JointRun(s0, targets, events);
    CompletesExactly(s0, targets, events);
    var j := Final(NewJoint(s0, targets), targets, events);
    AllSubmitted(j, targets);
    var k := PieceOf(sta, count, n, q);
    LandedIsOnDisk(j.s, j.ids[k], targets[k], AtSector(SectorWholeToI(q, n)) + r);
    forall k, i | 0 <= k < |j.ids| && 0 <= i < |j.s.units| && j.s.units[i].piece == j.ids[k]
      ensures Full(j.s.units[i].landed, j.s.units[i].task.Sectors()) && !j.s.units[i].phase.Waiting?
    {
      LandedIsQueued(j.s, j.ids[k], i);
    }
  }

  lemma AllSubmitted(j: Joint, targets: seq<Target>)
    requires JointInv(j, targets) && forall k: nat :: k < |targets| ==> k in j.chain.done
    ensures |j.ids| == |targets| && forall k :: 0 <= k < |j.ids| ==> PieceLanded(j.s, j.ids[k])
  {
    hide Inv, PieceFor, PieceLanded;
    assert |targets| - 1 in j.chain.done;
  }

  lemma LandedIsQueued(s: State, p: nat, i: nat)
    requires Inv(s) && PieceLanded(s, p) && i < |s.units| && s.units[i].piece == p
    ensures Full(s.units[i].landed, s.units[i].task.Sectors()) && !s.units[i].phase.Waiting?
  {
    Capture.ReleasedMeansRead(s, i);
  }

  // ----- every request completes

  lemma {:induction false} HappensCons(j: Joint, targets: seq<Target>, e: Event, rest: seq<Event>)
    requires Allowed(j, targets, e) && Happens(Following(j, targets, e), targets, rest)
    ensures Happens(j, targets, [e] + rest)
    ensures Final(j, targets, [e] + rest) == Final(Following(j, targets, e), targets, rest)
    decreases |rest|
  {
    hide Allowed, Following;
    if rest == [] {
      assert [e] + rest == [e] && [e][..0] == [];
      assert Happens(j, targets, []) && Final(j, targets, []) == j;
    } else {
      var n := |rest| - 1;
      HappensCons(j, targets, e, rest[..n]);
      assert ([e] + rest)[..n + 1] == [e] + rest[..n] && ([e] + rest)[n + 1] == rest[n];
    }
  }

  lemma {:induction false} HappensJoin(j: Joint, targets: seq<Target>, first: seq<Event>, second: seq<Event>)
    requires Happens(j, targets, first) && Happens(Final(j, targets, first), targets, second)
    ensures Happens(j, targets, first + second)
    ensures Final(j, targets, first + second) == Final(Final(j, targets, first), targets, second)
    decreases |second|
  {
    hide Allowed, Following;
    if second == [] {
      assert first + second == first;
    } else {
      var n := |second| - 1;
      HappensJoin(j, targets, first, second[..n]);
      assert (first + second)[..|first| + n] == first + second[..n] && (first + second)[|first| + n] == second[n];
    }
  }

  lemma NothingHappens(j: Joint, targets: seq<Target>)
    ensures Happens(j, targets, []) && Final(j, targets, []) == j
  {}

  /** The pieces from k on that have not been reported finished. */
  function Unfinished(c: Chain, k: nat): nat
    decreases c.m - k
  {
    if k >= c.m then 0 else (if k in c.done then 0 else 1) + Unfinished(c, k + 1)
  }

  lemma {:induction false} FinishShrinks(c: Chain, k: nat, from: nat)
    requires CanFinish(c, k) && k < c.m
    ensures Unfinished(CountDown(c, k), from) == Unfinished(c, from) - if from <= k then 1 else 0
    decreases c.m - from
  {
    if from < c.m { FinishShrinks(c, k, from + 1); }
  }

  ghost predicate OnlyFinishes(events: seq<Event>) {
    forall k :: 0 <= k < |events| ==> events[k].Finish?
  }

  /** While a submitted piece has not been reported, the request's count is not yet zero. */
  lemma StillCounting(c: Chain, k: nat)
    requires ChainInv(c) && c.submitted == c.m && k < c.m && k !in c.done
    ensures CanFinish(c, k)
  {
    UpToSize(c.m);
    Subset(c.done + {k}, UpTo(c.m));
  }

  /** When all pieces have been submitted and have landed, the reports alone complete the request. */
  lemma {:induction false} ReportsComplete(j: Joint, targets: seq<Target>) returns (events: seq<Event>)
    requires JointInv(j, targets) && |j.ids| == |targets| && forall k :: 0 <= k < |j.ids| ==> PieceLanded(j.s, j.ids[k])
    ensures OnlyFinishes(events) && Happens(j, targets, events) && Final(j, targets, events).chain.completions == 1
    decreases Unfinished(j.chain, 0)
  {
    hide Inv, ChainInv, PieceFor, PieceLanded, Happens, Final, Unfinished;
    if k: nat :| k < |targets| && k !in j.chain.done {
      StillCounting(j.chain, k);
      FinishShrinks(j.chain, k, 0);
      EventKeeps(j, targets, Finish(k));
      var rest := ReportsComplete(Following(j, targets, Finish(k)), targets);
      HappensCons(j, targets, Finish(k), rest);
      events := [Finish(k)] + rest;
    } else {
      events := [];
      NothingHappens(j, targets);
      CountIsZero(j.chain);
    }
  }

  function Steps(acts: seq<Action>): seq<Event> {
    seq(|acts|, k requires 0 <= k < |acts| => Step(acts[k]))
  }

  /** A run of the machine is a joint run in which the request itself stands still. */
  lemma {:induction false} StepsHappen(j: Joint, targets: seq<Target>, acts: seq<Action>)
    requires Runs(j.s, acts)
    ensures Happens(j, targets, Steps(acts)) && Final(j, targets, Steps(acts)) == j.(s := Exec(j.s, acts))
    decreases |acts|
  {
    hide Enabled, Do, Length;
    if acts != [] {
      var n := |acts| - 1;
      StepsHappen(j, targets, acts[..n]);
      assert Steps(acts)[..n] == Steps(acts[..n]);
    }
  }

  lemma {:induction false} LandedRun(s: State, acts: seq<Action>, p: nat)
    requires Runs(s, acts) && PieceLanded(s, p)
    ensures PieceLanded(Exec(s, acts), p)
    decreases |acts|
  {
    hide Enabled, Do, PieceLanded;
    if acts != [] {
      LandedRun(s, acts[..|acts| - 1], p);
      LandedStays(Exec(s, acts[..|acts| - 1]), acts[|acts| - 1], p);
    }
  }

  lemma {:induction false} InvRun(s: State, acts: seq<Action>)
    requires Inv(s) && Runs(s, acts)
    ensures Inv(Exec(s, acts))
    decreases |acts|
  {
    hide Enabled, Do, Inv;
    if acts != [] {
      InvRun(s, acts[..|acts| - 1]);
      StepKeeps(Exec(s, acts[..|acts| - 1]), acts[|acts| - 1]);
    }
  }

  /** The pieces submitted so far can all land, the first n of them at least. */
  lemma {:induction false} LandPieces(s: State, ids: seq<nat>, n: nat) returns (acts: seq<Action>)
    requires Inv(s) && n <= |ids| && forall k :: 0 <= k < |ids| ==> ids[k] < |s.pieces|
    ensures Runs(s, acts) && Inv(Exec(s, acts)) && |Exec(s, acts).pieces| == |s.pieces|
    ensures forall k :: 0 <= k < n ==> PieceLanded(Exec(s, acts), ids[k])
    decreases n
  {
    hide Inv, Runs, Exec, PieceLanded, OnlyPiece;
    if n == 0 {
      acts := [];
      RunsNothing(s);
    } else {
      var front := LandPieces(s, ids, n - 1);
      var s1 := Exec(s, front);
      var more := PieceAlone(s1, ids[n - 1]);
      OnlyPieceTwice(s1, Exec(s1, more), Exec(s1, more), ids[n - 1]);
      RunJoin(s, front, more);
      acts := front + more;
      forall k | 0 <= k < n - 1 ensures PieceLanded(Exec(s, acts), ids[k]) { LandedRun(s1, more, ids[k]); }
    }
  }

  /** The writes carry data for the targets, and lie on the disks. */
  ghost predicate Carry(s: State, targets: seq<Target>, writes: seq<PieceWrite>) {
    && |writes| == |targets|
    && forall k :: 0 <= k < |targets| ==>
         && writes[k].disk == targets[k].disk && writes[k].local == targets[k].local
         && |writes[k].data| == targets[k].count && Fitting(writes[k], |s.disks|, |s.sh.parity| / 512)
  }

  /** The split loop can always go on to its end. */
  lemma {:induction false} SubmitRest(j: Joint, targets: seq<Target>, writes: seq<PieceWrite>)
    returns (events: seq<Event>)
    requires JointInv(j, targets) && Carry(j.s, targets, writes)
    ensures Happens(j, targets, events) && JointInv(Final(j, targets, events), targets)
    ensures |Final(j, targets, events).ids| == |targets|
    decreases |targets| - |j.ids|
  {
    hide Inv, ChainInv, PieceFor, PieceLanded, Happens, Final, Do, Enabled, Length, PieceSubmit, Fitting;
    if |j.ids| == |targets| {
      events := [];
      NothingHappens(j, targets);
    } else {
      var w := writes[|j.ids|];
      var e := NextSubmit(j, targets, w);
      EventKeeps(j, targets, e);
      StepCount(j.s, e.a);
      var rest := SubmitRest(Following(j, targets, e), targets, writes);
      HappensCons(j, targets, e, rest);
      events := [e] + rest;
    }
  }

  lemma NextSubmit(j: Joint, targets: seq<Target>, w: PieceWrite) returns (e: Event)
    requires JointInv(j, targets) && |j.ids| < |targets|
    requires var t := targets[|j.ids|]; w.disk == t.disk && w.local == t.local && |w.data| == t.count
    requires Fitting(w, |j.s.disks|, |j.s.sh.parity| / 512)
    ensures e.SubmitPiece? && Allowed(j, targets, e)
  {
    e := SubmitPiece(PieceSubmit(w));
    PieceSubmitWrites(w);
    PieceEnabled(j.s, w, |j.s.disks|, |j.s.sh.parity| / 512);
    hide Inv, Enabled;
  }

  lemma {:induction false} StepsKeepJoint(j: Joint, targets: seq<Target>, acts: seq<Action>)
    requires JointInv(j, targets) && Runs(j.s, acts)
    ensures JointInv(j.(s := Exec(j.s, acts)), targets)
    decreases |acts|
  {
    hide Enabled, Do, JointInv;
    if acts != [] {
      var front := acts[..|acts| - 1];
      StepsKeepJoint(j, targets, front);
      StepKeepsJoint(j.(s := Exec(j.s, front)), targets, acts[|acts| - 1]);
    }
  }

  /** The submitted pieces of a request land, and are reported. */
  lemma LandAndReport(j: Joint, targets: seq<Target>) returns (events: seq<Event>)
    requires JointInv(j, targets) && |j.ids| == |targets|
    ensures Happens(j, targets, events) && Final(j, targets, events).chain.completions == 1
  {
    PiecesExist(j, targets);
    assert Inv(j.s);
    hide JointInv, Inv, Happens, Final, Runs, Exec, PieceLanded;
    var acts := LandPieces(j.s, j.ids, |j.ids|);
    StepsHappen(j, targets, acts);
    StepsKeepJoint(j, targets, acts);
    var reports := ReportsComplete(j.(s := Exec(j.s, acts)), targets);
    HappensJoin(j, targets, Steps(acts), reports);
    events := Steps(acts) + reports;
  }

  /** Every request completes: from every joint state, whatever else is on its way, the remaining pieces
      can be submitted, all pieces can land, and their reports complete the request. No engine step is
      needed, so it does so even when the engine is stuck. */
  lemma {:induction false} RequestCompletes(s0: State, targets: seq<Target>, events: seq<Event>,
                                            writes: seq<PieceWrite>)
    returns (more: seq<Event>)
    requires Init(s0) && |targets| > 0 && Happens(NewJoint(s0, targets), targets, events)
    requires Carry(Final(NewJoint(s0, targets), targets, events).s, targets, writes)
    ensures Happens(NewJoint(s0, targets), targets, events + more)
    ensures Final(NewJoint(s0, targets), targets, events + more).chain.completions == 1
  {
    hide Init, JointInv, Happens, Final, Carry;
    JointRun(s0, targets, events);
    var j0 := NewJoint(s0, targets);
    var submits := SubmitRest(Final(j0, targets, events), targets, writes);
    HappensJoin(j0, targets, events, submits);
    var landed := LandAndReport(Final(j0, targets, events + submits), targets);
    HappensJoin(j0, targets, events + submits, landed);
    more := submits + landed;
    assert events + submits + landed == events + more;
  }

  lemma {:induction false} JointShape(j: Joint, targets: seq<Target>, events: seq<Event>)
    requires Happens(j, targets, events)
    ensures var s := Final(j, targets, events).s; |s.disks| == |j.s.disks| && |s.sh.parity| == |j.s.sh.parity|
    decreases |events|
  {
    hide Enabled, Do, PieceLanded, Length;
    if events != [] {
      var front, e := events[..|events| - 1], events[|events| - 1];
      JointShape(j, targets, front);
      if !e.Finish? { StepCount(Final(j, targets, front).s, e.a); }
    }
  }

  lemma {:induction false} PieceWritesCarry(ps: seq<Target>, data: seq<seq<Byte>>, k: nat)
    requires Total(ps) == |data| && k < |ps|
    ensures |PieceWrites(ps, data)| == |ps|
    ensures var w := PieceWrites(ps, data)[k]; w.disk == ps[k].disk && w.local == ps[k].local && |w.data| == ps[k].count
    decreases |ps|
  {
    if k > 0 { PieceWritesCarry(ps[1..], data[ps[0].count..], k - 1); }
    if k == 0 && |ps| > 1 { PieceWritesCarry(ps[1..], data[ps[0].count..], 0); }
  }

  /** In particular every write of array sectors, whatever its data, once some of its pieces are on their
      way and others not. */
  lemma {:induction false} ArrayWriteCompletes(s0: State, sta: nat, data: seq<seq<Byte>>, n: nat, p: nat,
                                               events: seq<Event>)
    returns (more: seq<Event>)
    requires Init(s0) && Array(BySector(s0.disks), n, p) && 0 < |data| && sta + |data| <= p * n
    requires forall k :: 0 <= k < |data| ==> |data[k]| == 512
    requires Happens(NewJoint(s0, Pieces(sta, |data|, n)), Pieces(sta, |data|, n), events)
    ensures var targets := Pieces(sta, |data|, n);
      && Happens(NewJoint(s0, targets), targets, events + more)
      && Final(NewJoint(s0, targets), targets, events + more).chain.completions == 1
  {
    var targets := Pieces(sta, |data|, n);
    ParityLength(s0, n, p);
    PiecesOnDisks(sta, |data|, n, p);
    JointShape(NewJoint(s0, targets), targets, events);
    forall k | 0 <= k < |targets| ensures targets[k].count <= 8 { SmallPieces(sta, |data|, n, k); }
    hide Init, Happens, Final, Pieces, PieceWrites, OnDisks, BySector;
    PieceWritesFit(targets, data, n, p);
    var writes, s := PieceWrites(targets, data), Final(NewJoint(s0, targets), targets, events).s;
    forall k | 0 <= k < |targets|
      ensures |writes| == |targets| && writes[k].disk == targets[k].disk && writes[k].local == targets[k].local
      ensures |writes[k].data| == targets[k].count && Fitting(writes[k], |s.disks|, |s.sh.parity| / 512)
    {
      PieceWritesCarry(targets, data, k);
    }
    assert |writes| == |targets| by { PieceWritesCarry(targets, data, 0); }
    more := RequestCompletes(s0, targets, events, writes);
  }

  lemma PiecesExist(j: Joint, targets: seq<Target>)
    requires JointInv(j, targets)
    ensures forall k :: 0 <= k < |j.ids| ==> j.ids[k] < |j.s.pieces|
  {
    hide Inv, ChainInv, PieceLanded;
    forall k | 0 <= k < |j.ids| ensures j.ids[k] < |j.s.pieces| { assert PieceFor(j.s, j.ids[k], targets[k]); }
  }
}
