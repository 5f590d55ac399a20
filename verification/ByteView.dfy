/** The protocol at one byte position: the byte of every data disk, the segments that cover it, and
    what reads and landings in any order can make of them. */
module ByteView {
  import opened Bytes

  /** A unit at byte b: whether it covers b, whether its old byte has been read and its new byte has
      landed, and the three bytes. */
  datatype ByteUnit = ByteUnit(disk: nat, covers: bool, read: bool, landed: bool, was: Byte, data: Byte, prev: Byte) {
    predicate Pending() { covers && !landed }
  }

  /** Byte b of every data disk, and every unit at byte b. */
  datatype View = View(column: seq<Byte>, units: seq<ByteUnit>) {
    ghost predicate Valid() {
      forall i :: 0 <= i < |units| ==>
        units[i].disk < |column| && (!units[i].covers ==> !units[i].landed && units[i].was == units[i].prev)
    }
  }

  /** What a step does to byte b: nothing, or one unit's old byte is read, or its new byte lands. */
  datatype Effect = Still | Reads(unit: nat) | Lands(unit: nat)

  predicate Possible(v: View, e: Effect) {
    match e
    case Still => true
    case Reads(i) => i < |v.units| && v.units[i].disk < |v.column| && v.units[i].Pending() && !v.units[i].read
    case Lands(i) => i < |v.units| && v.units[i].disk < |v.column| && v.units[i].Pending() && v.units[i].read
  }

  function After(v: View, e: Effect): View
    requires Possible(v, e)
  {
    match e
    case Still => v
    case Reads(i) =>
      v.(units := v.units[i := v.units[i].(read := true, was := v.column[v.units[i].disk])])
    case Lands(i) =>
      View(v.column[v.units[i].disk := v.units[i].data],
           v.units[i := v.units[i].(landed := true, prev := v.column[v.units[i].disk])])
  }

  // ----- snapshots that are still true

  /** What has been read and has not landed is still on the disk. */
  ghost predicate Fresh(v: View)
    requires v.Valid()
  {
    forall i :: 0 <= i < |v.units| && v.units[i].Pending() && v.units[i].read ==>
      v.units[i].was == v.column[v.units[i].disk]
  }

  /** Every unit but odd has replaced just what it had read. */
  ghost predicate Replaced(v: View, odd: int) {
    forall i :: 0 <= i < |v.units| && i != odd && v.units[i].landed ==> v.units[i].prev == v.units[i].was
  }

  /** Two units that wait for the same byte of the same disk. */
  ghost predicate Rivals(v: View, i: int, k: int) {
    && 0 <= i < |v.units| && 0 <= k < |v.units| && i != k
    && v.units[i].disk == v.units[k].disk && v.units[i].Pending() && v.units[k].Pending()
  }

  /** Rivals bring nothing new. */
  ghost predicate Idle(v: View)
    requires v.Valid()
  {
    forall i, k :: Rivals(v, i, k) ==> v.units[i].data == v.column[v.units[i].disk]
  }

  /** All snapshots are true, or will be, except that of odd, which has landed already. */
  ghost predicate Sound(v: View, odd: int) {
    && v.Valid() && Fresh(v) && Replaced(v, odd) && Idle(v)
    && (0 <= odd ==> odd < |v.units| && v.units[odd].landed)
  }

  lemma AfterSound(v: View, e: Effect, odd: int)
    requires Sound(v, odd) && Possible(v, e)
    ensures Sound(After(v, e), odd) && (0 <= odd ==> After(v, e).units[odd] == v.units[odd])
  {
    var v' := After(v, e);
    assert forall i, k :: Rivals(v', i, k) ==> Rivals(v, i, k);
    if e.Lands? {
      forall k | 0 <= k < |v.units| && k != e.unit && v.units[k].Pending() && v.units[k].disk == v.units[e.unit].disk
        ensures v'.column == v.column
      {
        assert Rivals(v, e.unit, k);
      }
    }
  }

  /** By how much unit u's old byte misses what its data replaced. */
  function Gap(u: ByteUnit): Byte { ByteXor(u.was, u.prev) }

  ghost function Gaps(v: View): seq<Byte> {
    seq(|v.units|, i requires 0 <= i < |v.units| => Gap(v.units[i]))
  }

  /** When all has landed only odd can have missed. */
  lemma SoundGaps(v: View, odd: int)
    requires Sound(v, odd) && forall i :: 0 <= i < |v.units| ==> !v.units[i].Pending()
    ensures XorSum(Gaps(v)) == if 0 <= odd then Gap(v.units[odd]) else 0
  {
    var ms := Gaps(v);
    forall i | 0 <= i < |ms| && i != odd ensures ms[i] == 0 { XorSelf(v.units[i].was); }
    if 0 <= odd {
      OnlyOne(ms, odd);
    } else {
      XorSumZero(ms);
    }
  }

  lemma OnlyOne(xs: seq<Byte>, k: nat)
    requires k < |xs| && forall i :: 0 <= i < |xs| && i != k ==> xs[i] == 0
    ensures XorSum(xs) == xs[k]
  {
    XorSumUpdate(xs, k, 0);
    XorSumZero(xs[k := 0]);
    XorZero(xs[k]);
    XorIsZero(XorSum(xs), xs[k]);
  }

  // ----- new units

  /** Units that have done nothing yet, all of one disk, of which at most k covers the byte. */
  ghost predicate News(v: View, news: seq<ByteUnit>, disk: nat, k: nat) {
    && disk < |v.column| && View(v.column, v.units + news).Valid()
    && forall q :: 0 <= q < |news| ==>
         !news[q].read && !news[q].landed && news[q].disk == disk && (news[q].covers ==> q == k)
  }

  /** Snapshots are true and there are no rivals. */
  ghost predicate Calm(v: View) {
    v.Valid() && Fresh(v) && Replaced(v, -1) && forall i, k :: !Rivals(v, i, k)
  }

  lemma RivalsOf(v: View, news: seq<ByteUnit>, disk: nat, k: nat, q: int, r: int)
    requires Calm(v) && News(v, news, disk, k) && Rivals(View(v.column, v.units + news), q, r)
    ensures var n := |v.units|;
      k < |news| && news[k].covers && ((q == n + k && 0 <= r < n) || (r == n + k && 0 <= q < n))
    ensures v.units[if q < |v.units| then q else r].Pending() && v.units[if q < |v.units| then q else r].disk == disk
  {
    assert !Rivals(v, q, r);
  }

  /** New units that bring nothing new where they meet others keep the view sound. */
  lemma JoinSound(v: View, news: seq<ByteUnit>, disk: nat, k: nat)
    requires Calm(v) && News(v, news, disk, k)
    requires k < |news| && news[k].covers ==>
      forall i :: 0 <= i < |v.units| && v.units[i].Pending() && v.units[i].disk == disk ==>
        v.units[i].data == v.column[disk] == news[k].data
    ensures Sound(View(v.column, v.units + news), -1)
  {
    var v' := View(v.column, v.units + news);
    forall q, r | Rivals(v', q, r) ensures v'.units[q].data == v.column[v'.units[q].disk] {
      RivalsOf(v, news, disk, k, q, r);
    }
  }

  /** A new unit that meets another one makes them the only rivals. */
  lemma JoinContest(v: View, news: seq<ByteUnit>, disk: nat, k: nat, i: nat)
    requires Calm(v) && News(v, news, disk, k) && k < |news| && news[k].covers
    requires i < |v.units| && v.units[i].Pending() && v.units[i].disk == disk
    ensures Contest(View(v.column, v.units + news), i, |v.units| + k)
  {
    var v', n := View(v.column, v.units + news), |v.units|;
    forall q, r | Rivals(v', q, r) ensures (q == i && r == n + k) || (q == n + k && r == i) {
      RivalsOf(v, news, disk, k, q, r);
      assert !Rivals(v, i, if q < n then q else r);
    }
  }

  // ----- two units that wait for the same byte

  /** i and k are the only rivals. */
  ghost predicate Contest(v: View, i: nat, k: nat) {
    && v.Valid() && Fresh(v) && Replaced(v, -1) && Rivals(v, i, k)
    && forall q, r :: Rivals(v, q, r) ==> (q == i && r == k) || (q == k && r == i)
  }

  lemma ContestFlips(v: View, i: nat, k: nat)
    requires Contest(v, i, k)
    ensures Contest(v, k, i)
  {}

  /** Reading leaves the contest open. */
  lemma AfterContest(v: View, e: Effect, i: nat, k: nat)
    requires Contest(v, i, k) && Possible(v, e) && !e.Lands?
    ensures Contest(After(v, e), i, k) && After(v, e).column == v.column
    ensures After(v, e).units[i].data == v.units[i].data && After(v, e).units[k].data == v.units[k].data
    ensures After(v, e).units[i].disk == v.units[i].disk
  {
    var v' := After(v, e);
    assert forall q, r :: Rivals(v', q, r) ==> Rivals(v, q, r);
  }

  /** Once both have read, landing first and then second makes second's snapshot stale, unless first
      brings what was there. */
  lemma TwoLandings(v: View, first: nat, second: nat)
    requires Contest(v, first, second) && v.units[first].read && v.units[second].read
    ensures Possible(v, Lands(first)) && Possible(After(v, Lands(first)), Lands(second))
    ensures var v' := After(After(v, Lands(first)), Lands(second));
      && Sound(v', second)
      && v'.units[second].was == v.column[v.units[first].disk] && v'.units[second].prev == v.units[first].data
  {
    var v1 := After(v, Lands(first));
    var v2 := After(v1, Lands(second));
    forall q, r ensures !Rivals(v2, q, r) {
      assert Rivals(v2, q, r) ==> Rivals(v, q, r);
    }
    forall q | 0 <= q < |v.units| && v2.units[q].Pending() ensures v.units[q].disk != v.units[first].disk {
      assert !Rivals(v, q, first);
    }
  }
}
