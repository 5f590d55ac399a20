/** The shared BAR, the staging chunks and the parity disk: the steps that worker, dispatcher and
    interrupt handler take on them, and the imperative code that takes those steps in a row. */
module Engine {
  import opened Bytes
  import opened Parity

  // The io_num and io_done registers are 32 bits wide and wrap around.
  const U32_RANGE: nat := 0x1_0000_0000
  type U32 = x: nat | x < 0x1_0000_0000

  function Inc32(x: U32): U32 { (x + 1) % 0x1_0000_0000 }

  function Sub32(a: U32, b: U32): U32 { (a - b) % 0x1_0000_0000 }

  datatype Bar = Bar(offset: nat, size: nat, sectorSta: nat, ioNum: U32, ioDone: U32)

  /** What driver and device share. o, n and v are the staging chunks for old data, new data and parity. */
  datatype Shared = Shared(sem: nat, bar: Bar, o: seq<Byte>, n: seq<Byte>, v: seq<Byte>, parity: seq<Byte>, irq: nat) {
    predicate Sized() { |o| == |n| == |v| == 4096 }
  }

  // ----- worker steps, one statement each

  function CopyToBuffer(chunk: seq<Byte>, page: seq<Byte>, offset: nat, size: nat): (r: seq<Byte>)
    requires offset + size <= |page| && offset + size <= |chunk|
    ensures |r| == |chunk|
    ensures forall i :: 0 <= i < |chunk| ==> r[i] == if offset <= i < offset + size then page[i] else chunk[i]
  {
    Splice(chunk, offset, page[offset..offset + size])
  }

  /** Statement k of do_verify_work between down and the increment of io_num. */
  function WorkStep(sh: Shared, t: Task, k: nat): (r: Shared)
    requires t.Valid() && sh.Sized() && k < 5
    ensures r.Sized()
  {
    if k == 0 then sh.(o := CopyToBuffer(sh.o, t.pageOld, t.offset, t.size))
    else if k == 1 then sh.(n := CopyToBuffer(sh.n, t.pageNew, t.offset, t.size))
    else if k == 2 then sh.(bar := sh.bar.(offset := t.offset))
    else if k == 3 then sh.(bar := sh.bar.(size := t.size))
    else sh.(bar := sh.bar.(sectorSta := t.numSector))
  }

  function Post(sh: Shared): Shared {
    sh.(bar := sh.bar.(ioNum := Inc32(sh.bar.ioNum)))
  }

  /** What a whole run of do_verify_work leaves behind once down has succeeded. */
  function WorkEffect(sh: Shared, t: Task): Shared
    requires t.Valid() && sh.Sized() && sh.sem > 0
  {
    var s0 := WorkStep(sh.(sem := sh.sem - 1), t, 0);
    var s1 := WorkStep(s0, t, 1);
    var s2 := WorkStep(s1, t, 2);
    var s3 := WorkStep(s2, t, 3);
    Post(WorkStep(s3, t, 4))
  }

  // ----- dispatcher steps

  /** The dispatcher's test for work, on 32-bit registers. */
  predicate HasWork(bar: Bar) { bar.ioNum > bar.ioDone }

  function Claim(sh: Shared): Shared {
    sh.(bar := sh.bar.(ioDone := Inc32(sh.bar.ioDone)))
  }

  /** The word loop covers size rounded up to whole words. */
  function WordCount(size: nat): nat { (size + 7) / 8 }

  /** The window named by offset, size and sector lies inside a chunk and inside the parity disk. */
  predicate InBounds(offset: nat, size: nat, sector: nat, parityLen: nat) {
    && offset + AtWord(WordCount(size)) <= 4096
    && AtSector(sector) + size <= parityLen
  }

  function ReadParity(v: seq<Byte>, parity: seq<Byte>, offset: nat, size: nat, sector: nat): (r: seq<Byte>)
    requires |v| == 4096 && InBounds(offset, size, sector, |parity|)
    ensures |r| == 4096
    ensures forall i :: 0 <= i < 4096 ==>
      r[i] == if offset <= i < offset + size then parity[AtSector(sector) + (i - offset)] else v[i]
  {
    Splice(v, offset, parity[AtSector(sector)..AtSector(sector) + size])
  }

  /** One turn of the word loop at in-chunk offset at, byte by byte. */
  function XorWord(o: seq<Byte>, n: seq<Byte>, v: seq<Byte>, at: nat): (r: seq<Byte>)
    requires |o| == |n| == |v| == 4096 && at + 8 <= 4096
    ensures |r| == 4096
  {
    seq(4096, i requires 0 <= i < 4096 =>
      if at <= i < at + 8 then ByteXor(ByteXor(v[i], o[i]), n[i]) else v[i])
  }

  /** Chunk V after the first words turns of the word loop. */
  function XorWords(o: seq<Byte>, n: seq<Byte>, v: seq<Byte>, offset: nat, words: nat): (r: seq<Byte>)
    requires |o| == |n| == |v| == 4096 && offset + AtWord(words) <= 4096
    ensures |r| == 4096
  {
    if words == 0 then v
    else XorWord(o, n, XorWords(o, n, v, offset, words - 1), offset + AtWord(words - 1))
  }

  /** What a whole run of the dispatcher leaves behind when it finds work. */
  function DispatchEffect(sh: Shared): Shared
    requires sh.Sized()
    requires InBounds(sh.bar.offset, sh.bar.size, sh.bar.sectorSta, |sh.parity|)
  {
    var b := sh.bar;
    var fetched := ReadParity(sh.v, sh.parity, b.offset, b.size, b.sectorSta);
    var mixed := XorWords(sh.o, sh.n, fetched, b.offset, WordCount(b.size));
    Claim(sh).(v := mixed,
               parity := Splice(sh.parity, AtSector(b.sectorSta), mixed[b.offset..b.offset + b.size]),
               irq := sh.irq + 1)
  }

  // ----- what the kernel computes

  /** The word loop refines byte XOR on the window and frames every other byte of V. */
  lemma {:induction false} WordLoopIsByteXor(o: seq<Byte>, n: seq<Byte>, v: seq<Byte>, offset: nat, words: nat, i: nat)
    requires |o| == |n| == |v| == 4096 && offset + AtWord(words) <= 4096 && i < 4096
    ensures XorWords(o, n, v, offset, words)[i] ==
            if offset <= i < offset + AtWord(words) then ByteXor(ByteXor(v[i], o[i]), n[i]) else v[i]
  {
    if words > 0 {
      WordLoopIsByteXor(o, n, v, offset, words - 1, i);
    }
  }

  /** What a dispatcher's run leaves on the parity disk: parity xor old xor new in the window that the
      registers name, whatever its size, and every other byte as it was. */
  lemma DispatchedByte(sh: Shared, b: nat)
    requires sh.Sized() && b < |sh.parity|
    requires InBounds(sh.bar.offset, sh.bar.size, sh.bar.sectorSta, |sh.parity|)
    ensures var d := DispatchEffect(sh);
      && |d.parity| == |sh.parity| && d.o == sh.o && d.n == sh.n && d.sem == sh.sem && d.irq == sh.irq + 1
      && d.bar == sh.bar.(ioDone := Inc32(sh.bar.ioDone))
    ensures var base, p := AtSector(sh.bar.sectorSta), sh.bar.offset + (b - AtSector(sh.bar.sectorSta));
      DispatchEffect(sh).parity[b] ==
      if base <= b < base + sh.bar.size then ByteXor(ByteXor(sh.parity[b], sh.o[p]), sh.n[p]) else sh.parity[b]
  {
    hide XorWords, ByteXor;
    var bar, base := sh.bar, AtSector(sh.bar.sectorSta);
    if base <= b < base + bar.size {
      var fetched := ReadParity(sh.v, sh.parity, bar.offset, bar.size, bar.sectorSta);
      WordLoopIsByteXor(sh.o, sh.n, fetched, bar.offset, WordCount(bar.size), bar.offset + (b - base));
    }
  }

  lemma ValidTaskInBounds(t: Task, parityLen: nat)
    requires t.Valid() && t.Base() + t.size <= parityLen
    ensures InBounds(t.offset, t.size, t.numSector, parityLen)
    ensures AtWord(WordCount(t.size)) == t.size
  {}

  /** What WorkEffect leaves in the shared memory, field by field. */
  lemma WorkEffectFields(sh: Shared, t: Task)
    requires t.Valid() && sh.Sized() && sh.sem > 0
    ensures var w := WorkEffect(sh, t);
      && w.Sized() && w.sem == sh.sem - 1 && w.irq == sh.irq && w.parity == sh.parity && w.v == sh.v
      && w.bar == Bar(t.offset, t.size, t.numSector, Inc32(sh.bar.ioNum), sh.bar.ioDone)
      && w.o == CopyToBuffer(sh.o, t.pageOld, t.offset, t.size)
      && w.n == CopyToBuffer(sh.n, t.pageNew, t.offset, t.size)
  {}

  /** Handing a task over and dispatching it is one atomic application of that task to the parity
      disk, whatever bytes and registers the staging area held before. */
  lemma StageAndDispatchAppliesTask(sh: Shared, t: Task)
    requires t.Valid() && sh.Sized() && sh.sem > 0
    requires t.Base() + t.size <= |sh.parity|
    ensures var w := WorkEffect(sh, t);
      && w.Sized()
      && InBounds(w.bar.offset, w.bar.size, w.bar.sectorSta, |w.parity|)
      && DispatchEffect(w).parity == ApplyTask(sh.parity, t)
      && DispatchEffect(w).sem == sh.sem - 1
      && DispatchEffect(w).irq == sh.irq + 1
  {
    WorkEffectFields(sh, t);
    ValidTaskInBounds(t, |sh.parity|);
    var w := WorkEffect(sh, t);
    var after := DispatchEffect(w).parity;
    forall b | 0 <= b < |sh.parity| ensures after[b] == ApplyTask(sh.parity, t)[b] {
      MixedByte(w.o, w.n, w.v, sh.parity, t, b);
    }
  }

  /** Fetch a parity window, run the word loop over it, write it back: the parity disk byte by byte. */
  lemma MixedWindow(o: seq<Byte>, n: seq<Byte>, v: seq<Byte>, parity: seq<Byte>,
                    offset: nat, words: nat, base: nat, b: nat)
    requires |o| == |n| == |v| == 4096 && b < |parity|
    requires offset + AtWord(words) <= 4096 && base + AtWord(words) <= |parity|
    ensures var size := AtWord(words);
      var mixed := XorWords(o, n, Splice(v, offset, parity[base..base + size]), offset, words);
      Splice(parity, base, mixed[offset..offset + size])[b] ==
      if base <= b < base + size
      then ByteXor(ByteXor(parity[b], o[offset + (b - base)]), n[offset + (b - base)])
      else parity[b]
  {
    var size := AtWord(words);
    if base <= b < base + size {
      WordLoopIsByteXor(o, n, Splice(v, offset, parity[base..base + size]), offset, words, offset + (b - base));
    }
  }

  /** The parity byte written back for disk byte b once the staged windows hold the task's pages. */
  lemma {:induction false} MixedByte(o: seq<Byte>, n: seq<Byte>, v: seq<Byte>, parity: seq<Byte>, t: Task, b: nat)
    requires |o| == |n| == |v| == 4096 && t.Valid() && t.Base() + t.size <= |parity| && b < |parity|
    requires forall p :: t.offset <= p < t.offset + t.size ==> o[p] == t.pageOld[p] && n[p] == t.pageNew[p]
    requires InBounds(t.offset, t.size, t.numSector, |parity|)
    ensures var fetched := ReadParity(v, parity, t.offset, t.size, t.numSector);
      var mixed := XorWords(o, n, fetched, t.offset, WordCount(t.size));
      Splice(parity, t.Base(), mixed[t.offset..t.offset + t.size])[b] == ByteXor(parity[b], t.Delta(b))
  {
    ValidTaskInBounds(t, |parity|);
    MixedWindow(o, n, v, parity, t.offset, WordCount(t.size), t.Base(), b);
    hide XorWords, Splice, WordCount, ByteXor;
    if t.Covers(b) {
      XorRegroup(parity[b], t.OldAt(b), t.NewAt(b));
    } else {
      XorZero(parity[b]);
    }
  }

  /** Stale staging does not matter: two engines that agree on the parity disk alone end with the
      same parity disk, and only the task's own sectors change. */
  lemma StaleStagingIndependence(sh: Shared, sh': Shared, t: Task)
    requires t.Valid() && sh.Sized() && sh'.Sized() && sh.sem > 0 && sh'.sem > 0
    requires sh.parity == sh'.parity && t.Base() + t.size <= |sh.parity|
    ensures InBounds(t.offset, t.size, t.numSector, |sh.parity|)
    ensures DispatchEffect(WorkEffect(sh, t)).parity == DispatchEffect(WorkEffect(sh', t)).parity
    ensures forall b: nat :: b < |sh.parity| && !t.Covers(b) ==>
      DispatchEffect(WorkEffect(sh, t)).parity[b] == sh.parity[b]
  {
    ValidTaskInBounds(t, |sh.parity|);
    StageAndDispatchAppliesTask(sh, t);
    StageAndDispatchAppliesTask(sh', t);
    forall b: nat | b < |sh.parity| && !t.Covers(b)
      ensures DispatchEffect(WorkEffect(sh, t)).parity[b] == sh.parity[b]
    {
      XorZero(sh.parity[b]);
    }
  }

  /** XOR of the three loaded words, stored back, is XorWord. */
  lemma WordStepIsXorWord(o: seq<Byte>, n: seq<Byte>, v: seq<Byte>, at: nat, value: nat)
    requires |o| == |n| == |v| == 4096 && at + 8 <= 4096
    requires value == Xor(Xor(FromBytes(v[at..at + 8]), FromBytes(o[at..at + 8])), FromBytes(n[at..at + 8]))
    ensures Splice(v, at, ToBytes(value, 8)) == XorWord(o, n, v, at)
  {
    var vw, ow, nw := v[at..at + 8], o[at..at + 8], n[at..at + 8];
    WordXorIsByteXor(vw, ow);
    WordXorIsByteXor(Xors(vw, ow), nw);
    var mixed := Xors(Xors(vw, ow), nw);
    StoreOfLoad(mixed);
    hide FromBytes, ToBytes, Xor, ByteXor, Splice;
    assert forall i :: 0 <= i < 8 ==> mixed[i] == ByteXor(ByteXor(v[at + i], o[at + i]), n[at + i]);
  }
}
