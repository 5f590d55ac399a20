/** The driver's worker and interrupt handler and the device's dispatcher as code over one shared
    array, proved against the step functions of module Engine. */
module EngineCode {
  import opened Bytes
  import opened Parity
  import opened Engine

  // The three adjacent chunks of the staging array: old data, new data, parity.
  const CHUNK_O: nat := 0
  const CHUNK_N: nat := 4096
  const CHUNK_V: nat := 8192

  /** A memcpy inside one chunk is a splice of that chunk and leaves the other two alone. */
  lemma SpliceInChunk(buf: seq<Byte>, chunk: nat, at: nat, data: seq<Byte>)
    requires |buf| == 12288 && chunk in {0, 4096, 8192} && at + |data| <= 4096
    ensures var r := Splice(buf, chunk + at, data);
      && r[0..4096] == (if chunk == 0 then Splice(buf[0..4096], at, data) else buf[0..4096])
      && r[4096..8192] == (if chunk == 4096 then Splice(buf[4096..8192], at, data) else buf[4096..8192])
      && r[8192..12288] == (if chunk == 8192 then Splice(buf[8192..12288], at, data) else buf[8192..12288])
  {}

  /** A word of a chunk is a word of the staging array. */
  lemma WordInChunk(buf: seq<Byte>, chunk: nat, at: nat)
    requires |buf| == 12288 && chunk in {0, 4096, 8192} && at + 8 <= 4096
    ensures buf[chunk + at..chunk + at + 8] == buf[chunk..chunk + 4096][at..at + 8]
  {}

  /** The memory that driver and device share, with the code that works on it. */
  class ParityEngine {
    var offset: nat
    var size: nat
    var sectorSta: nat
    var ioNum: U32
    var ioDone: U32
    var sem: nat
    var irq: nat
    const chunks: array<Byte>
    const parity: array<Byte>

    ghost predicate Valid() {
      chunks.Length == 12288 && chunks != parity
    }

    ghost function View(): (sh: Shared)
      requires Valid()
      reads this, chunks, parity
      ensures sh.Sized()
    {
      Shared(sem, Bar(offset, size, sectorSta, ioNum, ioDone),
             chunks[0..4096], chunks[4096..8192], chunks[8192..12288], parity[..], irq)
    }

    /** The BAR is cleared at set-up; the semaphore starts free; the chunks keep whatever was there. */
    constructor (staging: array<Byte>, disk: array<Byte>)
      requires staging.Length == 12288 && staging != disk
      ensures Valid() && chunks == staging && parity == disk
      ensures View() == Shared(1, Bar(0, 0, 0, 0, 0),
                               staging[0..4096], staging[4096..8192], staging[8192..12288], disk[..], 0)
    {
      offset, size, sectorSta, ioNum, ioDone := 0, 0, 0, 0, 0;
      sem, irq := 1, 0;
      chunks, parity := staging, disk;
    }

    /** memcpy of data into the staging array. */
    method CopyIn(chunk: nat, at: nat, data: seq<Byte>)
      requires Valid() && chunk in {0, 4096, 8192} && at + |data| <= 4096
      modifies chunks
      ensures View() == if chunk == 0 then old(View()).(o := Splice(old(View()).o, at, data))
                        else if chunk == 4096 then old(View()).(n := Splice(old(View()).n, at, data))
                        else old(View()).(v := Splice(old(View()).v, at, data))
      ensures forall i :: 0 <= i < 12288 ==>
        chunks[i] == if chunk + at <= i < chunk + at + |data| then data[i - chunk - at] else old(chunks[i])
    {
      ghost var before := chunks[..];
      forall i | 0 <= i < |data| {
        chunks[chunk + at + i] := data[i];
      }
      assert chunks[..] == Splice(before, chunk + at, data);
      SpliceInChunk(before, chunk, at, data);
    }

    method CopyPageToBuffer(page: seq<Byte>, chunk: nat, at: nat, len: nat)
      requires Valid() && chunk in {0, 4096} && at + len <= 4096 && at + len <= |page|
      modifies chunks
      ensures View() == if chunk == 0 then old(View()).(o := CopyToBuffer(old(View()).o, page, at, len))
                        else old(View()).(n := CopyToBuffer(old(View()).n, page, at, len))
      ensures forall i :: 0 <= i < 12288 ==>
        chunks[i] == if chunk + at <= i < chunk + at + len then page[i - chunk] else old(chunks[i])
    {
      CopyIn(chunk, at, page[at..at + len]);
    }

    /** do_verify_work from the point where down succeeds. */
    method DoVerifyWork(t: Task)
      requires Valid() && t.Valid() && sem > 0
      modifies this, chunks
      ensures View() == WorkEffect(old(View()), t)
      ensures sem == old(sem) - 1 && irq == old(irq) && ioNum == Inc32(old(ioNum)) && ioDone == old(ioDone)
      ensures offset == t.offset && size == t.size && sectorSta == t.numSector
      ensures forall i :: 0 <= i < 12288 ==>
        chunks[i] == if t.offset <= i < t.offset + t.size then t.pageOld[i]
                     else if 4096 + t.offset <= i < 4096 + t.offset + t.size then t.pageNew[i - 4096]
                     else old(chunks[i])
    {
      WorkEffectFields(View(), t);
      sem := sem - 1;
      CopyPageToBuffer(t.pageOld, CHUNK_O, t.offset, t.size);
      CopyPageToBuffer(t.pageNew, CHUNK_N, t.offset, t.size);
      offset := t.offset;
      size := t.size;
      sectorSta := t.numSector;
      ioNum := Inc32(ioNum);
    }

    /** pciev_submit_bio for a read: parity sectors into a page, the page's window into V. */
    method ReadBio(at: nat, len: nat, sector: nat)
      requires Valid() && InBounds(at, len, sector, parity.Length)
      modifies chunks
      ensures View() == old(View()).(v := ReadParity(old(View()).v, parity[..], at, len, sector))
    {
      var page := new Byte[4096];
      var base := AtSector(sector);
      forall p | at <= p < at + len {
        page[p] := parity[base + (p - at)];
      }
      ghost var got, want := page[at..at + len], parity[..][base..base + len];
      forall i | 0 <= i < len ensures got[i] == want[i] {
        assert page[at + i] == parity[base + i];
      }
      assert got == want;
      CopyIn(CHUNK_V, at, page[at..at + len]);
    }

    /** The parity disk takes the bytes of a write. */
    method StoreParity(base: nat, data: seq<Byte>)
      requires base + |data| <= parity.Length
      modifies parity
      ensures parity[..] == Splice(old(parity[..]), base, data)
    {
      forall i | 0 <= i < |data| {
        parity[base + i] := data[i];
      }
    }

    /** pciev_submit_bio for a write: V's window into a page, the page's window onto the disk. */
    method WriteBio(at: nat, len: nat, sector: nat)
      requires Valid() && InBounds(at, len, sector, parity.Length)
      modifies parity
      ensures View() == old(View()).(parity :=
        Splice(old(View()).parity, AtSector(sector), old(View()).v[at..at + len]))
    {
      var page := new Byte[4096];
      forall p | at <= p < at + len {
        page[p] := chunks[CHUNK_V + p];
      }
      ghost var got, want := page[at..at + len], View().v[at..at + len];
      forall i | 0 <= i < len ensures got[i] == want[i] {
        assert page[at + i] == chunks[CHUNK_V + at + i];
      }
      assert got == want;
      StoreParity(AtSector(sector), page[at..at + len]);
    }

    /** The 64-bit load of one word of a chunk. */
    method LoadWord(chunk: nat, at: nat) returns (value: U64)
      requires Valid() && chunk in {0, 4096, 8192} && at + 8 <= 4096
      ensures value == FromBytes(chunks[chunk + at..chunk + at + 8])
      ensures ToBytes(value, 8) == chunks[chunk + at..chunk + at + 8]
    {
      StoreOfLoad(chunks[chunk + at..chunk + at + 8]);
      LoadFits(chunks[chunk + at..chunk + at + 8]);
      Pow2Of64();
      value := FromBytes(chunks[chunk + at..chunk + at + 8]);
    }

    /** The body of the word loop: three loads, two exclusive-ors, one store. */
    method XorOneWord(nowofs: nat)
      requires Valid() && nowofs + 8 <= 4096
      modifies chunks
      ensures View() == old(View()).(v := XorWord(old(View()).o, old(View()).n, old(View()).v, nowofs))
    {
      var value := LoadWord(CHUNK_V, nowofs);
      var word := LoadWord(CHUNK_O, nowofs);
      value := WordXor(value, word);
      word := LoadWord(CHUNK_N, nowofs);
      value := WordXor(value, word);
      ghost var sh := View();
      WordInChunk(chunks[..], CHUNK_V, nowofs);
      WordInChunk(chunks[..], CHUNK_O, nowofs);
      WordInChunk(chunks[..], CHUNK_N, nowofs);
      WordStepIsXorWord(sh.o, sh.n, sh.v, nowofs, value);
      CopyIn(CHUNK_V, nowofs, ToBytes(value, 8));
    }

    /** The word loop of the dispatcher. */
    method XorLoop(toffset: nat, tsize: nat)
      requires Valid() && toffset + AtWord(WordCount(tsize)) <= 4096
      modifies chunks
      ensures View() == old(View()).(v :=
        XorWords(old(View()).o, old(View()).n, old(View()).v, toffset, WordCount(tsize)))
    {
      hide XorWord;
      var at := 0;
      ghost var words := 0;
      while at < tsize
        invariant at == AtWord(words) && words <= WordCount(tsize)
        invariant View() == old(View()).(v := XorWords(old(View()).o, old(View()).n, old(View()).v, toffset, words))
        decreases WordCount(tsize) - words
      {
        XorOneWord(toffset + at);
        at := at + WORD_SIZE;
        words := words + 1;
      }
    }

    /** One poll of the dispatcher. */
    method CalcXorSingle()
      requires Valid()
      requires ioNum > ioDone ==> InBounds(offset, size, sectorSta, parity.Length)
      modifies this, chunks, parity
      ensures View() == if HasWork(old(View()).bar) then DispatchEffect(old(View())) else old(View())
      ensures irq == old(irq) + (if old(ioNum > ioDone) then 1 else 0) && sem == old(sem) && ioNum == old(ioNum)
      ensures ioDone == if old(ioNum > ioDone) then Inc32(old(ioDone)) else old(ioDone)
    {
      if ioNum <= ioDone {
        return;
      }
      ioDone := Inc32(ioDone);
      var toffset := offset;
      var tsize := size;
      ReadBio(toffset, tsize, sectorSta);
      XorLoop(toffset, tsize);
      WriteBio(toffset, tsize, sectorSta);
      irq := irq + 1;
    }

    /** The interrupt handler: the pending interrupt is consumed, the semaphore given back. */
    method Interrupt()
      requires Valid() && irq > 0
      modifies this
      ensures View() == old(View()).(sem := old(sem) + 1, irq := old(irq) - 1)
    {
      irq := irq - 1;
      sem := sem + 1;
    }

    /** One task through worker, dispatcher and interrupt handler. */
    method RunTask(t: Task)
      requires Valid() && t.Valid() && t.Base() + t.size <= parity.Length
      requires sem == 1 && irq == 0 && ioNum == ioDone && ioNum + 1 < U32_RANGE
      modifies this, chunks, parity
      ensures parity[..] == ApplyTask(old(parity[..]), t)
      ensures sem == 1 && irq == 0 && ioNum == ioDone == old(ioNum) + 1
    {
      hide XorWords, ApplyTask, CopyToBuffer, ReadParity;
      StageAndDispatchAppliesTask(View(), t);
      WorkEffectFields(View(), t);
      DoVerifyWork(t);
      CalcXorSingle();
      Interrupt();
    }
  }
}
