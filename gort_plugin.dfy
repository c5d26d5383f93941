/**
 * gort_plugin.go: the shared libraries loaded into the process, read from
 * its own memory. The ELF `.dynamic` section's DT_DEBUG entry points at the
 * dynamic linker's r_debug record, whose r_map field heads the linked list
 * of link_map nodes, one per library (System V ABI, "Dynamic Section").
 * Every word is a little-endian pointer-sized integer; library paths are C
 * strings. Go strings are byte sequences, and so are the paths here.
 */
module GortPlugin {
  import opened Base
  import opened Delve
  import opened Helpers
  import opened Gort

  /** The bounds that keep a walk over corrupted memory finite. */
  const MaxNumLibraries: nat := 1000000
  const MaxLibraryPathLength: nat := 1000000

  /** Dynamic-section tags (System V ABI). */
  const DT_NULL: nat := 0
  const DT_DEBUG: nat := 21

  /* ---------- Words ---------- */

  function Pow256(n: nat): (p: nat)
    ensures p > 0
  {
    if n == 0 then 1 else 256 * Pow256(n - 1)
  }

  /** The little-endian value of a byte string. */
  function LE(bs: seq<byte>): nat
  {
    if bs == [] then 0 else bs[0] + 256 * LE(bs[1..])
  }

  /** The value of n bytes is below 256^n. */
  lemma {:induction false} LEBound(bs: seq<byte>)
    ensures LE(bs) < Pow256(|bs|)
  {
    if bs != [] {
      LEBound(bs[1..]);
    }
  }

  /** The two word sizes readUintRaw supports both fit a uint64. */
  lemma WordSizesFit()
    ensures Pow256(4) == 0x1_0000_0000
    ensures Pow256(8) == TWO_64
  {
    assert Pow256(2) == 0x1_0000;
    assert Pow256(4) == 0x1_0000_0000;
    assert Pow256(6) == 0x1_0000_0000_0000;
  }

  /** The n little-endian bytes of v (v taken modulo 256^n). */
  function EncodeLE(v: nat, n: nat): (bs: seq<byte>)
    ensures |bs| == n
  {
    if n == 0 then [] else [v % 256] + EncodeLE(v / 256, n - 1)
  }

  /** Encoding a value that fits and decoding it gives the value back. */
  lemma {:induction false} DecodeEncode(v: nat, n: nat)
    requires v < Pow256(n)
    ensures LE(EncodeLE(v, n)) == v
  {
    if n > 0 {
      DecodeEncode(v / 256, n - 1);
      assert EncodeLE(v, n)[1..] == EncodeLE(v / 256, n - 1);
    }
  }

  /** Decoding bytes and encoding the value at the same width gives the bytes back. */
  lemma {:induction false} EncodeDecode(bs: seq<byte>)
    ensures EncodeLE(LE(bs), |bs|) == bs
  {
    if bs != [] {
      EncodeDecode(bs[1..]);
      assert LE(bs) % 256 == bs[0];
      assert LE(bs) / 256 == LE(bs[1..]);
    }
  }

  /**
   * readUintRaw(reader, LittleEndian, ptrSize): one word from a byte reader,
   * and what the reader has left. Only 4- and 8-byte words are supported; an
   * exhausted reader is io.EOF and a reader holding part of a word is
   * io.ErrUnexpectedEOF (binary.Read's io.ReadFull).
   */
  function ReadUintRaw(buf: seq<byte>, ps: int): (r: Result<(uint64, seq<byte>)>)
    ensures ps != 4 && ps != 8 ==> r == Err(UnsupportedPtrSize(ps))
    ensures (ps == 4 || ps == 8) && buf == [] ==> r == Err(EOF)
    ensures (ps == 4 || ps == 8) && 0 < |buf| < ps ==> r == Err(UnexpectedEOF)
    ensures r.Ok? ==> (ps == 4 || ps == 8) && ps <= |buf| && r.value.1 == buf[ps..]
    ensures r.Ok? ==> r.value.0 == LE(buf[..ps]) && r.value.0 < Pow256(ps)
  {
    if ps != 4 && ps != 8 then Err(UnsupportedPtrSize(ps))
    else if buf == [] then Err(EOF)
    else if |buf| < ps then Err(UnexpectedEOF)
    else
      LEBound(buf[..ps]);
      WordSizesFit();
      Ok((LE(buf[..ps]), buf[ps..]))
  }

  /** A word written little-endian in front of the reader is read back, leaving the rest. */
  lemma ReadUintRawEncoded(v: nat, ps: int, rest: seq<byte>)
    requires ps == 4 || ps == 8
    requires v < Pow256(ps)
    ensures ReadUintRaw(EncodeLE(v, ps) + rest, ps) == Ok((v, rest))
  {
    var buf := EncodeLE(v, ps) + rest;
    assert buf[..ps] == EncodeLE(v, ps);
    assert buf[ps..] == rest;
    DecodeEncode(v, ps);
  }

  /** readPtr(addr): the pointer-sized word stored at addr. */
  function ReadPtr(mem: Memory, ps: nat, addr: uint64): (r: Result<uint64>)
    ensures ps != 4 && ps != 8 ==> r == Err(UnsupportedPtrSize(ps))
    ensures ps == 4 || ps == 8 ==> r.Ok? && r.value == LE(Read(mem, addr, ps))
  {
    var w :- ReadUintRaw(Read(mem, addr, ps), ps);
    assert Read(mem, addr, ps)[..ps] == Read(mem, addr, ps);
    Ok(w.0)
  }

  /** Memory holding the encoding of v at addr reads back as v. */
  lemma ReadPtrStored(mem: Memory, ps: nat, addr: uint64, v: nat)
    requires ps == 4 || ps == 8
    requires v < Pow256(ps)
    requires forall k :: 0 <= k < ps ==> mem(Add64(addr, k)) == EncodeLE(v, ps)[k]
    ensures ReadPtr(mem, ps, addr) == Ok(v)
  {
    assert Read(mem, addr, ps) == EncodeLE(v, ps);
    DecodeEncode(v, ps);
  }

  /* ---------- The .dynamic section ---------- */

  /**
   * What dynamicSearchDebug finds in the section's bytes: read a tag and
   * a value; DT_NULL ends the search with 0, DT_DEBUG with the value, any
   * other tag moves on to the next pair; a read error ends it with that error.
   */
  function DebugSpec(buf: seq<byte>, ps: int): (r: Result<uint64>)
    ensures ps != 4 && ps != 8 ==> r == Err(UnsupportedPtrSize(ps))
    ensures r.Ok? ==> ps == 4 || ps == 8
    decreases |buf|
  {
    match ReadUintRaw(buf, ps)
    case Err(e) => Err(e)
    case Ok(tag) =>
      match ReadUintRaw(tag.1, ps)
      case Err(e) => Err(e)
      case Ok(val) =>
        if tag.0 == DT_NULL then Ok(0)
        else if tag.0 == DT_DEBUG then Ok(val.0)
        else DebugSpec(val.1, ps)
  }

  /** Word k of the buffer, when it is all there. */
  function Word(buf: seq<byte>, ps: nat, k: nat): nat
    requires (k + 1) * ps <= |buf|
  {
    LE(buf[k * ps..(k + 1) * ps])
  }

  /** Pair k (words 2k and 2k + 1) is in the buffer and its tag ends the search. */
  ghost predicate Stops(buf: seq<byte>, ps: nat, k: nat)
  {
    (2 * k + 2) * ps <= |buf| && (Word(buf, ps, 2 * k) == DT_NULL || Word(buf, ps, 2 * k) == DT_DEBUG)
  }

  /** Dropping the first pair shifts every word down by two. */
  lemma WordShift(buf: seq<byte>, ps: nat, k: nat)
    requires 2 * ps <= |buf|
    requires (k + 3) * ps <= |buf|
    ensures Word(buf[2 * ps..], ps, k) == Word(buf, ps, k + 2)
  {
    assert (k + 2) * ps == k * ps + 2 * ps;
    assert (k + 3) * ps == (k + 1) * ps + 2 * ps;
    assert buf[2 * ps..][k * ps..(k + 1) * ps] == buf[(k + 2) * ps..(k + 3) * ps];
  }

  /** The first two words, as DebugSpec reads them. */
  lemma FirstPair(buf: seq<byte>, ps: int)
    requires ps == 4 || ps == 8
    requires 2 * ps <= |buf|
    ensures ReadUintRaw(buf, ps).Ok? && ReadUintRaw(buf, ps).value.0 == Word(buf, ps, 0)
    ensures var rest := ReadUintRaw(buf, ps).value.1;
      && ReadUintRaw(rest, ps).Ok? && ReadUintRaw(rest, ps).value.0 == Word(buf, ps, 1)
      && ReadUintRaw(rest, ps).value.1 == buf[2 * ps..]
  {
    assert buf[ps..][..ps] == buf[ps..2 * ps];
    assert buf[ps..][ps..] == buf[2 * ps..];
  }

  /** Pair j + 1 of the buffer is pair j of what follows the first pair. */
  lemma StopsShift(buf: seq<byte>, ps: nat, j: nat)
    requires 2 * ps <= |buf|
    ensures Stops(buf[2 * ps..], ps, j) <==> Stops(buf, ps, j + 1)
  {
    assert (2 * (j + 1) + 2) * ps == (2 * j + 2) * ps + 2 * ps;
    if (2 * j + 2) * ps <= |buf| - 2 * ps {
      WordShift(buf, ps, 2 * j);
    }
  }

  /** One round of the search over a buffer holding a whole pair. */
  lemma DebugSpecStep(buf: seq<byte>, ps: int)
    requires ps == 4 || ps == 8
    requires 2 * ps <= |buf|
    ensures DebugSpec(buf, ps) ==
      if Word(buf, ps, 0) == DT_NULL then Ok(0)
      else if Word(buf, ps, 0) == DT_DEBUG then Ok(Word(buf, ps, 1))
      else DebugSpec(buf[2 * ps..], ps)
  {
    FirstPair(buf, ps);
  }

  /** Pair k ends one pair's length after it starts. */
  lemma PairOffsets(k: nat, ps: int)
    requires ps == 4 || ps == 8
    ensures (2 * k + 2) * ps == 2 * k * ps + 2 * ps && 0 <= 2 * k * ps
  {
    if ps == 4 {
      assert 2 * k * ps == 8 * k;
    } else {
      assert 2 * k * ps == 16 * k;
    }
  }

  /** The first stop at pair k > 0 is the first stop at pair k - 1 of what follows the first pair. */
  lemma StopsTail(buf: seq<byte>, ps: int, k: nat)
    requires ps == 4 || ps == 8
    requires k > 0 && Stops(buf, ps, k)
    requires forall j :: 0 <= j < k ==> !Stops(buf, ps, j)
    ensures 2 * ps <= |buf| && !Stops(buf, ps, 0)
    ensures Stops(buf[2 * ps..], ps, k - 1)
    ensures forall j :: 0 <= j < k - 1 ==> !Stops(buf[2 * ps..], ps, j)
    ensures Word(buf[2 * ps..], ps, 2 * (k - 1)) == Word(buf, ps, 2 * k)
    ensures Word(buf[2 * ps..], ps, 2 * (k - 1) + 1) == Word(buf, ps, 2 * k + 1)
  {
    PairOffsets(k, ps);
    assert !Stops(buf, ps, 0);
    var rest := buf[2 * ps..];
    StopsShift(buf, ps, k - 1);
    WordShift(buf, ps, 2 * k - 2);
    WordShift(buf, ps, 2 * k - 1);
    forall j | 0 <= j < k - 1
      ensures !Stops(rest, ps, j)
    {
      StopsShift(buf, ps, j);
    }
  }

  /**
   * The search answers at the first pair whose tag is DT_NULL or DT_DEBUG:
   * 0 for DT_NULL, the pair's value for DT_DEBUG.
   */
  lemma {:induction false} DebugSpecStops(buf: seq<byte>, ps: int, k: nat)
    requires ps == 4 || ps == 8
    requires Stops(buf, ps, k)
    requires forall j :: 0 <= j < k ==> !Stops(buf, ps, j)
    ensures DebugSpec(buf, ps) == Ok(if Word(buf, ps, 2 * k) == DT_NULL then 0 else Word(buf, ps, 2 * k + 1))
    decreases k
  {
    PairOffsets(k, ps);
    DebugSpecStep(buf, ps);
    if k > 0 {
      StopsTail(buf, ps, k);
      DebugSpecStops(buf[2 * ps..], ps, k - 1);
    }
  }

  /** A buffer shorter than a pair: what the reads of its tag and value leave. */
  lemma ShortTail(buf: seq<byte>, ps: int)
    requires ps == 4 || ps == 8
    requires |buf| < 2 * ps
    ensures DebugSpec(buf, ps) == Err(if |buf| == 0 || |buf| == ps then EOF else UnexpectedEOF)
  {
    if ps <= |buf| {
      assert buf[ps..] == [] <==> |buf| == ps;
    }
  }

  /** Removing one pair's worth of bytes keeps the length's remainder modulo a pair. */
  lemma ModShift(m: nat, ps: int)
    requires ps == 4 || ps == 8
    requires 2 * ps <= m
    ensures (m - 2 * ps) % (2 * ps) == m % (2 * ps)
  {
    if ps == 4 {
      ModEight(m);
    } else {
      ModSixteen(m);
    }
  }

  /** ModShift for 4-byte words. */
  lemma ModEight(m: nat)
    requires 8 <= m
    ensures (m - 8) % 8 == m % 8
  {
  }

  /** ModShift for 8-byte words. */
  lemma ModSixteen(m: nat)
    requires 16 <= m
    ensures (m - 16) % 16 == m % 16
  {
  }

  /**
   * A section with no DT_NULL or DT_DEBUG tag runs off its end: io.EOF when
   * it ends on a word boundary (|buf| mod 2ps is 0 or ps), io.ErrUnexpectedEOF
   * when it ends inside a word.
   */
  lemma {:induction false} DebugSpecRunsOut(buf: seq<byte>, ps: int)
    requires ps == 4 || ps == 8
    requires forall j :: 0 <= j ==> !Stops(buf, ps, j)
    ensures DebugSpec(buf, ps) ==
      Err(if |buf| % (2 * ps) == 0 || |buf| % (2 * ps) == ps then EOF else UnexpectedEOF)
    decreases |buf|
  {
    if 2 * ps <= |buf| {
      DebugSpecStep(buf, ps);
      assert !Stops(buf, ps, 0);
      var rest := buf[2 * ps..];
      forall j | 0 <= j
        ensures !Stops(rest, ps, j)
      {
        StopsShift(buf, ps, j);
      }
      DebugSpecRunsOut(rest, ps);
      ModShift(|buf|, ps);
    } else {
      ShortTail(buf, ps);
      assert |buf| % (2 * ps) == |buf|;
    }
  }

  /** dynamicSearchDebug(bi): scan the `.dynamic` section's bytes in memory. */
  method DynamicSearchDebug(mem: Memory, bi: BinaryInfo) returns (r: Result<uint64>)
    ensures r == DebugSpec(Read(mem, bi.dynamicSection.addr, bi.dynamicSection.size), bi.ptrSize)
  {
    var dynbuf := Read(mem, bi.dynamicSection.addr, bi.dynamicSection.size);
    var rd := dynbuf;
    while true
      invariant DebugSpec(rd, bi.ptrSize) == DebugSpec(dynbuf, bi.ptrSize)
      decreases |rd|
    {
      var tag := ReadUintRaw(rd, bi.ptrSize);
      if tag.Err? {
        return Err(tag.error);
      }
      var val := ReadUintRaw(tag.value.1, bi.ptrSize);
      if val.Err? {
        return Err(val.error);
      }
      if tag.value.0 == DT_NULL {
        return Ok(0);
      }
      if tag.value.0 == DT_DEBUG {
        return Ok(val.value.0);
      }
      rd := val.value.1;
    }
  }

  /* ---------- C strings ---------- */

  /**
   * The bytes of the string starting at `start`, from its n-th byte on:
   * up to the first zero byte, failing once more than MaxLibraryPathLength
   * bytes have been taken. Addresses wrap at 2^64, as Go's `addr++` does.
   */
  function Scan(mem: Memory, start: uint64, n: nat): Result<seq<byte>>
    decreases MaxLibraryPathLength + 1 - n
  {
    if n > MaxLibraryPathLength then Err(StringTooLong(n))
    else if mem(Add64(start, n)) == 0 then Ok([])
    else Prepend([mem(Add64(start, n))], Scan(mem, start, n + 1))
  }

  /** readCString(addr): the empty string for a null pointer, else the bytes up to the terminating zero. */
  function CString(mem: Memory, addr: uint64): Result<seq<byte>>
  {
    if addr == 0 then Ok([]) else Scan(mem, addr, 0)
  }

  /** `s` is a C string at `addr`: non-zero bytes, then a zero, within the length bound. */
  ghost predicate CStringAt(mem: Memory, addr: uint64, s: seq<byte>)
  {
    && |s| <= MaxLibraryPathLength
    && (forall k :: 0 <= k < |s| ==> s[k] != 0 && mem(Add64(addr, k)) == s[k])
    && mem(Add64(addr, |s|)) == 0
  }

  /** What the scan from byte n returns is the rest of a C string at `start`. */
  lemma {:induction false} ScanSound(mem: Memory, start: uint64, n: nat)
    requires Scan(mem, start, n).Ok?
    ensures var s := Scan(mem, start, n).value;
      && n + |s| <= MaxLibraryPathLength
      && (forall k :: 0 <= k < |s| ==> s[k] != 0 && mem(Add64(start, n + k)) == s[k])
      && mem(Add64(start, n + |s|)) == 0
    decreases MaxLibraryPathLength + 1 - n
  {
    if mem(Add64(start, n)) != 0 {
      ScanSound(mem, start, n + 1);
      var s := Scan(mem, start, n).value;
      var t := Scan(mem, start, n + 1).value;
      assert s == [mem(Add64(start, n))] + t;
      forall k | 0 <= k < |s|
        ensures s[k] != 0 && mem(Add64(start, n + k)) == s[k]
      {
        if k > 0 {
          assert s[k] == t[k - 1];
          assert n + k == (n + 1) + (k - 1);
        }
      }
    }
  }

  /** A C string within the bound is what the scan returns. */
  lemma {:induction false} ScanComplete(mem: Memory, start: uint64, n: nat, s: seq<byte>)
    requires n + |s| <= MaxLibraryPathLength
    requires forall k :: 0 <= k < |s| ==> s[k] != 0 && mem(Add64(start, n + k)) == s[k]
    requires mem(Add64(start, n + |s|)) == 0
    ensures Scan(mem, start, n) == Ok(s)
    decreases |s|
  {
    if s != [] {
      assert mem(Add64(start, n + 0)) == s[0];
      forall k | 0 <= k < |s[1..]|
        ensures s[1..][k] != 0 && mem(Add64(start, n + 1 + k)) == s[1..][k]
      {
        assert n + 1 + k == n + (k + 1);
      }
      ScanComplete(mem, start, n + 1, s[1..]);
      assert [s[0]] + s[1..] == s;
    }
  }

  /** The scan fails exactly when the bytes from n up to the bound are all non-zero. */
  lemma {:induction false} ScanTooLong(mem: Memory, start: uint64, n: nat)
    requires n <= MaxLibraryPathLength + 1
    ensures Scan(mem, start, n).Err? <==>
      forall k :: n <= k <= MaxLibraryPathLength ==> mem(Add64(start, k)) != 0
    ensures Scan(mem, start, n).Err? ==> Scan(mem, start, n).error == StringTooLong(MaxLibraryPathLength + 1)
    decreases MaxLibraryPathLength + 1 - n
  {
    if n <= MaxLibraryPathLength {
      ScanTooLong(mem, start, n + 1);
    }
  }

  /** What a non-null address reads as is a C string stored there. */
  lemma CStringSound(mem: Memory, addr: uint64)
    requires addr != 0 && CString(mem, addr).Ok?
    ensures CStringAt(mem, addr, CString(mem, addr).value)
  {
    ScanSound(mem, addr, 0);
  }

  /** A C string stored at a non-null address is what it reads as. */
  lemma CStringComplete(mem: Memory, addr: uint64, s: seq<byte>)
    requires addr != 0 && CStringAt(mem, addr, s)
    ensures CString(mem, addr) == Ok(s)
  {
    ScanComplete(mem, addr, 0, s);
  }

  /** A non-null address reads as `s` exactly when a C string `s` is stored there. */
  lemma CStringIff(mem: Memory, addr: uint64, s: seq<byte>)
    requires addr != 0
    ensures CString(mem, addr) == Ok(s) <==> CStringAt(mem, addr, s)
  {
    if CString(mem, addr) == Ok(s) {
      CStringSound(mem, addr);
    }
    if CStringAt(mem, addr, s) {
      CStringComplete(mem, addr, s);
    }
  }

  /** Go's `addr++` on a uint64: one more step from the same start. */
  lemma Add64Succ(start: uint64, n: nat)
    ensures Add64(Add64(start, n), 1) == Add64(start, n + 1)
  {
  }

  /** The scan from `start`, seen after the bytes `s` have been taken. */
  ghost predicate ScannedTo(mem: Memory, start: uint64, s: seq<byte>)
  {
    && |s| <= MaxLibraryPathLength + 1
    && Scan(mem, start, 0) == Prepend(s, Scan(mem, start, |s|))
  }

  /** Nothing has been taken before the first byte. */
  lemma ScanStart(mem: Memory, start: uint64)
    ensures ScannedTo(mem, start, [])
  {
    var r := Scan(mem, start, 0);
    if r.Ok? {
      assert [] + r.value == r.value;
    }
  }

  /** Taking one more non-zero byte moves it from the scan into the collected prefix. */
  lemma ScanStep(mem: Memory, start: uint64, s: seq<byte>)
    requires ScannedTo(mem, start, s)
    requires |s| <= MaxLibraryPathLength && mem(Add64(start, |s|)) != 0
    ensures ScannedTo(mem, start, s + [mem(Add64(start, |s|))])
  {
    var b := mem(Add64(start, |s|));
    var next := Scan(mem, start, |s| + 1);
    assert Scan(mem, start, |s|) == Prepend([b], next);
    PrependPrepend(s, b, next);
    assert |s + [b]| == |s| + 1;
  }

  /** At a zero byte the scan has read the whole string. */
  lemma ScanEnd(mem: Memory, start: uint64, s: seq<byte>)
    requires ScannedTo(mem, start, s)
    requires |s| <= MaxLibraryPathLength && mem(Add64(start, |s|)) == 0
    ensures Scan(mem, start, 0) == Ok(s)
  {
    assert s + [] == s;
  }

  /** Past the length bound the scan fails. */
  lemma ScanOverflow(mem: Memory, start: uint64, s: seq<byte>)
    requires ScannedTo(mem, start, s) && |s| > MaxLibraryPathLength
    ensures Scan(mem, start, 0) == Err(StringTooLong(|s|))
  {
  }

  /** readCString(addr): the loop over bytes, one address at a time. */
  method ReadCString(mem: Memory, addr: uint64) returns (r: Result<seq<byte>>)
    ensures r == CString(mem, addr)
  {
    if addr == 0 {
      return Ok([]);
    }
    var s: seq<byte> := [];
    var a := addr;
    ScanStart(mem, addr);
    Add64Zero(addr);
    while true
      invariant ScannedTo(mem, addr, s)
      invariant a == Add64(addr, |s|)
      decreases MaxLibraryPathLength + 1 - |s|
    {
      if |s| > MaxLibraryPathLength {
        ScanOverflow(mem, addr, s);
        return Err(StringTooLong(|s|));
      }
      var b := mem(a);
      if b == 0 {
        ScanEnd(mem, addr, s);
        return Ok(s);
      }
      ScanStep(mem, addr, s);
      Add64Succ(addr, |s|);
      s := s + [b];
      a := Add64(a, 1);
    }
  }

  /* ---------- The link map ---------- */

  /** A link_map node: l_addr, l_name (read as a string), l_ld, l_next, l_prev. */
  datatype LinkMap = LinkMap(addr: uint64, name: seq<byte>, ld: uint64, next: uint64, prev: uint64)

  /** Field i of the node at rmap: the word i pointers past its start. */
  function Field(mem: Memory, ps: nat, rmap: uint64, i: nat): Result<uint64>
  {
    ReadPtr(mem, ps, Add64(rmap, ps * i))
  }

  /** readLinkMapNode(rmap): the five fields in order, then the name the second one points to. */
  function NodeSpec(mem: Memory, ps: nat, rmap: uint64): (r: Result<LinkMap>)
    ensures ps != 4 && ps != 8 ==> r == Err(UnsupportedPtrSize(ps))
  {
    if ps != 4 && ps != 8 then Err(UnsupportedPtrSize(ps))
    else
      var name :- CString(mem, Field(mem, ps, rmap, 1).value);
      Ok(LinkMap(Field(mem, ps, rmap, 0).value, name, Field(mem, ps, rmap, 2).value,
                 Field(mem, ps, rmap, 3).value, Field(mem, ps, rmap, 4).value))
  }

  /** A node's address and next link are the words at its offsets 0 and 3. */
  lemma NodeWords(mem: Memory, ps: nat, rmap: uint64)
    requires NodeSpec(mem, ps, rmap).Ok?
    ensures var lm := NodeSpec(mem, ps, rmap).value;
      && lm.addr == ReadPtr(mem, ps, rmap).value
      && lm.next == ReadPtr(mem, ps, Add64(rmap, 3 * ps)).value
  {
    var lm := NodeSpec(mem, ps, rmap).value;
    assert lm.addr == Field(mem, ps, rmap, 0).value && lm.next == Field(mem, ps, rmap, 3).value;
    assert ps * 0 == 0;
    Add64Zero(rmap);
    assert ps * 3 == 3 * ps;
  }

  /** Offset 0 is the address itself. */
  lemma Add64Zero(a: uint64)
    ensures Add64(a, 0) == a
  {
  }

  /** A node's name is the C string its second word points to, and empty for a null pointer. */
  lemma NodeName(mem: Memory, ps: nat, rmap: uint64)
    requires NodeSpec(mem, ps, rmap).Ok?
    ensures var namePtr := ReadPtr(mem, ps, Add64(rmap, ps)).value;
      var name := NodeSpec(mem, ps, rmap).value.name;
      && (namePtr != 0 ==> CStringAt(mem, namePtr, name))
      && (namePtr == 0 ==> name == [])
  {
    assert ps * 1 == ps;
    var namePtr := Field(mem, ps, rmap, 1).value;
    var name := NodeSpec(mem, ps, rmap).value.name;
    assert CString(mem, namePtr) == Ok(name);
    if namePtr != 0 {
      CStringIff(mem, namePtr, name);
    }
  }

  /** readLinkMapNode(rmap): the fields go through a five-word buffer. */
  method ReadLinkMapNode(mem: Memory, ps: nat, rmap: uint64) returns (r: Result<LinkMap>)
    ensures r == NodeSpec(mem, ps, rmap)
  {
    var ptrs := new uint64[5];
    for i := 0 to 5
      invariant forall k :: 0 <= k < i ==> Field(mem, ps, rmap, k) == Ok(ptrs[k])
    {
      var p := ReadPtr(mem, ps, Add64(rmap, ps * i));
      if p.Err? {
        return Err(p.error);
      }
      ptrs[i] := p.value;
    }
    var name := ReadCString(mem, ptrs[1]);
    if name.Err? {
      return Err(name.error);
    }
    return Ok(LinkMap(ptrs[0], name.value, ptrs[2], ptrs[3], ptrs[4]));
  }

  /** The libraries found: their paths and their load addresses, in list order. */
  datatype Libraries = Libraries(names: seq<seq<byte>>, addrs: seq<uint64>)

  /** How nodes read: the node at each address, or the error reading it gives. */
  type NodeReader = uint64 -> Result<LinkMap>

  /** readLinkMapNode over this process's memory, as a node reader. */
  function NodesIn(mem: Memory, ps: nat): NodeReader
  {
    (rmap: uint64) => NodeSpec(mem, ps, rmap)
  }

  /** Prepend one library to a successful walk. */
  function Cons(name: seq<byte>, addr: uint64, r: Result<Libraries>): Result<Libraries>
  {
    if r.Ok? then Ok(Libraries([name] + r.value.names, [addr] + r.value.addrs)) else r
  }

  /**
   * The walk along l_next from rmap, n libraries having been collected:
   * it ends at a null pointer, fails once more than MaxNumLibraries libraries
   * are collected, and fails with the first node that does not read.
   */
  function Walk(nodes: NodeReader, rmap: uint64, n: nat): (r: Result<Libraries>)
    requires n <= MaxNumLibraries + 1
    ensures r.Ok? ==> |r.value.names| == |r.value.addrs| && n + |r.value.names| <= MaxNumLibraries + 1
    decreases MaxNumLibraries + 1 - n
  {
    if rmap == 0 then Ok(Libraries([], []))
    else if n > MaxNumLibraries then Err(TooManyLibraries)
    else
      var lm :- nodes(rmap);
      Cons(lm.name, lm.addr, Walk(nodes, lm.next, n + 1))
  }

  /** Non-null nodes that all read and whose l_next stays among them: a cycle of the list, of any length. */
  ghost predicate ClosedCycle(nodes: NodeReader, cycle: set<uint64>)
  {
    forall p :: p in cycle ==> p != 0 && nodes(p).Ok? && nodes(p).value.next in cycle
  }

  /** A walk that enters a cycle of readable nodes fails with the too-many error instead of looping. */
  lemma {:induction false} CycleTooMany(nodes: NodeReader, cycle: set<uint64>, rmap: uint64, n: nat)
    requires ClosedCycle(nodes, cycle) && rmap in cycle && n <= MaxNumLibraries + 1
    ensures Walk(nodes, rmap, n) == Err(TooManyLibraries)
    decreases MaxNumLibraries + 1 - n
  {
    if n <= MaxNumLibraries {
      CycleTooMany(nodes, cycle, nodes(rmap).value.next, n + 1);
    }
  }

  /** The libraries collected so far in front of the rest of a walk. */
  function Cons2(names: seq<seq<byte>>, addrs: seq<uint64>, r: Result<Libraries>): Result<Libraries>
  {
    if r.Ok? then Ok(Libraries(names + r.value.names, addrs + r.value.addrs)) else r
  }

  /** Nothing collected yet, or nothing left to walk. */
  lemma Cons2Ends(names: seq<seq<byte>>, addrs: seq<uint64>, r: Result<Libraries>)
    ensures Cons2([], [], r) == r
    ensures Cons2(names, addrs, Ok(Libraries([], []))) == Ok(Libraries(names, addrs))
  {
    if r.Ok? {
      assert [] + r.value.names == r.value.names && [] + r.value.addrs == r.value.addrs;
    }
    assert names + [] == names && addrs + [] == addrs;
  }

  /** Collecting one more library moves it from the rest of the walk to the collected part. */
  lemma Cons2Cons(names: seq<seq<byte>>, addrs: seq<uint64>, name: seq<byte>, addr: uint64, r: Result<Libraries>)
    ensures Cons2(names, addrs, Cons(name, addr, r)) == Cons2(names + [name], addrs + [addr], r)
  {
    if r.Ok? {
      assert names + ([name] + r.value.names) == (names + [name]) + r.value.names;
      assert addrs + ([addr] + r.value.addrs) == (addrs + [addr]) + r.value.addrs;
    }
  }

  /** The walk from rmap, seen from a node it has reached with `names` and `addrs` collected. */
  ghost predicate WalkedTo(nodes: NodeReader, rmap: uint64, names: seq<seq<byte>>, addrs: seq<uint64>, node: uint64)
  {
    && |names| == |addrs| <= MaxNumLibraries + 1
    && Walk(nodes, rmap, 0) == Cons2(names, addrs, Walk(nodes, node, |names|))
  }

  /** At a null node the walk has collected everything. */
  lemma WalkEnd(nodes: NodeReader, rmap: uint64, names: seq<seq<byte>>, addrs: seq<uint64>)
    requires WalkedTo(nodes, rmap, names, addrs, 0)
    ensures Walk(nodes, rmap, 0) == Ok(Libraries(names, addrs))
  {
    Cons2Ends(names, addrs, Walk(nodes, 0, |names|));
  }

  /** At a non-null node past the bound the walk fails. */
  lemma WalkTooMany(nodes: NodeReader, rmap: uint64, names: seq<seq<byte>>, addrs: seq<uint64>, node: uint64)
    requires WalkedTo(nodes, rmap, names, addrs, node)
    requires node != 0 && |names| > MaxNumLibraries
    ensures Walk(nodes, rmap, 0) == Err(TooManyLibraries)
  {
  }

  /** At a node that does not read the walk fails with the node's error. */
  lemma WalkNodeFails(nodes: NodeReader, rmap: uint64, names: seq<seq<byte>>, addrs: seq<uint64>, node: uint64)
    requires WalkedTo(nodes, rmap, names, addrs, node)
    requires node != 0 && |names| <= MaxNumLibraries && nodes(node).Err?
    ensures Walk(nodes, rmap, 0) == Err(nodes(node).error)
  {
  }

  /** At a node that reads the walk collects it and moves on to its l_next. */
  lemma WalkAdvance(nodes: NodeReader, rmap: uint64, names: seq<seq<byte>>, addrs: seq<uint64>, node: uint64)
    requires WalkedTo(nodes, rmap, names, addrs, node)
    requires node != 0 && |names| <= MaxNumLibraries && nodes(node).Ok?
    ensures var lm := nodes(node).value;
      WalkedTo(nodes, rmap, names + [lm.name], addrs + [lm.addr], lm.next)
  {
    var lm := nodes(node).value;
    Cons2Cons(names, addrs, lm.name, lm.addr, Walk(nodes, lm.next, |names| + 1));
  }

  /** The loop of SearchPlugins: follow l_next from rmap, collecting each node's name and address. */
  method WalkLinkMap(mem: Memory, ps: nat, rmap: uint64) returns (r: Result<Libraries>)
    ensures r == Walk(NodesIn(mem, ps), rmap, 0)
  {
    ghost var nodes := NodesIn(mem, ps);
    var node := rmap;
    var libs: seq<seq<byte>> := [];
    var addr: seq<uint64> := [];
    Cons2Ends([], [], Walk(nodes, rmap, 0));
    while node != 0
      invariant WalkedTo(nodes, rmap, libs, addr, node)
      decreases MaxNumLibraries + 1 - |libs|
    {
      if |libs| > MaxNumLibraries {
        WalkTooMany(nodes, rmap, libs, addr, node);
        return Err(TooManyLibraries);
      }
      var lm := ReadLinkMapNode(mem, ps, node);
      assert nodes(node) == lm;
      if lm.Err? {
        WalkNodeFails(nodes, rmap, libs, addr, node);
        return Err(lm.error);
      }
      WalkAdvance(nodes, rmap, libs, addr, node);
      libs := libs + [lm.value.name];
      addr := addr + [lm.value.addr];
      node := lm.value.next;
    }
    WalkEnd(nodes, rmap, libs, addr);
    return Ok(Libraries(libs, addr));
  }

  /**
   * SearchPlugins(): nothing without a `.dynamic` section or without a
   * DT_DEBUG entry; otherwise r_map is the word one pointer into r_debug,
   * and the list is walked from there. Reading r_map cannot fail: the scan
   * of the section has already read words of that size.
   */
  function PluginsSpec(bi: BinaryInfo, mem: Memory): (r: Result<Libraries>)
    ensures r.Ok? ==> |r.value.names| == |r.value.addrs| <= MaxNumLibraries + 1
  {
    if bi.dynamicSection.addr == 0 then Ok(Libraries([], []))
    else
      var debugAddr :- DebugSpec(Read(mem, bi.dynamicSection.addr, bi.dynamicSection.size), bi.ptrSize);
      if debugAddr == 0 then Ok(Libraries([], []))
      else Walk(NodesIn(mem, bi.ptrSize), ReadPtr(mem, bi.ptrSize, Add64(debugAddr, bi.ptrSize)).value, 0)
  }

  /** SearchPlugins(): the libraries of the running process, `mem` being its memory. */
  method SearchPlugins(d: Dwarf, mem: Memory) returns (r: Result<Libraries>)
    ensures d.bi.None? ==> r == Err(NeedInit)
    ensures d.bi.Some? ==> r == PluginsSpec(d.bi.value, mem)
    ensures d.bi.Some? && d.bi.value.dynamicSection.addr == 0 ==> r == Ok(Libraries([], []))
  {
    var check := d.Check();
    if check.Some? {
      return Err(check.value);
    }
    var bi := d.bi.value;
    if bi.dynamicSection.addr == 0 {
      return Ok(Libraries([], []));
    }
    var debugAddr :- DynamicSearchDebug(mem, bi);
    if debugAddr == 0 {
      return Ok(Libraries([], []));
    }
    var debugMapOffset := bi.ptrSize;
    var rmap := ReadPtr(mem, bi.ptrSize, Add64(debugAddr, debugMapOffset)).value;
    r := WalkLinkMap(mem, bi.ptrSize, rmap);
  }

  /* ---------- Search by name ---------- */

  /** `sub` occurs in `s` at position k. */
  ghost predicate MatchAt(s: seq<byte>, sub: seq<byte>, k: int)
  {
    0 <= k && k + |sub| <= |s| && s[k..k + |sub|] == sub
  }

  ghost predicate Contains(s: seq<byte>, sub: seq<byte>)
  {
    exists k :: MatchAt(s, sub, k)
  }

  /** The last occurrence at or below k, or -1. */
  function LastIndexBelow(s: seq<byte>, sub: seq<byte>, k: int): (r: int)
    requires k <= |s| - |sub|
    ensures r == -1 || 0 <= r <= k
    ensures r >= 0 ==> MatchAt(s, sub, r)
    ensures forall j :: r < j <= k ==> !MatchAt(s, sub, j)
    decreases k + 1
  {
    if k < 0 then -1
    else if s[k..k + |sub|] == sub then k
    else LastIndexBelow(s, sub, k - 1)
  }

  /** strings.LastIndex(s, sub): the start of the last occurrence of sub in s, or -1 when there is none. */
  function LastIndex(s: seq<byte>, sub: seq<byte>): (r: int)
    ensures r >= 0 <==> Contains(s, sub)
    ensures r >= 0 ==> MatchAt(s, sub, r) && forall j :: r < j ==> !MatchAt(s, sub, j)
  {
    LastIndexBelow(s, sub, |s| - |sub|)
  }

  /** Library i is the first whose path contains `name`. */
  ghost predicate FirstContaining(names: seq<seq<byte>>, name: seq<byte>, i: int)
  {
    0 <= i < |names| && Contains(names[i], name) && forall j :: 0 <= j < i ==> !Contains(names[j], name)
  }

  /**
   * The loop of SearchPluginByName: the first library, in list order, whose
   * path contains `name`, with its load address; ErrNotFound when none does.
   */
  method FirstByName(libs: Libraries, name: seq<byte>) returns (r: Result<(seq<byte>, uint64)>)
    requires |libs.names| == |libs.addrs|
    ensures r.Ok? ==> exists i :: FirstContaining(libs.names, name, i) && r.value == (libs.names[i], libs.addrs[i])
    ensures r.Err? ==> r.error == NotFound && forall i :: 0 <= i < |libs.names| ==> !Contains(libs.names[i], name)
  {
    for i := 0 to |libs.names|
      invariant forall j :: 0 <= j < i ==> !Contains(libs.names[j], name)
    {
      if LastIndex(libs.names[i], name) >= 0 {
        assert FirstContaining(libs.names, name, i);
        return Ok((libs.names[i], libs.addrs[i]));
      }
    }
    return Err(NotFound);
  }

  /** SearchPluginByName(name): search the libraries SearchPlugins finds. */
  method SearchPluginByName(d: Dwarf, mem: Memory, name: seq<byte>) returns (r: Result<(seq<byte>, uint64)>)
    ensures d.bi.None? ==> r == Err(NeedInit)
    ensures d.bi.Some? ==>
      var p := PluginsSpec(d.bi.value, mem);
      && (p.Err? ==> r == Err(p.error))
      && (p.Ok? && r.Ok? ==> exists i ::
            FirstContaining(p.value.names, name, i) && r.value == (p.value.names[i], p.value.addrs[i]))
      && (p.Ok? && r.Err? ==> r.error == NotFound && forall i :: 0 <= i < |p.value.names| ==> !Contains(p.value.names[i], name))
  {
    var plugins :- SearchPlugins(d, mem);
    r := FirstByName(plugins, name);
  }
}
