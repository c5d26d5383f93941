/**
 * helpers.go: process memory as the package reads it, the memory
 * reader/writer handed to the debugger library, and two small functions on
 * debug-information types.
 */
module Helpers {
  import opened Base
  import opened Delve

  /** The process's address space: every address holds a byte (reading never fails in this model). */
  type Memory = uint64 -> byte

  /** entryAddress(p, n): the n bytes of memory from p on, addresses wrapping at 2^64. */
  function Read(mem: Memory, addr: uint64, n: nat): (bs: seq<byte>)
    ensures |bs| == n
    ensures forall k :: 0 <= k < n ==> bs[k] == mem(Add64(addr, k))
  {
    seq<byte>(n, k requires 0 <= k < n => mem(Add64(addr, k)))
  }

  /** localMemory.ReadMemory: fills the buffer from memory and reports its whole length read. */
  function ReadMemory(mem: Memory, data: seq<byte>, addr: uint64): (r: (seq<byte>, int, Option<Error>))
    ensures r.1 == |data| && r.2 == None
    ensures |r.0| == |data|
    ensures forall k :: 0 <= k < |data| ==> r.0[k] == mem(Add64(addr, k))
  {
    (Read(mem, addr, |data|), |data|, None)
  }

  /** localMemory.WriteMemory: writing is never supported; memory is left as it is. */
  function WriteMemory(mem: Memory, addr: uint64, data: seq<byte>): (r: (int, Option<Error>, Memory))
    ensures r.0 == 0 && r.1 == Some(NotSupport)
    ensures forall a :: r.2(a) == mem(a)
  {
    (0, Some(NotSupport), mem)
  }

  /**
   * dwarfTypeName: the name the package looks a debug-information type up
   * by: a struct's StructName, otherwise the type's declared name, falling
   * back to its printed form when it has none.
   */
  function DwarfTypeName(t: DwarfType): (r: string)
    ensures t.StructType? ==> r == t.structName
    ensures t.OtherType? ==> r == (if t.name != "" then t.name else t.repr)
  {
    match t
    case StructType(structName) => structName
    case OtherType(name, repr) =>
      if name != "" then name else repr
  }

  /** The only types whose name comes out empty (and that the package therefore skips). */
  lemma DwarfTypeNameEmpty(t: DwarfType)
    ensures DwarfTypeName(t) == "" <==>
      (t.StructType? && t.structName == "") || (t.OtherType? && t.name == "" && t.repr == "")
  {
  }

  /**
   * entryType: the type an entry's DW_AT_type refers to. An entry without a
   * type reference is an error; the reference is otherwise decoded by the
   * debug data, which fails at an offset where no type decodes.
   */
  function EntryType(data: TypeTable, e: Entry): (r: Result<DwarfType>)
    ensures e.typeOffset.None? ==> r == Err(NoTypeOffset)
    ensures r.Ok? <==> e.typeOffset.Some? && e.typeOffset.value in data
    ensures r.Ok? ==> r.value == data[e.typeOffset.value]
  {
    match e.typeOffset
    case None => Err(NoTypeOffset)
    case Some(off) => if off in data then Ok(data[off]) else Err(DwarfError(off))
  }
}
