/**
 * What the package reads from the debugger library it is built on and from
 * the Go runtime, as plain values: debug-information entries and the reader
 * over them, loaded images, the binary's function and package-variable
 * tables, module descriptors, and stand-ins for reflection's types and
 * values. The library's own computations (loading a binary, adding an image,
 * scanning the runtime's module list, finding a type by name) and the
 * runtime's (assignability, calling code) are the fields of `Foreign`.
 */
module Delve {
  import opened Base

  /** DWARF tags used by the package (DWARF 4, section 7.5.4, figure 18). */
  const TagFormalParameter: nat := 0x05
  const TagSubprogram: nat := 0x2e
  const TagVariable: nat := 0x34

  /**
   * One debugging information entry with the attributes the package asks
   * for. An attribute that is absent, or present with a value of another
   * class (so that Go's type assertion on `entry.Val(attr)` fails), is None.
   *   name        DW_AT_name (a string)
   *   typeOffset  DW_AT_type (a reference to a type entry)
   *   varParam    DW_AT_variable_parameter (DWARF 4, section 4.1), which the
   *               Go compiler sets on result parameters
   *   runtimeType the Go-specific back-reference to the runtime type
   */
  datatype Entry = Entry(
    tag: nat,
    name: Option<string>,
    typeOffset: Option<nat>,
    varParam: Option<bool>,
    runtimeType: Option<uint64>)

  /** An entry at a byte offset of an image's debug information, or bytes that do not decode. */
  datatype Die = Die(offset: nat, entry: Entry) | Corrupt(offset: nat)

  /** The debug/dwarf types the package names (a struct or any other type). */
  datatype DwarfType =
    | StructType(structName: string)
    | OtherType(name: string, repr: string)

  /** dwarf.Data.Type: the offsets at which a type entry decodes, and the type decoded there. */
  type TypeTable = map<nat, DwarfType>

  /**
   * A loaded code image: its debug information in file order, its debug
   * data (reached by reflection, so possibly absent in a library build
   * without that field), and the private table from runtime-type offsets to
   * the offsets of their type entries.
   */
  datatype Image = Image(
    dies: seq<Die>,
    dwarf: Option<TypeTable>,
    runtimeTypeToDIE: map<uint64, nat>)

  datatype CompileUnit = CompileUnit(image: Option<Image>)

  /** A function-table record; offset and cu are private fields reached by reflection. */
  datatype Function = Function(name: string, entry: uint64, offset: Option<nat>, cu: Option<CompileUnit>)

  /** A package-variable record; every field is private and reached by reflection. */
  datatype PackageVar = PackageVar(name: Option<string>, addr: Option<uint64>, offset: Option<nat>, cu: Option<CompileUnit>)

  /** Address and size of the ELF `.dynamic` section; address 0 when the binary has none. */
  datatype Section = Section(addr: uint64, size: uint64)

  /**
   * The loaded binary. `packageVars` is a private field (None when the
   * library build does not have it); `ptrSize` is the target's pointer size.
   */
  datatype BinaryInfo = BinaryInfo(
    images: seq<Image>,
    functions: seq<Function>,
    packageVars: Option<seq<PackageVar>>,
    dynamicSection: Section,
    ptrSize: nat)

  /** The type a debugger-library lookup by name yields: the image it lives in and its entry's offset. */
  datatype GoType = GoType(index: nat, offset: nat)

  /** The runtime's module descriptor: code range and type-metadata range. */
  datatype ModuleData = ModuleData(text: uint64, etext: uint64, types: uint64, etypes: uint64)

  /** A runtime type handle, known by the address of its type descriptor (0 is the nil type). */
  datatype RType = RType(addr: uint64)

  /** A reflection value: its dynamic type and an opaque payload. */
  datatype Value = Value(typ: RType, payload: nat)

  /** The shape reflect.FuncOf builds from input types, output types and the variadic flag. */
  datatype FuncType = FuncType(ins: seq<RType>, outs: seq<RType>, variadic: bool)

  /** A function value of a given type whose code pointer is an entry address. */
  datatype Callable = Callable(typ: FuncType, codePtr: uint64)

  /** The computations of the debugger library and of the Go runtime that the package calls. */
  datatype Foreign = Foreign(
    loadBinaryInfo: string -> Result<BinaryInfo>,
    // Assumed, as Delve's AddImage does: the images of a result are the
    // given binary's images with one more appended, so an image's position
    // in `images` (the key of the session's type caches) never changes.
    addImage: (BinaryInfo, string, uint64) -> Result<BinaryInfo>,
    loadModuleData: BinaryInfo -> Result<seq<ModuleData>>,
    imageToModuleData: (BinaryInfo, nat, seq<ModuleData>) -> Option<ModuleData>,
    findType: (BinaryInfo, string) -> Result<GoType>,
    types: BinaryInfo -> Result<seq<string>>,
    assignableTo: (RType, RType) -> bool,
    call: (Callable, seq<Value>) -> seq<Value>)

  /**
   * A debug-information reader after a Seek: the entries from the sought
   * offset on, or a failed seek (an offset at which no entry starts).
   */
  datatype Reader = At(rest: seq<Die>) | BadSeek(offset: nat)

  function Seek(dies: seq<Die>, off: nat): Reader
  {
    if dies == [] then BadSeek(off)
    else if dies[0].offset == off then At(dies)
    else Seek(dies[1..], off)
  }

  /** reader.Next(): an error, no entry at the end of the data, or the next entry. */
  function Next(r: Reader): Result<Option<Entry>>
  {
    match r
    case BadSeek(off) => Err(DwarfError(off))
    case At(rest) =>
      if rest == [] then Ok(None)
      else if rest[0].Corrupt? then Err(DwarfError(rest[0].offset))
      else Ok(Some(rest[0].entry))
  }

  /** The reader after one successful Next. */
  function Advance(r: Reader): Reader
  {
    if r.At? && r.rest != [] then At(r.rest[1..]) else r
  }

  /** Seek to `off` in an image, then Next. */
  function EntryAt(img: Image, off: nat): Result<Option<Entry>>
  {
    Next(Seek(img.dies, off))
  }
}
