/**
 * Machine integers, the package's error values and the failure-compatible
 * wrappers every other module returns.
 */
module Base {

  /** 2^64: Go's uint64 arithmetic wraps modulo this value. */
  const TWO_64: nat := 0x1_0000_0000_0000_0000

  type uint64 = x: nat | x < TWO_64
  type byte = b: nat | b < 256

  /** Go's `a + b` on uint64 operands, wrapping around at 2^64. */
  function Add64(a: nat, b: nat): uint64
  {
    (a + b) % TWO_64
  }

  /**
   * The errors the package returns. The first four are the exported
   * sentinel values of gort.go; the others stand for the formatted errors
   * (`fmt.Errorf`) and for errors passed up from the libraries it calls.
   */
  datatype Error =
    | NeedInit
    | NotFound
    | NotSupport
    | TooManyLibraries
      // readCString: "string too long (len)"
    | StringTooLong(length: nat)
      // readUintRaw: "not supprted ptr size"
    | UnsupportedPtrSize(size: int)
      // binary.Read on an exhausted reader / on a reader with a partial word left
    | EOF
    | UnexpectedEOF
      // the debug-info reader could not decode an entry, or a type at an offset
    | DwarfError(offset: nat)
      // entryType: "unable to find type offset for entry"
    | NoTypeOffset
      // dwarfToRuntimeType
    | NoImageForType(typeName: string)
    | NoDwarfEntry(typeName: string)
    | NoNameForType(typeName: string)
    | NoRuntimeType(typeName: string)
    | NoModuleData(typeName: string)
      // getFunctionArgTypes
    | ArgTypesNotFound(funcName: string)
    | ArgTypesNameErr(funcName: string)
    | ArgTypesReaderErr(funcName: string)
    | ArgTypesTypeErr(funcName: string)
      // CallFunc's argument check: "len mismatch i", "type mismatch i:name"
    | LenMismatch(index: nat)
    | TypeMismatch(index: nat, typeName: string)
      // an error produced by the operating system or by the debugger library
    | Foreign(code: nat)

  datatype Option<+T> = None | Some(value: T)

  datatype Result<+T> = Ok(value: T) | Err(error: Error) {
    predicate IsFailure() { Err? }

    function PropagateFailure<U>(): Result<U>
      requires Err?
    {
      Err(error)
    }

    function Extract(): T
      requires Ok?
    {
      value
    }
  }

  /** `xs` in front of the items of a successful result; a failure passes through. */
  function Prepend<T>(xs: seq<T>, r: Result<seq<T>>): Result<seq<T>>
  {
    if r.Ok? then Ok(xs + r.value) else r
  }

  /** Prepending twice is prepending the two parts joined. */
  lemma PrependPrepend<T>(xs: seq<T>, x: T, r: Result<seq<T>>)
    ensures Prepend(xs, Prepend([x], r)) == Prepend(xs + [x], r)
  {
    if r.Ok? {
      assert xs + ([x] + r.value) == xs + [x] + r.value;
    }
  }
}
