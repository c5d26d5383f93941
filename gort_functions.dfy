/**
 * gort_functions.go: functions of the binary found by name. A name resolves
 * to the last function-table record that carries it; its parameter types
 * come from the children of its debug-information entry, each looked up as
 * a runtime type; calling it checks every argument against the parameter
 * it lands on before handing the call to the runtime.
 */
module GortFunctions {
  import opened Base
  import opened Delve
  import opened Helpers
  import opened Gort
  import opened GortTypes

  /** Record i is the last record of the table named `name`: the one findFunc's backward scan stops at. */
  ghost predicate IsLastNamed(fns: seq<Function>, i: int, name: string)
  {
    0 <= i < |fns| && fns[i].name == name && forall j :: i < j < |fns| ==> fns[j].name != name
  }

  /** At most one record is the last one with a name. */
  lemma LastNamedUnique(fns: seq<Function>, name: string, i: int, j: int)
    requires IsLastNamed(fns, i, name) && IsLastNamed(fns, j, name)
    ensures i == j
  {
  }

  /**
   * findFunc(name): scan the table from the end. The first record met with
   * the name decides: it is the answer when its entry address is non-zero,
   * and the lookup fails with ErrNotFound otherwise, as it does when no
   * record has the name.
   */
  method FindFuncIndex(fns: seq<Function>, name: string) returns (r: Result<nat>)
    ensures r.Ok? ==> IsLastNamed(fns, r.value, name) && fns[r.value].entry != 0
    ensures r.Err? ==> r.error == NotFound && forall i :: IsLastNamed(fns, i, name) ==> fns[i].entry == 0
  {
    var i := |fns|;
    while i > 0
      invariant 0 <= i <= |fns|
      invariant forall j :: i <= j < |fns| ==> fns[j].name != name
    {
      i := i - 1;
      if fns[i].name == name {
        if fns[i].entry != 0 {
          return Ok(i);
        }
        forall k | IsLastNamed(fns, k, name)
          ensures fns[k].entry == 0
        {
          LastNamedUnique(fns, name, i, k);
        }
        return Err(NotFound);
      }
    }
    return Err(NotFound);
  }

  /** The (name, entry) pairs ForeachFunc reports: the records with a non-zero entry, in table order. */
  function EntryPoints(fns: seq<Function>): seq<(string, uint64)>
    decreases |fns|
  {
    if fns == [] then []
    else
      var n := |fns| - 1;
      EntryPoints(fns[..n]) + (if fns[n].entry != 0 then [(fns[n].name, fns[n].entry)] else [])
  }

  /** A pair is reported exactly when some record has that name and that non-zero entry. */
  lemma {:induction false} EntryPointsMember(fns: seq<Function>, name: string, entry: uint64)
    ensures (name, entry) in EntryPoints(fns) <==>
      entry != 0 && exists i :: 0 <= i < |fns| && fns[i].name == name && fns[i].entry == entry
    decreases |fns|
  {
    if fns != [] {
      var n := |fns| - 1;
      EntryPointsMember(fns[..n], name, entry);
      if (name, entry) in EntryPoints(fns) && (name, entry) !in EntryPoints(fns[..n]) {
        assert fns[n].name == name && fns[n].entry == entry;
      }
      if entry != 0 && (exists i :: 0 <= i < |fns| && fns[i].name == name && fns[i].entry == entry) {
        var i :| 0 <= i < |fns| && fns[i].name == name && fns[i].entry == entry;
        if i < n {
          assert fns[..n][i] == fns[i];
        }
      }
    }
  }

  /** No more pairs are reported than there are records. */
  lemma {:induction false} EntryPointsLength(fns: seq<Function>)
    ensures |EntryPoints(fns)| <= |fns|
    decreases |fns|
  {
    if fns != [] {
      EntryPointsLength(fns[..|fns| - 1]);
    }
  }

  /** ForeachFunc(f): the calls of f, as the list of their arguments. */
  method ForeachFunc(d: Dwarf) returns (r: Result<seq<(string, uint64)>>)
    ensures d.bi.None? ==> r == Err(NeedInit)
    ensures d.bi.Some? ==> r == Ok(EntryPoints(d.bi.value.functions))
  {
    var check := d.Check();
    if check.Some? {
      return Err(check.value);
    }
    var fns := d.bi.value.functions;
    var calls: seq<(string, uint64)> := [];
    for i := 0 to |fns|
      invariant calls == EntryPoints(fns[..i])
    {
      if fns[i].entry != 0 {
        calls := calls + [(fns[i].name, fns[i].entry)];
      }
      assert fns[..i + 1][..i] == fns[..i];
    }
    assert fns[..|fns|] == fns;
    return Ok(calls);
  }

  /** FindFuncEntry(name): the record findFunc picks. */
  method FindFuncEntry(d: Dwarf, name: string) returns (r: Result<Function>)
    ensures d.bi.None? ==> r == Err(NeedInit)
    ensures d.bi.Some? ==>
      var fns := d.bi.value.functions;
      && (r.Ok? ==> exists i :: IsLastNamed(fns, i, name) && fns[i].entry != 0 && r.value == fns[i])
      && (r.Err? ==> r.error == NotFound && forall i :: IsLastNamed(fns, i, name) ==> fns[i].entry == 0)
  {
    var check := d.Check();
    if check.Some? {
      return Err(check.value);
    }
    var i :- FindFuncIndex(d.bi.value.functions, name);
    return Ok(d.bi.value.functions[i]);
  }

  /** FindFuncPc(name): the entry address of the record findFunc picks; never 0. */
  method FindFuncPc(d: Dwarf, name: string) returns (r: Result<uint64>)
    ensures d.bi.None? ==> r == Err(NeedInit)
    ensures d.bi.Some? ==>
      var fns := d.bi.value.functions;
      && (r.Ok? ==> r.value != 0 && exists i :: IsLastNamed(fns, i, name) && r.value == fns[i].entry)
      && (r.Err? ==> r.error == NotFound && forall i :: IsLastNamed(fns, i, name) ==> fns[i].entry == 0)
  {
    var check := d.Check();
    if check.Some? {
      return Err(check.value);
    }
    var i :- FindFuncIndex(d.bi.value.functions, name);
    return Ok(d.bi.value.functions[i].entry);
  }

  /** A function's debug data and the entries that follow its own entry. */
  datatype Header = Header(data: TypeTable, children: seq<Die>)

  /**
   * The checks getFunctionArgTypes makes before reading the parameters:
   * the record's private offset and compile unit, the unit's image and the
   * image's debug data must exist (ErrNotSupport otherwise); the entry at the
   * offset must read and be a subprogram, and must carry the record's name.
   */
  function FuncHeader(f: Function): (r: Result<Header>)
    ensures r.Err? ==> r.error == NotSupport || r.error == ArgTypesNotFound(f.name) || r.error == ArgTypesNameErr(f.name)
    ensures r == Err(NotSupport) <==>
      f.offset.None? || f.cu.None? || f.cu.value.image.None? || f.cu.value.image.value.dwarf.None?
    ensures r.Ok? ==>
      var image := f.cu.value.image.value;
      var reader := Seek(image.dies, f.offset.value);
      && image.dwarf == Some(r.value.data)
      && reader.At? && reader.rest != [] && reader.rest[0].Die?
      && reader.rest[0].entry.tag == TagSubprogram && reader.rest[0].entry.name == Some(f.name)
      && r.value.children == reader.rest[1..]
  {
    if f.offset.None? || f.cu.None? then Err(NotSupport)
    else if f.cu.value.image.None? then Err(NotSupport)
    else
      var image := f.cu.value.image.value;
      if image.dwarf.None? then Err(NotSupport)
      else
        var reader := Seek(image.dies, f.offset.value);
        var entry := Next(reader);
        if entry.Err? || entry.value.None? || entry.value.value.tag != TagSubprogram then Err(ArgTypesNotFound(f.name))
        else if entry.value.value.name != Some(f.name) then Err(ArgTypesNameErr(f.name))
        else Ok(Header(image.dwarf.value, Advance(reader).rest))
  }

  /** One formal parameter: the name its type is looked up by, and whether it is a result. */
  datatype Param = Param(typeName: string, isRet: bool)

  /**
   * The parameters the child loop collects, in order: reading stops at the
   * end of the data or at a null entry, entries other than formal
   * parameters are skipped, an entry that does not decode is a reader error
   * and a parameter whose type does not decode a type error.
   */
  function ParamScan(fname: string, data: TypeTable, dies: seq<Die>): (r: Result<seq<Param>>)
    ensures r.Ok? ==> |r.value| <= |dies|
    ensures r.Err? ==> r.error == ArgTypesReaderErr(fname) || r.error == ArgTypesTypeErr(fname)
  {
    if dies == [] then Ok([])
    else match dies[0]
      case Corrupt(_) => Err(ArgTypesReaderErr(fname))
      case Die(_, child) =>
        if child.tag == 0 then Ok([])
        else if child.tag != TagFormalParameter then ParamScan(fname, data, dies[1..])
        else match EntryType(data, child)
          case Err(_) => Err(ArgTypesTypeErr(fname))
          case Ok(t) =>
            var rest :- ParamScan(fname, data, dies[1..]);
            Ok([Param(DwarfTypeName(t), child.varParam == Some(true))] + rest)
  }

  /** The type names of the input parameters, in order. */
  function InNames(ps: seq<Param>): seq<string>
    decreases |ps|
  {
    if ps == [] then []
    else
      var n := |ps| - 1;
      InNames(ps[..n]) + (if ps[n].isRet then [] else [ps[n].typeName])
  }

  /** The type names of the result parameters, in order. */
  function OutNames(ps: seq<Param>): seq<string>
    decreases |ps|
  {
    if ps == [] then []
    else
      var n := |ps| - 1;
      OutNames(ps[..n]) + (if ps[n].isRet then [ps[n].typeName] else [])
  }

  /** Every parameter is an input or a result, never both. */
  lemma {:induction false} InOutPartition(ps: seq<Param>)
    ensures |InNames(ps)| + |OutNames(ps)| == |ps|
    decreases |ps|
  {
    if ps != [] {
      InOutPartition(ps[..|ps| - 1]);
    }
  }

  /** A name is an input type name exactly when some input parameter has it. */
  lemma {:induction false} InNamesMember(ps: seq<Param>, name: string)
    ensures name in InNames(ps) <==> exists k :: 0 <= k < |ps| && !ps[k].isRet && ps[k].typeName == name
    decreases |ps|
  {
    if ps != [] {
      var n := |ps| - 1;
      InNamesMember(ps[..n], name);
      if exists k :: 0 <= k < |ps| && !ps[k].isRet && ps[k].typeName == name {
        var k :| 0 <= k < |ps| && !ps[k].isRet && ps[k].typeName == name;
        if k < n {
          assert ps[..n][k] == ps[k];
        }
      }
    }
  }

  /** Parameter types and their names, inputs and results apart. */
  datatype Signature = Signature(inTyps: seq<RType>, outTyps: seq<RType>, inNames: seq<string>, outNames: seq<string>)

  /**
   * `sig` is what getFunctionArgTypes returns for the record: its header
   * checks pass, its parameters scan, the names are the scanned ones split
   * into inputs and results, and each type is the resolution of its name
   * read against the caches `caches`.
   */
  ghost predicate SignatureFor(foreign: Foreign, bi: BinaryInfo, mds: seq<ModuleData>,
                               caches: map<nat, map<string, uint64>>, f: Function, sig: Signature)
  {
    && FuncHeader(f).Ok?
    && var h := FuncHeader(f).value;
    && ParamScan(f.name, h.data, h.children).Ok?
    && SplitResolved(foreign, bi, mds, caches, ParamScan(f.name, h.data, h.children).value, sig)
  }

  /** The names of `sig` are the parameters' split into inputs and results, and each type resolves its name. */
  ghost predicate SplitResolved(foreign: Foreign, bi: BinaryInfo, mds: seq<ModuleData>,
                                caches: map<nat, map<string, uint64>>, ps: seq<Param>, sig: Signature)
  {
    && sig.inNames == InNames(ps) && sig.outNames == OutNames(ps)
    && |sig.inTyps| == |sig.inNames| && |sig.outTyps| == |sig.outNames|
    && (forall k :: 0 <= k < |sig.inTyps| ==> ResolvedIn(foreign, bi, mds, caches, sig.inNames[k], sig.inTyps[k]))
    && (forall k :: 0 <= k < |sig.outTyps| ==> ResolvedIn(foreign, bi, mds, caches, sig.outNames[k], sig.outTyps[k]))
  }

  /** A resolved parameter extends the split on its side. */
  lemma SplitResolvedSnoc(foreign: Foreign, bi: BinaryInfo, mds: seq<ModuleData>, caches: map<nat, map<string, uint64>>,
                          ps: seq<Param>, sig: Signature, p: Param, t: RType)
    requires SplitResolved(foreign, bi, mds, caches, ps, sig)
    requires ResolvedIn(foreign, bi, mds, caches, p.typeName, t)
    ensures SplitResolved(foreign, bi, mds, caches, ps + [p],
      if p.isRet then sig.(outTyps := sig.outTyps + [t], outNames := sig.outNames + [p.typeName])
      else sig.(inTyps := sig.inTyps + [t], inNames := sig.inNames + [p.typeName]))
  {
    NamesSnoc(ps, p);
  }

  /** Later cache growth keeps every resolution of a split. */
  lemma SplitResolvedGrow(foreign: Foreign, bi: BinaryInfo, mds: seq<ModuleData>,
                          c1: map<nat, map<string, uint64>>, c2: map<nat, map<string, uint64>>, ps: seq<Param>, sig: Signature)
    requires SplitResolved(foreign, bi, mds, c1, ps, sig) && CachesGrow(c1, c2)
    ensures SplitResolved(foreign, bi, mds, c2, ps, sig)
  {
    forall k | 0 <= k < |sig.inTyps|
      ensures ResolvedIn(foreign, bi, mds, c2, sig.inNames[k], sig.inTyps[k])
    {
      ResolvedInGrow(foreign, bi, mds, c1, c2, sig.inNames[k], sig.inTyps[k]);
    }
    forall k | 0 <= k < |sig.outTyps|
      ensures ResolvedIn(foreign, bi, mds, c2, sig.outNames[k], sig.outTyps[k])
    {
      ResolvedInGrow(foreign, bi, mds, c1, c2, sig.outNames[k], sig.outTyps[k]);
    }
  }

  /**
   * The outcome of getFunctionArgTypes' child loop in a state with the
   * caches `caches`: the scan of ParamScan with one FindType per formal
   * parameter as it is met, so that the first of a scan failure and a type
   * name that does not resolve decides the error.
   */
  ghost function CheckedScan(foreign: Foreign, bi: BinaryInfo, mds: seq<ModuleData>, caches: map<nat, map<string, uint64>>,
                             fname: string, data: TypeTable, dies: seq<Die>): (r: Result<seq<Param>>)
    ensures r.Err? ==> r.error == ArgTypesReaderErr(fname) || r.error == ArgTypesTypeErr(fname)
  {
    if dies == [] then Ok([])
    else match dies[0]
      case Corrupt(_) => Err(ArgTypesReaderErr(fname))
      case Die(_, child) =>
        if child.tag == 0 then Ok([])
        else if child.tag != TagFormalParameter then CheckedScan(foreign, bi, mds, caches, fname, data, dies[1..])
        else match EntryType(data, child)
          case Err(_) => Err(ArgTypesTypeErr(fname))
          case Ok(t) =>
            if !TypeResolves(foreign, bi, mds, caches, DwarfTypeName(t)) then Err(ArgTypesTypeErr(fname))
            else Prepend([Param(DwarfTypeName(t), child.varParam == Some(true))],
                         CheckedScan(foreign, bi, mds, caches, fname, data, dies[1..]))
  }

  /** Every parameter's type name resolves in a state with the caches `caches`. */
  ghost predicate AllResolve(foreign: Foreign, bi: BinaryInfo, mds: seq<ModuleData>,
                             caches: map<nat, map<string, uint64>>, ps: seq<Param>)
  {
    forall k :: 0 <= k < |ps| ==> TypeResolves(foreign, bi, mds, caches, ps[k].typeName)
  }

  /** All of `[p] + ps` resolve exactly when p and all of ps do. */
  lemma AllResolveCons(foreign: Foreign, bi: BinaryInfo, mds: seq<ModuleData>,
                       caches: map<nat, map<string, uint64>>, p: Param, ps: seq<Param>)
    ensures AllResolve(foreign, bi, mds, caches, [p] + ps) <==>
      TypeResolves(foreign, bi, mds, caches, p.typeName) && AllResolve(foreign, bi, mds, caches, ps)
  {
    var qs := [p] + ps;
    assert forall k :: 1 <= k < |qs| ==> qs[k] == ps[k - 1];
    if TypeResolves(foreign, bi, mds, caches, p.typeName) && AllResolve(foreign, bi, mds, caches, ps) {
      forall k | 0 <= k < |qs|
        ensures TypeResolves(foreign, bi, mds, caches, qs[k].typeName)
      {
        if k > 0 {
          assert qs[k] == ps[k - 1];
        }
      }
    }
    if AllResolve(foreign, bi, mds, caches, qs) {
      assert qs[0] == p;
      forall k | 0 <= k < |ps|
        ensures TypeResolves(foreign, bi, mds, caches, ps[k].typeName)
      {
        assert qs[k + 1] == ps[k];
      }
    }
  }

  /**
   * The checked loop succeeds exactly when the scan does and every scanned
   * type name resolves, and then gives the scanned parameters; when the scan
   * is good and the loop still fails, it is a type error.
   */
  lemma {:induction false} CheckedScanIff(foreign: Foreign, bi: BinaryInfo, mds: seq<ModuleData>,
                                          caches: map<nat, map<string, uint64>>, fname: string, data: TypeTable, dies: seq<Die>)
    ensures var ps := ParamScan(fname, data, dies);
      var cs := CheckedScan(foreign, bi, mds, caches, fname, data, dies);
      && (cs.Ok? <==> ps.Ok? && AllResolve(foreign, bi, mds, caches, ps.value))
      && (cs.Ok? ==> cs == ps)
      && (ps.Ok? && cs.Err? ==> cs.error == ArgTypesTypeErr(fname))
    decreases |dies|
  {
    if dies != [] && dies[0].Die? && dies[0].entry.tag != 0 {
      var rest := dies[1..];
      CheckedScanIff(foreign, bi, mds, caches, fname, data, rest);
      var child := dies[0].entry;
      if child.tag == TagFormalParameter && EntryType(data, child).Ok? && ParamScan(fname, data, rest).Ok? {
        var p := Param(DwarfTypeName(EntryType(data, child).value), child.varParam == Some(true));
        AllResolveCons(foreign, bi, mds, caches, p, ParamScan(fname, data, rest).value);
      }
    }
  }

  /** The checked loop from entry `j` on, after a skipped entry or after a parameter whose type decodes. */
  lemma CheckedScanStep(foreign: Foreign, bi: BinaryInfo, mds: seq<ModuleData>, caches: map<nat, map<string, uint64>>,
                        fname: string, data: TypeTable, dies: seq<Die>, j: nat)
    requires j < |dies| && dies[j].Die? && dies[j].entry.tag != 0
    ensures dies[j].entry.tag != TagFormalParameter ==>
      CheckedScan(foreign, bi, mds, caches, fname, data, dies[j..]) == CheckedScan(foreign, bi, mds, caches, fname, data, dies[j + 1..])
    ensures dies[j].entry.tag == TagFormalParameter && EntryType(data, dies[j].entry).Ok? ==>
      var name := DwarfTypeName(EntryType(data, dies[j].entry).value);
      CheckedScan(foreign, bi, mds, caches, fname, data, dies[j..]) ==
        if TypeResolves(foreign, bi, mds, caches, name)
        then Prepend([Param(name, dies[j].entry.varParam == Some(true))], CheckedScan(foreign, bi, mds, caches, fname, data, dies[j + 1..]))
        else Err(ArgTypesTypeErr(fname))
  {
    assert dies[j..][1..] == dies[j + 1..];
  }

  /** What getFunctionArgTypes(f) yields in a state with the caches `caches`: the header checks, then the checked loop. */
  ghost function SignatureOutcome(foreign: Foreign, bi: BinaryInfo, mds: seq<ModuleData>,
                                  caches: map<nat, map<string, uint64>>, f: Function): (r: Result<seq<Param>>)
    ensures r.Err? ==> r.error != NotFound && r.error != NeedInit
  {
    match FuncHeader(f)
    case Err(e) => Err(e)
    case Ok(h) => CheckedScan(foreign, bi, mds, caches, f.name, h.data, h.children)
  }

  /** Appending a parameter appends its type name to the inputs or to the results. */
  lemma NamesSnoc(ps: seq<Param>, p: Param)
    ensures InNames(ps + [p]) == InNames(ps) + (if p.isRet then [] else [p.typeName])
    ensures OutNames(ps + [p]) == OutNames(ps) + (if p.isRet then [p.typeName] else [])
  {
    assert (ps + [p])[..|ps|] == ps;
  }

  /**
   * getFunctionArgTypes(f): the header checks, then one FindType per
   * formal parameter, in order. Any failure ends the loop with that error;
   * a type-name lookup failure is a type error. The outcome is the header
   * checks and the checked loop read against the caches as they were on
   * entry, since building caches does not change which names resolve.
   */
  method GetFunctionArgTypes(d: Dwarf, f: Function) returns (r: Result<Signature>)
    requires d.bi.Some?
    modifies d`imageCacheTypes
    ensures CachesBuilt(d.foreign, d.bi.value, d.mds, old(d.imageCacheTypes), d.imageCacheTypes)
    ensures FuncHeader(f).Err? ==> r == Err(FuncHeader(f).error) && d.imageCacheTypes == old(d.imageCacheTypes)
    ensures var out := SignatureOutcome(d.foreign, d.bi.value, d.mds, old(d.imageCacheTypes), f);
      && (out.Err? ==> r == Err(out.error))
      && (out.Ok? ==> r.Ok? && SplitResolved(d.foreign, d.bi.value, d.mds, d.imageCacheTypes, out.value, r.value))
    ensures r.Ok? ==> SignatureFor(d.foreign, d.bi.value, d.mds, d.imageCacheTypes, f, r.value)
    ensures FuncHeader(f).Ok? ==>
      var scan := ParamScan(f.name, FuncHeader(f).value.data, FuncHeader(f).value.children);
      && (scan.Err? ==> r.Err?)
      && (scan.Ok? ==> (r.Ok? <==> AllResolve(d.foreign, d.bi.value, d.mds, old(d.imageCacheTypes), scan.value)))
      && (scan.Ok? && r.Err? ==> r.error == ArgTypesTypeErr(f.name))
  {
    var header := FuncHeader(f);
    if header.Err? {
      return Err(header.error);
    }
    ghost var c0 := d.imageCacheTypes;
    var data := header.value.data;
    var children := header.value.children;
    CheckedScanIff(d.foreign, d.bi.value, d.mds, c0, f.name, data, children);
    var sig := Signature([], [], [], []);
    ghost var ps: seq<Param> := [];
    var j := 0;
    assert children[0..] == children;
    if CheckedScan(d.foreign, d.bi.value, d.mds, c0, f.name, data, children).Ok? {
      assert [] + CheckedScan(d.foreign, d.bi.value, d.mds, c0, f.name, data, children).value
          == CheckedScan(d.foreign, d.bi.value, d.mds, c0, f.name, data, children).value;
    }
    while j < |children|
      invariant 0 <= j <= |children|
      invariant CachesBuilt(d.foreign, d.bi.value, d.mds, c0, d.imageCacheTypes)
      invariant CheckedScan(d.foreign, d.bi.value, d.mds, c0, f.name, data, children)
        == Prepend(ps, CheckedScan(d.foreign, d.bi.value, d.mds, c0, f.name, data, children[j..]))
      invariant SplitResolved(d.foreign, d.bi.value, d.mds, d.imageCacheTypes, ps, sig)
    {
      if children[j].Corrupt? {
        return Err(ArgTypesReaderErr(f.name));
      }
      var child := children[j].entry;
      if child.tag == 0 {
        break;
      }
      CheckedScanStep(d.foreign, d.bi.value, d.mds, c0, f.name, data, children, j);
      if child.tag != TagFormalParameter {
        j := j + 1;
        continue;
      }
      var dtyp := EntryType(data, child);
      if dtyp.Err? {
        return Err(ArgTypesTypeErr(f.name));
      }
      var dname := DwarfTypeName(dtyp.value);
      ghost var before := d.imageCacheTypes;
      TypeResolvesStable(d.foreign, d.bi.value, d.mds, c0, before, dname);
      var rtyp := FindType(d, dname);
      CachesBuiltTrans(d.foreign, d.bi.value, d.mds, c0, before, d.imageCacheTypes);
      if rtyp.Err? {
        return Err(ArgTypesTypeErr(f.name));
      }
      SplitResolvedGrow(d.foreign, d.bi.value, d.mds, before, d.imageCacheTypes, ps, sig);
      var p := Param(dname, child.varParam == Some(true));
      PrependPrepend(ps, p, CheckedScan(d.foreign, d.bi.value, d.mds, c0, f.name, data, children[j + 1..]));
      SplitResolvedSnoc(d.foreign, d.bi.value, d.mds, d.imageCacheTypes, ps, sig, p, rtyp.value);
      if p.isRet {
        sig := sig.(outTyps := sig.outTyps + [rtyp.value], outNames := sig.outNames + [dname]);
      } else {
        sig := sig.(inTyps := sig.inTyps + [rtyp.value], inNames := sig.inNames + [dname]);
      }
      ps := ps + [p];
      j := j + 1;
    }
    assert ps + [] == ps;
    return Ok(sig);
  }

  /** The name resolves to record i, the last one with it, and `sig` is that record's signature. */
  ghost predicate Resolves(foreign: Foreign, bi: BinaryInfo, mds: seq<ModuleData>, caches: map<nat, map<string, uint64>>,
                           name: string, i: int, sig: Signature)
  {
    && IsLastNamed(bi.functions, i, name)
    && bi.functions[i].entry != 0
    && SignatureFor(foreign, bi, mds, caches, bi.functions[i], sig)
  }

  /**
   * `r` is reflect.FuncOf over what getFunctionArgTypes(f) yields from the
   * caches `before`, its types read against the caches `after`: that
   * call's error, or the function type of its signature.
   */
  ghost predicate TypedAs(foreign: Foreign, bi: BinaryInfo, mds: seq<ModuleData>,
                          before: map<nat, map<string, uint64>>, after: map<nat, map<string, uint64>>,
                          f: Function, variadic: bool, r: Result<FuncType>)
  {
    var out := SignatureOutcome(foreign, bi, mds, before, f);
    && (out.Err? ==> r == Err(out.error))
    && (out.Ok? ==> r.Ok? && exists sig :: SplitResolved(foreign, bi, mds, after, out.value, sig)
                                        && r.value == FuncType(sig.inTyps, sig.outTyps, variadic))
  }

  /** FindFuncType(name, variadic): reflect.FuncOf over the parameter types of the record findFunc picks. */
  method FindFuncType(d: Dwarf, name: string, variadic: bool) returns (r: Result<FuncType>)
    modifies d`imageCacheTypes
    ensures d.bi.None? ==> r == Err(NeedInit) && d.imageCacheTypes == old(d.imageCacheTypes)
    ensures d.bi.Some? ==> CachesBuilt(d.foreign, d.bi.value, d.mds, old(d.imageCacheTypes), d.imageCacheTypes)
    ensures d.bi.Some? ==>
      (r == Err(NotFound) <==> forall i :: IsLastNamed(d.bi.value.functions, i, name) ==> d.bi.value.functions[i].entry == 0)
    ensures d.bi.Some? ==> forall i :: IsLastNamed(d.bi.value.functions, i, name) && d.bi.value.functions[i].entry != 0 ==>
      TypedAs(d.foreign, d.bi.value, d.mds, old(d.imageCacheTypes), d.imageCacheTypes, d.bi.value.functions[i], variadic, r)
    ensures r.Ok? ==> d.bi.Some? && exists i, sig ::
      Resolves(d.foreign, d.bi.value, d.mds, d.imageCacheTypes, name, i, sig) && r.value == FuncType(sig.inTyps, sig.outTyps, variadic)
  {
    var check := d.Check();
    if check.Some? {
      return Err(check.value);
    }
    var fns := d.bi.value.functions;
    var i := FindFuncIndex(fns, name);
    if i.Err? {
      return Err(i.error);
    }
    var sig := GetFunctionArgTypes(d, fns[i.value]);
    if sig.Err? {
      r := Err(sig.error);
    } else {
      assert Resolves(d.foreign, d.bi.value, d.mds, d.imageCacheTypes, name, i.value, sig.value);
      r := Ok(FuncType(sig.value.inTyps, sig.value.outTyps, variadic));
    }
    forall k | IsLastNamed(fns, k, name) && fns[k].entry != 0
      ensures TypedAs(d.foreign, d.bi.value, d.mds, old(d.imageCacheTypes), d.imageCacheTypes, fns[k], variadic, r)
    {
      LastNamedUnique(fns, name, i.value, k);
    }
  }

  /** Result<Callable> seen as the function type it carries. */
  function TypeOfFunc(r: Result<Callable>): Result<FuncType>
  {
    if r.Ok? then Ok(r.value.typ) else Err(r.error)
  }

  /**
   * FindFunc(name, variadic): a function value of that type whose code
   * pointer is the record's entry address.
   */
  method FindFunc(d: Dwarf, name: string, variadic: bool) returns (r: Result<Callable>)
    modifies d`imageCacheTypes
    ensures d.bi.None? ==> r == Err(NeedInit) && d.imageCacheTypes == old(d.imageCacheTypes)
    ensures d.bi.Some? ==> CachesBuilt(d.foreign, d.bi.value, d.mds, old(d.imageCacheTypes), d.imageCacheTypes)
    ensures d.bi.Some? ==>
      (r == Err(NotFound) <==> forall i :: IsLastNamed(d.bi.value.functions, i, name) ==> d.bi.value.functions[i].entry == 0)
    ensures d.bi.Some? ==> forall i :: IsLastNamed(d.bi.value.functions, i, name) && d.bi.value.functions[i].entry != 0 ==>
      && TypedAs(d.foreign, d.bi.value, d.mds, old(d.imageCacheTypes), d.imageCacheTypes, d.bi.value.functions[i], variadic, TypeOfFunc(r))
      && (r.Ok? ==> r.value.codePtr == d.bi.value.functions[i].entry)
    ensures r.Ok? ==> d.bi.Some? && exists i, sig ::
      && Resolves(d.foreign, d.bi.value, d.mds, d.imageCacheTypes, name, i, sig)
      && r.value == Callable(FuncType(sig.inTyps, sig.outTyps, variadic), d.bi.value.functions[i].entry)
  {
    var pc := FindFuncPc(d, name);
    if pc.Err? {
      return Err(pc.error);
    }
    var ftyp := FindFuncType(d, name, variadic);
    if ftyp.Err? {
      return Err(ftyp.error);
    }
    ghost var i, sig :| Resolves(d.foreign, d.bi.value, d.mds, d.imageCacheTypes, name, i, sig)
      && ftyp.value == FuncType(sig.inTyps, sig.outTyps, variadic);
    ghost var k :| IsLastNamed(d.bi.value.functions, k, name) && pc.value == d.bi.value.functions[k].entry;
    LastNamedUnique(d.bi.value.functions, name, i, k);
    return Ok(Callable(ftyp.value, pc.value));
  }

  /**
   * getInTyp(i): the parameter argument i is checked against: parameter i,
   * or the last one for the extra arguments of a variadic function; none
   * for a function without inputs or past the end of a fixed list.
   */
  function SelectInput(inTyps: seq<RType>, inNames: seq<string>, variadic: bool, i: nat): (r: Option<(RType, string)>)
    requires |inTyps| == |inNames|
    ensures r.Some? <==> |inTyps| > 0 && (i < |inTyps| || variadic)
    ensures r.Some? && i < |inTyps| ==> r.value == (inTyps[i], inNames[i])
    ensures r.Some? && i >= |inTyps| ==> r.value == (inTyps[|inTyps| - 1], inNames[|inNames| - 1])
  {
    if |inTyps| <= 0 then None
    else if i < |inTyps| then Some((inTyps[i], inNames[i]))
    else if variadic then Some((inTyps[|inTyps| - 1], inNames[|inNames| - 1]))
    else None
  }

  /** Argument i has a parameter to land on, and its type is assignable to that parameter's type. */
  ghost predicate ArgOk(assignable: (RType, RType) -> bool, inTyps: seq<RType>, inNames: seq<string>,
                        variadic: bool, args: seq<Value>, i: int)
    requires |inTyps| == |inNames|
  {
    0 <= i < |args| && SelectInput(inTyps, inNames, variadic, i).Some?
      && assignable(args[i].typ, SelectInput(inTyps, inNames, variadic, i).value.0)
  }

  /** Argument i is the first one that fails its check. */
  ghost predicate FirstRejected(assignable: (RType, RType) -> bool, inTyps: seq<RType>, inNames: seq<string>,
                                variadic: bool, args: seq<Value>, i: int)
    requires |inTyps| == |inNames|
  {
    && 0 <= i < |args| && !ArgOk(assignable, inTyps, inNames, variadic, args, i)
    && forall j :: 0 <= j < i ==> ArgOk(assignable, inTyps, inNames, variadic, args, j)
  }

  /** The error CallFunc reports for argument i when it fails its check. */
  function ArgError(inTyps: seq<RType>, inNames: seq<string>, variadic: bool, i: nat): Error
    requires |inTyps| == |inNames|
  {
    match SelectInput(inTyps, inNames, variadic, i)
    case None => LenMismatch(i)
    case Some(sel) => TypeMismatch(i, sel.1)
  }

  /**
   * The argument loop of CallFunc: no error exactly when every argument
   * passes; otherwise the error of the first argument that fails.
   */
  method CheckArgs(assignable: (RType, RType) -> bool, inTyps: seq<RType>, inNames: seq<string>,
                   variadic: bool, args: seq<Value>) returns (err: Option<Error>)
    requires |inTyps| == |inNames|
    ensures err.None? <==> forall i :: 0 <= i < |args| ==> ArgOk(assignable, inTyps, inNames, variadic, args, i)
    ensures err.Some? ==> exists i ::
      FirstRejected(assignable, inTyps, inNames, variadic, args, i) && err.value == ArgError(inTyps, inNames, variadic, i)
  {
    for i := 0 to |args|
      invariant forall j :: 0 <= j < i ==> ArgOk(assignable, inTyps, inNames, variadic, args, j)
    {
      var sel := SelectInput(inTyps, inNames, variadic, i);
      if sel.None? {
        assert FirstRejected(assignable, inTyps, inNames, variadic, args, i);
        return Some(LenMismatch(i));
      }
      if !assignable(args[i].typ, sel.value.0) {
        assert FirstRejected(assignable, inTyps, inNames, variadic, args, i);
        return Some(TypeMismatch(i, sel.value.1));
      }
    }
    return None;
  }

  /** A fixed-arity function accepts at most as many arguments as it has inputs, and any argument needs an input. */
  lemma {:induction false} AcceptedArity(assignable: (RType, RType) -> bool, inTyps: seq<RType>, inNames: seq<string>,
                                        variadic: bool, args: seq<Value>)
    requires |inTyps| == |inNames|
    requires forall i :: 0 <= i < |args| ==> ArgOk(assignable, inTyps, inNames, variadic, args, i)
    ensures !variadic ==> |args| <= |inTyps|
    ensures |args| > 0 ==> |inTyps| > 0
  {
    if |args| > 0 {
      assert ArgOk(assignable, inTyps, inNames, variadic, args, |args| - 1);
    }
  }

  /**
   * An extra argument of a variadic function is checked against the last
   * input type itself, which for a variadic Go function is the slice type,
   * and not against its element type: it passes exactly when assignable to
   * that type, and otherwise is a type mismatch naming the last input.
   */
  lemma VariadicExtraArgument(assignable: (RType, RType) -> bool, inTyps: seq<RType>, inNames: seq<string>,
                              args: seq<Value>, i: nat)
    requires |inTyps| == |inNames| && 0 < |inTyps| <= i < |args|
    ensures ArgOk(assignable, inTyps, inNames, true, args, i) <==> assignable(args[i].typ, inTyps[|inTyps| - 1])
    ensures ArgError(inTyps, inNames, true, i) == TypeMismatch(i, inNames[|inNames| - 1])
  {
  }

  /** The arguments all pass the check against this signature. */
  ghost predicate Accepted(assignable: (RType, RType) -> bool, sig: Signature, variadic: bool, args: seq<Value>)
  {
    |sig.inTyps| == |sig.inNames|
      && forall i :: 0 <= i < |args| ==> ArgOk(assignable, sig.inTyps, sig.inNames, variadic, args, i)
  }

  /**
   * `r` is what CallFunc answers once it has the signature `sig` of the
   * function at `entry`: the call's results when every argument passes,
   * and otherwise the error of the first argument that fails.
   */
  ghost predicate CheckedCall(foreign: Foreign, sig: Signature, entry: uint64, variadic: bool, args: seq<Value>,
                              r: Result<seq<Value>>)
  {
    && |sig.inTyps| == |sig.inNames|
    && (Accepted(foreign.assignableTo, sig, variadic, args) ==>
          r == Ok(foreign.call(Callable(FuncType(sig.inTyps, sig.outTyps, variadic), entry), args)))
    && (!Accepted(foreign.assignableTo, sig, variadic, args) ==> exists i ::
          FirstRejected(foreign.assignableTo, sig.inTyps, sig.inNames, variadic, args, i)
          && r == Err(ArgError(sig.inTyps, sig.inNames, variadic, i)))
  }

  /**
   * `r` is what CallFunc answers for record f: the error of
   * getFunctionArgTypes(f) from the caches `before`, or the checked call
   * with its signature, its types read against the caches `after`.
   */
  ghost predicate CalledAs(foreign: Foreign, bi: BinaryInfo, mds: seq<ModuleData>,
                           before: map<nat, map<string, uint64>>, after: map<nat, map<string, uint64>>,
                           f: Function, variadic: bool, args: seq<Value>, r: Result<seq<Value>>)
  {
    var out := SignatureOutcome(foreign, bi, mds, before, f);
    && (out.Err? ==> r == Err(out.error))
    && (out.Ok? ==> exists sig :: SplitResolved(foreign, bi, mds, after, out.value, sig)
                                && CheckedCall(foreign, sig, f.entry, variadic, args, r))
  }

  /**
   * CallFunc(name, variadic, args): resolve and type the function as
   * FindFunc does, check every argument, and only then call it.
   */
  method CallFunc(d: Dwarf, name: string, variadic: bool, args: seq<Value>) returns (r: Result<seq<Value>>)
    modifies d`imageCacheTypes
    ensures d.bi.None? ==> r == Err(NeedInit) && d.imageCacheTypes == old(d.imageCacheTypes)
    ensures d.bi.Some? ==> CachesBuilt(d.foreign, d.bi.value, d.mds, old(d.imageCacheTypes), d.imageCacheTypes)
    ensures d.bi.Some? ==>
      (r == Err(NotFound) <==> forall i :: IsLastNamed(d.bi.value.functions, i, name) ==> d.bi.value.functions[i].entry == 0)
    ensures d.bi.Some? ==> forall i :: IsLastNamed(d.bi.value.functions, i, name) && d.bi.value.functions[i].entry != 0 ==>
      CalledAs(d.foreign, d.bi.value, d.mds, old(d.imageCacheTypes), d.imageCacheTypes, d.bi.value.functions[i], variadic, args, r)
    ensures r.Ok? ==> d.bi.Some? && exists i, sig ::
      && Resolves(d.foreign, d.bi.value, d.mds, d.imageCacheTypes, name, i, sig)
      && Accepted(d.foreign.assignableTo, sig, variadic, args)
      && r.value == d.foreign.call(Callable(FuncType(sig.inTyps, sig.outTyps, variadic), d.bi.value.functions[i].entry), args)
    ensures r.Err? && (r.error.LenMismatch? || r.error.TypeMismatch?) ==> d.bi.Some? && exists i, sig ::
      Resolves(d.foreign, d.bi.value, d.mds, d.imageCacheTypes, name, i, sig) && !Accepted(d.foreign.assignableTo, sig, variadic, args)
  {
    var check := d.Check();
    if check.Some? {
      return Err(check.value);
    }
    var fns := d.bi.value.functions;
    var i := FindFuncIndex(fns, name);
    if i.Err? {
      return Err(i.error);
    }
    var sig := GetFunctionArgTypes(d, fns[i.value]);
    if sig.Err? {
      r := Err(sig.error);
    } else {
      var s := sig.value;
      assert Resolves(d.foreign, d.bi.value, d.mds, d.imageCacheTypes, name, i.value, s);
      var fn := Callable(FuncType(s.inTyps, s.outTyps, variadic), fns[i.value].entry);
      var err := CheckArgs(d.foreign.assignableTo, s.inTyps, s.inNames, variadic, args);
      if err.Some? {
        r := Err(err.value);
      } else {
        r := Ok(d.foreign.call(fn, args));
      }
      assert CheckedCall(d.foreign, s, fns[i.value].entry, variadic, args, r);
    }
    forall k | IsLastNamed(fns, k, name) && fns[k].entry != 0
      ensures CalledAs(d.foreign, d.bi.value, d.mds, old(d.imageCacheTypes), d.imageCacheTypes, fns[k], variadic, args, r)
    {
      LastNamedUnique(fns, name, i.value, k);
    }
  }
}
