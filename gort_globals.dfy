/**
 * gort_globals.go: the table of package variables bound to their addresses
 * and runtime types. It is built on first use, from the binary's private
 * package-variable list, and dropped whenever the module descriptors are
 * refreshed.
 */
module GortGlobals {
  import opened Base
  import opened Delve
  import opened Helpers
  import opened Gort
  import opened GortTypes

  /** A record that passed every check up to type resolution. */
  datatype Candidate = Candidate(name: string, addr: uint64, typeName: string)

  /**
   * The record may be bound under `name` at `addr`, with its type looked up
   * as `typeName`: all four private fields exist, its compile unit reaches
   * an image with debug data, the entry at its offset reads, is a variable
   * and carries the record's name, and the entry's type decodes to a type
   * with a usable name.
   */
  ghost predicate Bindable(v: PackageVar, name: string, addr: uint64, typeName: string)
  {
    && v.name == Some(name) && v.addr == Some(addr) && v.offset.Some? && v.cu.Some?
    && v.cu.value.image.Some? && v.cu.value.image.value.dwarf.Some?
    && typeName != "<unspecified>" && typeName != ""
    && (var image := v.cu.value.image.value;
        var entry := EntryAt(image, v.offset.value);
        && entry.Ok? && entry.value.Some?
        && entry.value.value.tag == TagVariable
        && entry.value.value.name == Some(name)
        && EntryType(image.dwarf.value, entry.value.value).Ok?
        && DwarfTypeName(EntryType(image.dwarf.value, entry.value.value).value) == typeName)
  }

  /** The checks loadGlobals makes on one record, in its order; None means the record is skipped. */
  function VarCandidate(v: PackageVar): (c: Option<Candidate>)
    ensures c.Some? ==> Bindable(v, c.value.name, c.value.addr, c.value.typeName)
    ensures forall name, addr, typeName :: Bindable(v, name, addr, typeName) ==> c == Some(Candidate(name, addr, typeName))
  {
    if v.name.None? || v.addr.None? || v.cu.None? || v.offset.None? then None
    else if v.cu.value.image.None? then None
    else
      var image := v.cu.value.image.value;
      if image.dwarf.None? then None
      else match EntryAt(image, v.offset.value)
        case Err(_) => None
        case Ok(None) => None
        case Ok(Some(e)) =>
          if e.tag != TagVariable then None
          else if e.name.None? || v.name.value != e.name.value then None
          else match EntryType(image.dwarf.value, e)
            case Err(_) => None
            case Ok(t) =>
              var dname := DwarfTypeName(t);
              if dname == "<unspecified>" || dname == "" then None
              else Some(Candidate(e.name.value, v.addr.value, dname))
  }

  /** The private package-variable list; an empty one when the field is absent. */
  function PackageVars(bi: BinaryInfo): seq<PackageVar>
  {
    if bi.packageVars.Some? then bi.packageVars.value else []
  }

  /**
   * The table the loop leaves, given the type each record resolved to (None
   * for a skipped record): starting from an empty table, each bound record
   * in list order sets the entry of its name.
   */
  function Bindings(vars: seq<PackageVar>, types: seq<Option<RType>>): map<string, Global>
    requires |vars| == |types|
    decreases |vars|
  {
    if vars == [] then map[]
    else
      var n := |vars| - 1;
      var m := Bindings(vars[..n], types[..n]);
      var c := VarCandidate(vars[n]);
      if c.Some? && types[n].Some? then m[c.value.name := Global(c.value.addr, types[n].value)] else m
  }

  /** Record i is bound, under `name`. */
  ghost predicate BoundAt(vars: seq<PackageVar>, types: seq<Option<RType>>, i: int, name: string)
  {
    && 0 <= i < |vars| && i < |types| && types[i].Some?
    && VarCandidate(vars[i]).Some? && VarCandidate(vars[i]).value.name == name
  }

  /** A name is in the table exactly when some record is bound under it. */
  lemma {:induction false} BindingsDomain(vars: seq<PackageVar>, types: seq<Option<RType>>, name: string)
    requires |vars| == |types|
    ensures name in Bindings(vars, types) <==> exists i :: BoundAt(vars, types, i, name)
    decreases |vars|
  {
    if vars != [] {
      var n := |vars| - 1;
      BindingsDomain(vars[..n], types[..n], name);
      forall i | 0 <= i < n
        ensures BoundAt(vars[..n], types[..n], i, name) <==> BoundAt(vars, types, i, name)
      {
      }
      if name in Bindings(vars, types) && !BoundAt(vars, types, n, name) {
        var i :| BoundAt(vars[..n], types[..n], i, name);
        assert BoundAt(vars, types, i, name);
      }
    }
  }

  /** The entry of a name comes from the last record bound under it. */
  lemma {:induction false} BindingsLastWins(vars: seq<PackageVar>, types: seq<Option<RType>>, name: string, i: nat)
    requires |vars| == |types|
    requires BoundAt(vars, types, i, name)
    requires forall j :: i < j < |vars| ==> !BoundAt(vars, types, j, name)
    ensures name in Bindings(vars, types)
    ensures Bindings(vars, types)[name] == Global(VarCandidate(vars[i]).value.addr, types[i].value)
    decreases |vars|
  {
    var n := |vars| - 1;
    if i < n {
      forall j | i < j < n
        ensures !BoundAt(vars[..n], types[..n], j, name)
      {
        assert !BoundAt(vars, types, j, name);
      }
      BindingsLastWins(vars[..n], types[..n], name, i);
      assert !BoundAt(vars, types, n, name);
    }
  }

  /** Every entry of the table is the binding of some record bound under its name. */
  lemma {:induction false} BindingsRecord(vars: seq<PackageVar>, types: seq<Option<RType>>, name: string)
    requires |vars| == |types|
    requires name in Bindings(vars, types)
    ensures exists i ::
      (BoundAt(vars, types, i, name)
       && Bindings(vars, types)[name] == Global(VarCandidate(vars[i]).value.addr, types[i].value))
    decreases |vars|
  {
    var n := |vars| - 1;
    if BoundAt(vars, types, n, name) {
      assert Bindings(vars, types)[name] == Global(VarCandidate(vars[n]).value.addr, types[n].value);
    } else {
      BindingsRecord(vars[..n], types[..n], name);
      var i :| BoundAt(vars[..n], types[..n], i, name)
        && Bindings(vars[..n], types[..n])[name] == Global(VarCandidate(vars[..n][i]).value.addr, types[..n][i].value);
      assert BoundAt(vars, types, i, name);
    }
  }

  /**
   * What the type lookup of a candidate yields: a type exactly when its
   * name resolves in the state with the caches `before` (the debugger
   * library knows it and its resolution succeeds), and then the resolution,
   * read against the caches `after`: the rebased back-reference, or the
   * first image cache that hits. Never the nil type.
   */
  ghost predicate TypeOutcome(foreign: Foreign, bi: BinaryInfo, mds: seq<ModuleData>,
                              before: map<nat, map<string, uint64>>, after: map<nat, map<string, uint64>>,
                              c: Candidate, t: Option<RType>)
  {
    && (t.Some? <==> TypeResolves(foreign, bi, mds, before, c.typeName))
    && (t.Some? ==> ResolvedIn(foreign, bi, mds, after, c.typeName, t.value))
  }

  /** Each record's type: none for a skipped record, otherwise what its type lookup gave. */
  ghost predicate ResolvedTypes(foreign: Foreign, bi: BinaryInfo, mds: seq<ModuleData>,
                                before: map<nat, map<string, uint64>>, after: map<nat, map<string, uint64>>,
                                vars: seq<PackageVar>, types: seq<Option<RType>>)
  {
    && |types| == |vars|
    && forall i :: 0 <= i < |vars| ==>
         match VarCandidate(vars[i])
         case None => types[i].None?
         case Some(c) => TypeOutcome(foreign, bi, mds, before, after, c, types[i])
  }

  /** Later cache growth keeps every record's resolution. */
  lemma ResolvedTypesGrow(foreign: Foreign, bi: BinaryInfo, mds: seq<ModuleData>, before: map<nat, map<string, uint64>>,
                          c1: map<nat, map<string, uint64>>, c2: map<nat, map<string, uint64>>,
                          vars: seq<PackageVar>, types: seq<Option<RType>>)
    requires ResolvedTypes(foreign, bi, mds, before, c1, vars, types) && CachesGrow(c1, c2)
    ensures ResolvedTypes(foreign, bi, mds, before, c2, vars, types)
  {
    forall i | 0 <= i < |vars| && VarCandidate(vars[i]).Some? && types[i].Some?
      ensures ResolvedIn(foreign, bi, mds, c2, VarCandidate(vars[i]).value.typeName, types[i].value)
    {
      ResolvedInGrow(foreign, bi, mds, c1, c2, VarCandidate(vars[i]).value.typeName, types[i].value);
    }
  }

  /**
   * `g` is the table loadGlobals produces from this binary, starting with
   * the caches `before` and ending with the caches `after`.
   */
  ghost predicate LoadedFrom(foreign: Foreign, bi: BinaryInfo, mds: seq<ModuleData>,
                             before: map<nat, map<string, uint64>>, after: map<nat, map<string, uint64>>, g: map<string, Global>)
  {
    exists types :: ResolvedTypes(foreign, bi, mds, before, after, PackageVars(bi), types) && g == Bindings(PackageVars(bi), types)
  }

  /** Record i passed the checks under `name` and lives at `addr`. */
  ghost predicate RecordAt(vars: seq<PackageVar>, i: int, name: string, addr: uint64)
  {
    0 <= i < |vars| && VarCandidate(vars[i]).Some? && VarCandidate(vars[i]).value.name == name
      && VarCandidate(vars[i]).value.addr == addr
  }

  /** Every binding of a loaded table is some record that passed the checks, at that record's address. */
  lemma BindingHasRecord(foreign: Foreign, bi: BinaryInfo, mds: seq<ModuleData>,
                          before: map<nat, map<string, uint64>>, after: map<nat, map<string, uint64>>,
                          g: map<string, Global>, name: string)
    requires LoadedFrom(foreign, bi, mds, before, after, g)
    requires name in g
    ensures exists i :: RecordAt(PackageVars(bi), i, name, g[name].addr)
  {
    var vars := PackageVars(bi);
    var types: seq<Option<RType>> :| ResolvedTypes(foreign, bi, mds, before, after, vars, types) && g == Bindings(vars, types);
    BindingsRecord(vars, types, name);
    var i: int :| BoundAt(vars, types, i, name) && g[name] == Global(VarCandidate(vars[i]).value.addr, types[i].value);
    assert RecordAt(vars, i, name, g[name].addr);
  }

  /** One more record, with the type its lookup gave, extends the resolved types. */
  lemma ResolvedTypesSnoc(foreign: Foreign, bi: BinaryInfo, mds: seq<ModuleData>,
                          before: map<nat, map<string, uint64>>, after: map<nat, map<string, uint64>>,
                          vars: seq<PackageVar>, types: seq<Option<RType>>, i: nat, t: Option<RType>)
    requires i < |vars|
    requires ResolvedTypes(foreign, bi, mds, before, after, vars[..i], types)
    requires VarCandidate(vars[i]).None? ==> t.None?
    requires VarCandidate(vars[i]).Some? ==> TypeOutcome(foreign, bi, mds, before, after, VarCandidate(vars[i]).value, t)
    ensures ResolvedTypes(foreign, bi, mds, before, after, vars[..i + 1], types + [t])
  {
    assert vars[..i + 1] == vars[..i] + [vars[i]];
  }

  /** The type lookup of one candidate in loadGlobals: a failed lookup or a nil type is no type. */
  method CandidateType(d: Dwarf, c: Candidate) returns (t: Option<RType>)
    requires d.bi.Some?
    modifies d`imageCacheTypes
    ensures CachesBuilt(d.foreign, d.bi.value, d.mds, old(d.imageCacheTypes), d.imageCacheTypes)
    ensures TypeOutcome(d.foreign, d.bi.value, d.mds, old(d.imageCacheTypes), d.imageCacheTypes, c, t)
  {
    var rtyp := FindType(d, c.typeName);
    if rtyp.Ok? && rtyp.value.addr != 0 {
      t := Some(rtyp.value);
    } else {
      t := None;
    }
  }

  /** One more record, with its type, updates the table as the loop body does. */
  lemma BindingsSnoc(vars: seq<PackageVar>, types: seq<Option<RType>>, i: nat, t: Option<RType>)
    requires i < |vars| && |types| == i
    ensures var m := Bindings(vars[..i], types);
      var c := VarCandidate(vars[i]);
      Bindings(vars[..i + 1], types + [t]) ==
        if c.Some? && t.Some? then m[c.value.name := Global(c.value.addr, t.value)] else m
  {
    assert vars[..i + 1][..i] == vars[..i];
    assert (types + [t])[..i] == types;
  }

  /** loadGlobals(): rebuild the table from an empty one. */
  method LoadGlobals(d: Dwarf)
    requires d.bi.Some?
    modifies d`globals, d`imageCacheTypes
    ensures CachesBuilt(d.foreign, d.bi.value, d.mds, old(d.imageCacheTypes), d.imageCacheTypes)
    ensures d.globals.Some? && LoadedFrom(d.foreign, d.bi.value, d.mds, old(d.imageCacheTypes), d.imageCacheTypes, d.globals.value)
  {
    d.globals := Some(map[]);
    var vars := PackageVars(d.bi.value);
    ghost var c0 := d.imageCacheTypes;
    ghost var types: seq<Option<RType>> := [];
    for i := 0 to |vars|
      invariant CachesBuilt(d.foreign, d.bi.value, d.mds, c0, d.imageCacheTypes)
      invariant ResolvedTypes(d.foreign, d.bi.value, d.mds, c0, d.imageCacheTypes, vars[..i], types)
      invariant d.globals == Some(Bindings(vars[..i], types))
    {
      var c := VarCandidate(vars[i]);
      var t: Option<RType> := None;
      if c.Some? {
        ghost var before := d.imageCacheTypes;
        TypeResolvesStable(d.foreign, d.bi.value, d.mds, c0, before, c.value.typeName);
        t := CandidateType(d, c.value);
        CachesBuiltTrans(d.foreign, d.bi.value, d.mds, c0, before, d.imageCacheTypes);
        ResolvedTypesGrow(d.foreign, d.bi.value, d.mds, c0, before, d.imageCacheTypes, vars[..i], types);
        if t.Some? {
          d.globals := Some(d.globals.value[c.value.name := Global(c.value.addr, t.value)]);
        }
      }
      ResolvedTypesSnoc(d.foreign, d.bi.value, d.mds, c0, d.imageCacheTypes, vars, types, i, t);
      BindingsSnoc(vars, types, i, t);
      types := types + [t];
    }
    assert vars[..|vars|] == vars;
  }

  /**
   * FindGlobal(name): the binding of a package variable. The table is
   * loaded only when absent; a name it lacks is ErrNotFound.
   */
  method FindGlobal(d: Dwarf, name: string) returns (r: Result<Global>)
    modifies d`globals, d`imageCacheTypes
    ensures d.bi.None? ==> r == Err(NeedInit) && unchanged(d)
    ensures old(d.globals).Some? ==> d.globals == old(d.globals) && d.imageCacheTypes == old(d.imageCacheTypes)
    ensures d.bi.Some? ==> CachesBuilt(d.foreign, d.bi.value, d.mds, old(d.imageCacheTypes), d.imageCacheTypes)
    ensures d.bi.Some? && old(d.globals).None? ==>
      d.globals.Some? && LoadedFrom(d.foreign, d.bi.value, d.mds, old(d.imageCacheTypes), d.imageCacheTypes, d.globals.value)
    ensures d.bi.Some? ==>
      && d.globals.Some?
      && (name in d.globals.value ==> r == Ok(d.globals.value[name]))
      && (name !in d.globals.value ==> r == Err(NotFound))
  {
    var check := d.Check();
    if check.Some? {
      return Err(check.value);
    }
    if d.globals.None? {
      LoadGlobals(d);
    }
    if name !in d.globals.value {
      return Err(NotFound);
    }
    return Ok(d.globals.value[name]);
  }

  /**
   * ForeachGlobal(f): the bindings f is called with. The table is loaded
   * only when absent; the order of the calls is Go's map order and is not
   * modelled, so the result is the table itself.
   */
  method ForeachGlobal(d: Dwarf) returns (r: Result<map<string, Global>>)
    modifies d`globals, d`imageCacheTypes
    ensures d.bi.None? ==> r == Err(NeedInit) && unchanged(d)
    ensures old(d.globals).Some? ==> d.globals == old(d.globals) && d.imageCacheTypes == old(d.imageCacheTypes)
    ensures d.bi.Some? ==> CachesBuilt(d.foreign, d.bi.value, d.mds, old(d.imageCacheTypes), d.imageCacheTypes)
    ensures d.bi.Some? && old(d.globals).None? ==>
      d.globals.Some? && LoadedFrom(d.foreign, d.bi.value, d.mds, old(d.imageCacheTypes), d.imageCacheTypes, d.globals.value)
    ensures d.bi.Some? ==> d.globals.Some? && r == Ok(d.globals.value)
  {
    var check := d.Check();
    if check.Some? {
      return Err(check.value);
    }
    if d.globals.None? {
      LoadGlobals(d);
    }
    return Ok(d.globals.value);
  }
}
