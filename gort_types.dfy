/**
 * gort_types.go: resolving a type name to the address of its runtime type
 * descriptor. A type's debug-information entry either carries a
 * back-reference into its image's type-metadata section, rebased by the
 * image's module descriptor, or, lacking one, is looked up by name in the
 * per-image caches of the images added after the main binary.
 */
module GortTypes {
  import opened Base
  import opened Delve
  import opened Gort

  /**
   * The rebase rule: a runtime-type reference is an offset into the
   * type-metadata section [types, etypes) when types + off lands inside it,
   * and is kept as an address otherwise. The uint64 sum may wrap around; a
   * wrapped sum is below `types` and so also keeps `off`.
   */
  function Rebase(types: uint64, etypes: uint64, off: uint64): (addr: uint64)
    ensures types + off < etypes ==> addr == types + off
    ensures types + off >= etypes ==> addr == off
    ensures off != 0 ==> addr != 0
  {
    var typeAddr := Add64(types, off);
    if typeAddr < types || typeAddr >= etypes then off else typeAddr
  }

  /** Go's `m[k]` on a map from names to addresses: 0 for a missing name. */
  function Lookup(m: map<string, uint64>, k: string): uint64
  {
    if k in m then m[k] else 0
  }

  /** The name of the entry at `off` of an image, when it reads and has one. */
  function DieName(img: Image, off: nat): Option<string>
  {
    var e := EntryAt(img, off);
    if e.Ok? && e.value.Some? then e.value.value.name else None
  }

  /** `addr` is what some non-zero runtime-type key of the image, whose entry is named `name`, rebases to. */
  ghost predicate CachedFrom(img: Image, md: ModuleData, name: string, addr: uint64)
  {
    exists k :: k in img.runtimeTypeToDIE && k != 0 && DieName(img, img.runtimeTypeToDIE[k]) == Some(name)
      && addr == Rebase(md.types, md.etypes, k)
  }

  /**
   * What findImageType builds for an image: nothing when the image has no
   * module descriptor; otherwise exactly the names of the entries its
   * non-zero runtime-type keys point to, each bound to one of those keys,
   * rebased. Which key wins for a name that two keys share depends on Go's
   * map iteration order and is not fixed here.
   */
  ghost predicate ImageCache(img: Image, md: Option<ModuleData>, cache: map<string, uint64>)
  {
    match md
    case None => cache == map[]
    case Some(m) =>
      && (forall name :: name in cache ==> CachedFrom(img, m, name, cache[name]))
      && (forall k :: k in img.runtimeTypeToDIE && k != 0 && DieName(img, img.runtimeTypeToDIE[k]).Some? ==>
            DieName(img, img.runtimeTypeToDIE[k]).value in cache)
  }

  /** A cached address is never 0, so a 0 answer from the cache means "unknown name". */
  lemma {:induction false} ImageCacheHit(img: Image, md: Option<ModuleData>, cache: map<string, uint64>, name: string)
    requires ImageCache(img, md, cache)
    ensures Lookup(cache, name) != 0 <==> name in cache
    ensures md.Some? && Lookup(cache, name) == 0 ==>
      forall k :: k in img.runtimeTypeToDIE && k != 0 ==> DieName(img, img.runtimeTypeToDIE[k]) != Some(name)
  {
    if name in cache {
      var k :| k in img.runtimeTypeToDIE && k != 0 && DieName(img, img.runtimeTypeToDIE[k]) == Some(name)
        && cache[name] == Rebase(md.value.types, md.value.etypes, k);
    }
  }

  /**
   * findImageType(img, name): the image's cache is created and stored before
   * it is filled, so each image is scanned at most once, even when the scan
   * stops at a missing module descriptor (the cache then stays empty).
   * Afterwards the answer is the cached address, or 0.
   */
  method FindImageType(d: Dwarf, img: nat, name: string) returns (addr: uint64)
    requires d.bi.Some? && img < |d.bi.value.images|
    modifies d`imageCacheTypes
    ensures img in d.imageCacheTypes && addr == Lookup(d.imageCacheTypes[img], name)
    ensures d.imageCacheTypes == old(d.imageCacheTypes)[img := d.imageCacheTypes[img]]
    ensures img in old(d.imageCacheTypes) ==> d.imageCacheTypes[img] == old(d.imageCacheTypes)[img]
    ensures img !in old(d.imageCacheTypes) ==>
      ImageCache(d.bi.value.images[img], d.foreign.imageToModuleData(d.bi.value, img, d.mds), d.imageCacheTypes[img])
  {
    if img in d.imageCacheTypes {
      return Lookup(d.imageCacheTypes[img], name);
    }
    var cache: map<string, uint64> := map[];
    d.imageCacheTypes := d.imageCacheTypes[img := cache];

    var image := d.bi.value.images[img];
    var md := d.foreign.imageToModuleData(d.bi.value, img, d.mds);
    if md.None? {
      return 0;
    }
    var m := md.value;
    var rt := image.runtimeTypeToDIE;
    var pending := rt.Keys;
    while pending != {}
      invariant pending <= rt.Keys
      invariant forall nm :: nm in cache ==> CachedFrom(image, m, nm, cache[nm])
      invariant forall k :: k in rt && k !in pending && k != 0 && DieName(image, rt[k]).Some? ==>
        DieName(image, rt[k]).value in cache
      decreases pending
    {
      var k :| k in pending;
      pending := pending - {k};
      var entry := EntryAt(image, rt[k]);
      if entry.Err? || entry.value.None? {
        continue;
      }
      var entryName := entry.value.value.name;
      if entryName.None? {
        continue;
      }
      if k == 0 {
        continue;
      }
      assert CachedFrom(image, m, entryName.value, Rebase(m.types, m.etypes, k));
      cache := cache[entryName.value := Rebase(m.types, m.etypes, k)];
    }
    d.imageCacheTypes := d.imageCacheTypes[img := cache];
    addr := Lookup(cache, name);
  }

  /**
   * The checks dwarfToRuntimeType makes before it picks a path: the type's
   * image must exist and the entry at the type's offset must read and carry
   * the name asked for. The answer is the entry's runtime-type
   * back-reference, or None when it is absent or zero.
   */
  function BackReference(bi: BinaryInfo, typ: GoType, name: string): (r: Result<Option<uint64>>)
    ensures typ.index >= |bi.images| ==> r == Err(NoImageForType(name))
    ensures r.Ok? <==> typ.index < |bi.images| && DieName(bi.images[typ.index], typ.offset) == Some(name)
    ensures r.Ok? && r.value.Some? ==> r.value.value != 0
  {
    if typ.index >= |bi.images| then Err(NoImageForType(name))
    else match EntryAt(bi.images[typ.index], typ.offset)
      case Err(_) => Err(NoDwarfEntry(name))
      case Ok(None) => Err(NoDwarfEntry(name))
      case Ok(Some(e)) =>
        if e.name != Some(name) then Err(NoNameForType(name))
        else if e.runtimeType.None? || e.runtimeType.value == 0 then Ok(None)
        else Ok(e.runtimeType)
  }

  /**
   * The outcome of dwarfToRuntimeType when the entry has a back-reference:
   * the rebased address, or an error when the image has no module
   * descriptor; Ok(None) when the per-image caches must be consulted.
   */
  ghost function DirectResolution(foreign: Foreign, bi: BinaryInfo, mds: seq<ModuleData>, typ: GoType, name: string): Result<Option<uint64>>
  {
    match BackReference(bi, typ, name)
    case Err(e) => Err(e)
    case Ok(None) => Ok(None)
    case Ok(Some(off)) =>
      match foreign.imageToModuleData(bi, typ.index, mds)
      case None => Err(NoModuleData(name))
      case Some(md) => Ok(Some(Rebase(md.types, md.etypes, off)))
  }

  /** Caches already built are kept as they are. */
  ghost predicate CachesGrow(before: map<nat, map<string, uint64>>, after: map<nat, map<string, uint64>>)
  {
    forall i :: i in before ==> i in after && after[i] == before[i]
  }

  /** Caches already built are kept, and each new one is the cache findImageType builds for one of images 1.. */
  ghost predicate CachesBuilt(foreign: Foreign, bi: BinaryInfo, mds: seq<ModuleData>,
                              before: map<nat, map<string, uint64>>, after: map<nat, map<string, uint64>>)
  {
    && CachesGrow(before, after)
    && forall i :: i in after && i !in before ==>
         1 <= i < |bi.images| && ImageCache(bi.images[i], foreign.imageToModuleData(bi, i, mds), after[i])
  }

  /** Building caches in two rounds is building them once. */
  lemma CachesBuiltTrans(foreign: Foreign, bi: BinaryInfo, mds: seq<ModuleData>,
                         c1: map<nat, map<string, uint64>>, c2: map<nat, map<string, uint64>>, c3: map<nat, map<string, uint64>>)
    requires CachesBuilt(foreign, bi, mds, c1, c2) && CachesBuilt(foreign, bi, mds, c2, c3)
    ensures CachesBuilt(foreign, bi, mds, c1, c3)
  {
  }

  /**
   * Image j has a module descriptor and a non-zero runtime-type key whose
   * entry is named `name`: the cache findImageType builds for it binds the name.
   */
  ghost predicate NameInImage(foreign: Foreign, bi: BinaryInfo, mds: seq<ModuleData>, j: nat, name: string)
  {
    && j < |bi.images|
    && foreign.imageToModuleData(bi, j, mds).Some?
    && exists k :: k in bi.images[j].runtimeTypeToDIE && k != 0
         && DieName(bi.images[j], bi.images[j].runtimeTypeToDIE[k]) == Some(name)
  }

  /** Consulting image j for `name` hits: its cache, when built, answers non-zero; otherwise the cache it gets will bind the name. */
  ghost predicate KnownTo(foreign: Foreign, bi: BinaryInfo, mds: seq<ModuleData>,
                          caches: map<nat, map<string, uint64>>, j: nat, name: string)
  {
    if j in caches then Lookup(caches[j], name) != 0 else NameInImage(foreign, bi, mds, j, name)
  }

  /** Building caches does not change which images know a name. */
  lemma KnownToBuilt(foreign: Foreign, bi: BinaryInfo, mds: seq<ModuleData>,
                     before: map<nat, map<string, uint64>>, after: map<nat, map<string, uint64>>, j: nat, name: string)
    requires CachesBuilt(foreign, bi, mds, before, after)
    ensures KnownTo(foreign, bi, mds, before, j, name) <==> KnownTo(foreign, bi, mds, after, j, name)
  {
    if j in after && j !in before {
      var img := bi.images[j];
      var md := foreign.imageToModuleData(bi, j, mds);
      ImageCacheHit(img, md, after[j], name);
      if name in after[j] {
        assert md.Some?;
        assert CachedFrom(img, md.value, name, after[j][name]);
      }
      if NameInImage(foreign, bi, mds, j, name) {
        var k :| k in img.runtimeTypeToDIE && k != 0 && DieName(img, img.runtimeTypeToDIE[k]) == Some(name);
        assert DieName(img, img.runtimeTypeToDIE[k]).value in after[j];
      }
    }
  }

  /** Image i is the first of images 1.. whose cache answers `name` with a non-zero address. */
  ghost predicate FirstHit(caches: map<nat, map<string, uint64>>, name: string, n: nat, i: nat, addr: uint64)
  {
    && 1 <= i < n && i in caches && Lookup(caches[i], name) == addr && addr != 0
    && forall j :: 1 <= j < i ==> j in caches && Lookup(caches[j], name) == 0
  }

  /**
   * The fallback path of dwarfToRuntimeType: images 1..n-1 are consulted in
   * order (image 0, the main binary, never), building their caches where
   * missing; the answer is the first non-zero hit, or an error when none of
   * them knows the name.
   */
  ghost predicate FallbackOutcome(foreign: Foreign, bi: BinaryInfo, mds: seq<ModuleData>,
                                  before: map<nat, map<string, uint64>>, after: map<nat, map<string, uint64>>,
                                  name: string, r: Result<uint64>)
  {
    var n := |bi.images|;
    && CachesBuilt(foreign, bi, mds, before, after)
    && (r.Ok? ==> exists i :: FirstHit(after, name, n, i, r.value))
    && (r.Err? ==> r.error == NoRuntimeType(name) && forall j :: 1 <= j < n ==> j in after && Lookup(after[j], name) == 0)
  }

  /** The fallback search succeeds exactly when one of images 1.. knows the name in the state before it. */
  lemma FallbackSucceeds(foreign: Foreign, bi: BinaryInfo, mds: seq<ModuleData>,
                         before: map<nat, map<string, uint64>>, after: map<nat, map<string, uint64>>,
                         name: string, r: Result<uint64>)
    requires FallbackOutcome(foreign, bi, mds, before, after, name, r)
    ensures r.Ok? <==> exists j: nat :: 1 <= j < |bi.images| && KnownTo(foreign, bi, mds, before, j, name)
  {
    if r.Ok? {
      var i: nat :| FirstHit(after, name, |bi.images|, i, r.value);
      KnownToBuilt(foreign, bi, mds, before, after, i, name);
    } else {
      forall j: nat | 1 <= j < |bi.images|
        ensures !KnownTo(foreign, bi, mds, before, j, name)
      {
        KnownToBuilt(foreign, bi, mds, before, after, j, name);
      }
    }
  }

  /** Images 1..i-1 have been consulted without a hit; caches built so far are for those images. */
  ghost predicate Consulted(foreign: Foreign, bi: BinaryInfo, mds: seq<ModuleData>,
                            before: map<nat, map<string, uint64>>, after: map<nat, map<string, uint64>>,
                            name: string, i: nat)
  {
    && CachesGrow(before, after)
    && (forall j :: j in after && j !in before ==>
          1 <= j < i && j < |bi.images| && ImageCache(bi.images[j], foreign.imageToModuleData(bi, j, mds), after[j]))
    && (forall j :: 1 <= j < i ==> j in after && Lookup(after[j], name) == 0)
  }

  /** The fallback loop of dwarfToRuntimeType: the images after the main binary, in order. */
  method SearchImages(d: Dwarf, name: string) returns (r: Result<uint64>)
    requires d.bi.Some?
    modifies d`imageCacheTypes
    ensures r.Ok? ==> r.value != 0
    ensures FallbackOutcome(d.foreign, d.bi.value, d.mds, old(d.imageCacheTypes), d.imageCacheTypes, name, r)
  {
    var bi := d.bi.value;
    var i := 1;
    while i < |bi.images|
      invariant 1 <= i
      invariant Consulted(d.foreign, bi, d.mds, old(d.imageCacheTypes), d.imageCacheTypes, name, i)
    {
      var addr := FindImageType(d, i, name);
      if addr != 0 {
        assert FirstHit(d.imageCacheTypes, name, |bi.images|, i, addr);
        return Ok(addr);
      }
      i := i + 1;
    }
    return Err(NoRuntimeType(name));
  }

  /** dwarfToRuntimeType(typ, name): the runtime type address of a debug-information type. */
  method DwarfToRuntimeType(d: Dwarf, typ: GoType, name: string) returns (r: Result<uint64>)
    requires d.bi.Some?
    modifies d`imageCacheTypes
    ensures r.Ok? ==> r.value != 0
    ensures var direct := DirectResolution(d.foreign, d.bi.value, d.mds, typ, name);
      && (direct.Err? ==> r == Err(direct.error) && d.imageCacheTypes == old(d.imageCacheTypes))
      && (direct.Ok? && direct.value.Some? ==> r == Ok(direct.value.value) && d.imageCacheTypes == old(d.imageCacheTypes))
      && (direct == Ok(None) ==>
            FallbackOutcome(d.foreign, d.bi.value, d.mds, old(d.imageCacheTypes), d.imageCacheTypes, name, r))
  {
    var bi := d.bi.value;
    var back := BackReference(bi, typ, name);
    if back.Err? {
      return Err(back.error);
    }
    if back.value.None? {
      r := SearchImages(d, name);
      return;
    }
    var md := d.foreign.imageToModuleData(bi, typ.index, d.mds);
    if md.None? {
      return Err(NoModuleData(name));
    }
    return Ok(Rebase(md.value.types, md.value.etypes, back.value.value));
  }

  /**
   * FindType(name) succeeds in a state with these caches: the debugger
   * library knows the name, the resolution's checks pass, and without a
   * back-reference one of images 1.. knows the name.
   */
  ghost predicate TypeResolves(foreign: Foreign, bi: BinaryInfo, mds: seq<ModuleData>,
                               caches: map<nat, map<string, uint64>>, name: string)
  {
    && foreign.findType(bi, name).Ok?
    && var direct := DirectResolution(foreign, bi, mds, foreign.findType(bi, name).value, name);
    && direct.Ok?
    && (direct.value.None? ==> exists j: nat :: 1 <= j < |bi.images| && KnownTo(foreign, bi, mds, caches, j, name))
  }

  /** Whether a name resolves does not change as caches are built. */
  lemma TypeResolvesStable(foreign: Foreign, bi: BinaryInfo, mds: seq<ModuleData>,
                           before: map<nat, map<string, uint64>>, after: map<nat, map<string, uint64>>, name: string)
    requires CachesBuilt(foreign, bi, mds, before, after)
    ensures TypeResolves(foreign, bi, mds, before, name) <==> TypeResolves(foreign, bi, mds, after, name)
  {
    forall j: nat | 1 <= j < |bi.images|
      ensures KnownTo(foreign, bi, mds, before, j, name) <==> KnownTo(foreign, bi, mds, after, j, name)
    {
      KnownToBuilt(foreign, bi, mds, before, after, j, name);
    }
  }

  /**
   * `t` is the type FindType(name) answers, read against the caches as
   * they are afterwards: never the nil type, the rebased back-reference
   * when there is one, and otherwise the first image cache that hits.
   */
  ghost predicate ResolvedIn(foreign: Foreign, bi: BinaryInfo, mds: seq<ModuleData>,
                             caches: map<nat, map<string, uint64>>, name: string, t: RType)
  {
    && t.addr != 0
    && foreign.findType(bi, name).Ok?
    && var direct := DirectResolution(foreign, bi, mds, foreign.findType(bi, name).value, name);
    && direct.Ok?
    && (direct.value.Some? ==> t.addr == direct.value.value)
    && (direct.value.None? ==> exists j: nat :: FirstHit(caches, name, |bi.images|, j, t.addr))
  }

  /** Later cache growth does not change a resolution. */
  lemma ResolvedInGrow(foreign: Foreign, bi: BinaryInfo, mds: seq<ModuleData>,
                       c1: map<nat, map<string, uint64>>, c2: map<nat, map<string, uint64>>, name: string, t: RType)
    requires ResolvedIn(foreign, bi, mds, c1, name, t) && CachesGrow(c1, c2)
    ensures ResolvedIn(foreign, bi, mds, c2, name, t)
  {
    var direct := DirectResolution(foreign, bi, mds, foreign.findType(bi, name).value, name);
    if direct.value.None? {
      var j: nat :| FirstHit(c1, name, |bi.images|, j, t.addr);
      assert FirstHit(c2, name, |bi.images|, j, t.addr);
    }
  }

  /** Result<RType> seen as the address it carries. */
  function AddrOf(r: Result<RType>): Result<uint64>
  {
    if r.Ok? then Ok(r.value.addr) else Err(r.error)
  }

  /**
   * FindType(name): the debugger library's type of that name, resolved to a
   * runtime type. Every failure, of the lookup or of the resolution, is an
   * error and never a type; a type it returns is never the nil type.
   */
  method FindType(d: Dwarf, name: string) returns (r: Result<RType>)
    modifies d`imageCacheTypes
    ensures r.Ok? ==> r.value.addr != 0
    ensures d.bi.None? ==> r == Err(NeedInit) && d.imageCacheTypes == old(d.imageCacheTypes)
    ensures d.bi.Some? ==>
      var found := d.foreign.findType(d.bi.value, name);
      && (found.Err? ==> r == Err(found.error) && d.imageCacheTypes == old(d.imageCacheTypes))
      && (found.Ok? ==>
            var direct := DirectResolution(d.foreign, d.bi.value, d.mds, found.value, name);
            && (direct.Err? ==> r == Err(direct.error) && d.imageCacheTypes == old(d.imageCacheTypes))
            && (direct.Ok? && direct.value.Some? ==>
                  r == Ok(RType(direct.value.value)) && d.imageCacheTypes == old(d.imageCacheTypes))
            && (direct == Ok(None) ==>
                  FallbackOutcome(d.foreign, d.bi.value, d.mds, old(d.imageCacheTypes), d.imageCacheTypes, name, AddrOf(r))))
    ensures d.bi.Some? ==> CachesBuilt(d.foreign, d.bi.value, d.mds, old(d.imageCacheTypes), d.imageCacheTypes)
    ensures d.bi.Some? ==> (r.Ok? <==> TypeResolves(d.foreign, d.bi.value, d.mds, old(d.imageCacheTypes), name))
    ensures d.bi.Some? && r.Ok? ==> ResolvedIn(d.foreign, d.bi.value, d.mds, d.imageCacheTypes, name, r.value)
  {
    var check := d.Check();
    if check.Some? {
      return Err(check.value);
    }
    var found := d.foreign.findType(d.bi.value, name);
    if found.Err? {
      return Err(found.error);
    }
    var typeAddr := DwarfToRuntimeType(d, found.value, name);
    if DirectResolution(d.foreign, d.bi.value, d.mds, found.value, name) == Ok(None) {
      FallbackSucceeds(d.foreign, d.bi.value, d.mds, old(d.imageCacheTypes), d.imageCacheTypes, name, typeAddr);
    }
    if typeAddr.Err? {
      return Err(typeAddr.error);
    }
    return Ok(RType(typeAddr.value));
  }

  /** ForeachType(f): the type names f is called with, in the debugger library's order. */
  method ForeachType(d: Dwarf) returns (r: Result<seq<string>>)
    ensures d.bi.None? ==> r == Err(NeedInit)
    ensures d.bi.Some? ==> r == d.foreign.types(d.bi.value)
  {
    var check := d.Check();
    if check.Some? {
      return Err(check.value);
    }
    var types := d.foreign.types(d.bi.value);
    if types.Err? {
      return Err(types.error);
    }
    var visited := [];
    for i := 0 to |types.value|
      invariant visited == types.value[..i]
    {
      visited := visited + [types.value[i]];
    }
    assert visited == types.value;
    return Ok(visited);
  }
}
