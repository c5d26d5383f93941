/**
 * gort.go: the session object. A session holds the loaded binary, the
 * module descriptors of its images, the lazily built table of package
 * variables and the per-image type-name caches, and moves between
 * "not initialised", "initialised" and "refreshed after an image was added".
 */
module Gort {
  import opened Base
  import opened Delve

  /** A package variable bound to its address and runtime type (reflect.NewAt(type, addr).Elem()). */
  datatype Global = Global(addr: uint64, typ: RType)

  class Dwarf {
    /** The debugger library and runtime the session calls into. */
    const foreign: Foreign

    var bi: Option<BinaryInfo>
    var mds: seq<ModuleData>
    /** None is Go's nil map: the bindings have not been loaded since the last refresh. */
    var globals: Option<map<string, Global>>
    /** Per image (by its position in bi.images, which only grows), its type name -> address cache. */
    var imageCacheTypes: map<nat, map<string, uint64>>

    /** `&Dwarf{}`: a session with nothing loaded. */
    constructor (foreign: Foreign)
      ensures this.foreign == foreign
      ensures bi == None && mds == [] && globals == None && imageCacheTypes == map[]
    {
      this.foreign := foreign;
      bi := None;
      mds := [];
      globals := None;
      imageCacheTypes := map[];
    }

    /** check(): every public operation fails with ErrNeedInit until a binary is loaded. */
    function Check(): (r: Option<Error>)
      reads this
      ensures r == None <==> bi.Some?
      ensures r.Some? ==> r.value == NeedInit
    {
      if bi.None? then Some(NeedInit) else None
    }

    /**
     * init(path): load the binary at `path`, or at the running executable's
     * path when `path` is empty, then compute the module descriptors.
     * `executable` is what os.Executable reports. The binary is stored only
     * once it has loaded; a descriptor failure leaves it stored but returns
     * the error.
     */
    method Init(path: string, executable: Result<string>) returns (err: Option<Error>)
      modifies this
      ensures imageCacheTypes == old(imageCacheTypes)
      ensures path == "" && executable.Err? ==>
        err == Some(executable.error) && unchanged(this)
      ensures path != "" || executable.Ok? ==>
        var loaded := foreign.loadBinaryInfo(if path == "" then executable.value else path);
        && (loaded.Err? ==> err == Some(loaded.error) && unchanged(this))
        && (loaded.Ok? ==>
              && bi == Some(loaded.value)
              && var modules := foreign.loadModuleData(loaded.value);
              && (modules.Err? ==> err == Some(modules.error) && mds == old(mds) && globals == old(globals))
              && (modules.Ok? ==> err == None && mds == modules.value && globals == None))
    {
      var p := path;
      if p == "" {
        if executable.Err? {
          return Some(executable.error);
        }
        p := executable.value;
      }
      var loaded := foreign.loadBinaryInfo(p);
      if loaded.Err? {
        return Some(loaded.error);
      }
      bi := Some(loaded.value);
      err := RefreshModule();
    }

    /** NewDwarf(path): a loaded session, or no session and the error. */
    static method NewDwarf(foreign: Foreign, path: string, executable: Result<string>) returns (d: Dwarf?, err: Option<Error>)
      ensures d == null <==> err.Some?
      ensures d != null ==> fresh(d) && d.foreign == foreign && d.bi.Some? && d.globals == None && d.imageCacheTypes == map[]
      ensures d != null ==> path != "" || executable.Ok?
      ensures d != null && (path != "" || executable.Ok?) ==>
        var p := if path == "" then executable.value else path;
        foreign.loadBinaryInfo(p) == Ok(d.bi.value) && foreign.loadModuleData(d.bi.value) == Ok(d.mds)
      ensures path == "" && executable.Err? ==> err == Some(executable.error)
      ensures path != "" || executable.Ok? ==>
        var loaded := foreign.loadBinaryInfo(if path == "" then executable.value else path);
        && (loaded.Err? ==> err == Some(loaded.error))
        && (loaded.Ok? && foreign.loadModuleData(loaded.value).Err? ==> err == Some(foreign.loadModuleData(loaded.value).error))
        && (loaded.Ok? && foreign.loadModuleData(loaded.value).Ok? ==> err == None)
    {
      var s := new Dwarf(foreign);
      err := s.Init(path, executable);
      if err.None? {
        d := s;
      } else {
        d := null;
      }
    }

    /**
     * AddImage(path, addr): load one more image at a base address, then
     * recompute the module descriptors of all images. Nothing but the binary,
     * the descriptors and the global bindings changes; the per-image type
     * caches are kept.
     */
    method AddImage(path: string, addr: uint64) returns (err: Option<Error>)
      modifies this`bi, this`mds, this`globals
      ensures old(bi).None? ==> err == Some(NeedInit) && unchanged(this)
      ensures old(bi).Some? ==>
        var added := foreign.addImage(old(bi).value, path, addr);
        && (added.Err? ==> err == Some(added.error) && unchanged(this))
        && (added.Ok? ==>
              && bi == Some(added.value)
              && var modules := foreign.loadModuleData(added.value);
              && (modules.Err? ==> err == Some(modules.error) && mds == old(mds) && globals == old(globals))
              && (modules.Ok? ==> err == None && mds == modules.value && globals == None))
    {
      err := Check();
      if err.Some? {
        return;
      }
      var added := foreign.addImage(bi.value, path, addr);
      if added.Err? {
        return Some(added.error);
      }
      bi := Some(added.value);
      err := RefreshModule();
    }

    /**
     * refreshModule(): recompute the module descriptors. On success they are
     * replaced and the global bindings dropped; on failure both are kept.
     */
    method RefreshModule() returns (err: Option<Error>)
      requires bi.Some?
      modifies this`mds, this`globals
      ensures var modules := foreign.loadModuleData(bi.value);
        && (modules.Err? ==> err == Some(modules.error) && mds == old(mds) && globals == old(globals))
        && (modules.Ok? ==> err == None && mds == modules.value && globals == None)
    {
      var modules := foreign.loadModuleData(bi.value);
      if modules.Err? {
        return Some(modules.error);
      }
      mds := modules.value;
      globals := None;
      return None;
    }
  }
}
