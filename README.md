# gort, modelled in Dafny

gort lets a Go program look at itself through its own debug information. It
loads the running binary with the Delve debugger library and finds functions,
package variables and runtime types by name. It can call a function it found,
and it lists the shared libraries loaded into the process. This project models
the decision logic around those hooks and proves what that logic promises:

- **Session lifecycle** (`gort.dfy`). A `Gort.Dwarf` object holds the loaded
  binary, its module descriptors, the global table and the per-image type
  caches. Every public call is guarded by `check()`, which answers ErrNeedInit
  until a binary is loaded.
- **Type resolution** (`gort_types.dfy`). A type's runtime descriptor comes
  from its debug entry's back-reference, rebased into the image's
  type-metadata section. Without a back-reference, the images after the main
  binary are tried in order. Each of those images has a name → address cache
  that is built once.
- **Global table** (`gort_globals.dfy`). A filter decides which
  package-variable records are bound. The table that results is loaded lazily
  and dropped by `refreshModule`. Its content is characterised as a left fold
  in which the last record wins.
- **Functions** (`gort_functions.dfy`):
  - the backward lookup in the function table;
  - the walk over a subprogram's child entries, which splits formal parameters
    into inputs and results (DW_AT_variable_parameter, section 4.1 of DWARF 4);
  - the argument check that runs before any call.
- **Shared libraries** (`gort_plugin.dfy`):
  - little-endian word decoding;
  - the `.dynamic` scan for DT_DEBUG and DT_NULL (System V gABI, chapter 5,
    "Dynamic Section");
  - the bounded `r_debug`/`link_map` walk;
  - bounded C-string reads;
  - the substring search over library paths.
- **Helpers** (`helpers.dfy`). The type-name choice, the type-offset
  extraction, and the memory reader/writer handed to Delve.

`base.dfy` holds the machine integers, the error values and the Result/Option
wrappers. `delve.dfy` holds the data the package receives from Delve and from
Go's reflection package. It describes debug entries, images, the function and
package-variable tables, module descriptors and runtime types. The `Foreign`
record bundles every call into code the model does not see:

- `loadBinaryInfo`, `addImage`, `loadModuleData`, `imageToModuleData`,
  `findType` and `types` (Delve);
- `assignableTo` and `call` (reflection).

Process memory is a total map from 64-bit addresses to bytes. Address
arithmetic wraps at 2^64, as Go's `uint64` does.

Where the code and its description differ, the model follows the code. The
variadic argument check is one such place: extra arguments of a variadic
function are checked against the last input type itself, not against its
element type.

## Model

| member | source | states |
|---|---|---|
| Helpers.Read | helpers.go:62-64 | n bytes come back, and byte k is the one at address addr + k, with the address wrapping at 2^64 |
| Helpers.ReadMemory | helpers.go:31-35 | the buffer is filled from memory, the whole length is reported as read, and there is no error |
| Helpers.WriteMemory | helpers.go:37-39 | writing always fails with ErrNotSupport after 0 bytes and leaves memory unchanged |
| Helpers.DwarfTypeName | helpers.go:41-52 | a struct's StructName; otherwise the declared name, falling back to the printed form when that name is empty |
| Helpers.DwarfTypeNameEmpty | helpers.go:41-52 | the chosen name is empty exactly when the struct name is empty, or both the declared name and the printed form are empty |
| Helpers.EntryType | helpers.go:54-60 | no type offset is an error; otherwise it succeeds exactly when the debug data decodes a type at that offset, and returns that type |
| Gort.Dwarf.constructor | gort.go:19-29 | a new session has no binary, no descriptors, no global table and no caches |
| Gort.Dwarf.Check | gort.go:73-78 | no error exactly when a binary is loaded; otherwise ErrNeedInit |
| Gort.Dwarf.Init | gort.go:31-50 | an empty path is replaced by the executable's path, and a failure to get it is returned with nothing changed; the binary is stored only when it loads; the descriptors are then refreshed; the caches are never touched |
| Gort.Dwarf.NewDwarf | gort.go:19-50 | a session comes back exactly when there is no error, that is when the path is given or the executable's path is known, the binary loads and its descriptors load; otherwise the first of those errors; the session is fresh, holds that binary and its descriptors, and has no global table and no caches |
| Gort.Dwarf.AddImage | gort.go:52-61 | ErrNeedInit with nothing changed before init; a failed add returns its error with nothing changed; otherwise the binary with the image added is stored and the descriptors are refreshed; the caches are never touched |
| Gort.Dwarf.RefreshModule | gort.go:63-71 | on success the descriptors are replaced and the global table dropped; on failure both are kept and the error is returned |
| GortTypes.Rebase | gort_types.go:131-135 | types + off when that sum lies in [types, etypes); off unchanged otherwise, including when the uint64 sum wraps; a non-zero offset never gives 0 |
| GortTypes.ImageCacheHit | gort_types.go:78-91 | a cached address is never 0, so a 0 answer means that no non-zero key of the image has an entry with that name |
| GortTypes.FindImageType | gort_types.go:47-92 | the image's cache is stored before it is filled, so it is built at most once and an existing cache is reused unchanged; only that image's cache changes; a new cache binds exactly the names of entries with non-zero keys, each to a rebased key, and is empty without a module descriptor; the answer is the cached address or 0 |
| GortTypes.BackReference | gort_types.go:98-113 | an image index past the end is an error; it succeeds exactly when the entry at the type's offset reads and carries the name asked for; a back-reference it returns is non-zero |
| GortTypes.SearchImages | gort_types.go:113-123 | images 1..n-1 are tried in order and image 0 never is; the answer is the first non-zero hit; with no hit, ErrNoRuntimeType, with every image's cache answering 0; only caches of those images are added, and existing caches are kept |
| GortTypes.KnownToBuilt | gort_types.go:78-91 | building an image's cache does not change whether that image knows a name: a new cache answers non-zero exactly when a non-zero key's entry carries the name and the image has a module descriptor |
| GortTypes.FallbackSucceeds | gort_types.go:113-123 | the fallback search succeeds exactly when one of images 1.. knows the name in the state before it: its cache, if built, answers non-zero, and otherwise the cache it gets binds the name |
| GortTypes.TypeResolvesStable | gort_types.go:28-45 | whether FindType succeeds for a name does not change as caches are built |
| GortTypes.ResolvedInGrow | gort_types.go:113-123 | a type found through the caches stays the first hit as later caches are built, since built caches are never changed |
| GortTypes.DwarfToRuntimeType | gort_types.go:94-136 | the header errors and the missing-module-descriptor error leave the caches unchanged; a back-reference gives its rebased address; without one, the fallback outcome above applies; a success is never 0 |
| GortTypes.FindType | gort_types.go:28-45 | ErrNeedInit before init, with the caches unchanged; a lookup failure or a resolution failure is an error and never a type; it succeeds exactly when the name resolves in the state on entry; the type is then the resolution, read against the caches afterwards, and is never 0; caches only grow, each new one built as findImageType builds it |
| GortTypes.ForeachType | gort_types.go:13-26 | ErrNeedInit before init; otherwise the type names Delve reports, in its order, or its error |
| GortGlobals.VarCandidate | gort_globals.go:17-53 | a record passes exactly when its fields exist, its entry is a variable carrying the record's name, and its type decodes to a name that is neither empty nor "\<unspecified\>"; the candidate is that name, address and type name |
| GortGlobals.BindingsDomain | gort_globals.go:55-59 | a name is in the table exactly when some record passed the checks under that name and its type resolved |
| GortGlobals.BindingsLastWins | gort_globals.go:59 | when several records bind one name, the table holds the last one's address and type |
| GortGlobals.BindingsRecord | gort_globals.go:59 | every entry of the table is the address and type of some record bound under its name |
| GortGlobals.BindingHasRecord | gort_globals.go:11-62 | every binding of a loaded table comes from a record that passed the checks, at that record's address |
| GortGlobals.CandidateType | gort_globals.go:55-58 | a candidate gets a type exactly when its type name resolves in the state before the lookup; the type is then the resolution read against the caches afterwards, and is never 0; caches only grow |
| GortGlobals.LoadGlobals | gort_globals.go:11-62 | the table is rebuilt from an empty map as the fold over the records; a record is bound exactly when it passes the checks and its type name resolves in the state on entry, with its resolved type; caches only grow |
| GortGlobals.FindGlobal | gort_globals.go:78-91 | ErrNeedInit with nothing changed before init; the table is loaded only when absent, and an existing one is reused with the caches untouched; caches only grow; the name's binding, or ErrNotFound |
| GortGlobals.ForeachGlobal | gort_globals.go:64-76 | ErrNeedInit before init; the table is loaded only when absent; caches only grow; the result is the table |
| GortFunctions.LastNamedUnique | gort_functions.go:13-19 | only one record can be the last one with a given name |
| GortFunctions.FindFuncIndex | gort_functions.go:12-22 | the answer is the last record with the name when its entry is non-zero; otherwise ErrNotFound, even when an earlier record with that name has an entry |
| GortFunctions.EntryPointsMember | gort_functions.go:95-99 | a (name, entry) pair is visited exactly when some record has that name and that non-zero entry |
| GortFunctions.EntryPointsLength | gort_functions.go:95-99 | no more pairs are visited than there are records |
| GortFunctions.ForeachFunc | gort_functions.go:90-101 | ErrNeedInit before init; otherwise the records with a non-zero entry, in table order |
| GortFunctions.FindFuncEntry | gort_functions.go:103-113 | ErrNeedInit before init; the last record with the name when its entry is non-zero; ErrNotFound otherwise |
| GortFunctions.FindFuncPc | gort_functions.go:115-125 | as FindFuncEntry, and the answer is that record's entry, which is never 0 |
| GortFunctions.FuncHeader | gort_functions.go:25-49 | ErrNotSupport exactly when a private field is missing; otherwise the entry at the offset must read, be a subprogram and carry the function's name; the children are the entries after it |
| GortFunctions.ParamScan | gort_functions.go:56-86 | at most one parameter per entry; its only errors are the reader error and the type error |
| GortFunctions.InOutPartition | gort_functions.go:78-85 | every parameter goes to exactly one side, inputs or results |
| GortFunctions.InNamesMember | gort_functions.go:78-85 | a type name is an input name exactly when some parameter that is not a result has it |
| GortFunctions.CheckedScanIff | gort_functions.go:56-86 | the child loop with its type lookups succeeds exactly when the scan succeeds and every scanned type name resolves, and then yields the scanned parameters; after a good scan its only failure is the type error |
| GortFunctions.GetFunctionArgTypes | gort_functions.go:24-88 | the outcome is fixed by the state on entry: a header error, with the caches unchanged; the first of a reader error, an undecodable parameter type or a type name that does not resolve; or the scanned parameters split into inputs and results in order, each with its resolved type; after a good scan it succeeds exactly when every name resolves; caches only grow |
| GortFunctions.FindFuncType | gort_functions.go:127-143 | ErrNeedInit before init, with the caches unchanged; ErrNotFound exactly when the last record with the name has entry 0 or there is none; otherwise getFunctionArgTypes's error for that record, or the function type over its signature; caches only grow |
| GortFunctions.FindFunc | gort_functions.go:145-161 | as FindFuncType, and a value it returns has that record's entry as its code pointer |
| GortFunctions.SelectInput | gort_functions.go:183-194 | a parameter exists exactly when there are inputs and the index is in range or the function is variadic; it is parameter i, or the last one for the extra arguments |
| GortFunctions.CheckArgs | gort_functions.go:196-205 | no error exactly when every argument has a parameter and is assignable to it; otherwise the error of the first argument that fails, a length or a type mismatch |
| GortFunctions.AcceptedArity | gort_functions.go:183-205 | arguments that pass number at most the inputs of a fixed-arity function, and no argument passes against a function without inputs |
| GortFunctions.VariadicExtraArgument | gort_functions.go:183-203 | an extra argument of a variadic function passes exactly when it is assignable to the last input type itself, not to its element type, and otherwise is a type mismatch naming that input |
| GortFunctions.CallFunc | gort_functions.go:163-209 | ErrNeedInit before init, with the caches unchanged; ErrNotFound exactly when findFunc finds no record; otherwise getFunctionArgTypes's error, or, with its signature, the call's results when every argument passes and the error of the first argument that fails otherwise; caches only grow |
| GortPlugin.DecodeEncode | gort_plugin.go:93-107 | the little-endian encoding of a value that fits decodes back to the value |
| GortPlugin.EncodeDecode | gort_plugin.go:93-107 | decoding bytes and encoding the value at the same width gives the bytes back |
| GortPlugin.ReadUintRaw | gort_plugin.go:93-109 | only word sizes 4 and 8 are supported; an empty reader is io.EOF and a partial word io.ErrUnexpectedEOF; otherwise the little-endian value of the first word, below 256^size, and the rest of the reader |
| GortPlugin.ReadUintRawEncoded | gort_plugin.go:93-107 | a word written in front of a reader is read back, leaving the rest |
| GortPlugin.ReadPtr | gort_plugin.go:87-90 | an unsupported pointer size is an error; otherwise the little-endian word stored at the address |
| GortPlugin.ReadPtrStored | gort_plugin.go:87-90 | memory holding a value's encoding at an address reads back as that value |
| GortPlugin.DebugSpec | gort_plugin.go:112-132 | a success implies a supported pointer size; an unsupported size is an error |
| GortPlugin.DebugSpecStops | gort_plugin.go:116-131 | the answer comes from the first pair whose tag is DT_NULL or DT_DEBUG: 0 for DT_NULL, the pair's value for DT_DEBUG |
| GortPlugin.DebugSpecRunsOut | gort_plugin.go:116-124 | with no such pair, the scan runs off the section: io.EOF when it ends on a word boundary, io.ErrUnexpectedEOF inside a word |
| GortPlugin.DynamicSearchDebug | gort_plugin.go:112-132 | the reader loop gives what the pair-by-pair scan of the section's bytes gives |
| GortPlugin.ScanSound | gort_plugin.go:167-179 | the bytes read are non-zero, within the length bound, and are the memory from the start up to a zero byte |
| GortPlugin.ScanComplete | gort_plugin.go:167-179 | a zero-terminated string within the bound is what the scan reads |
| GortPlugin.ScanTooLong | gort_plugin.go:168-171 | the read fails, with the length past the bound, exactly when no byte up to the bound is zero |
| GortPlugin.CStringSound | gort_plugin.go:163-180 | what a non-null address reads as is a C string stored there |
| GortPlugin.CStringComplete | gort_plugin.go:163-180 | a C string stored at a non-null address is what it reads as |
| GortPlugin.CStringIff | gort_plugin.go:163-180 | a non-null address reads as s exactly when the C string s is stored there |
| GortPlugin.ReadCString | gort_plugin.go:163-180 | the byte loop returns "" for a null address, otherwise the bytes before the first zero, and fails past the length bound |
| GortPlugin.NodeSpec | gort_plugin.go:141-161 | an unsupported pointer size is an error |
| GortPlugin.NodeWords | gort_plugin.go:144-158 | a node's address and next link are the words at offsets 0 and 3 pointers from its start |
| GortPlugin.NodeName | gort_plugin.go:151-156 | a node's name is the C string its second word points to, and is empty for a null pointer |
| GortPlugin.ReadLinkMapNode | gort_plugin.go:141-161 | the five-word buffer loop gives the node's fields and name, or the first read error |
| GortPlugin.Walk | gort_plugin.go:64-84 | paths and addresses come out in pairs, and at most one more than the library bound are collected (the bound is checked before each node) |
| GortPlugin.CycleTooMany | gort_plugin.go:67-82 | a walk that reaches a cycle of readable non-null nodes, of any length, fails with ErrTooManyLibraries instead of looping |
| GortPlugin.WalkLinkMap | gort_plugin.go:64-84 | the loop collects what the walk from the list head collects: each node's name and address in link order, ending at a null link, failing past the bound or at the first node that does not read |
| GortPlugin.PluginsSpec | gort_plugin.go:36-85 | paths and addresses come out in pairs, at most one more than the library bound |
| GortPlugin.SearchPlugins | gort_plugin.go:36-85 | ErrNeedInit before init; with no dynamic section the result is empty; otherwise the walk from the word one pointer past DT_DEBUG's value, or empty when that value is 0 |
| GortPlugin.LastIndexBelow | gort_plugin.go:29 | the last match at or below k, or -1 |
| GortPlugin.LastIndex | gort_plugin.go:29 | non-negative exactly when the path contains the name, and then the last position where it occurs |
| GortPlugin.FirstByName | gort_plugin.go:28-33 | the first library in list order whose path contains the name, with its own address; otherwise ErrNotFound, with no path containing it |
| GortPlugin.SearchPluginByName | gort_plugin.go:23-34 | ErrNeedInit before init; an error while listing is passed on; otherwise the first library whose path contains the name, with its address, or ErrNotFound |

## Left out

- Reflection into Delve's private fields is not modelled. Those fields are record fields of type Option, where None means the field is absent.
- The unsafe code-pointer patch (CreateFuncForCodePtr, and the codePtr overwrite in FindFunc and CallFunc) is not modelled. Its effect is the Callable value: a function type bound to an entry address.
- entryAddress aliases raw memory. Here it is a pure read of the Memory map, and reading never fails.
- Delve and reflection are parameters (the Foreign record), not code. This covers the calls behind go:linkname (findType, loadModuleData, imageToModuleData), LoadBinaryInfo, AddImage, Types, AssignableTo and Call.
- Image.DwarfReader with Seek and Next is modelled as a reader over the image's sequence of entries (Delve.Seek, Delve.Next), and dwarf.Data.Type as a table from offsets to types.
- reflect.FuncOf, MakeFunc, NewAt and makeInterface are modelled as the constructors FuncType, Callable, Global and RType, which never fail.
- FindFuncType, FindFunc and CallFunc: reflect.FuncOf panics in Go for a variadic signature that has no inputs or whose last input is not a slice (gort_functions.go:141 and :177). The model has no slice types, so it builds the function type in those cases too and carries on.
- ReadMemory and WriteMemory stand alone: Go hands them to loadModuleData, which is a Foreign parameter here, so nothing in the model calls them.
- os.Executable is a parameter of Init and NewDwarf.
- Executing the machine code of a found function is not modelled. The result of a call is whatever the Foreign call returns.
- Go map iteration order is not modelled, so no order is asserted for ForeachGlobal or for the runtimeTypeToDIE scan.
- Concurrency is not modelled. The package takes no locks.
- The `*proc.Image` key of imageCacheTypes is the image's position in bi.images. That is sound only because Delve's AddImage appends and never reorders or removes images. This is an assumption about the Foreign addImage field, which nothing in the model enforces.
- Library paths and search names are byte sequences, as Go strings are. Debug-information names are Dafny strings.
- When Delve's debug reader returns no entry and no error, Go dereferences nil and panics. The model returns an error there instead: in dwarfToRuntimeType this is NoDwarfEntry.
- A reader seek to an offset that starts no entry is modelled as a read error.
- When readPtr reads the list head in SearchPlugins, its error case cannot happen. The .dynamic scan has already succeeded with words of the same size, so the model takes that value directly.
- A CallFunc that passes the argument check with fewer arguments than inputs makes reflect's Call panic in Go. The model hands the call to the Foreign call.
- CallFunc: for a variadic function, an argument at or past the last input passes the check only when it is assignable to the last input type itself, the slice type. reflect's Call then needs each such argument to be assignable to the slice's element type, and panics otherwise (for `func f(xs ...int)` called with one `[]int` argument). So in Go, every variadic call that passes the check with such an argument panics, unless the element type is an interface the slice type satisfies. The model does not model this panic and hands the call to the Foreign call.
- bi.AddImage may change the binary partly before it fails. The model keeps the old binary on failure.
- FindImageType: when two runtime-type keys lead to entries with the same name, which key's address is cached depends on map order. The contract only says that the address comes from one of those keys.
- DwarfToRuntimeType: on the fallback path the contract describes the caches it builds, not one fixed map, because of the map-order choice above. FindType inherits this: whether it succeeds is fixed by the state on entry, but a type found on the fallback path is fixed only as the first hit in the caches afterwards.
- CandidateType: whether a candidate gets a type is fixed by the state before the lookup. A type found on the fallback path is stated as the first hit in the caches afterwards, as for FindType.
- LoadGlobals: which records are bound is fixed by the state on entry. The types of globals found on the fallback path are stated against the caches after loading, as for FindType.
- GetFunctionArgTypes, FindFuncType, FindFunc and CallFunc: success and every error are fixed by the state on entry. Parameter types found on the fallback path are stated against the caches afterwards, as for FindType.
- DebugSpec: its own contract only fixes the pointer-size cases. Its answers are stated by DebugSpecStops and DebugSpecRunsOut.
- NodeSpec: its own contract only fixes the pointer-size case. The fields are stated by NodeWords and NodeName.
- These are single Go functions split into a helper plus a loop, to keep each proof small:
  - SearchImages and WalkLinkMap are the loops of dwarfToRuntimeType and SearchPlugins;
  - FirstByName is the loop of SearchPluginByName;
  - CandidateType is the FindType call of loadGlobals.
