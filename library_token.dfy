/**
  The `library` api: a registry of library loaders and of the libraries they
  manage, reached through opaque handles.

  Loaders are registered under a unique library type. A library handle is
  either unlinked or linked to a pair (loader handle, loader-internal handle).
  What a loader itself does when asked to load, unload or look up a symbol is
  outside the registry: each operation that calls into a loader takes that
  loader's behaviour as a function parameter, applied to exactly what the
  registry routes to it (the registered interface and, for a linked library,
  the stored internal handle). Any answer may be a failure. The ghost log
  `unloadRequests` records every link an unload request was routed through.

  Handles are minted from counters that only grow, so a handle that has been
  removed is never handed out again; the ghost sets `retiredLoaders` and
  `retiredLibraries` record every handle removed so far.
 */
module Library {
  import opened Wrappers

  /** The textual tag of a family of libraries, as bytes. */
  type LibraryType = seq<bv8>

  /** A message reported by a loader. */
  type ErrorText = seq<bv8>

  datatype LoaderHandle = LoaderHandle(id: nat)
  datatype LibraryHandle = LibraryHandle(id: nat)

  /** A loader-private value naming one loaded library; never inspected here. */
  datatype InternalHandle = InternalHandle(id: int)

  /** The interface (function table) a loader registers; opaque here. */
  datatype LoaderInterface = LoaderInterface(id: nat)

  /** The address a loader resolves a symbol to. */
  datatype Address = Address(addr: nat)

  datatype SymbolKind = DataSymbol | FunctionSymbol

  /** The path a library is loaded from. */
  type Path = seq<char>

  /** The name of a symbol, as the bytes of a nul-terminated string without its terminator. */
  type SymbolName = seq<bv8>

  /** A symbol, tied to the library it came from; it must not be used after that library is unloaded. */
  datatype Symbol = Symbol(kind: SymbolKind, library: LibraryHandle, address: Address)

  /** The link of a library handle: the loader that manages it and that loader's own handle. */
  datatype Link = Link(loader: LoaderHandle, internal: InternalHandle)

  /** What the registry keeps per loader. */
  datatype LoaderEntry = LoaderEntry(libType: LibraryType, loader: LoaderInterface)

  /** A loader's `load`: the internal handle of the library at a path, or why it cannot be loaded. */
  type LoadFn = (LoaderInterface, Path) -> Result<InternalHandle, ErrorText>

  /** A loader's `unload`: `None` when the library behind the internal handle was unloaded. */
  type UnloadFn = (LoaderInterface, InternalHandle) -> Option<ErrorText>

  /** A loader's symbol lookup in the library behind an internal handle. */
  type SymbolFn = (LoaderInterface, InternalHandle, SymbolKind, SymbolName) -> Result<Address, ErrorText>

  datatype LibraryError =
    | TypeAlreadyExists(libType: LibraryType)
    | UnknownLibraryType(libType: LibraryType)
    | InvalidLoaderHandle(loader: LoaderHandle)
    | InvalidLibraryHandle(library: LibraryHandle)
    | NotLinked(library: LibraryHandle)
    | BufferTooSmall(required: nat, capacity: nat)
    | LoadFailed(message: ErrorText)
    | UnloadFailed(message: ErrorText)
    | SymbolNotFound(message: ErrorText)

  /**
    The type index and the loader table describe the same registrations: each
    type names a loader registered for that type, and each loader's type names it.
   */
  ghost predicate TypeIndexed(loaders: map<LibraryType, LoaderHandle>, entries: map<LoaderHandle, LoaderEntry>)
  {
    && (forall t :: t in loaders ==> loaders[t] in entries && entries[loaders[t]].libType == t)
    && (forall h :: h in entries ==> entries[h].libType in loaders && loaders[entries[h].libType] == h)
  }

  /** There are as many registered types as registered loaders. */
  lemma {:induction false} TypeIndexedSameSize(loaders: map<LibraryType, LoaderHandle>, entries: map<LoaderHandle, LoaderEntry>)
    requires TypeIndexed(loaders, entries)
    ensures |loaders| == |entries|
    decreases |loaders|
  {
    if loaders == map[] {
      assert entries.Keys == {};
    } else {
      var t :| t in loaders;
      var h := loaders[t];
      var loaders', entries' := loaders - {t}, entries - {h};
      assert TypeIndexed(loaders', entries') by {
        forall h' | h' in entries' ensures entries'[h'].libType in loaders' {
          assert entries[h'].libType != t;
        }
      }
      TypeIndexedSameSize(loaders', entries');
      assert loaders'.Keys == loaders.Keys - {t};
      assert entries'.Keys == entries.Keys - {h};
    }
  }

  /** Registering a fresh loader under a free type keeps the two tables in step. */
  lemma TypeIndexedAdd(loaders: map<LibraryType, LoaderHandle>, entries: map<LoaderHandle, LoaderEntry>,
                       h: LoaderHandle, entry: LoaderEntry)
    requires TypeIndexed(loaders, entries)
    requires entry.libType !in loaders && h !in entries
    ensures TypeIndexed(loaders[entry.libType := h], entries[h := entry])
    ensures |entries[h := entry]| == |entries| + 1
  {
  }

  /** Removing a registered loader together with its type keeps the two tables in step. */
  lemma TypeIndexedRemove(loaders: map<LibraryType, LoaderHandle>, entries: map<LoaderHandle, LoaderEntry>, h: LoaderHandle)
    requires TypeIndexed(loaders, entries) && h in entries
    ensures TypeIndexed(loaders - {entries[h].libType}, entries - {h})
    ensures |entries - {h}| == |entries| - 1
  {
    var t := entries[h].libType;
    forall h' | h' in entries - {h} ensures entries[h'].libType in loaders - {t} {
      assert entries[h'].libType != t;
    }
    assert (entries - {h}).Keys == entries.Keys - {h};
  }

  /**
    Writes each element of `keys` once into the front of `buf`, in an
    unspecified order, and returns how many were written.
   */
  method CopyKeys<T>(keys: set<T>, buf: array<T>) returns (n: nat)
    requires |keys| <= buf.Length
    modifies buf
    ensures n == |keys|
    ensures forall k :: 0 <= k < n ==> buf[k] in keys
    ensures forall t :: t in keys ==> t in buf[..n]
    ensures forall k, l :: 0 <= k < l < n ==> buf[k] != buf[l]
    ensures forall k :: n <= k < buf.Length ==> buf[k] == old(buf[k])
  {
    var remaining := keys;
    n := 0;
    ghost var slot: map<T, nat> := map[];
    while remaining != {}
      invariant remaining <= keys
      invariant n + |remaining| == |keys|
      invariant forall k :: 0 <= k < n ==> buf[k] in keys && buf[k] !in remaining
      invariant forall t :: t in keys && t !in remaining ==> t in slot && slot[t] < n && buf[slot[t]] == t
      invariant forall k, l :: 0 <= k < l < n ==> buf[k] != buf[l]
      invariant forall k :: n <= k < buf.Length ==> buf[k] == old(buf[k])
      decreases remaining
    {
      var t :| t in remaining;
      buf[n] := t;
      slot := slot[t := n];
      remaining := remaining - {t};
      n := n + 1;
    }
    forall t | t in keys ensures t in buf[..n] {
      assert buf[..n][slot[t]] == t;
    }
  }

  class LibraryApi {
    var loaders: map<LibraryType, LoaderHandle>
    var entries: map<LoaderHandle, LoaderEntry>
    var libraries: map<LibraryHandle, Option<Link>>
    var nextLoader: nat
    var nextLibrary: nat
    ghost var retiredLoaders: set<LoaderHandle>
    ghost var retiredLibraries: set<LibraryHandle>
    ghost var unloadRequests: seq<Link>

    /** The loader tables agree, and every loader handle, live or removed, was minted before `nextLoader`. */
    ghost predicate LoadersValid()
      reads this`loaders, this`entries, this`nextLoader, this`retiredLoaders
    {
      && TypeIndexed(loaders, entries)
      && (forall h :: h in entries ==> h.id < nextLoader)
      && (forall h :: h in retiredLoaders ==> h.id < nextLoader && h !in entries)
    }

    /** Every library handle, live or removed, was minted before `nextLibrary`; removed ones are not live. */
    ghost predicate LibrariesValid()
      reads this`libraries, this`nextLibrary, this`retiredLibraries
    {
      && (forall l :: l in libraries ==> l.id < nextLibrary)
      && (forall l :: l in retiredLibraries ==> l.id < nextLibrary && l !in libraries)
    }

    ghost predicate Valid()
      reads this
    {
      LoadersValid() && LibrariesValid()
    }

    /** The handles of the registered loaders. */
    ghost function LiveLoaders(): set<LoaderHandle>
      reads this
    {
      entries.Keys
    }

    constructor ()
      ensures Valid()
      ensures loaders == map[] && entries == map[] && libraries == map[]
      ensures retiredLoaders == {} && retiredLibraries == {} && unloadRequests == []
    {
      loaders, entries, libraries := map[], map[], map[];
      nextLoader, nextLibrary := 0, 0;
      retiredLoaders, retiredLibraries, unloadRequests := {}, {}, [];
    }

    /** `library_type_exists`. */
    function LibraryTypeExists(libType: LibraryType): (b: bool)
      reads this
      requires Valid()
      ensures b <==> exists h :: h in entries && entries[h].libType == libType
    {
      libType in loaders
    }

    /** `library_exists`: whether a library handle is valid. */
    function LibraryExists(library: LibraryHandle): (b: bool)
      reads this
      requires Valid()
      ensures b ==> library !in retiredLibraries && library.id < nextLibrary
    {
      library in libraries
    }

    /** `get_num_loaders`: counts loader handles; it equals the number of registered types. */
    function GetNumLoaders(): (n: nat)
      reads this
      requires Valid()
      ensures n == |loaders| == |LiveLoaders()|
    {
      TypeIndexedSameSize(loaders, entries);
      assert |entries.Keys| == |entries|;
      |entries|
    }

    /** `get_loader_handle`: the loader registered for a type. */
    function GetLoaderHandle(libType: LibraryType): (r: Result<LoaderHandle, LibraryError>)
      reads this
      requires Valid()
      ensures r.Ok? <==> LibraryTypeExists(libType)
      ensures r.Err? ==> r.error == UnknownLibraryType(libType)
      ensures r.Ok? ==> r.value in LiveLoaders() && entries[r.value].libType == libType
    {
      if libType in loaders then Ok(loaders[libType]) else Err(UnknownLibraryType(libType))
    }

    /** `get_loader_interface`: the interface a loader was registered with. */
    function GetLoaderInterface(loader: LoaderHandle): (r: Result<LoaderInterface, LibraryError>)
      reads this
      requires Valid()
      ensures r.Ok? <==> loader in LiveLoaders()
      ensures r.Err? ==> r.error == InvalidLoaderHandle(loader)
      ensures r.Ok? ==> GetLoaderHandle(entries[loader].libType) == Ok(loader) && r.value == entries[loader].loader
    {
      if loader in entries then Ok(entries[loader].loader) else Err(InvalidLoaderHandle(loader))
    }

    /** The link of a library handle, or why there is none. */
    function GetLink(library: LibraryHandle): (r: Result<Link, LibraryError>)
      reads this
      requires Valid()
    {
      if library !in libraries then Err(InvalidLibraryHandle(library))
      else if libraries[library].None? then Err(NotLinked(library))
      else Ok(libraries[library].value)
    }

    /** `get_loader_library_handle`: the loader-internal handle a library is linked to. */
    function GetLoaderLibraryHandle(library: LibraryHandle): (r: Result<InternalHandle, LibraryError>)
      reads this
      requires Valid()
      ensures r.Ok? <==> GetLink(library).Ok?
      ensures r.Err? ==> r.error in {InvalidLibraryHandle(library), NotLinked(library)}
      ensures r.Err? ==> (r.error == InvalidLibraryHandle(library) <==> !LibraryExists(library))
      ensures r.Ok? ==> libraries[library] == Some(Link(libraries[library].value.loader, r.value))
    {
      match GetLink(library)
      case Ok(link) => Ok(link.internal)
      case Err(e) => Err(e)
    }

    /** `get_loader_handle_from_lib`: the loader a library is linked to. */
    function GetLoaderHandleFromLib(library: LibraryHandle): (r: Result<LoaderHandle, LibraryError>)
      reads this
      requires Valid()
      ensures r.Ok? <==> GetLink(library).Ok?
      ensures r.Err? ==> r.error in {InvalidLibraryHandle(library), NotLinked(library)}
      ensures r.Err? ==> (r.error == InvalidLibraryHandle(library) <==> !LibraryExists(library))
      ensures r.Ok? ==> libraries[library] == Some(Link(r.value, libraries[library].value.internal))
    {
      match GetLink(library)
      case Ok(link) => Ok(link.loader)
      case Err(e) => Err(e)
    }

    /** A request about `library` can be routed: the handle is valid, linked, and its loader is registered. */
    predicate Routable(library: LibraryHandle)
      reads this
      requires Valid()
    {
      library in libraries && libraries[library].Some? && libraries[library].value.loader in entries
    }

    /** The interface of the loader a routable library is linked to. */
    function RoutedInterface(library: LibraryHandle): (i: LoaderInterface)
      reads this
      requires Valid() && Routable(library)
    {
      entries[libraries[library].value.loader].loader
    }

    /** The internal handle stored in a routable library's link. */
    function RoutedInternal(library: LibraryHandle): (h: InternalHandle)
      reads this
      requires Valid() && Routable(library)
    {
      libraries[library].value.internal
    }

    /**
      Symbol lookup, shared by `get_data_symbol` and `get_function_symbol`: the
      request is routed to the loader the library is linked to, with the
      internal handle stored in the link.
     */
    function GetSymbol(kind: SymbolKind, library: LibraryHandle, name: SymbolName, lookup: SymbolFn)
      : (r: Result<Symbol, LibraryError>)
      reads this
      requires Valid()
      ensures r.Ok? <==> Routable(library) && lookup(RoutedInterface(library), RoutedInternal(library), kind, name).Ok?
      ensures r.Ok? ==>
                r.value == Symbol(kind, library, lookup(RoutedInterface(library), RoutedInternal(library), kind, name).value)
      ensures !LibraryExists(library) ==> r == Err(InvalidLibraryHandle(library))
      ensures LibraryExists(library) && libraries[library].None? ==> r == Err(NotLinked(library))
      ensures GetLink(library).Ok? && GetLink(library).value.loader !in LiveLoaders() ==>
                r == Err(InvalidLoaderHandle(GetLink(library).value.loader))
      ensures Routable(library) && lookup(RoutedInterface(library), RoutedInternal(library), kind, name).Err? ==>
                r == Err(SymbolNotFound(lookup(RoutedInterface(library), RoutedInternal(library), kind, name).error))
    {
      match GetLink(library)
      case Err(e) => Err(e)
      case Ok(link) =>
        if link.loader !in entries then Err(InvalidLoaderHandle(link.loader))
        else match lookup(entries[link.loader].loader, link.internal, kind, name)
          case Err(message) => Err(SymbolNotFound(message))
          case Ok(address) => Ok(Symbol(kind, library, address))
    }

    /** `get_data_symbol`. */
    function GetDataSymbol(library: LibraryHandle, name: SymbolName, lookup: SymbolFn): (r: Result<Symbol, LibraryError>)
      reads this
      requires Valid()
      ensures r.Ok? <==> Routable(library) && lookup(RoutedInterface(library), RoutedInternal(library), DataSymbol, name).Ok?
      ensures r.Ok? ==>
                r.value == Symbol(DataSymbol, library, lookup(RoutedInterface(library), RoutedInternal(library), DataSymbol, name).value)
      ensures !LibraryExists(library) ==> r == Err(InvalidLibraryHandle(library))
      ensures LibraryExists(library) && libraries[library].None? ==> r == Err(NotLinked(library))
      ensures GetLink(library).Ok? && GetLink(library).value.loader !in LiveLoaders() ==>
                r == Err(InvalidLoaderHandle(GetLink(library).value.loader))
    {
      GetSymbol(DataSymbol, library, name, lookup)
    }

    /** `get_function_symbol`. */
    function GetFunctionSymbol(library: LibraryHandle, name: SymbolName, lookup: SymbolFn): (r: Result<Symbol, LibraryError>)
      reads this
      requires Valid()
      ensures r.Ok? <==> Routable(library) && lookup(RoutedInterface(library), RoutedInternal(library), FunctionSymbol, name).Ok?
      ensures r.Ok? ==>
                r.value == Symbol(FunctionSymbol, library, lookup(RoutedInterface(library), RoutedInternal(library), FunctionSymbol, name).value)
      ensures !LibraryExists(library) ==> r == Err(InvalidLibraryHandle(library))
      ensures LibraryExists(library) && libraries[library].None? ==> r == Err(NotLinked(library))
      ensures GetLink(library).Ok? && GetLink(library).value.loader !in LiveLoaders() ==>
                r == Err(InvalidLoaderHandle(GetLink(library).value.loader))
    {
      GetSymbol(FunctionSymbol, library, name, lookup)
    }

    /** `register_loader`: fails if the type is taken; otherwise mints a new loader handle. */
    method RegisterLoader(loader: LoaderInterface, libType: LibraryType) returns (r: Result<LoaderHandle, LibraryError>)
      requires Valid()
      modifies this
      ensures Valid()
      ensures r.Err? <==> old(LibraryTypeExists(libType))
      ensures r.Err? ==> r.error == TypeAlreadyExists(libType) && unchanged(this)
      ensures r.Ok? ==>
        && r.value !in old(LiveLoaders()) && r.value !in retiredLoaders
        && GetLoaderHandle(libType) == Ok(r.value)
        && GetLoaderInterface(r.value) == Ok(loader)
        && loaders == old(loaders)[libType := r.value]
        && entries == old(entries)[r.value := LoaderEntry(libType, loader)]
        && |entries| == old(|entries|) + 1
        && libraries == old(libraries)
        && retiredLoaders == old(retiredLoaders) && retiredLibraries == old(retiredLibraries)
        && unloadRequests == old(unloadRequests)
    {
      if libType in loaders {
        return Err(TypeAlreadyExists(libType));
      }
      var h := LoaderHandle(nextLoader);
      TypeIndexedAdd(loaders, entries, h, LoaderEntry(libType, loader));
      loaders := loaders[libType := h];
      entries := entries[h := LoaderEntry(libType, loader)];
      nextLoader := nextLoader + 1;
      r := Ok(h);
    }

    /**
      `unregister_loader`: fails on an invalid handle; otherwise the handle and
      its type are gone. Libraries linked to the loader are left as they are.
     */
    method UnregisterLoader(loader: LoaderHandle) returns (err: Option<LibraryError>)
      requires Valid()
      modifies this
      ensures Valid()
      ensures err.Some? <==> loader !in old(entries)
      ensures err.Some? ==> err.value == InvalidLoaderHandle(loader) && unchanged(this)
      ensures err.None? ==>
        && entries == old(entries) - {loader}
        && loaders == old(loaders) - {old(entries)[loader].libType}
        && libraries == old(libraries)
        && retiredLoaders == old(retiredLoaders) + {loader} && retiredLibraries == old(retiredLibraries)
        && unloadRequests == old(unloadRequests)
      ensures err.None? ==> |entries| == old(|entries|) - 1
    {
      if loader !in entries {
        return Some(InvalidLoaderHandle(loader));
      }
      TypeIndexedRemove(loaders, entries, loader);
      loaders := loaders - {entries[loader].libType};
      entries := entries - {loader};
      retiredLoaders := retiredLoaders + {loader};
      err := None;
    }

    /**
      `get_library_types`: copies every registered type into `buf` and returns
      how many were copied; fails, writing nothing, if `buf` is too short.
     */
    method GetLibraryTypes(buf: array<LibraryType>) returns (r: Result<nat, LibraryError>)
      requires Valid()
      modifies buf
      ensures buf.Length < GetNumLoaders() ==>
                r == Err(BufferTooSmall(GetNumLoaders(), buf.Length)) && buf[..] == old(buf[..])
      ensures buf.Length >= GetNumLoaders() ==>
        && r == Ok(GetNumLoaders())
        && (forall i, j :: 0 <= i < j < r.value ==> buf[i] != buf[j])
        && (forall t :: t in loaders <==> t in buf[..r.value])
        && buf[r.value..] == old(buf[r.value..])
    {
      var count := GetNumLoaders();
      if buf.Length < count {
        return Err(BufferTooSmall(count, buf.Length));
      }
      var n := CopyKeys(loaders.Keys, buf);
      r := Ok(n);
    }

    /** `create_library_handle`: a new, unlinked library handle. */
    method CreateLibraryHandle() returns (library: LibraryHandle)
      requires Valid()
      modifies this
      ensures Valid()
      ensures !old(LibraryExists(library)) && library !in retiredLibraries
      ensures LibraryExists(library) && GetLink(library) == Err(NotLinked(library))
      ensures libraries == old(libraries)[library := None]
      ensures loaders == old(loaders) && entries == old(entries)
      ensures retiredLoaders == old(retiredLoaders) && retiredLibraries == old(retiredLibraries)
      ensures unloadRequests == old(unloadRequests)
    {
      library := LibraryHandle(nextLibrary);
      libraries := libraries[library := None];
      nextLibrary := nextLibrary + 1;
    }

    /** `remove_library_handle`: forgets a library handle without asking any loader to unload it. */
    method RemoveLibraryHandle(library: LibraryHandle) returns (err: Option<LibraryError>)
      requires Valid()
      modifies this
      ensures Valid()
      ensures err.Some? <==> !old(LibraryExists(library))
      ensures err.Some? ==> err.value == InvalidLibraryHandle(library) && unchanged(this)
      ensures err.None? ==>
        && !LibraryExists(library) && library in retiredLibraries
        && libraries == old(libraries) - {library}
        && loaders == old(loaders) && entries == old(entries)
        && retiredLoaders == old(retiredLoaders) && retiredLibraries == old(retiredLibraries) + {library}
        && unloadRequests == old(unloadRequests)
    {
      if library !in libraries {
        return Some(InvalidLibraryHandle(library));
      }
      libraries := libraries - {library};
      retiredLibraries := retiredLibraries + {library};
      err := None;
    }

    /**
      `link_library`: sets the link of a library handle, replacing any earlier
      one (the earlier internal handle is not unloaded).
     */
    method LinkLibrary(library: LibraryHandle, loader: LoaderHandle, internal: InternalHandle)
      returns (err: Option<LibraryError>)
      requires Valid()
      modifies this
      ensures Valid()
      ensures err.Some? <==> !old(LibraryExists(library)) || loader !in old(LiveLoaders())
      ensures err.Some? ==> unchanged(this)
      ensures err.Some? ==> err.value == if library in libraries then InvalidLoaderHandle(loader) else InvalidLibraryHandle(library)
      ensures err.None? ==>
        && GetLink(library) == Ok(Link(loader, internal))
        && GetLoaderHandleFromLib(library) == Ok(loader)
        && GetLoaderLibraryHandle(library) == Ok(internal)
        && libraries == old(libraries)[library := Some(Link(loader, internal))]
        && loaders == old(loaders) && entries == old(entries)
        && retiredLoaders == old(retiredLoaders) && retiredLibraries == old(retiredLibraries)
        && unloadRequests == old(unloadRequests)
    {
      if library !in libraries {
        return Some(InvalidLibraryHandle(library));
      }
      if loader !in entries {
        return Some(InvalidLoaderHandle(loader));
      }
      libraries := libraries[library := Some(Link(loader, internal))];
      err := None;
    }

    /**
      `load`: asks a loader to load the library at `path`. On success the
      library gets a new handle, distinct from every handle handed out before,
      linked to the loader and to the internal handle the loader returned.
     */
    method Load(loader: LoaderHandle, path: Path, load: LoadFn) returns (r: Result<LibraryHandle, LibraryError>)
      requires Valid()
      modifies this
      ensures Valid()
      ensures r.Ok? <==> loader in old(LiveLoaders()) && load(old(entries)[loader].loader, path).Ok?
      ensures loader !in old(LiveLoaders()) ==> r == Err(InvalidLoaderHandle(loader))
      ensures loader in old(LiveLoaders()) && load(old(entries)[loader].loader, path).Err? ==>
                r == Err(LoadFailed(load(old(entries)[loader].loader, path).error))
      ensures r.Err? ==> unchanged(this)
      ensures r.Ok? ==>
        && !old(LibraryExists(r.value)) && r.value !in retiredLibraries
        && GetLink(r.value) == Ok(Link(loader, load(old(entries)[loader].loader, path).value))
        && libraries == old(libraries)[r.value := Some(Link(loader, load(old(entries)[loader].loader, path).value))]
        && loaders == old(loaders) && entries == old(entries)
        && retiredLoaders == old(retiredLoaders) && retiredLibraries == old(retiredLibraries)
        && unloadRequests == old(unloadRequests)
    {
      if loader !in entries {
        return Err(InvalidLoaderHandle(loader));
      }
      match load(entries[loader].loader, path)
      case Err(message) =>
        r := Err(LoadFailed(message));
      case Ok(internal) =>
        var library := LibraryHandle(nextLibrary);
        libraries := libraries[library := Some(Link(loader, internal))];
        nextLibrary := nextLibrary + 1;
        r := Ok(library);
    }

    /**
      `unload`: asks the loader a library is linked to to unload the internal
      handle stored in the link; the request is logged whatever the loader
      answers. On success the library handle is invalid from then on; on any
      failure the registry keeps it.
     */
    method Unload(library: LibraryHandle, unload: UnloadFn) returns (err: Option<LibraryError>)
      requires Valid()
      modifies this
      ensures Valid()
      ensures !old(LibraryExists(library)) ==> err == Some(InvalidLibraryHandle(library))
      ensures old(LibraryExists(library)) && old(libraries[library]).None? ==> err == Some(NotLinked(library))
      ensures old(GetLink(library)).Ok? && old(GetLink(library)).value.loader !in old(LiveLoaders()) ==>
                err == Some(InvalidLoaderHandle(old(GetLink(library)).value.loader))
      ensures !old(Routable(library)) ==> err.Some? && unchanged(this)
      ensures old(Routable(library)) ==>
        && unloadRequests == old(unloadRequests) + [old(GetLink(library)).value]
        && err == match unload(old(RoutedInterface(library)), old(RoutedInternal(library)))
                  case Some(message) => Some(UnloadFailed(message))
                  case None => None
      ensures err.Some? ==>
        && libraries == old(libraries) && loaders == old(loaders) && entries == old(entries)
        && retiredLoaders == old(retiredLoaders) && retiredLibraries == old(retiredLibraries)
      ensures err.None? ==>
        && !LibraryExists(library) && library in retiredLibraries
        && libraries == old(libraries) - {library}
        && loaders == old(loaders) && entries == old(entries)
        && retiredLoaders == old(retiredLoaders) && retiredLibraries == old(retiredLibraries) + {library}
    {
      var link := GetLink(library);
      if link.Err? {
        return Some(link.error);
      }
      if link.value.loader !in entries {
        return Some(InvalidLoaderHandle(link.value.loader));
      }
      var answer := unload(entries[link.value.loader].loader, link.value.internal);
      unloadRequests := unloadRequests + [link.value];
      if answer.Some? {
        return Some(UnloadFailed(answer.value));
      }
      libraries := libraries - {library};
      retiredLibraries := retiredLibraries + {library};
      err := None;
    }
  }

  /** The type tag "native", as bytes. */
  const Native: LibraryType := [0x6e, 0x61, 0x74, 0x69, 0x76, 0x65]

  /**
    A loader registered for "native" loads a library, serves a function
    symbol from it, and unloads it; after that the handle is rejected. The
    loader only knows the symbol in the library it handed out, so the lookup
    succeeding shows it was routed with that internal handle.
   */
  method LoadUnloadScenario(native: LoaderInterface, internal: InternalHandle, name: SymbolName, address: Address)
    returns (before: Result<Symbol, LibraryError>, unloaded: Option<LibraryError>, after: Result<Symbol, LibraryError>)
    ensures before.Ok? && before.value.kind == FunctionSymbol && before.value.address == address
    ensures unloaded.None?
    ensures after == Err(InvalidLibraryHandle(before.value.library))
  {
    var load: LoadFn := (i, p) => Ok(internal);
    var lookup: SymbolFn := (i, h, k, n) => if h == internal && n == name then Ok(address) else Err([]);
    var unload: UnloadFn := (i, h) => if h == internal then None else Some([]);
    var api := new LibraryApi();
    var loader := api.RegisterLoader(native, Native);
    var library := api.Load(loader.value, "lib/native", load);
    before := api.GetFunctionSymbol(library.value, name, lookup);
    unloaded := api.Unload(library.value, unload);
    after := api.GetFunctionSymbol(library.value, name, lookup);
  }

  /**
    Loading the same path twice through one loader gives two distinct
    handles even when the loader answers with the same internal handle both
    times (the registry does not share handles); each unloads on its own.
   */
  method LoadTwiceScenario(native: LoaderInterface, internal: InternalHandle)
    returns (a: Result<LibraryHandle, LibraryError>, b: Result<LibraryHandle, LibraryError>,
             unloadA: Option<LibraryError>, unloadB: Option<LibraryError>)
    ensures a.Ok? && b.Ok? && a.value != b.value
    ensures unloadA.None? && unloadB.None?
  {
    var load: LoadFn := (i, p) => Ok(internal);
    var unload: UnloadFn := (i, h) => None;
    var api := new LibraryApi();
    var loader := api.RegisterLoader(native, Native);
    a := api.Load(loader.value, "libfoo", load);
    b := api.Load(loader.value, "libfoo", load);
    unloadA := api.Unload(a.value, unload);
    unloadB := api.Unload(b.value, unload);
  }
}
