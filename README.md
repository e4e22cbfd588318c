# emf-rs library api, error object and function ids, in Dafny

This project models three pieces of the emf-core-base interface from the
emf-rs repository, a plugin runtime whose modules talk to each other through
a binary interface that never changes shape:

- **The `library` api** (`library_token.dfy`, module `Library`). This is the
  registry behind the `LibraryToken` trait. Loaders are registered under a
  unique library type. Library handles are created or loaded, linked to a
  pair (loader handle, loader-internal handle), unloaded and removed. Every
  operation has its documented failure case: a type that already exists, an
  unknown type, an invalid handle, or a buffer that is too small. The state
  is the class `LibraryApi` with these fields:
  - a map from library type to loader handle;
  - a map from loader handle to its type and interface, whose keys are the
    live loaders;
  - a map from live library handle to an optional link;
  - two counters that mint handles;
  - two ghost sets of removed handles.

  A loader's own `load`, `unload` and symbol lookup come in as function
  parameters. The registry applies them to exactly what it routes: the
  loader's registered interface, and for a linked library the internal handle
  stored in its link. Any of them may fail. A ghost log records every link
  an unload request was sent through.
- **The type-erased error object** (`error_info.dfy`, module `Errors`). An
  `ErrorInfo` is an optional payload pointer plus a vtable of three
  operations: cleanup, clone and as-str. Payloads live in a `PayloadHeap`,
  whose keys are the owned pointers. A ghost log records every cleanup, so
  "released once and never twice" is an invariant. Only the `Box<T>` vtable
  exists, one per payload type.
- **The function-id table** (`fn_id.dfy`, module `FnIds`). This is the enum
  `FnId` with its explicit `i32` discriminants. It comes with a decoder from
  numbers back to variants, and with the three per-subsystem blocks inside
  the reserved range 0..1000.

`wrappers.dfy` (module `Wrappers`) holds the shared `Option` and `Result`.

## Model

| member | source | states |
|---|---|---|
| FnIds.ToInt | emf-core-base-ffi-rs/src/fn_id.rs:3-53 | every discriminant lies in the reserved range 0..1000 |
| FnIds.ToIntInSubsystemRange | emf-core-base-ffi-rs/src/fn_id.rs:10-52 | `Sys*` ids lie in 1..9, `Version*` ids in 101..115, `Library*` ids in 201..217 |
| FnIds.FromIntToInt | emf-core-base-ffi-rs/src/fn_id.rs:9-53 | decoding the id of a variant gives that variant back |
| FnIds.FromIntSound | emf-core-base-ffi-rs/src/fn_id.rs:9-53 | whatever the decoder returns for a number has that number as its id |
| FnIds.DiscriminantsFillBlocks | emf-core-base-ffi-rs/src/fn_id.rs:10-52 | a number is the discriminant of some variant exactly when it lies in one of the three subsystem blocks: the blocks have no gaps and no id lies outside them |
| FnIds.ToIntInjective | emf-core-base-ffi-rs/src/fn_id.rs:9-53 | no two variants share a discriminant |
| FnIds.RangesDisjoint | emf-core-base-ffi-rs/src/fn_id.rs:10-52 | the three subsystem blocks are pairwise disjoint |
| FnIds.IdDeterminesSubsystem | emf-core-base-ffi-rs/src/fn_id.rs:10-52 | an id in a subsystem's block belongs to an operation of that subsystem |
| Errors.AsStr | ffi/emf-core-base-rs-ffi/src/errors/error_info.rs:42-47 | `as_str` dispatches through the vtable's `as_str_fn` and yields the owned payload's text |
| Errors.AsRef | ffi/emf-core-base-rs-ffi/src/errors/error_info.rs:70-82 | `as_ref` is empty exactly when `as_str` is empty, and otherwise has the bytes of `as_str` |
| Errors.Fmt | ffi/emf-core-base-rs-ffi/src/errors/error_info.rs:84-96 | `Display` and `Debug` return the result of `write_str`: an error exactly when the formatter's sink fails, and otherwise exactly the `as_ref` text appended to what was already written |
| Errors.ReleaseKeepsOther | ffi/emf-core-base-rs-ffi/src/errors/error_info.rs:52-68 | releasing one of two objects with different payloads leaves the other owned and its text unchanged |
| Errors.PayloadHeap.From | ffi/emf-core-base-rs-ffi/src/errors/error_info.rs:98-108 | `From<Box<T>>` gives `data = Some(p)` for a fresh owned pointer `p` holding the payload, and the vtable `Box<T>::VTABLE` |
| Errors.PayloadHeap.BoxCleanupFn | ffi/emf-core-base-rs-ffi/src/errors/error_info.rs:151-153 | `cleanup_fn` of `Box<T>` releases the payload: it is no longer owned and the cleanup is logged once |
| Errors.PayloadHeap.BoxCloneFn | ffi/emf-core-base-rs-ffi/src/errors/error_info.rs:155-160 | `clone_fn` of `Box<T>` always returns `Some` fresh pointer holding a payload of the same type equal to the source; `as_str_fn` of `Box<T>` reads the same text through the copy as through the original, and nothing else changes |
| Errors.PayloadHeap.Drop | ffi/emf-core-base-rs-ffi/src/errors/error_info.rs:52-57 | drop runs the vtable's cleanup on the payload: it is released, logged exactly once, and the object no longer owns anything |
| Errors.PayloadHeap.Clone | ffi/emf-core-base-rs-ffi/src/errors/error_info.rs:59-68 | clone keeps the vtable and takes the pointer `clone_fn` returns; the copy is independent of the original, the original is unchanged, and both have the same text |
| Errors.BoxErrorScenario | ffi/emf-core-base-rs-ffi/src/errors/error_info.rs:173-180 | wrapping a string gives an object and a clone whose text is that string; the clone survives dropping the original |
| Library.TypeIndexedSameSize | emf-core-base-rs-bare/src/library/library_token.rs:61-74 | when type index and loader table agree, there are as many registered types as loaders |
| Library.TypeIndexedAdd | emf-core-base-rs-bare/src/library/library_token.rs:11-38 | adding a fresh loader under a free type keeps the tables in agreement and adds one loader |
| Library.TypeIndexedRemove | emf-core-base-rs-bare/src/library/library_token.rs:40-59 | removing a loader with its type keeps the tables in agreement and removes one loader |
| Library.CopyKeys | emf-core-base-rs-bare/src/library/library_token.rs:64-74 | writes every element of a set into the front of a buffer once, returns their number, and leaves the rest of the buffer alone |
| Library.LibraryApi.RegisterLoader | emf-core-base-rs-bare/src/library/library_token.rs:11-38 | fails, changing nothing, exactly when the type already exists; otherwise the new handle was never live before, the type now maps to it, and one loader is added |
| Library.LibraryApi.UnregisterLoader | emf-core-base-rs-bare/src/library/library_token.rs:40-59 | fails, changing nothing, exactly on an invalid handle; otherwise the handle and its type are gone, the handle is retired, the loader count drops by one, and libraries are untouched |
| Library.LibraryApi.GetNumLoaders | emf-core-base-rs-bare/src/library/library_token.rs:61-62 | the number of live loader handles, which equals the number of registered types |
| Library.LibraryApi.GetLibraryTypes | emf-core-base-rs-bare/src/library/library_token.rs:64-74 | fails, writing nothing, when the buffer is shorter than `GetNumLoaders()`; otherwise returns `GetNumLoaders()` after writing each registered type exactly once |
| Library.LibraryApi.GetLoaderHandle | emf-core-base-rs-bare/src/library/library_token.rs:76-84 | fails exactly when `LibraryTypeExists` is false; otherwise returns the live loader registered for that type |
| Library.LibraryApi.LibraryTypeExists | emf-core-base-rs-bare/src/library/library_token.rs:86-87 | true exactly when some live loader is registered for the type |
| Library.LibraryApi.LibraryExists | emf-core-base-rs-bare/src/library/library_token.rs:89-90 | a valid library handle was minted earlier and has never been removed |
| Library.LibraryApi.CreateLibraryHandle | emf-core-base-rs-bare/src/library/library_token.rs:92-97 | the handle was not valid before and never was, is valid afterwards, and is unlinked |
| Library.LibraryApi.RemoveLibraryHandle | emf-core-base-rs-bare/src/library/library_token.rs:99-108 | fails, changing nothing, on an invalid handle; otherwise only that handle goes away, it is retired, loaders are untouched, and no unload request reaches any loader |
| Library.LibraryApi.LinkLibrary | emf-core-base-rs-bare/src/library/library_token.rs:110-127 | fails, changing nothing, when the library or the loader handle is invalid; otherwise the link becomes the new pair, read back by `GetLoaderHandleFromLib` and `GetLoaderLibraryHandle`, replacing any old one without unloading it, and nothing else changes |
| Library.LibraryApi.GetLoaderLibraryHandle | emf-core-base-rs-bare/src/library/library_token.rs:129-141 | fails exactly when the handle is invalid or unlinked; otherwise returns the internal handle of the stored link |
| Library.LibraryApi.GetLoaderHandleFromLib | emf-core-base-rs-bare/src/library/library_token.rs:143-155 | fails exactly when the handle is invalid or unlinked; otherwise returns the loader of the stored link |
| Library.LibraryApi.GetLoaderInterface | emf-core-base-rs-bare/src/library/library_token.rs:157-170 | fails exactly on an invalid loader handle; otherwise returns the interface that loader was registered with |
| Library.LibraryApi.Load | emf-core-base-rs-bare/src/library/library_token.rs:172-184 | fails on an invalid loader, or with the loader's message when that loader's `load` rejects the path, changing nothing; otherwise the handle is distinct from every handle handed out before and is linked to the loader and the internal handle its `load` returned for the path |
| Library.LibraryApi.Unload | emf-core-base-rs-bare/src/library/library_token.rs:186-191 | an invalid, unlinked or orphaned handle fails with its own error and no loader is asked; otherwise exactly the stored link is sent to the linked loader's `unload`, whose failure becomes the result with the registry unchanged, and on success the handle is invalid afterwards and retired |
| Library.LibraryApi.GetSymbol | emf-core-base-rs-bare/src/library/library_token.rs:193-219 | the lookup goes to the linked loader's interface with the stored internal handle; a symbol is returned exactly when the library is valid, linked to a live loader, and that loader finds the name, at the address it reports; invalid, unlinked and orphaned handles and a missing name each give their own error |
| Library.LibraryApi.GetDataSymbol | emf-core-base-rs-bare/src/library/library_token.rs:193-205 | fails on an invalid, unlinked or orphaned library or a missing name; otherwise returns a data symbol of that library at the address the linked loader reports for the stored internal handle |
| Library.LibraryApi.GetFunctionSymbol | emf-core-base-rs-bare/src/library/library_token.rs:207-219 | fails on an invalid, unlinked or orphaned library or a missing name; otherwise returns a function symbol of that library at the address the linked loader reports for the stored internal handle |
| Library.LoadUnloadScenario | emf-core-base-rs-bare/src/library/library_token.rs:172-219 | register, load, find a function symbol (the loader knows it only under the internal handle it returned) and unload all succeed; the same lookup afterwards fails with an invalid-handle error |
| Library.LoadTwiceScenario | emf-core-base-rs-bare/src/library/library_token.rs:172-191 | loading the same path twice through one loader that answers with the same internal handle gives two distinct handles, and each can be unloaded on its own |

## Left out

- Raw pointers, `NonNull`, `Box::leak`/`Box::from_raw` and the `extern "C-unwind"` calling convention. Memory is the abstract `PayloadHeap`: a pointer is owned while it is a key.
- UTF-8 validity and `from_utf8_unchecked`. Text is a sequence of bytes.
- `unsafe impl Send` and every cross-thread transfer, because that is concurrency. The global lock that callers must hold around registry mutation is left out for the same reason.
- The operations behind the `Sys*` and `Version*` ids: lock, try-lock, unlock, shutdown, panic, sync handlers, and version construction, parsing and comparison. Only their numeric ids are modelled.
- Concrete loaders. A loader's `load`, `unload` and symbol lookup are pure function parameters. A loader that keeps state between calls is covered only through the choice of function for each call. Paths are character sequences and symbol names are byte sequences, with no file system or C string rules.
- The generic `T` of `get_loader_interface` and `get_loader_library_handle`. The interface and the internal handle are returned as stored, without a cast.
- Rust lifetimes on handles and symbols. Using a symbol after its library is unloaded is a caller obligation, and the model does not enforce it.
- Handle representation. Handles come from counters that only grow, so a removed handle is never handed out again. A slot-reusing handle table with generation counters is not modelled; it would give the same validity behaviour.
- The derived `Ord`, `Eq` and `Hash` on `ErrorInfo` and `ErrorInfoVTable`.
- Vtables other than `Box<T>::VTABLE`, such as one built by foreign code. The source defines no other.
- An `ErrorInfo` whose `data` is `None`. The `Box<T>` functions unwrap the pointer, which panics on `None`. The model therefore requires an owned pointer for every vtable call.
- Allocation failure in `clone_fn`. It is unrecoverable in the source.
- Errors.Fmt: what a failing sink has already written before `write_str` reports the error is not modelled. The result only says that the call failed.
- Errors.PayloadHeap.BoxCloneFn: the copy is the payload value itself. This assumes the payload type's `Clone` keeps the text that `as_ref` renders, which Rust does not enforce.
- Errors.PayloadHeap.Clone: the equal texts of original and copy rest on the same assumption about the payload type's `Clone`.
- Library.LibraryApi.LibraryExists: the contract states only that a valid handle was minted and never removed. That it is valid exactly while it is in the library map is the function's definition.
- Library.LibraryApi.UnregisterLoader: the drop of the loader count is stated on the live-loader map. `GetNumLoaders` is proved equal to that map's size.
- Library.LibraryApi.RegisterLoader: the loader count is stated on the live-loader map, in the same way as for `UnregisterLoader`.

Where the trait leaves behaviour open, the model makes these choices:

- The trait's error type `LibraryError` is opaque. The model uses one constructor per documented failure.
- Using an unlinked handle is a safety obligation on the caller in the trait (lines 92-97). The model returns a `NotLinked` error instead.
- When a library's loader has since been unregistered, unload and symbol lookup return `InvalidLoaderHandle` for it.
- When a loader's unload fails, the model reports `UnloadFailed` and keeps the library handle. The request is still logged. The trait does not say what happens then.
