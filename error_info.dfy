/**
  The type-erased error object that crosses the binary interface.

  An `ErrorInfo` pairs an optional pointer to an owned payload with a static
  table of three operations (cleanup, clone, as-str) chosen by the payload's
  concrete type, so that a holder can release, duplicate or render the payload
  without knowing that type. Memory is modelled as a heap of owned payloads:
  a pointer is owned while it is a key of the heap, and every cleanup is
  recorded in a log so that "released exactly once" can be stated.
 */
module Errors {
  import opened Wrappers

  /** The bytes of an error string; UTF-8 validity is not modelled. */
  type ErrorString = seq<bv8>

  /** The address of a payload allocation. */
  datatype Ptr = Ptr(addr: nat)

  /** Names a concrete payload type `T` (one `Box<T>` table exists per `T`). */
  type TypeName = nat

  /**
    A payload value: its concrete type and the text its `as_ref` renders.
    A payload type is only required to render to text and to be clonable, so
    the text is all the model keeps of it.
   */
  datatype Payload = Payload(ty: TypeName, text: ErrorString)

  /** The three slots of the table; each names the implementation it points to. */
  datatype CleanupFn = BoxCleanup(ty: TypeName)
  datatype CloneFn = BoxClone(ty: TypeName)
  datatype AsStrFn = BoxAsStr(ty: TypeName)

  /** The error vtable: one entry per operation. */
  datatype VTable = VTable(cleanupFn: CleanupFn, cloneFn: CloneFn, asStrFn: AsStrFn)

  /** The error object: an optional payload pointer and its vtable. */
  datatype ErrorInfo = ErrorInfo(data: Option<Ptr>, vtable: VTable)

  /** `<Box<T>>::VTABLE`: the static table whose three slots are the `Box<T>` functions. */
  function BoxVTable(ty: TypeName): (v: VTable)
  {
    VTable(BoxCleanup(ty), BoxClone(ty), BoxAsStr(ty))
  }

  /**
    `e` may be used with `payloads`: its pointer is owned and points at a
    payload of the type its vtable was made for (the `Box<T>` functions unwrap
    the pointer and cast it to `T`, which is only defined in that case).
   */
  predicate Owns(payloads: map<Ptr, Payload>, e: ErrorInfo)
  {
    && e.data.Some?
    && e.data.value in payloads
    && e.vtable == BoxVTable(payloads[e.data.value].ty)
  }

  /** `Box<T>::as_str_fn`: the string of the payload behind `data`. */
  function BoxAsStrFn(ty: TypeName, payloads: map<Ptr, Payload>, data: Option<Ptr>): (s: ErrorString)
    requires data.Some? && data.value in payloads && payloads[data.value].ty == ty
  {
    payloads[data.value].text
  }

  /** Calls the `as_str_fn` slot of a table. */
  function CallAsStr(f: AsStrFn, payloads: map<Ptr, Payload>, data: Option<Ptr>): (s: ErrorString)
    requires data.Some? && data.value in payloads && payloads[data.value].ty == f.ty
  {
    match f
    case BoxAsStr(ty) => BoxAsStrFn(ty, payloads, data)
  }

  /** `ErrorInfo::as_str`: dispatches to the vtable and yields the payload's text. */
  function AsStr(payloads: map<Ptr, Payload>, e: ErrorInfo): (s: ErrorString)
    requires Owns(payloads, e)
    ensures s == payloads[e.data.value].text
  {
    CallAsStr(e.vtable.asStrFn, payloads, e.data)
  }

  /** `AsRef<str> for ErrorInfo`: the empty string for an empty span, otherwise the span's bytes. */
  function AsRef(payloads: map<Ptr, Payload>, e: ErrorInfo): (s: ErrorString)
    requires Owns(payloads, e)
    ensures s == payloads[e.data.value].text
    ensures s == [] <==> |AsStr(payloads, e)| == 0
  {
    var data := AsStr(payloads, e);
    if |data| == 0 then [] else data
  }

  /** `std::fmt::Error`: the formatter's sink refused the write. */
  datatype FmtError = FmtError

  /**
    `Display::fmt` and `Debug::fmt` (the two bodies are the same): write the
    `as_ref` text to the formatter and return what `write_str` returns. The
    formatter is the bytes written so far and whether its sink fails.
   */
  function Fmt(payloads: map<Ptr, Payload>, e: ErrorInfo, written: seq<bv8>, sinkFails: bool)
    : (r: Result<seq<bv8>, FmtError>)
    requires Owns(payloads, e)
    ensures r.Err? <==> sinkFails
    ensures r.Ok? ==> |r.value| == |written| + |payloads[e.data.value].text|
    ensures r.Ok? ==> r.value[..|written|] == written
    ensures r.Ok? ==> r.value[|written|..] == payloads[e.data.value].text
  {
    WriteStr(written, sinkFails, AsRef(payloads, e))
  }

  /** `Formatter::write_str`: appends the text, or fails when the sink does. */
  function WriteStr(written: seq<bv8>, sinkFails: bool, text: seq<bv8>): (r: Result<seq<bv8>, FmtError>)
  {
    if sinkFails then Err(FmtError) else Ok(written + text)
  }

  /** Two error objects that own different payloads. */
  predicate Independent(payloads: map<Ptr, Payload>, e: ErrorInfo, c: ErrorInfo)
  {
    Owns(payloads, e) && Owns(payloads, c) && e.data != c.data
  }

  /** Releasing one of two independent objects leaves the other's text as it was. */
  lemma ReleaseKeepsOther(payloads: map<Ptr, Payload>, e: ErrorInfo, c: ErrorInfo)
    requires Independent(payloads, e, c)
    ensures Owns(payloads - {e.data.value}, c)
    ensures AsStr(payloads - {e.data.value}, c) == AsStr(payloads, c)
  {
  }

  /**
    The owned payloads. `log` lists, in order, every pointer whose cleanup has
    run; a pointer is never both owned and in the log, and never twice in it.
   */
  class PayloadHeap {
    var payloads: map<Ptr, Payload>
    var next: nat
    ghost var log: seq<Ptr>

    ghost predicate Valid()
      reads this
    {
      && (forall p :: p in payloads ==> p.addr < next)
      && (forall i :: 0 <= i < |log| ==> log[i].addr < next && log[i] !in payloads)
      && (forall i, j :: 0 <= i < j < |log| ==> log[i] != log[j])
    }

    constructor ()
      ensures Valid() && payloads == map[] && log == []
    {
      payloads, next, log := map[], 0, [];
    }

    /** A fresh allocation holding `v` (`Box::new` followed by `Box::leak`). */
    method Allocate(v: Payload) returns (p: Ptr)
      requires Valid()
      modifies this
      ensures Valid()
      ensures p !in old(payloads) && p !in log && log == old(log)
      ensures payloads == old(payloads)[p := v]
    {
      p := Ptr(next);
      payloads := payloads[p := v];
      next := next + 1;
    }

    /** `From<Box<T>> for ErrorInfo`: takes ownership of a boxed payload. */
    method From(v: Payload) returns (e: ErrorInfo)
      requires Valid()
      modifies this
      ensures Valid() && Owns(payloads, e)
      ensures e.vtable == BoxVTable(v.ty)
      ensures e.data.Some? && e.data.value !in old(payloads) && e.data.value !in log
      ensures payloads == old(payloads)[e.data.value := v] && log == old(log)
    {
      var p := Allocate(v);
      e := ErrorInfo(Some(p), BoxVTable(v.ty));
    }

    /** `Box<T>::cleanup_fn`: unwraps the pointer and drops the box. */
    method BoxCleanupFn(ty: TypeName, data: Option<Ptr>)
      requires Valid()
      requires data.Some? && data.value in payloads && payloads[data.value].ty == ty
      modifies this
      ensures Valid()
      ensures payloads == old(payloads) - {data.value}
      ensures log == old(log) + [data.value]
    {
      payloads := payloads - {data.value};
      log := log + [data.value];
    }

    /**
      `Box<T>::clone_fn`: boxes a copy of the payload and returns its pointer.
      The copy is the payload value itself, so the payload type's `clone` is
      taken to keep the text.
     */
    method BoxCloneFn(ty: TypeName, data: Option<Ptr>) returns (copy: Option<Ptr>)
      requires Valid()
      requires data.Some? && data.value in payloads && payloads[data.value].ty == ty
      modifies this
      ensures Valid()
      ensures copy.Some? && copy.value !in old(payloads) && copy.value !in log
      ensures payloads == old(payloads)[copy.value := old(payloads)[data.value]]
      ensures log == old(log)
      ensures payloads[copy.value].ty == ty
      ensures BoxAsStrFn(ty, payloads, copy) == BoxAsStrFn(ty, old(payloads), data)
      ensures BoxAsStrFn(ty, payloads, data) == BoxAsStrFn(ty, old(payloads), data)
    {
      var p := Allocate(payloads[data.value]);
      copy := Some(p);
    }

    /** `Drop for ErrorInfo`: runs the vtable's cleanup on the payload, once. */
    method Drop(e: ErrorInfo)
      requires Valid() && Owns(payloads, e)
      modifies this
      ensures Valid()
      ensures payloads == old(payloads) - {e.data.value}
      ensures log == old(log) + [e.data.value]
      ensures !Owns(payloads, e)
    {
      match e.vtable.cleanupFn
      case BoxCleanup(ty) => BoxCleanupFn(ty, e.data);
    }

    /**
      `Clone for ErrorInfo`: the copy keeps the vtable and holds whatever the
      vtable's clone returns, a fresh payload equal to the original's.
     */
    method Clone(e: ErrorInfo) returns (c: ErrorInfo)
      requires Valid() && Owns(payloads, e)
      modifies this
      ensures Valid()
      ensures c.vtable == e.vtable
      ensures c.data.Some? && c.data.value !in old(payloads) && c.data.value !in log
      ensures payloads == old(payloads)[c.data.value := old(payloads)[e.data.value]]
      ensures log == old(log)
      ensures Independent(payloads, e, c)
      ensures AsStr(payloads, c) == AsStr(payloads, e) == old(AsStr(payloads, e))
    {
      var data;
      match e.vtable.cloneFn
      case BoxClone(ty) => data := BoxCloneFn(ty, e.data);
      c := ErrorInfo(data, e.vtable);
    }
  }

  /**
    The crate's `box_error` unit test: wrap a string, then the object's text
    and its clone's text both equal the string; dropping the original leaves
    the clone.
   */
  method BoxErrorScenario(heap: PayloadHeap, ty: TypeName, message: ErrorString)
    returns (e: ErrorInfo, c: ErrorInfo)
    requires heap.Valid()
    modifies heap
    ensures heap.Valid() && Owns(heap.payloads, c) && !Owns(heap.payloads, e)
    ensures AsRef(heap.payloads, c) == message
    ensures e.data.Some? && heap.log == old(heap.log) + [e.data.value]
  {
    e := heap.From(Payload(ty, message));
    assert AsRef(heap.payloads, e) == message;
    c := heap.Clone(e);
    assert AsRef(heap.payloads, c) == message;
    heap.Drop(e);
  }
}
