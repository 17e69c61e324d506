/**
 The database access capability of the newer storage layer
 (`exonum_runtime/merkledb/types.py`).

 An `Access` wraps a raw access handle (a Rust fork or snapshot behind a
 pointer) and a validity flag. It is valid only inside its with-block:
 entering sets the flag, leaving clears it on every exit path. The raw handle
 is a type parameter: the Python class never looks inside it.
 */
module Access {

  /** The two subclasses, `Fork` and `Snapshot`; neither adds behaviour. */
  datatype AccessKind = ForkKind | SnapshotKind

  /** An `Access` object: its class, the raw handle and `_valid`. */
  datatype Access<R> = Access(kind: AccessKind, raw: R, valid: bool)

  /** `RuntimeError("Access is not valid anymore")`. */
  datatype AccessError = NotValidAnymore

  /** The result of `inner()`. */
  datatype Inner<R> = Handle(raw: R) | Raised(error: AccessError)

  /** `Access.__init__`: a new access starts out invalid. */
  function New<R>(kind: AccessKind, raw: R): (a: Access<R>)
    ensures !a.valid && a.kind == kind && a.raw == raw
  {
    Access(kind, raw, false)
  }

  /** `__enter__`: marks the access valid and returns the same object. */
  function Enter<R>(a: Access<R>): Access<R> {
    a.(valid := true)
  }

  /** `__exit__`: marks the access invalid, whatever the exception arguments. */
  function Exit<R>(a: Access<R>): Access<R> {
    a.(valid := false)
  }

  /** `inner()`: the raw handle while valid, RuntimeError otherwise. */
  function InnerOf<R>(a: Access<R>): (r: Inner<R>)
    ensures r.Handle? <==> a.valid
    ensures r.Handle? ==> r.raw == a.raw
  {
    if !a.valid then Raised(NotValidAnymore) else Handle(a.raw)
  }

  /** How a with-block body ended: normally with a value, or by raising. */
  datatype BodyEnd<T> = Returned(value: T) | Threw

  /**
   `with access: body`: runs the body on the entered access, then exits on
   whichever path the body took. The body may replace the raw handle (a
   fork's writes), but not the flag.
   */
  function With<R, T>(a: Access<R>, body: Access<R> -> (R, BodyEnd<T>)): (r: (Access<R>, BodyEnd<T>))
    ensures !r.0.valid
    ensures r.0.kind == a.kind
    ensures r.1 == body(Enter(a)).1
  {
    var (raw', end) := body(Enter(a));
    (Exit(a.(raw := raw')), end)
  }

  // ----------------------------------------------------------------------
  // Properties

  /** Entering keeps the object's identity (class and handle) and makes `inner()` succeed. */
  lemma EnterGrantsInner<R>(a: Access<R>)
    ensures Enter(a).kind == a.kind && Enter(a).raw == a.raw
    ensures InnerOf(Enter(a)) == Handle(a.raw)
  {
  }

  /** After exit, `inner()` raises, and entering again restores it. */
  lemma ExitRevokesInner<R>(a: Access<R>)
    ensures InnerOf(Exit(a)) == Raised(NotValidAnymore)
    ensures InnerOf(Enter(Exit(a))) == Handle(a.raw)
  {
  }

  /** A new, never-entered access cannot hand out its handle. */
  lemma NewAccessIsUnusable<R>(kind: AccessKind, raw: R)
    ensures InnerOf(New(kind, raw)).Raised?
  {
  }

  /**
   Inside the with-block the body sees a valid access; after it, on both the
   normal and the exceptional path, `inner()` raises.
   */
  lemma WithScopesValidity<R, T>(a: Access<R>, body: Access<R> -> (R, BodyEnd<T>))
    ensures InnerOf(Enter(a)).Handle?
    ensures InnerOf(With(a, body).0) == Raised(NotValidAnymore)
  {
  }
}
