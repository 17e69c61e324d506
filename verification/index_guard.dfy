/**
 The access guard of the newer index classes
 (`exonum_runtime/merkledb/indices/base_index.py`).

 The metaclass of `BaseIndex` checks that every index class derives from
 `BaseIndex` directly and wraps its public methods so that each call first
 checks the index's access (`ensure_access`). A class body is a dict from
 attribute names to members; a member is either an original attribute or an
 original wrapped by `_ensure`.
 */
module IndexGuard {
  import opened Common

  /** A class attribute: an original (callable or not, identified by `code`) or a wrapper. */
  datatype Member = Original(callable: bool, code: nat) | Ensured(wrapped: Member)

  /** `TypeError("Index classes should be derived from BaseIndex")`. */
  datatype ClassError = NotDerivedFromBaseIndex

  datatype ClassResult = Created(dict: map<string, Member>) | Rejected(error: ClassError)

  /** Python's `callable` on a class attribute; a wrapper is a function. */
  predicate Callable(m: Member) {
    m.Ensured? || m.callable
  }

  /** A member that can actually be called: a callable original, possibly wrapped. */
  predicate Runnable(m: Member) {
    match m
    case Original(c, _) => c
    case Ensured(inner) => Runnable(inner)
  }

  /** The metaclass's wrapping test: a public name (no leading underscore) bound to a callable. */
  predicate WrappedAsWritten(key: string, m: Member) {
    !StartsWith(key, "_") && Callable(m)
  }

  /**
   `_BaseIndexMeta.__new__`: `BaseIndex` itself passes unchanged; any other
   class must name `BaseIndex` among its direct bases; then every attribute
   that passes `WrappedAsWritten` is replaced by its `_ensure` wrapper.
   */
  function MetaNew(name: string, bases: seq<string>, dict: map<string, Member>): (r: ClassResult)
    ensures name == "BaseIndex" ==> r == Created(dict)
    ensures name != "BaseIndex" ==> (r.Rejected? <==> "BaseIndex" !in bases)
    ensures r.Created? ==> r.dict.Keys == dict.Keys
  {
    if name == "BaseIndex" then Created(dict)
    else if "BaseIndex" !in bases then Rejected(NotDerivedFromBaseIndex)
    else Created(map key | key in dict :: if WrappedAsWritten(key, dict[key]) then Ensured(dict[key]) else dict[key])
  }

  /** `IndexAccessError("Access to index expired")`, or what the original returned. */
  datatype CallResult<T> = Result(value: T) | AccessExpired

  /** `ensure_access`: raises exactly when the index's access is no longer valid. */
  function EnsureAccess(accessValid: bool): (r: CallResult<()>)
    ensures r.AccessExpired? <==> !accessValid
  {
    if !accessValid then AccessExpired else Result(())
  }

  /**
   Calling a callable member on an index whose access has validity
   `accessValid`: a wrapper checks the access and then calls what it wraps;
   an original runs `run(code)`, the method's behaviour on its arguments.
   */
  function Invoke<T>(m: Member, accessValid: bool, run: nat -> T): CallResult<T>
    requires Runnable(m)
  {
    match m
    case Original(_, code) => Result(run(code))
    case Ensured(inner) =>
      if EnsureAccess(accessValid).AccessExpired? then AccessExpired
      else Invoke(inner, accessValid, run)
  }

  // ----------------------------------------------------------------------
  // Properties

  /**
   Every attribute of a created class is wrapped exactly when it is a public
   callable, and otherwise kept as it was.
   */
  lemma WrapsExactlyPublicCallables(bases: seq<string>, name: string, dict: map<string, Member>, key: string)
    requires name != "BaseIndex" && "BaseIndex" in bases && key in dict
    ensures MetaNew(name, bases, dict).Created?
    ensures var d := MetaNew(name, bases, dict).dict;
      && (WrappedAsWritten(key, dict[key]) ==> d[key] == Ensured(dict[key]))
      && (!WrappedAsWritten(key, dict[key]) ==> d[key] == dict[key])
  {
  }

  /** With valid access a wrapper is transparent: same code, same result. */
  lemma EnsuredTransparent<T>(m: Member, run: nat -> T)
    requires Runnable(m) && m.Original?
    ensures Invoke(Ensured(m), true, run) == Invoke(m, true, run) == Result(run(m.code))
  {
  }

  /** With expired access a wrapper raises IndexAccessError and never runs the original. */
  lemma EnsuredBlocksExpired<T>(m: Member, run: nat -> T)
    requires Runnable(m)
    ensures Invoke(Ensured(m), false, run) == AccessExpired
  {
  }

  /**
   As written, an underscore-named method such as `__getitem__` is never
   wrapped, so it runs even after the access has expired.
   */
  lemma ItemAccessUnguarded<T>(bases: seq<string>, name: string, dict: map<string, Member>, run: nat -> T)
    requires name != "BaseIndex" && "BaseIndex" in bases
    requires "__getitem__" in dict && dict["__getitem__"] == Original(true, 7)
    ensures MetaNew(name, bases, dict).Created?
    ensures Invoke(MetaNew(name, bases, dict).dict["__getitem__"], false, run) == Result(run(7))
  {
    assert StartsWith("__getitem__", "_");
  }

  // ----------------------------------------------------------------------
  // Corrected guard

  /** A special method (`__x__`) other than the constructor. */
  predicate IsSpecialMethod(key: string) {
    |key| > 4 && StartsWith(key, "__") && key[|key| - 2..] == "__" && key != "__init__"
  }

  /** The evident intent: guard public methods and the special methods that act on the index. */
  predicate WrappedCorrected(key: string, m: Member) {
    Callable(m) && (!StartsWith(key, "_") || IsSpecialMethod(key))
  }

  /** `MetaNew` with the corrected wrapping test. */
  function MetaNewCorrected(name: string, bases: seq<string>, dict: map<string, Member>): (r: ClassResult)
    ensures name == "BaseIndex" ==> r == Created(dict)
    ensures name != "BaseIndex" ==> (r.Rejected? <==> "BaseIndex" !in bases)
    ensures r.Created? ==> r.dict.Keys == dict.Keys
  {
    if name == "BaseIndex" then Created(dict)
    else if "BaseIndex" !in bases then Rejected(NotDerivedFromBaseIndex)
    else Created(map key | key in dict :: if WrappedCorrected(key, dict[key]) then Ensured(dict[key]) else dict[key])
  }

  /**
   With the corrected test, every public or special method of a created
   class raises IndexAccessError once the access has expired, and only
   private helpers and `__init__` run unchecked.
   */
  lemma CorrectedGuardsItemAccess<T>(bases: seq<string>, name: string, dict: map<string, Member>, key: string, run: nat -> T)
    requires name != "BaseIndex" && "BaseIndex" in bases && key in dict && Runnable(dict[key])
    requires !StartsWith(key, "_") || IsSpecialMethod(key)
    ensures MetaNewCorrected(name, bases, dict).Created?
    ensures Invoke(MetaNewCorrected(name, bases, dict).dict[key], false, run) == AccessExpired
  {
  }

  /** `__getitem__` is among the methods the corrected guard covers. */
  lemma GetItemIsSpecial()
    ensures IsSpecialMethod("__getitem__") && !IsSpecialMethod("__init__")
  {
  }

  /** The corrected guard wraps a superset of what the written one wraps. */
  lemma CorrectedExtendsWritten(key: string, m: Member)
    ensures WrappedAsWritten(key, m) ==> WrappedCorrected(key, m)
  {
  }
}
