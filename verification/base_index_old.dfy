/**
 Fork tokens, index owners and the index base of the oldest storage layer
 (`merkledb_old/indices/base_index.py`, `merkledb_old/index_owner.py`).

 An index owner is identified by a prefix (the hex of a signature over the
 owner's name; the signature is not modelled, the prefix is a parameter).
 Every index of that owner lives in the database entry `prefix_name`.
 */
module OldBaseIndex {
  import opened Common
  import MemoryDb

  // ----------------------------------------------------------------------
  // Fork tokens

  /** `ForkToken`: only a validity flag. */
  datatype ForkToken = ForkToken(valid: bool)

  /** The two things one can do with a token: ask `valid()` or `_invalidate()` it. */
  datatype TokenCall = AskValid | Invalidate

  /** `ForkToken()`: a new token. */
  function NewToken(): ForkToken {
    ForkToken(true)
  }

  /**
   One call on a token: the token afterwards and what the call returned
   (`valid()` answers the flag, `_invalidate()` answers nothing).
   */
  function Call(t: ForkToken, c: TokenCall): (r: (ForkToken, Option<bool>))
    ensures c == AskValid ==> r == (t, Some(t.valid))
    ensures c == Invalidate ==> r.1 == None && !r.0.valid
  {
    match c
    case AskValid => (t, Some(t.valid))
    case Invalidate => (ForkToken(false), None)
  }

  /** The token after a sequence of calls. */
  function CallAll(t: ForkToken, cs: seq<TokenCall>): ForkToken
    decreases |cs|
  {
    if cs == [] then t else CallAll(Call(t, cs[0]).0, cs[1..])
  }

  /** A new token answers `valid()` with True. */
  lemma NewTokenIsValid()
    ensures Call(NewToken(), AskValid).1 == Some(true)
  {
  }

  /** A token is valid after a sequence of calls exactly when it started valid and none invalidated it. */
  lemma {:induction false} ValidIffNeverInvalidated(t: ForkToken, cs: seq<TokenCall>)
    ensures CallAll(t, cs).valid <==> t.valid && Invalidate !in cs
    decreases |cs|
  {
    if cs != [] {
      ValidIffNeverInvalidated(Call(t, cs[0]).0, cs[1..]);
      assert cs == [cs[0]] + cs[1..];
    }
  }

  /**
   Once invalidated, no sequence of calls makes a token valid again: nothing
   in the class ever sets the flag back.
   */
  lemma ExpiredStaysExpired(t: ForkToken, cs: seq<TokenCall>)
    requires !t.valid
    ensures !CallAll(t, cs).valid
  {
    ValidIffNeverInvalidated(t, cs);
  }

  // ----------------------------------------------------------------------
  // Index owners

  /** `IndexOwner`, reduced to its prefix. */
  datatype IndexOwner = IndexOwner(prefix: string)

  /** `IndexOwner.into_index_name`: `f"{prefix}_{name}"`. */
  function IntoIndexName(owner: IndexOwner, name: string): string {
    owner.prefix + "_" + name
  }

  /** One owner never maps two names to the same index name. */
  lemma IntoIndexNameInjective(owner: IndexOwner, a: string, b: string)
    ensures IntoIndexName(owner, a) == IntoIndexName(owner, b) ==> a == b
  {
    var n := |owner.prefix| + 1;
    if IntoIndexName(owner, a) == IntoIndexName(owner, b) {
      assert a == IntoIndexName(owner, a)[n..];
      assert b == IntoIndexName(owner, b)[n..];
    }
  }

  // ----------------------------------------------------------------------
  // BaseIndex

  /** `BaseIndex`: database, owner, name and optional family. */
  datatype BaseIndex = BaseIndex(owner: IndexOwner, name: string, family: Option<string>)

  /** `BaseIndex.fork`: a fork of the owner-prefixed name in the given family. */
  function Fork(db: MemoryDb.Db, index: BaseIndex): (r: (MemoryDb.Db, MemoryDb.Fork))
    requires MemoryDb.Valid(db)
    ensures MemoryDb.Valid(r.0) && r.0.entries == db.entries
    ensures r.1.slot < |r.0.dicts|
    ensures r.1.entry == MemoryDb.EntryName(index.owner.prefix + "_" + index.name, index.family)
  {
    MemoryDb.OpenFork(db, IntoIndexName(index.owner, index.name), index.family)
  }

  /**
   Two indices of one owner with different names and no family never share a
   database entry, so their forks never see each other's data.
   */
  lemma DistinctIndicesDistinctEntries(db: MemoryDb.Db, owner: IndexOwner, a: string, b: string)
    requires MemoryDb.Valid(db) && a != b
    ensures Fork(db, BaseIndex(owner, a, None)).1.entry != Fork(db, BaseIndex(owner, b, None)).1.entry
  {
    IntoIndexNameInjective(owner, a, b);
  }
}
