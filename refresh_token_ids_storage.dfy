/**
 * `RefreshTokenIdsStorage` (src/iam/authentication/refresh-token-ids.storage.ts):
 * the revocation store, one entry per user, holding the id of that user's
 * current refresh token. The Redis client it talks to is replaced by the map
 * `entries` of key to value; `writes` records the SET and DEL commands sent,
 * so that callers can state in which order they changed the store.
 */
module RefreshTokenIds {
  import opened Wrappers

  const KeyPrefix: string := "user-"

  /** `getKey`: the Redis key of a user's entry. */
  function Key(userId: string): (key: string)
    ensures |key| == |KeyPrefix| + |userId|
    ensures key[..|KeyPrefix|] == KeyPrefix && key[|KeyPrefix|..] == userId
  {
    KeyPrefix + userId
  }

  /** Distinct users have distinct keys. */
  lemma KeyInjective(a: string, b: string)
    requires Key(a) == Key(b)
    ensures a == b
  {
    assert a == Key(a)[|KeyPrefix|..];
    assert b == Key(b)[|KeyPrefix|..];
  }

  /** A command that changes the store. */
  datatype Write = Set(key: string, value: string) | Del(key: string)

  /** The store after `insert(userId, tokenId)`: that user's entry overwritten. */
  function AfterInsert(entries: map<string, string>, userId: string, tokenId: string): map<string, string>
  {
    entries[Key(userId) := tokenId]
  }

  /** The store after `invalidate(userId)`: that user's entry deleted, if any. */
  function AfterInvalidate(entries: map<string, string>, userId: string): map<string, string>
  {
    entries - {Key(userId)}
  }

  /** What `validate(userId, tokenId)` answers in a store with these entries. */
  function Validates(entries: map<string, string>, userId: string, tokenId: string): bool
  {
    Key(userId) in entries && entries[Key(userId)] == tokenId
  }

  /** After an insert, the inserted id and no other validates for that user. */
  lemma InsertThenValidate(entries: map<string, string>, userId: string, tokenId: string, candidate: string)
    ensures Validates(AfterInsert(entries, userId, tokenId), userId, candidate) <==> candidate == tokenId
  {
  }

  /** Insert overwrites unconditionally: of two inserts for one user, the last wins. */
  lemma InsertLastWriterWins(entries: map<string, string>, userId: string, first: string, second: string)
    ensures AfterInsert(AfterInsert(entries, userId, first), userId, second) == AfterInsert(entries, userId, second)
  {
  }

  /** After an invalidate, no id validates for that user. */
  lemma InvalidateRevokes(entries: map<string, string>, userId: string, candidate: string)
    ensures !Validates(AfterInvalidate(entries, userId), userId, candidate)
  {
  }

  /** Invalidating twice leaves the store as invalidating once. */
  lemma InvalidateIdempotent(entries: map<string, string>, userId: string)
    ensures AfterInvalidate(AfterInvalidate(entries, userId), userId) == AfterInvalidate(entries, userId)
  {
  }

  /** Inserting or invalidating for one user does not change what validates for another. */
  lemma OtherUsersUnaffected(entries: map<string, string>, userId: string, other: string, tokenId: string, candidate: string)
    requires other != userId
    ensures Validates(AfterInsert(entries, userId, tokenId), other, candidate) == Validates(entries, other, candidate)
    ensures Validates(AfterInvalidate(entries, userId), other, candidate) == Validates(entries, other, candidate)
  {
    if Key(other) == Key(userId) {
      KeyInjective(other, userId);
    }
  }

  class RefreshTokenIdsStorage {
    /** The Redis contents: key to value. */
    var entries: map<string, string>
    /** The SET and DEL commands sent so far, oldest first. */
    ghost var writes: seq<Write>

    constructor()
      ensures entries == map[] && writes == []
    {
      entries := map[];
      writes := [];
    }

    /** Redis `GET key`: the stored value, or nothing. */
    function Get(key: string): (r: Option<string>)
      reads this
      ensures r.Some? <==> key in entries
      ensures r.Some? ==> r.value == entries[key]
    {
      if key in entries then Some(entries[key]) else None
    }

    /** `insert`: `SET user-<id> tokenId`, overwriting any earlier id. */
    method Insert(userId: string, tokenId: string)
      modifies this
      ensures entries == AfterInsert(old(entries), userId, tokenId)
      ensures writes == old(writes) + [Set(Key(userId), tokenId)]
    {
      entries := entries[Key(userId) := tokenId];
      writes := writes + [Set(Key(userId), tokenId)];
    }

    /** `validate`: the stored id exists and equals `tokenId` exactly. */
    method Validate(userId: string, tokenId: string) returns (ok: bool)
      ensures ok <==> Key(userId) in entries && entries[Key(userId)] == tokenId
      ensures ok == Validates(entries, userId, tokenId)
    {
      var stored := Get(Key(userId));
      ok := stored == Some(tokenId);
    }

    /** `invalidate`: `DEL user-<id>`; a no-op on the entries when absent. */
    method Invalidate(userId: string)
      modifies this
      ensures entries == AfterInvalidate(old(entries), userId)
      ensures writes == old(writes) + [Del(Key(userId))]
    {
      entries := entries - {Key(userId)};
      writes := writes + [Del(Key(userId))];
    }
  }
}
