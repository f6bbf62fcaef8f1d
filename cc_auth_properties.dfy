/**
 * Properties that relate several calls of the token operations: the
 * ownership invariant of the store, what a sequence of log-ins leaves in a
 * user's list, and that a purged or revoked token stays unknown.
 */
module CcAuthProperties {
  import opened Wrappers
  import opened Decimal
  import opened RedisLists
  import opened Credentials
  import opened CcAuth

  // ---------------------------------------------------------------------------
  // Ownership: every entry of a user's list is a token of that user

  /** Removing one occurrence never adds an element. */
  lemma RemoveFirstSubset(s: seq<string>, v: string, x: string)
    requires x in RemoveFirst(s, v)
    ensures x in s
  {
    assert x in multiset(RemoveFirst(s, v));
  }

  /** Replacing one list by a list of elements it already had keeps ownership. */
  lemma ShrinkKeepsOwnership(codec: Codec, lists: Lists, key: string, s: seq<string>)
    requires OwnedLists(codec, lists)
    requires forall x :: x in s ==> x in List(lists, key)
    ensures OwnedLists(codec, Put(lists, key, s))
  {
    var after := Put(lists, key, s);
    forall id: UserId, entry | entry in List(after, ListName(id))
      ensures codec.decode(entry).Some? && codec.decode(entry).value.userId == id
    {
      if ListName(id) == key {
        assert entry in List(lists, ListName(id));
      }
    }
  }

  /** A successful log-in pushes a token of the right user into that user's list only. */
  lemma LogInPreservesOwnership(digest: Digest, codec: Codec, lists: Lists, userLogin: seq<byte>,
                                saltDb: seq<byte>, hashDb: seq<byte>, possibleUserId: UserId,
                                tokenStr: string, now: int)
    requires RoundTrip(codec)
    requires OwnedLists(codec, lists)
    requires |tokenStr| == TOKEN_LENGTH
    ensures OwnedLists(codec, LogInStep(digest, codec, lists, userLogin, saltDb, hashDb, possibleUserId, tokenStr, now).lists)
  {
    var out := LogInStep(digest, codec, lists, userLogin, saltDb, hashDb, possibleUserId, tokenStr, now);
    if out.result.Success? {
      var name := ListName(possibleUserId);
      var pushed := codec.encode(out.result.value);
      assert codec.decode(pushed) == Some(out.result.value);
      forall id: UserId, entry | entry in List(out.lists, ListName(id))
        ensures codec.decode(entry).Some? && codec.decode(entry).value.userId == id
      {
        ListNameInjective(id, possibleUserId);
        if id == possibleUserId && entry != pushed {
          var old_ := List(lists, name);
          assert List(out.lists, name) == [pushed] + old_[..Min(|old_|, MAX_TOKENS_PER_USER)];
          assert entry in old_;
        }
      }
    }
  }

  /** Removing one occurrence of a value from one list keeps ownership. */
  lemma RemoveFirstKeepsOwnership(codec: Codec, lists: Lists, key: string, v: string)
    requires OwnedLists(codec, lists)
    ensures OwnedLists(codec, Put(lists, key, RemoveFirst(List(lists, key), v)))
  {
    forall x | x in RemoveFirst(List(lists, key), v) ensures x in List(lists, key) {
      RemoveFirstSubset(List(lists, key), v, x);
    }
    ShrinkKeepsOwnership(codec, lists, key, RemoveFirst(List(lists, key), v));
  }

  /** Validation, including its lazy purge, keeps ownership. */
  lemma CheckTokenPreservesOwnership(codec: Codec, lists: Lists, token: string, now: int)
    requires OwnedLists(codec, lists)
    ensures OwnedLists(codec, CheckTokenStep(codec, lists, token, now).lists)
  {
    if CheckTokenStep(codec, lists, token, now).lists != lists {
      RemoveFirstKeepsOwnership(codec, lists, ListName(codec.decode(token).value.userId), token);
    }
  }

  /** Revocation keeps ownership. */
  lemma CheckAndRemoveTokenPreservesOwnership(codec: Codec, lists: Lists, token: string)
    requires OwnedLists(codec, lists)
    ensures OwnedLists(codec, CheckAndRemoveTokenStep(codec, lists, token).lists)
  {
    if CheckAndRemoveTokenStep(codec, lists, token).lists != lists {
      RemoveFirstKeepsOwnership(codec, lists, ListName(codec.decode(token).value.userId), token);
    }
  }

  // ---------------------------------------------------------------------------
  // Freshness: a token just issued validates

  /**
   * The serialised token returned by a successful log-in validates, before its
   * validity window ends, as the user it was issued to, and leaves the store as it is.
   */
  lemma FreshTokenValidates(digest: Digest, codec: Codec, lists: Lists, userLogin: seq<byte>,
                            saltDb: seq<byte>, hashDb: seq<byte>, possibleUserId: UserId,
                            tokenStr: string, now: int, later: int)
    requires RoundTrip(codec)
    requires |tokenStr| == TOKEN_LENGTH
    requires HashesEq(digest, userLogin, saltDb, hashDb)
    requires later < now + DAYS_VALID * SECONDS_PER_DAY
    ensures
      var out := LogInStep(digest, codec, lists, userLogin, saltDb, hashDb, possibleUserId, tokenStr, now);
      CheckTokenStep(codec, out.lists, codec.encode(out.result.value), later) == Step(Success(possibleUserId), out.lists)
  {
    var out := LogInStep(digest, codec, lists, userLogin, saltDb, hashDb, possibleUserId, tokenStr, now);
    var wire := codec.encode(out.result.value);
    assert codec.decode(wire) == Some(out.result.value);
    assert List(out.lists, ListName(possibleUserId))[0] == wire;
  }

  // ---------------------------------------------------------------------------
  // Purged and revoked tokens stay unknown

  /** Removing the only occurrence of a value leaves none. */
  lemma RemoveOnlyOccurrence(s: seq<string>, v: string)
    requires multiset(s)[v] == 1
    ensures v !in RemoveFirst(s, v)
  {
    assert multiset(RemoveFirst(s, v))[v] == 0;
  }

  /**
   * An expired token that occurred once in its list is purged by the failed
   * validation: any later validation or revocation of it answers NoSuchToken.
   */
  lemma ExpiredTokenIsPurged(codec: Codec, lists: Lists, token: string, now: int, later: int)
    requires CheckTokenStep(codec, lists, token, now).result == Failure(TokenExpired)
    requires multiset(List(lists, ListName(codec.decode(token).value.userId)))[token] == 1
    ensures
      var after := CheckTokenStep(codec, lists, token, now).lists;
      && CheckTokenStep(codec, after, token, later) == Step(Failure(NoSuchToken), after)
      && CheckAndRemoveTokenStep(codec, after, token) == Step(Failure(NoSuchToken), after)
  {
    var name := ListName(codec.decode(token).value.userId);
    RemoveOnlyOccurrence(List(lists, name), token);
  }

  /**
   * A token that occurred once in its list and was revoked is gone: revoking it
   * again, or validating it, answers NoSuchToken.
   */
  lemma RevokedTokenIsGone(codec: Codec, lists: Lists, token: string, later: int)
    requires CheckAndRemoveTokenStep(codec, lists, token).result.Success?
    requires multiset(List(lists, ListName(codec.decode(token).value.userId)))[token] == 1
    ensures
      var after := CheckAndRemoveTokenStep(codec, lists, token).lists;
      && CheckAndRemoveTokenStep(codec, after, token) == Step(Failure(NoSuchToken), after)
      && CheckTokenStep(codec, after, token, later) == Step(Failure(NoSuchToken), after)
  {
    var name := ListName(codec.decode(token).value.userId);
    RemoveOnlyOccurrence(List(lists, name), token);
  }

  // ---------------------------------------------------------------------------
  // Bound and order of a user's list over successive log-ins

  /** The last min(|entries|, MAX_TOKENS_PER_USER + 1) entries, newest first. */
  function NewestFirst(entries: seq<string>): (r: seq<string>)
    ensures |r| == Min(|entries|, MAX_TOKENS_PER_USER + 1)
    ensures forall i :: 0 <= i < |r| ==> r[i] == entries[|entries| - 1 - i]
  {
    seq(Min(|entries|, MAX_TOKENS_PER_USER + 1), i requires 0 <= i < Min(|entries|, MAX_TOKENS_PER_USER + 1) =>
      entries[|entries| - 1 - i])
  }

  /** A user's list after pushing `entries` through log-in one after the other, from `start`. */
  function LogIns(start: seq<string>, entries: seq<string>): (r: seq<string>)
    ensures entries == [] ==> r == start
    ensures entries != [] ==> 1 <= |r| <= MAX_TOKENS_PER_USER + 1 && r[0] == entries[|entries| - 1]
  {
    if entries == [] then start
    else AfterLogIn(LogIns(start, entries[..|entries| - 1]), entries[|entries| - 1])
  }

  /** One more log-in extends the newest-first history by its entry. */
  lemma {:induction false} AfterLogInExtendsHistory(entries: seq<string>, entry: string)
    ensures AfterLogIn(NewestFirst(entries), entry) == NewestFirst(entries + [entry])
  {
    var a, b := AfterLogIn(NewestFirst(entries), entry), NewestFirst(entries + [entry]);
    assert |a| == |b|;
    forall i | 0 <= i < |a| ensures a[i] == b[i] {
      if i > 0 {
        assert a[i] == a[1..][i - 1];
      }
    }
  }

  /**
   * Starting from an empty list, k successful log-ins leave exactly the last
   * min(k, MAX_TOKENS_PER_USER + 1) serialised tokens, newest first.
   */
  lemma {:induction false} LogInsFromEmpty(entries: seq<string>)
    ensures LogIns([], entries) == NewestFirst(entries)
  {
    if entries != [] {
      var prefix := entries[..|entries| - 1];
      LogInsFromEmpty(prefix);
      AfterLogInExtendsHistory(prefix, entries[|entries| - 1]);
      assert prefix + [entries[|entries| - 1]] == entries;
    }
  }

  /**
   * The store-level step of the history: if a user's list is the newest-first
   * history of `entries`, a successful log-in makes it the history of
   * `entries` followed by the new serialised token.
   */
  lemma LogInExtendsStoredHistory(digest: Digest, codec: Codec, lists: Lists, userLogin: seq<byte>,
                                  saltDb: seq<byte>, hashDb: seq<byte>, possibleUserId: UserId,
                                  tokenStr: string, now: int, entries: seq<string>)
    requires |tokenStr| == TOKEN_LENGTH
    requires HashesEq(digest, userLogin, saltDb, hashDb)
    requires List(lists, ListName(possibleUserId)) == NewestFirst(entries)
    ensures
      var out := LogInStep(digest, codec, lists, userLogin, saltDb, hashDb, possibleUserId, tokenStr, now);
      List(out.lists, ListName(possibleUserId)) == NewestFirst(entries + [codec.encode(out.result.value)])
  {
    var out := LogInStep(digest, codec, lists, userLogin, saltDb, hashDb, possibleUserId, tokenStr, now);
    var entry := codec.encode(out.result.value);
    AfterLogInExtendsHistory(entries, entry);
    var a := List(out.lists, ListName(possibleUserId));
    var b := AfterLogIn(NewestFirst(entries), entry);
    assert a[0] == b[0] && a[1..] == b[1..];
    assert a == [a[0]] + a[1..] && b == [b[0]] + b[1..];
  }

  /** An entry survives in the history exactly when it is among the last MAX_TOKENS_PER_USER + 1. */
  lemma HistoryMembership(entries: seq<string>, i: nat)
    requires i < |entries|
    requires forall a, b :: 0 <= a < b < |entries| ==> entries[a] != entries[b]
    ensures entries[i] in NewestFirst(entries) <==> i >= |entries| - (MAX_TOKENS_PER_USER + 1)
  {
    var h := NewestFirst(entries);
    if i >= |entries| - (MAX_TOKENS_PER_USER + 1) {
      assert h[|entries| - 1 - i] == entries[i];
    }
  }

  /**
   * Four successive log-ins do not evict the first token (the list keeps four
   * entries), a fifth one does.
   */
  lemma FifthLogInEvictsFirst(entries: seq<string>)
    requires |entries| == 5
    requires forall a, b :: 0 <= a < b < |entries| ==> entries[a] != entries[b]
    ensures entries[0] in LogIns([], entries[..4])
    ensures entries[0] !in LogIns([], entries)
  {
    LogInsFromEmpty(entries[..4]);
    LogInsFromEmpty(entries);
    HistoryMembership(entries[..4], 0);
    HistoryMembership(entries, 0);
  }
}
