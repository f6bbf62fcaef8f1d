/**
 * The token lifecycle of src/lib.rs: issuing a token on log-in, validating it
 * and revoking it, over a Redis-like store of per-user token lists.
 *
 * Each store operation appears twice: as a function from the old store to a
 * result and a new store (`LogInStep`, `CheckTokenStep`,
 * `CheckAndRemoveTokenStep`), which the lemmas reason about, and as a method
 * that issues the Redis commands one by one against a `ListStore`, proved to
 * compute exactly that function.
 */
module CcAuth {
  import opened Wrappers
  import opened Decimal
  import opened RedisLists
  import opened Credentials

  /** Length of the random token string. */
  const TOKEN_LENGTH: nat := 64

  /** Namespace of the per-user token lists. */
  const TOKEN_PREFIX: string := "user_tokens"

  /** LTRIM bound used on log-in. */
  const MAX_TOKENS_PER_USER: int := 3

  /** Validity window of a token, in whole days. */
  const DAYS_VALID: int := 28

  const SECONDS_PER_DAY: int := 86400

  type UserId = u64

  /** An issued token; `birth` is the issue time in whole seconds (UTC). */
  datatype UserToken = UserToken(userId: UserId, tokenStr: string, birth: int)

  /** The error messages the three operations can return. */
  datatype Error =
    | HashesNotEqual   // "Hashes are not equal."
    | MalformedToken   // the token string does not deserialise
    | NoSuchToken      // "There is no such tokens."
    | TokenExpired     // "The token is expired."

  /** The wire form of a token: serialisation and deserialisation. */
  datatype Codec = Codec(encode: UserToken -> string, decode: string -> Option<UserToken>)

  /** Deserialising a serialised token gives the token back. */
  ghost predicate RoundTrip(codec: Codec) {
    forall t :: codec.decode(codec.encode(t)) == Some(t)
  }

  /** Result and store after one operation. */
  datatype Step<+T> = Step(result: Result<T, Error>, lists: Lists)

  // ---------------------------------------------------------------------------
  // Pure helpers

  const LIST_NAME_HEAD: string := TOKEN_PREFIX + ":id"

  /** Name of the Redis list holding a user's tokens: the prefix, ":id", then the id in decimal. */
  function ListName(userId: UserId): (r: string)
    ensures |r| > |LIST_NAME_HEAD| && r[..|LIST_NAME_HEAD|] == LIST_NAME_HEAD
    ensures IsCanonical(r[|LIST_NAME_HEAD|..]) && Parse(r[|LIST_NAME_HEAD|..]) == userId as nat
  {
    var r := LIST_NAME_HEAD + Digits(userId as nat);
    assert r[|LIST_NAME_HEAD|..] == Digits(userId as nat);
    r
  }

  /** Two users never share a token list. */
  lemma ListNameInjective(a: UserId, b: UserId)
    ensures ListName(a) == ListName(b) ==> a == b
  {
  }

  /**
   * `Duration::num_days`: the number of whole days, truncated toward zero, so
   * it has the sign of `seconds` and its magnitude is the whole days in `|seconds|`.
   */
  function NumDays(seconds: int): (days: int)
    ensures seconds >= 0 ==> days * SECONDS_PER_DAY <= seconds < (days + 1) * SECONDS_PER_DAY
    ensures seconds < 0 ==> (days - 1) * SECONDS_PER_DAY < seconds <= days * SECONDS_PER_DAY
  {
    if seconds >= 0 then seconds / SECONDS_PER_DAY else -((-seconds) / SECONDS_PER_DAY)
  }

  /**
   * The expiry test of `check_token`, `num_days(now - birth) >= DAYS_VALID`: it
   * holds exactly when 28 full days of seconds have passed since the token's birth.
   */
  predicate IsExpired(token: UserToken, now: int)
    ensures IsExpired(token, now) <==> now - token.birth >= DAYS_VALID * SECONDS_PER_DAY
  {
    NumDays(now - token.birth) >= DAYS_VALID
  }

  /**
   * `generate_token`: the random string and the current time are given, the
   * string being what the password generator produces for TOKEN_LENGTH.
   */
  function GenerateToken(userId: UserId, tokenStr: string, now: int): (t: UserToken)
    requires |tokenStr| == TOKEN_LENGTH
    ensures t.userId == userId && t.tokenStr == tokenStr && |t.tokenStr| == TOKEN_LENGTH
    ensures forall later :: IsExpired(t, later) <==> later >= now + DAYS_VALID * SECONDS_PER_DAY
  {
    UserToken(userId, tokenStr, now)
  }

  /**
   * A user's token list after log-in pushes `entry`: when it already holds
   * MAX_TOKENS_PER_USER or more entries it is trimmed to its first
   * MAX_TOKENS_PER_USER, then `entry` is pushed on the head.
   */
  function AfterLogIn(s: seq<string>, entry: string): (r: seq<string>)
    ensures |r| == Min(|s|, MAX_TOKENS_PER_USER) + 1 <= MAX_TOKENS_PER_USER + 1
    ensures r[0] == entry
    ensures r[1..] == s[..Min(|s|, MAX_TOKENS_PER_USER)]
  {
    var kept := if |s| >= MAX_TOKENS_PER_USER then TrimRange(s, 0, MAX_TOKENS_PER_USER - 1) else s;
    [entry] + kept
  }

  /** Every entry of the list named for a user decodes to a token of that user. */
  ghost predicate OwnedLists(codec: Codec, lists: Lists) {
    forall id: UserId, entry :: entry in List(lists, ListName(id)) ==>
      codec.decode(entry).Some? && codec.decode(entry).value.userId == id
  }

  // ---------------------------------------------------------------------------
  // The three operations as functions of the store

  /** `log_in` as a function of the store. */
  function LogInStep(digest: Digest, codec: Codec, lists: Lists, userLogin: seq<byte>, saltDb: seq<byte>,
                     hashDb: seq<byte>, possibleUserId: UserId, tokenStr: string, now: int): (out: Step<UserToken>)
    requires |tokenStr| == TOKEN_LENGTH
    ensures out.result.Failure? <==> !HashesEq(digest, userLogin, saltDb, hashDb)
    ensures out.result.Failure? ==> out == Step(Failure(HashesNotEqual), lists)
    ensures out.result.Success? ==>
      var token := out.result.value;
      var name := ListName(possibleUserId);
      var old_ := List(lists, name);
      && token == UserToken(possibleUserId, tokenStr, now)
      && List(out.lists, name) == [codec.encode(token)] + old_[..Min(|old_|, MAX_TOKENS_PER_USER)]
      && |List(out.lists, name)| <= MAX_TOKENS_PER_USER + 1
      && (forall key :: key != name ==> List(out.lists, key) == List(lists, key))
    ensures NoEmptyLists(lists) ==> NoEmptyLists(out.lists)
  {
    if !HashesEq(digest, userLogin, saltDb, hashDb) then Step(Failure(HashesNotEqual), lists)
    else
      var name := ListName(possibleUserId);
      var token := GenerateToken(possibleUserId, tokenStr, now);
      Step(Success(token), Put(lists, name, AfterLogIn(List(lists, name), codec.encode(token))))
  }

  /** `check_token` as a function of the store. */
  function CheckTokenStep(codec: Codec, lists: Lists, token: string, now: int): (out: Step<UserId>)
    ensures codec.decode(token).None? ==> out == Step(Failure(MalformedToken), lists)
    ensures codec.decode(token).Some? ==>
      var t := codec.decode(token).value;
      var name := ListName(t.userId);
      && (out.result.Success? <==> token in List(lists, name) && now - t.birth < DAYS_VALID * SECONDS_PER_DAY)
      && (out.result.Success? ==> out == Step(Success(t.userId), lists))
      && (token !in List(lists, name) ==> out == Step(Failure(NoSuchToken), lists))
      && (token in List(lists, name) && now - t.birth >= DAYS_VALID * SECONDS_PER_DAY ==>
            out == Step(Failure(TokenExpired), Put(lists, name, RemoveFirst(List(lists, name), token))))
    ensures NoEmptyLists(lists) ==> NoEmptyLists(out.lists)
  {
    match codec.decode(token)
    case None => Step(Failure(MalformedToken), lists)
    case Some(t) =>
      var name := ListName(t.userId);
      if IndexOf(List(lists, name), token).None? then Step(Failure(NoSuchToken), lists)
      else if IsExpired(t, now) then Step(Failure(TokenExpired), Put(lists, name, RemoveFirst(List(lists, name), token)))
      else Step(Success(t.userId), lists)
  }

  /** `check_and_remove_token` as a function of the store. */
  function CheckAndRemoveTokenStep(codec: Codec, lists: Lists, token: string): (out: Step<()>)
    ensures codec.decode(token).None? ==> out == Step(Failure(MalformedToken), lists)
    ensures codec.decode(token).Some? ==>
      var name := ListName(codec.decode(token).value.userId);
      && (out.result.Success? <==> token in List(lists, name))
      && (out.result.Success? ==> out.lists == Put(lists, name, RemoveFirst(List(lists, name), token)))
      && (out.result.Failure? ==> out == Step(Failure(NoSuchToken), lists))
    ensures NoEmptyLists(lists) ==> NoEmptyLists(out.lists)
  {
    match codec.decode(token)
    case None => Step(Failure(MalformedToken), lists)
    case Some(t) =>
      var name := ListName(t.userId);
      if IndexOf(List(lists, name), token).None? then Step(Failure(NoSuchToken), lists)
      else Step(Success(()), Put(lists, name, RemoveFirst(List(lists, name), token)))
  }

  // ---------------------------------------------------------------------------
  // The three operations as commands against the store

  /** `log_in`: checks the password, then LLEN, LTRIM when full, and LPUSH of the new token. */
  method LogIn(digest: Digest, codec: Codec, userLogin: seq<byte>, saltDb: seq<byte>, hashDb: seq<byte>,
               possibleUserId: UserId, tokenStr: string, now: int, cacher: ListStore)
    returns (r: Result<UserToken, Error>)
    requires cacher.Valid()
    requires |tokenStr| == TOKEN_LENGTH
    modifies cacher
    ensures cacher.Valid()
    ensures Step(r, cacher.lists) ==
            LogInStep(digest, codec, old(cacher.lists), userLogin, saltDb, hashDb, possibleUserId, tokenStr, now)
  {
    if !HashesEq(digest, userLogin, saltDb, hashDb) {
      return Failure(HashesNotEqual);
    }
    var utlName := ListName(possibleUserId);
    var userTokensListLen := cacher.LLen(utlName);
    var token := GenerateToken(possibleUserId, tokenStr, now);
    if userTokensListLen >= MAX_TOKENS_PER_USER {
      cacher.LTrim(utlName, 0, MAX_TOKENS_PER_USER - 1);
    }
    ghost var trimmed := cacher.lists;
    var _ := cacher.LPush(utlName, codec.encode(token));
    PutPut(old(cacher.lists), utlName, List(trimmed, utlName), [codec.encode(token)] + List(trimmed, utlName));
    if userTokensListLen < MAX_TOKENS_PER_USER {
      assert cacher.lists == Put(old(cacher.lists), utlName, [codec.encode(token)] + List(old(cacher.lists), utlName));
    }
    return Success(token);
  }

  /** `check_token`: decodes, LPOS for presence, then LREM and an error when expired. */
  method CheckToken(codec: Codec, token: string, now: int, cacher: ListStore) returns (r: Result<UserId, Error>)
    requires cacher.Valid()
    modifies cacher
    ensures cacher.Valid()
    ensures Step(r, cacher.lists) == CheckTokenStep(codec, old(cacher.lists), token, now)
  {
    var tokenData := codec.decode(token);
    if tokenData.None? {
      return Failure(MalformedToken);
    }
    var userTokensList := ListName(tokenData.value.userId);
    var idx := cacher.LPos(userTokensList, token);
    if idx.None? {
      return Failure(NoSuchToken);
    }
    var duration := now - tokenData.value.birth;
    if NumDays(duration) >= DAYS_VALID {
      var _ := cacher.LRem(userTokensList, token);
      return Failure(TokenExpired);
    }
    return Success(tokenData.value.userId);
  }

  /** `check_and_remove_token`: decodes, LPOS for presence, then LREM of one occurrence. */
  method CheckAndRemoveToken(codec: Codec, token: string, cacher: ListStore) returns (r: Result<(), Error>)
    requires cacher.Valid()
    modifies cacher
    ensures cacher.Valid()
    ensures Step(r, cacher.lists) == CheckAndRemoveTokenStep(codec, old(cacher.lists), token)
  {
    var tokenData := codec.decode(token);
    if tokenData.None? {
      return Failure(MalformedToken);
    }
    var userTokensList := ListName(tokenData.value.userId);
    var idx := cacher.LPos(userTokensList, token);
    if idx.None? {
      return Failure(NoSuchToken);
    }
    var _ := cacher.LRem(userTokensList, token);
    return Success(());
  }
}
