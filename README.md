# cc-auth token lifecycle in Dafny

A model of the authorisation core of the `cc-auth` crate (`src/lib.rs`). It covers:

- salted password checking (`hash_password`, `hashes_eq`);
- the per-user token lists kept in a Redis-like database;
- issuing a token on log-in (`log_in`, `generate_token`);
- validating a presented token, with lazy purge of an expired one (`check_token`);
- revoking a token (`check_and_remove_token`).

The model is sequential: one caller at a time.

Modules:

- `Wrappers`: `Option` and `Result`.
- `Decimal`: the `u64` type and its decimal rendering, as `format!` prints it.
- `RedisLists`: an in-memory stand-in for the Redis server.
  - Its `ListStore` class holds `lists: map<string, seq<string>>`.
  - It has the five list commands the crate uses: LLEN, LTRIM, LPUSH, LPOS, and LREM with count 1.
  - A missing key reads as the empty list. As in Redis, a list that becomes empty is deleted.
- `Credentials`: the password hash over a digest function passed in as a parameter.
- `CcAuth`: the constants, `UserToken`, the list name, the expiry test, `generate_token`, and the three store operations.
  - Each operation is a function from the old store to a result and a new store (`LogInStep`, `CheckTokenStep`, `CheckAndRemoveTokenStep`).
  - Each is also a method that issues the Redis commands one by one on a `ListStore`, in the same order as the source. The method is proved to compute exactly the corresponding function.
- `CcAuthProperties`: properties that span several calls.
  - The ownership invariant: every entry in user `u`'s list decodes to a token of `u`.
  - Fresh tokens validate.
  - Purged and revoked tokens stay unknown.
  - The newest-first history that successive log-ins leave in a user's list.

Time is whole seconds. The current time is a parameter `now`.

- `Duration::num_days` truncates toward zero, and is modelled that way (`NumDays`).
- `IsExpired` proves that the test `num_days >= 28` is the same as `now - birth >= 28 * 86400`.
- Birth times are whole seconds, because `ts_seconds` serialises them that way. So flooring the real clock to seconds does not change the outcome of this test.

Code and documentation disagree on the bound. The doc comment of `MAX_TOKENS_PER_USER` (src/lib.rs:34) says a user has at most 3 tokens. But `log_in` trims the list to its first 3 entries and then pushes a fourth (src/lib.rs:91-92). The model follows the code:

- a list holds up to `MAX_TOKENS_PER_USER + 1 = 4` entries after a log-in (`AfterLogIn`, `LogInStep`);
- `FifthLogInEvictsFirst` shows that four successive log-ins keep the first token;
- only a fifth log-in evicts the first token.

## Model

| member | source | states |
|---|---|---|
| `Decimal.Digits` | src/lib.rs:75 | the rendering of a number is a canonical decimal numeral (digits only, no leading zero) that parses back to the number |
| `Decimal.DigitsIsTheOnlyRendering` | src/lib.rs:75 | every canonical decimal numeral is the rendering of its value, so `Digits` is the decimal form `format!` prints |
| `Decimal.DigitsInjective` | src/lib.rs:75 | distinct numbers have distinct renderings |
| `CcAuth.ListName` | src/lib.rs:74-76 | a user's list name starts with `user_tokens:id`, and the rest is a canonical decimal numeral whose value is the user id |
| `CcAuth.ListNameInjective` | src/lib.rs:74-76 | distinct user ids give distinct list names |
| `Credentials.HashPassword` | src/lib.rs:62-66 | the hash is the digest of the password bytes followed by the salt bytes |
| `Credentials.HashesEq` | src/lib.rs:69-71 | the check holds exactly when the digest of password followed by salt equals the stored hash byte for byte |
| `Credentials.HashesEqAcceptsOwnHash` | src/lib.rs:62-71 | `hashes_eq` accepts a password against the hash computed from that password and salt |
| `Credentials.HashDependsOnlyOnConcatenation` | src/lib.rs:62-66 | two password/salt pairs with equal concatenations hash alike and are accepted against the same hashes |
| `CcAuth.NumDays` | src/lib.rs:107 | chrono's `num_days`: the whole days in a signed number of seconds, truncated toward zero (for d >= 0, days * 86400 <= d < (days + 1) * 86400; for d < 0, the mirror bound) |
| `CcAuth.IsExpired` | src/lib.rs:106-107 | the expiry test `num_days(now - birth) >= 28` holds exactly when at least 28 * 86400 seconds have passed since the token's birth |
| `CcAuth.GenerateToken` | src/lib.rs:143-149 | a generated token belongs to the given user and carries the 64-character random string; it is expired at a later time exactly when that time is at least 28 days after `now`, so its birth is `now` |
| `CcAuth.AfterLogIn` | src/lib.rs:89-92 | after log-in the list has min(old length, 3) + 1 <= 4 entries; the new entry is the head; the rest are the old list's first entries in their old order, so only the oldest (tail) entries are dropped |
| `CcAuth.LogInStep` | src/lib.rs:79-94 | log-in fails exactly when the hashes differ, and then the store is unchanged. On success the token has the given id, string and time, its serialisation heads that user's list (at most 4 entries), and every other list is unchanged |
| `CcAuth.LogIn` | src/lib.rs:79-94 | the LLEN / LTRIM-when-full / LPUSH sequence, run after the password check, gives exactly `LogInStep`'s result and store, and keeps the store free of empty lists |
| `CcAuth.CheckTokenStep` | src/lib.rs:97-112 | validation fails with MalformedToken (store unchanged) on a decode failure. Otherwise it succeeds iff the exact presented string is in the list named for the decoded id and fewer than 28 days have passed; it then returns the decoded id with the store unchanged. An absent token gives NoSuchToken with the store unchanged. A present, expired token gives TokenExpired and loses its first occurrence from that one list |
| `CcAuth.CheckToken` | src/lib.rs:97-112 | decode, LPOS, then LREM when expired gives exactly `CheckTokenStep`'s result and store |
| `CcAuth.CheckAndRemoveTokenStep` | src/lib.rs:115-126 | revocation fails with MalformedToken on a decode failure. Otherwise it succeeds iff the presented string is in its user's list, with no expiry check. On success exactly its first occurrence is removed from that list; on failure the store is unchanged |
| `CcAuth.CheckAndRemoveToken` | src/lib.rs:115-126 | decode, LPOS, then LREM gives exactly `CheckAndRemoveTokenStep`'s result and store |
| `RedisLists.TrimRange` | src/lib.rs:91 | LTRIM never lengthens a list. For 0 <= start <= stop it keeps indices start..stop inclusive, with stop clamped to the last element; `LTRIM key 0 stop` is that prefix. Negative indices in range count from the tail. An empty range gives the empty list |
| `RedisLists.IndexOf` | src/lib.rs:104 | LPOS answers none iff the value is absent; otherwise it gives an index holding the value with no earlier occurrence |
| `RedisLists.RemoveFirst` | src/lib.rs:108 | LREM with count 1 leaves a list without the value unchanged, and removes exactly one copy of the value (multiset difference) |
| `RedisLists.RemoveFirstAt` | src/lib.rs:124 | LREM with count 1 removes exactly the first occurrence of the value (the element LPOS finds); the others keep their order |
| `RedisLists.ListStore.LLen` | src/lib.rs:89 | LLEN is the length of the list under the key, and zero exactly when the key is absent |
| `RedisLists.ListStore.LTrim` | src/lib.rs:91 | LTRIM replaces the list under the key by its trimmed range and leaves every other key alone |
| `RedisLists.ListStore.LPush` | src/lib.rs:92 | LPUSH prepends the value to the list under the key and answers the new length |
| `RedisLists.ListStore.LPos` | src/lib.rs:104 | LPOS answers none iff the value is absent, else the index of its first occurrence |
| `RedisLists.ListStore.LRem` | src/lib.rs:108 | LREM with count 1 removes the first occurrence from the list under the key and answers how many it removed (0 or 1) |
| `CcAuthProperties.LogInPreservesOwnership` | src/lib.rs:87-93 | with a round-tripping serialisation, log-in keeps every entry of each user's list decoding to a token of that user |
| `CcAuthProperties.CheckTokenPreservesOwnership` | src/lib.rs:101-110 | validation, including the lazy purge, keeps the ownership invariant |
| `CcAuthProperties.CheckAndRemoveTokenPreservesOwnership` | src/lib.rs:119-125 | revocation keeps the ownership invariant |
| `CcAuthProperties.FreshTokenValidates` | src/lib.rs:101-111 | the serialised token from a successful log-in validates as its user at any time before its window ends, and the store stays as log-in left it |
| `CcAuthProperties.ExpiredTokenIsPurged` | src/lib.rs:104-109 | after a TokenExpired answer for a token that occurred once, a later validation or revocation of it answers NoSuchToken |
| `CcAuthProperties.RevokedTokenIsGone` | src/lib.rs:122-124 | after revoking a token that occurred once, revoking it again or validating it answers NoSuchToken |
| `CcAuthProperties.NewestFirst` | src/lib.rs:89-92 | reference definition of the history: the last min(k, 4) entries, element i being the (i+1)-th newest |
| `CcAuthProperties.LogIns` | src/lib.rs:89-92 | the list after pushing each entry through one log-in in turn: the start list when there are none, otherwise at most 4 entries headed by the newest |
| `CcAuthProperties.AfterLogInExtendsHistory` | src/lib.rs:89-92 | one log-in on a newest-first history gives the history extended by the new entry |
| `CcAuthProperties.LogInsFromEmpty` | src/lib.rs:89-92 | from an empty list, k log-ins leave exactly the last min(k, 4) serialised tokens, newest first |
| `CcAuthProperties.LogInExtendsStoredHistory` | src/lib.rs:87-92 | at the store level, a successful log-in turns a user's newest-first history of entries into the history extended by the new serialised token |
| `CcAuthProperties.HistoryMembership` | src/lib.rs:89-92 | with distinct tokens, a token is still in the history exactly when it is among the last 4 issued |
| `CcAuthProperties.FifthLogInEvictsFirst` | src/lib.rs:89-92 | with distinct tokens, the first token survives four log-ins and is evicted by the fifth |

## Left out

- SHA3-256 is a function parameter (`Credentials.Digest`). Its collision resistance is not modelled, so "a different password is rejected" is not proved. The comparison of src/lib.rs:70 is not constant-time; timing is outside a functional model.
- The random password generator (`get_password_generator`, `generate_one`, `generate_salt`, src/lib.rs:128-154) is not modelled. The 64-character token string is passed to `GenerateToken` and `LogIn` as a parameter.
- `generate_salt` is not modelled. Nothing in the token lifecycle uses it.
- CcAuth.GenerateToken: cannot fail. In the source, `generate_one` may return an error, which `log_in` propagates after LLEN and before LTRIM. Since no store change happens before that point, that error path leaves the store unchanged.
- The JSON serialisation (`serde_json`, chrono `ts_seconds`) is a parameter, `CcAuth.Codec`.
  - Where a lemma needs it, the round trip `decode(encode(t)) == Some(t)` is a stated precondition (`RoundTrip`).
  - The chrono timestamp range, outside which deserialisation fails, is not modelled.
- In the source, `log_in` returns the token with its sub-second birth time, while the stored string carries whole seconds. In the model the returned token and the stored one are equal, because time is whole seconds.
- `Utc::now()` is the parameter `now`, in whole seconds.
- `UserToken::new` (src/lib.rs:55) is `generate_token` itself. It is not a separate member.
- `log_in` takes a `String` and hashes its UTF-8 bytes. The model takes those bytes directly; UTF-8 encoding is not modelled.
- The bb8 connection pool, async/await, and Redis command or connection failures are not modelled. The store commands are infallible here.
- Concurrency is not modelled. The model is single-caller, so races between the non-atomic LLEN/LTRIM/LPUSH and LPOS/LREM sequences are out of scope.
- The store commands are limited to what the crate uses:
  - LREM only with count 1;
  - LPOS only with default options;
  - `isize`/`i32` widths of lengths and indices are unbounded integers.
  LTRIM is modelled with its general index rules.
- RedisLists.TrimRange: its contract states the ranges whose two indices are both non-negative or both negative, not mixed-sign ranges, which the crate never issues.
