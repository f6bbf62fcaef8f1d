/**
 * An in-memory stand-in for the Redis list commands the token store relies on:
 * LLEN, LTRIM, LPUSH, LPOS and LREM with count 1. A key that is absent holds
 * the empty list, and, as in Redis, a list that becomes empty is deleted.
 */
module RedisLists {
  import opened Wrappers

  type Lists = map<string, seq<string>>

  function Min(a: int, b: int): int {
    if a <= b then a else b
  }

  /** The list stored under `key`; a missing key reads as the empty list. */
  function List(lists: Lists, key: string): seq<string> {
    if key in lists then lists[key] else []
  }

  /** Redis never stores an empty list. */
  ghost predicate NoEmptyLists(lists: Lists) {
    forall key :: key in lists ==> lists[key] != []
  }

  /** Stores `s` under `key`, deleting the key when `s` is empty. */
  function Put(lists: Lists, key: string, s: seq<string>): (r: Lists)
    ensures List(r, key) == s
    ensures forall other :: other != key ==> List(r, other) == List(lists, other)
    ensures NoEmptyLists(lists) ==> NoEmptyLists(r)
  {
    if s == [] then lists - {key} else lists[key := s]
  }

  /** Writing the same key twice keeps only the second write. */
  lemma PutPut(lists: Lists, key: string, s: seq<string>, t: seq<string>)
    ensures Put(Put(lists, key, s), key, t) == Put(lists, key, t)
  {
    var a, b := Put(Put(lists, key, s), key, t), Put(lists, key, t);
    assert forall k :: k in a <==> k in b;
    assert forall k :: k in a ==> a[k] == b[k];
  }

  /**
   * LTRIM key start stop: keeps the elements from `start` to `stop`, both
   * inclusive; negative indices count from the tail, a `stop` past the end
   * means the last element, and an empty range empties the list.
   */
  function TrimRange(s: seq<string>, start: int, stop: int): (r: seq<string>)
    ensures |r| <= |s|
    ensures start == 0 && stop >= 0 ==> r == s[..Min(stop + 1, |s|)]
    ensures 0 <= start <= stop ==> r == if start < |s| then s[start..Min(stop + 1, |s|)] else []
    ensures -|s| <= start <= stop < 0 ==> r == s[|s| + start..|s| + stop + 1]
    ensures 0 <= stop < start || stop < -|s| ==> r == []
  {
    var n := |s|;
    var lo := if start < 0 then (if n + start < 0 then 0 else n + start) else start;
    var hi := if stop < 0 then n + stop else stop;
    if lo > hi || lo >= n then []
    else s[lo..Min(hi, n - 1) + 1]
  }

  /** LPOS key v: the index of the first element equal to `v`, if any. */
  function IndexOf(s: seq<string>, v: string): (r: Option<nat>)
    ensures r.None? <==> v !in s
    ensures r.Some? ==> r.value < |s| && s[r.value] == v && v !in s[..r.value]
  {
    if s == [] then None
    else if s[0] == v then Some(0)
    else
      match IndexOf(s[1..], v)
      case None => None
      case Some(i) =>
        assert s[..i + 1] == [s[0]] + s[1..][..i];
        Some(i + 1)
  }

  /** LREM key 1 v: removes the first element equal to `v`, counting from the head. */
  function RemoveFirst(s: seq<string>, v: string): (r: seq<string>)
    ensures v !in s ==> r == s
    ensures multiset(r) == multiset(s) - multiset{v}
  {
    if s == [] then []
    else
      var tail := s[1..];
      assert s == [s[0]] + tail;
      assert multiset(s) == multiset{s[0]} + multiset(tail);
      if s[0] == v then tail
      else
        var rest := RemoveFirst(tail, v);
        assert multiset([s[0]] + rest) == multiset{s[0]} + multiset(rest);
        [s[0]] + rest
  }

  /** LREM key 1 v deletes exactly the first occurrence of `v`; the other elements keep their order. */
  lemma {:induction false} RemoveFirstAt(s: seq<string>, v: string, i: nat)
    requires i < |s| && s[i] == v && v !in s[..i]
    ensures RemoveFirst(s, v) == s[..i] + s[i + 1..]
  {
    if i == 0 {
      // the first branch of RemoveFirst: the head is the value, so the tail is the result
      assert RemoveFirst(s, v) == s[1..];
    } else {
      var tail := s[1..];
      assert s[0] != v by { assert s[0] == s[..i][0]; }
      assert tail[..i - 1] == s[1..i];
      assert v !in tail[..i - 1] by { assert s[..i] == [s[0]] + s[1..i]; }
      RemoveFirstAt(tail, v, i - 1);
      calc {
        RemoveFirst(s, v);
        [s[0]] + RemoveFirst(tail, v);
        [s[0]] + (tail[..i - 1] + tail[i..]);
        { assert s[..i] == [s[0]] + tail[..i - 1]; assert s[i + 1..] == tail[i..]; }
        s[..i] + s[i + 1..];
      }
    }
  }

  /** The Redis server: one keyspace of lists, updated in place by each command. */
  class ListStore {
    var lists: Lists

    ghost predicate Valid()
      reads this
    {
      NoEmptyLists(lists)
    }

    constructor ()
      ensures Valid() && lists == map[]
    {
      lists := map[];
    }

    /** LLEN key. */
    method LLen(key: string) returns (n: int)
      ensures n == |List(lists, key)|
      ensures Valid() ==> (n == 0 <==> key !in lists)
    {
      n := |List(lists, key)|;
    }

    /** LTRIM key start stop. */
    method LTrim(key: string, start: int, stop: int)
      requires Valid()
      modifies this
      ensures Valid()
      ensures lists == Put(old(lists), key, TrimRange(List(old(lists), key), start, stop))
    {
      lists := Put(lists, key, TrimRange(List(lists, key), start, stop));
    }

    /** LPUSH key v: the new element becomes the head. */
    method LPush(key: string, v: string) returns (n: int)
      requires Valid()
      modifies this
      ensures Valid()
      ensures lists == Put(old(lists), key, [v] + List(old(lists), key))
      ensures n == |List(old(lists), key)| + 1
    {
      lists := Put(lists, key, [v] + List(lists, key));
      n := |List(lists, key)|;
    }

    /** LPOS key v. */
    method LPos(key: string, v: string) returns (idx: Option<nat>)
      ensures idx.None? <==> v !in List(lists, key)
      ensures idx.Some? ==> idx.value < |List(lists, key)| && List(lists, key)[idx.value] == v
      ensures idx.Some? ==> v !in List(lists, key)[..idx.value]
    {
      idx := IndexOf(List(lists, key), v);
    }

    /** LREM key 1 v; answers how many elements were removed. */
    method LRem(key: string, v: string) returns (removed: nat)
      requires Valid()
      modifies this
      ensures Valid()
      ensures lists == Put(old(lists), key, RemoveFirst(List(old(lists), key), v))
      ensures removed == if v in List(old(lists), key) then 1 else 0
    {
      removed := if v in List(lists, key) then 1 else 0;
      lists := Put(lists, key, RemoveFirst(List(lists, key), v));
    }
  }
}
