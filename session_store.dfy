/**
 The key map behind MemorySession, as pure functions: how a user index
 becomes a storage key, what `isset` finds under a key, and what
 `destroy(true)` leaves behind. The class in module Session is proved
 against these functions; the lemmas here state what they promise.
 */
module SessionStore {
  import opened Wrappers
  import opened PhpValues

  type Memory = map<string, Value>

  /** The character that separates a session id from a user index. */
  const Separator: char := '#'

  /** The start of every storage key of session sid (the id, then '#'). */
  function SessionPrefix(sid: Value): (p: string)
    ensures |p| >= 1 && p[|p| - 1] == Separator
  {
    ToStr(sid) + [Separator]
  }

  /** The storage key of a user index (prepareIndex). */
  function StorageKey(sid: Value, index: string): (key: string)
    ensures Truthy(sid) ==> SessionPrefix(sid) <= key && |key| == |SessionPrefix(sid)| + |index|
    ensures !Truthy(sid) ==> key == index
  {
    if Truthy(sid) then SessionPrefix(sid) + index else index
  }

  /** The user index a storage key stands for, if it is one of session sid's keys. */
  function IndexOf(sid: Value, key: string): Option<string>
  {
    if !Truthy(sid) then Some(key)
    else if SessionPrefix(sid) <= key then Some(key[|SessionPrefix(sid)|..])
    else None
  }

  /** `isset($m[$key])`: the value under key, when there is one and it is not null. */
  function Lookup(m: Memory, key: string): (r: Option<Value>)
    ensures r.Some? <==> key in m && m[key] != Null
    ensures r.Some? ==> r.value == m[key]
  {
    if key in m && m[key] != Null then Some(m[key]) else None
  }

  /** The entries of m whose keys do not start with prefix. */
  function Purge(m: Memory, prefix: string): (r: Memory)
    ensures forall k :: k in r <==> k in m && !(prefix <= k)
    ensures forall k :: k in r ==> r[k] == m[k]
  {
    map k | k in m && !(prefix <= k) :: m[k]
  }

  /** What `destroy(removeData)` leaves of m when the session id is sid. */
  function AfterDestroy(m: Memory, sid: Value, removeData: bool): (r: Memory)
    ensures !removeData ==> r == m
    ensures forall k :: k in r ==> k in m && r[k] == m[k]
    ensures removeData && !Truthy(sid) ==> r == map[]
  {
    if !removeData then m
    else if Truthy(sid) then Purge(m, SessionPrefix(sid))
    else map[]
  }

  /** IndexOf undoes StorageKey. */
  lemma IndexRoundTrip(sid: Value, index: string)
    ensures IndexOf(sid, StorageKey(sid, index)) == Some(index)
  {
    if Truthy(sid) {
      var p := SessionPrefix(sid);
      assert (p + index)[|p|..] == index;
    }
  }

  /** Within one session, different indexes never share a storage key. */
  lemma StorageKeyInjective(sid: Value, i: string, j: string)
    requires StorageKey(sid, i) == StorageKey(sid, j)
    ensures i == j
  {
    IndexRoundTrip(sid, i);
    IndexRoundTrip(sid, j);
  }

  /**
   `set(i, v)` then `get(i)`/`has(i)`: a non-null v is found under i, and
   every other index of the session reads as before.
   */
  lemma SetThenLookup(m: Memory, sid: Value, i: string, v: Value, j: string)
    requires v != Null
    ensures Lookup(m[StorageKey(sid, i) := v], StorageKey(sid, i)) == Some(v)
    ensures i != j ==>
      Lookup(m[StorageKey(sid, i) := v], StorageKey(sid, j)) == Lookup(m, StorageKey(sid, j))
  {
    if i != j && StorageKey(sid, i) == StorageKey(sid, j) {
      StorageKeyInjective(sid, i, j);
    }
  }

  /** `set(i, null)`: the entry is stored, yet `isset` does not find it. */
  lemma SetNullHides(m: Memory, sid: Value, i: string)
    ensures StorageKey(sid, i) in m[StorageKey(sid, i) := Null]
    ensures Lookup(m[StorageKey(sid, i) := Null], StorageKey(sid, i)) == None
  {
  }

  /**
   `remove(i)`: i is no longer found, every other index of the session reads
   as before, and a second removal changes nothing.
   */
  lemma RemoveThenLookup(m: Memory, sid: Value, i: string, j: string)
    ensures Lookup(m - {StorageKey(sid, i)}, StorageKey(sid, i)) == None
    ensures i != j ==>
      Lookup(m - {StorageKey(sid, i)}, StorageKey(sid, j)) == Lookup(m, StorageKey(sid, j))
    ensures (m - {StorageKey(sid, i)}) - {StorageKey(sid, i)} == m - {StorageKey(sid, i)}
    ensures StorageKey(sid, i) !in m ==> m - {StorageKey(sid, i)} == m
  {
    if i != j && StorageKey(sid, i) == StorageKey(sid, j) {
      StorageKeyInjective(sid, i, j);
    }
  }

  /** After `destroy(true)` no index of the session is found. */
  lemma DestroyForgetsSession(m: Memory, sid: Value, i: string)
    ensures Lookup(AfterDestroy(m, sid, true), StorageKey(sid, i)) == None
  {
  }

  /** `destroy(false)` keeps every entry. */
  lemma DestroyWithoutDataKeepsAll(m: Memory, sid: Value)
    ensures AfterDestroy(m, sid, false) == m
  {
  }

  /**
   Two different ids that contain no '#' (generated ids are hexadecimal)
   have disjoint key spaces: no key of session b starts with a's prefix.
   */
  lemma SessionsDisjoint(a: Value, b: Value, i: string)
    requires Truthy(a) && Truthy(b)
    requires Separator !in ToStr(a) && Separator !in ToStr(b)
    requires ToStr(a) != ToStr(b)
    ensures !(SessionPrefix(a) <= StorageKey(b, i))
  {
    var sa, sb := ToStr(a), ToStr(b);
    var pa, key := SessionPrefix(a), StorageKey(b, i);
    assert key == sb + [Separator] + i;
    if |sa| < |sb| {
      // a's prefix has its '#' where b's id still has one of its own characters
      assert pa[|sa|] != key[|sa|];
    } else if |sa| > |sb| {
      assert pa[|sb|] != key[|sb|];
    } else {
      assert pa[..|sa|] == sa != sb == key[..|sa|];
    }
  }

  /**
   `destroy(true)` under id a leaves every index of another session b as it
   was, when neither id contains '#'.
   */
  lemma DestroyKeepsOtherSession(m: Memory, a: Value, b: Value, i: string)
    requires Truthy(a) && Truthy(b)
    requires Separator !in ToStr(a) && Separator !in ToStr(b)
    requires ToStr(a) != ToStr(b)
    ensures Lookup(AfterDestroy(m, a, true), StorageKey(b, i)) == Lookup(m, StorageKey(b, i))
  {
    SessionsDisjoint(a, b, i);
  }

  /**
   Without the '#' condition the key spaces overlap: destroying session
   "a" also wipes index "x" of session "a#b".
   */
  lemma NestedIdsOverlap(m: Memory)
    ensures Lookup(AfterDestroy(m, Str("a"), true), StorageKey(Str("a#b"), "x")) == None
  {
  }

  /**
   A falsy id gives no protection either: under the id "" a key is the bare
   index, so index "a#x" reads what session "a" stored under "x".
   */
  lemma FalsyIdSeesAllKeys(v: Value)
    requires v != Null
    ensures Lookup(map[StorageKey(Str("a"), "x") := v], StorageKey(Str(""), "a#x")) == Some(v)
  {
    assert StorageKey(Str("a"), "x") == "a#x";
  }

  /**
   Switching the id hides the old session: when every key in m belongs to
   session a, no index of a different session b is found.
   */
  lemma OtherSessionHidden(m: Memory, a: Value, b: Value, i: string)
    requires Truthy(a) && Truthy(b)
    requires Separator !in ToStr(a) && Separator !in ToStr(b)
    requires ToStr(a) != ToStr(b)
    requires forall k :: k in m ==> SessionPrefix(a) <= k
    ensures Lookup(m, StorageKey(b, i)) == None
  {
    SessionsDisjoint(a, b, i);
  }

}
