/**
 MemorySession: an in-memory session manager. Values live in one map,
 `memory`, under keys that carry the session id (SessionStore.StorageKey);
 the session is either not started or started.
 */
module Session {
  import opened Wrappers
  import opened PhpValues
  import opened SessionStore

  /** PHP_SESSION_NONE and PHP_SESSION_ACTIVE. */
  datatype Status = SessionNone | SessionActive

  /** The result of a getter declared `: string`: the value, or PHP's TypeError when the field is null. */
  datatype Returned<T> = Returned(value: T) | TypeError

  /** The option whose value replaces the session id. */
  const UniqueIdOption: string := "uniqueId"

  class MemorySession {
    var memory: Memory
    var name: Option<string>
    var options: map<string, Value>
    var sessionId: Value
    var started: bool

    /** The id is never null: it is generated, set from a string, or taken from a set (non-null) option. */
    ghost predicate Valid()
      reads this
    {
      sessionId != Null
    }

    /**
     A new, not started session with an empty store. generatedId stands for
     the md5 of the clock that the constructor generates; a `uniqueId` option
     overrides it.
     */
    constructor (generatedId: string, opts: Option<map<string, Value>> := None)
      ensures Valid()
      ensures memory == map[] && name == None && !started
      ensures opts.None? ==> options == map[] && sessionId == Str(generatedId)
      ensures opts.Some? ==> options == opts.value
      ensures opts.Some? ==>
        sessionId == if Lookup(opts.value, UniqueIdOption).Some? then opts.value[UniqueIdOption] else Str(generatedId)
    {
      memory := map[];
      name := None;
      options := map[];
      started := false;
      sessionId := Str(generatedId);
      new;
      if opts.Some? {
        SetOptions(opts.value);
      }
    }

    /**
     Reads index: the stored value when `isset` finds it, else defaultValue.
     With remove, a found entry is deleted; nothing else changes.
     */
    method Get(index: string, defaultValue: Value := Null, remove: bool := false) returns (r: Value)
      modifies this`memory
      ensures var key := StorageKey(sessionId, index);
        match Lookup(old(memory), key)
        case None => r == defaultValue && memory == old(memory)
        case Some(v) => r == v && memory == if remove then old(memory) - {key} else old(memory)
    {
      var key := StorageKey(sessionId, index);
      if !(key in memory && memory[key] != Null) {
        return defaultValue;
      }
      r := memory[key];
      if remove {
        memory := memory - {key};
      }
    }

    /** Stores value under index, replacing what was there; no other key changes. */
    method Set(index: string, value: Value)
      modifies this`memory
      ensures memory == old(memory)[StorageKey(sessionId, index) := value]
    {
      memory := memory[StorageKey(sessionId, index) := value];
    }

    /** Whether index holds a value: its key is present and its value is not null. */
    function Has(index: string): (b: bool)
      reads this
      ensures b <==> StorageKey(sessionId, index) in memory && memory[StorageKey(sessionId, index)] != Null
    {
      Lookup(memory, StorageKey(sessionId, index)).Some?
    }

    /** Deletes index's key; a missing key is left missing. */
    method Remove(index: string)
      modifies this`memory
      ensures memory == old(memory) - {StorageKey(sessionId, index)}
      ensures !Has(index)
    {
      memory := memory - {StorageKey(sessionId, index)};
    }

    /**
     Ends the session. With removeData and a truthy id, deletes every key
     that starts with the id and '#', walking the keys one by one; with
     removeData and a falsy id, empties the store. Always answers true.
     */
    method Destroy(removeData: bool := false) returns (r: bool)
      modifies this`memory, this`started
      ensures r && !started
      ensures memory == AfterDestroy(old(memory), sessionId, removeData)
    {
      if removeData {
        if Truthy(sessionId) {
          var prefix := SessionPrefix(sessionId);
          var pending := memory.Keys;
          while pending != {}
            invariant forall k :: k in memory <==> k in old(memory) && (k in pending || !(prefix <= k))
            invariant forall k :: k in memory ==> memory[k] == old(memory)[k]
            decreases pending
          {
            var key :| key in pending;
            if prefix <= key {
              memory := memory - {key};
            }
            pending := pending - {key};
          }
          assert memory.Keys == Purge(old(memory), prefix).Keys;
        } else {
          memory := map[];
        }
      }
      started := false;
      r := true;
    }

    /** Whether the session has been started (and not destroyed since). */
    function Exists(): (b: bool)
      reads this
      ensures b <==> Status() == SessionActive
    {
      started
    }

    /** The session id as a string (a non-string id is converted as PHP converts it). */
    function GetId(): (id: string)
      reads this
      requires Valid()
      ensures Truthy(sessionId) <==> TruthyString(id)
      ensures sessionId.Str? ==> id == sessionId.s
    {
      ToStr(sessionId)
    }

    /** The session name; a TypeError while no name has been set. */
    function GetName(): (r: Returned<string>)
      reads this
      ensures r.TypeError? <==> name.None?
      ensures r.Returned? ==> name == Some(r.value)
    {
      if name.Some? then Returned(name.value) else TypeError
    }

    /** Sets the name, which GetName then returns. */
    method SetName(newName: string)
      modifies this`name
      ensures name == Some(newName)
      ensures GetName() == Returned(newName)
    {
      name := Some(newName);
    }

    /** The options last given. */
    function GetOptions(): (r: map<string, Value>)
      reads this
      ensures r == options
    {
      options
    }

    /**
     Keeps opts as the options; a set (non-null) `uniqueId` option becomes
     the session id, otherwise the id stays. The store is not touched.
     */
    method SetOptions(opts: map<string, Value>)
      requires Valid()
      modifies this`options, this`sessionId
      ensures Valid()
      ensures options == opts
      ensures match Lookup(opts, UniqueIdOption)
        case Some(id) => sessionId == id
        case None => sessionId == old(sessionId)
    {
      if UniqueIdOption in opts && opts[UniqueIdOption] != Null {
        sessionId := opts[UniqueIdOption];
      }
      options := opts;
    }

    /**
     Replaces the id by newId, the freshly generated one; deleteOldSession is
     accepted and ignored. Returns this session.
     */
    method RegenerateId(newId: string, deleteOldSession: bool := true) returns (r: MemorySession)
      modifies this`sessionId
      ensures Valid()
      ensures r == this && sessionId == Str(newId)
    {
      sessionId := Str(newId);
      r := this;
    }

    /** Sets the id, which GetId then returns; the store is not touched. */
    method SetId(id: string)
      modifies this`sessionId
      ensures Valid()
      ensures sessionId == Str(id) && GetId() == id
    {
      sessionId := Str(id);
    }

    /**
     Starts a session that is not active: empties the store, marks it
     started and answers true. An active session is left as it is and the
     answer is false.
     */
    method Start() returns (ok: bool)
      modifies this`memory, this`started
      ensures ok <==> old(Status()) != SessionActive
      ensures started && Status() == SessionActive
      ensures memory == if ok then map[] else old(memory)
    {
      if Status() != SessionActive {
        memory := map[];
        started := true;
        return true;
      }
      return false;
    }

    /** Active exactly when the session is started. */
    function Status(): (s: Status)
      reads this
      ensures s == SessionActive <==> started
    {
      if started then SessionActive else SessionNone
    }

    /** The whole store, keys as stored. */
    function ToArray(): (r: Memory)
      reads this
      ensures forall k :: k in r <==> k in memory
      ensures forall k :: k in r ==> r[k] == memory[k]
    {
      memory
    }

    /** Writing the session out does nothing for an in-memory store. */
    method WriteClose()
      ensures unchanged(this)
    {
    }

    /** `$session->index`: Get with a null default and no removal. */
    method MagicGet(index: string) returns (r: Value)
      modifies this`memory
      ensures memory == old(memory)
      ensures r == match Lookup(memory, StorageKey(sessionId, index))
        case Some(v) => v
        case None => Null
    {
      r := Get(index);
    }

    /** `$session->index = value`: Set. */
    method MagicSet(index: string, value: Value)
      modifies this`memory
      ensures memory == old(memory)[StorageKey(sessionId, index) := value]
    {
      Set(index, value);
    }

    /** `isset($session->index)`: Has. */
    function MagicIsset(index: string): (b: bool)
      reads this
      ensures b <==> Lookup(memory, StorageKey(sessionId, index)).Some?
    {
      Has(index)
    }

    /** `unset($session->index)`: Remove. */
    method MagicUnset(index: string)
      modifies this`memory
      ensures memory == old(memory) - {StorageKey(sessionId, index)}
    {
      Remove(index);
    }
  }

  /**
   A client that relies only on the contracts above: the round trip, the
   frame on other indexes, remove-on-read, and the lifecycle.
   */
  method Walkthrough(generatedId: string, v: Value, w: Value)
    requires v != Null && w != Null
  {
    var s := new MemorySession(generatedId);
    assert s.Status() == SessionNone;
    var ok := s.Start();
    assert ok && s.Exists();
    s.Set("user", v);
    s.Set("role", w);
    assert s.Has("user");
    SetThenLookup(map[StorageKey(s.sessionId, "user") := v], s.sessionId, "role", w, "user");
    var got := s.Get("user", Null, true);
    assert got == v;
    assert !s.Has("user");
    var again := s.Get("user", Int(7));
    assert again == Int(7);
    ok := s.Start();
    assert !ok;
    ghost var before := s.memory;
    var kept := s.Destroy();
    assert kept && !s.Exists() && s.memory == before;
    var destroyed := s.Destroy(true);
    assert destroyed && !s.Exists();
    assert !s.Has("role");
  }

}
