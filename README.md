# MemorySession, modelled in Dafny

`MemorySession` is the in-memory session manager of the test suite
(`tests/_data/fixtures/MemorySession.php`). It stands in for a real PHP
session: values are kept in one associative array, `memory`, under keys made
of the session id, a `#` and the user's index; the session is either not
started or started.

The model has four modules:

- `Wrappers`: an `Option` type.
- `PhpValues`: the PHP values the store handles (null, bool, int, string)
  and the two PHP conversions its code relies on. The first is truthiness:
  `if ($id)` and `empty($id)` treat null, false, 0, `""` and `"0"` as false.
  The second is string conversion, as in `$id . '#'`. The two agree: a value
  is truthy exactly when its string is (`ToStr`).
- `SessionStore`: pure functions over the key map. `StorageKey` is
  `prepareIndex`. `Lookup` is `isset` on one key. `Purge` and `AfterDestroy`
  say what `destroy` leaves behind. The lemmas state the store's properties:
  set/get round trip and frame, null hiding a value, remove, destroy, and
  when two sessions' keys are disjoint.
- `Session`: the class `MemorySession`. It has the source's five fields, and
  its methods update them in place. Each method's frame (`modifies
  this`memory`, ...) says which fields it may change. Its `ensures` give the
  new state in terms of the old one and the `SessionStore` functions.
  `Destroy` walks the keys one at a time, as the source's `foreach` does. Its
  loop invariant says that the keys seen so far carrying the prefix are gone
  and that every other key is kept. `Walkthrough` is a client method. It uses
  only these contracts.

The following keep the model close to the source:

- The session id is kept as a raw PHP value. `setOptions` may store a
  `uniqueId` option of any type. `GetId` converts it as PHP converts a value
  returned from a `: string` function in weak mode.
- The `name` field starts out null. So `getName()` before any `setName` ends
  in PHP's TypeError, which `GetName` returns as `TypeError`.
- `status()` calls `isStarted()`, which the class does not define. The model
  assumes it reads the `started` field, the same field `exists()` returns.
- `generateId()` hashes the clock. The id it produces is a parameter: of the
  constructor (`generatedId`) and of `RegenerateId` (`newId`).

Keys of different sessions stay apart only when both ids are truthy and
neither contains `#` (`SessionsDisjoint`). Generated ids are hexadecimal
strings, so they meet both conditions. An id set through `setId` or
`uniqueId` may not:

- An id may contain `#`. Then destroying session `a` also wipes the keys of
  session `a#b` (`NestedIdsOverlap`).
- An id may be falsy (`""`, `"0"`, `0`, `false`). Then every key is the bare
  index. So every stored key reads as an index: index `a#x` finds what
  session `a` stored under `x` (`FalsyIdSeesAllKeys`). `destroy(true)` then
  empties the whole store, every session included.

The methods keep the source's default arguments: `Get(index)` has a null
default and removes nothing, `Destroy()` keeps the data, `RegenerateId`
has `deleteOldSession` true, and the constructor's options are absent.

## Model

| member | source | states |
|---|---|---|
| `PhpValues.Truthy` | tests/_data/fixtures/MemorySession.php:111 | the id test is false exactly for null, false, 0, `""` and `"0"` (the same test `empty` negates at line 189) |
| `PhpValues.IntToDecimal` | tests/_data/fixtures/MemorySession.php:112 | an integer id's string is `"0"` only for 0, never empty, and starts with `-` exactly for a negative number |
| `PhpValues.IntToDecimalInjective` | tests/_data/fixtures/MemorySession.php:112 | different integer ids give different strings, so different prefixes |
| `PhpValues.ToStr` | tests/_data/fixtures/MemorySession.php:109-118 | converting an id to a string keeps its truthiness, so the `if ($this->sessionId)` test and the concatenated id agree; a string id is used as it is |
| `PhpValues.NatToDecimal` | tests/_data/fixtures/MemorySession.php:112 | the numeral an integer id becomes when concatenated is non-empty, all digits, and starts with `0` only for zero |
| `PhpValues.DecimalRoundTrip` | tests/_data/fixtures/MemorySession.php:112 | reading that numeral back gives the original number |
| `SessionStore.SessionPrefix` | tests/_data/fixtures/MemorySession.php:191 | the prefix that marks a session's keys is the id's string and ends in `#` |
| `SessionStore.StorageKey` | tests/_data/fixtures/MemorySession.php:109-118 | for a truthy id the key starts with the id and `#` and is as long as that prefix plus the index; for a falsy id the key is the bare index |
| `SessionStore.IndexRoundTrip` | tests/_data/fixtures/MemorySession.php:109-118 | the index can be recovered from its storage key |
| `SessionStore.StorageKeyInjective` | tests/_data/fixtures/MemorySession.php:109-118 | two indexes of one session never share a key |
| `SessionStore.Lookup` | tests/_data/fixtures/MemorySession.php:150-155 | `isset` finds a value exactly when the key is present with a non-null value, and then returns that value |
| `SessionStore.Purge` | tests/_data/fixtures/MemorySession.php:190-194 | a key survives exactly when it was present and does not start with the prefix; surviving values are unchanged |
| `SessionStore.AfterDestroy` | tests/_data/fixtures/MemorySession.php:186-203 | destroy never adds or changes an entry; without removeData it keeps everything; with a falsy id it empties the store |
| `SessionStore.SetThenLookup` | tests/_data/fixtures/MemorySession.php:126-129 | after storing a non-null value, reading its index gives that value and every other index of the session reads as before |
| `SessionStore.SetNullHides` | tests/_data/fixtures/MemorySession.php:126-129 | storing null keeps the key in the store, but `isset`, and so `get` and `has`, do not find it |
| `SessionStore.RemoveThenLookup` | tests/_data/fixtures/MemorySession.php:172-177 | after removal the index is not found, other indexes read as before, removing twice equals removing once, and removing a missing key is a no-op |
| `SessionStore.DestroyForgetsSession` | tests/_data/fixtures/MemorySession.php:186-203 | after destroy with removeData no index of the session is found, for a truthy or falsy id |
| `SessionStore.DestroyWithoutDataKeepsAll` | tests/_data/fixtures/MemorySession.php:186-188 | destroy without removeData keeps the store as it is |
| `SessionStore.SessionsDisjoint` | tests/_data/fixtures/MemorySession.php:189-194 | for two different truthy ids without `#`, no key of one session starts with the other's prefix |
| `SessionStore.DestroyKeepsOtherSession` | tests/_data/fixtures/MemorySession.php:189-194 | destroy with removeData leaves every index of another such session as it was |
| `SessionStore.NestedIdsOverlap` | tests/_data/fixtures/MemorySession.php:191 | with ids `a` and `a#b`, destroying session `a` removes index `x` of session `a#b` |
| `SessionStore.FalsyIdSeesAllKeys` | tests/_data/fixtures/MemorySession.php:109-118 | under the falsy id `""`, index `a#x` finds the value session `a` stored under `x` |
| `SessionStore.OtherSessionHidden` | tests/_data/fixtures/MemorySession.php:280-283 | after a switch to a different id, no index is found among the old session's keys |
| `Session.MemorySession.constructor` | tests/_data/fixtures/MemorySession.php:44-51 | a new session is not started, has an empty store and no name; its id is the generated one unless options are given (none by default) and carry a set `uniqueId` |
| `Session.MemorySession.Get` | tests/_data/fixtures/MemorySession.php:87-102 | returns the stored value when `isset` finds it, else the default; with remove it deletes exactly that key; otherwise, as by default, the store is unchanged; the default value is null unless given |
| `Session.MemorySession.Set` | tests/_data/fixtures/MemorySession.php:126-129 | stores the value under the index's key and changes no other key |
| `Session.MemorySession.Has` | tests/_data/fixtures/MemorySession.php:150-155 | true exactly when the index's key is present with a non-null value |
| `Session.MemorySession.Remove` | tests/_data/fixtures/MemorySession.php:172-177 | deletes only the index's key; afterwards `Has` is false |
| `Session.MemorySession.Destroy` | tests/_data/fixtures/MemorySession.php:186-203 | returns true, leaves the session not started, and leaves the store as `AfterDestroy` says; by default it keeps the data |
| `Session.MemorySession.Exists` | tests/_data/fixtures/MemorySession.php:208-211 | true exactly when the status is active |
| `Session.MemorySession.GetId` | tests/_data/fixtures/MemorySession.php:216-219 | returns the id as a string; the string is truthy exactly when the id is; a string id is returned unchanged |
| `Session.MemorySession.GetName` | tests/_data/fixtures/MemorySession.php:224-227 | returns the name, or a TypeError while none has been set |
| `Session.MemorySession.SetName` | tests/_data/fixtures/MemorySession.php:234-237 | the name given is what `GetName` returns afterwards |
| `Session.MemorySession.GetOptions` | tests/_data/fixtures/MemorySession.php:242-245 | returns the options last stored |
| `Session.MemorySession.SetOptions` | tests/_data/fixtures/MemorySession.php:252-259 | stores the options; a set `uniqueId` becomes the id, otherwise the id is kept; the store is not touched |
| `Session.MemorySession.RegenerateId` | tests/_data/fixtures/MemorySession.php:268-273 | replaces the id by the new one, ignores deleteOldSession (true by default), leaves the store alone and returns the session itself |
| `Session.MemorySession.SetId` | tests/_data/fixtures/MemorySession.php:280-283 | the id given is what `GetId` returns afterwards; the store is not touched |
| `Session.MemorySession.Start` | tests/_data/fixtures/MemorySession.php:288-298 | answers true exactly when the session was not active, and then empties the store; an active session keeps its store and the answer is false; afterwards the session is active |
| `Session.MemorySession.Status` | tests/_data/fixtures/MemorySession.php:313-320 | active exactly when started |
| `Session.MemorySession.ToArray` | tests/_data/fixtures/MemorySession.php:327-330 | gives every stored key with its value |
| `Session.MemorySession.WriteClose` | tests/_data/fixtures/MemorySession.php:332-334 | changes nothing |
| `Session.MemorySession.MagicGet` | tests/_data/fixtures/MemorySession.php:68-71 | reads like `Get` with a null default and no removal, and leaves the store unchanged |
| `Session.MemorySession.MagicSet` | tests/_data/fixtures/MemorySession.php:79-82 | stores like `Set` |
| `Session.MemorySession.MagicIsset` | tests/_data/fixtures/MemorySession.php:138-141 | answers like `Has`: a non-null value is stored under the index |
| `Session.MemorySession.MagicUnset` | tests/_data/fixtures/MemorySession.php:162-165 | removes like `Remove` |

## Left out

- `generateId()` (`md5(time())`): the clock and the hash are not modelled. The generated id is a string parameter of the constructor and of `RegenerateId`.
- `getHandler`, `setHandler` and `registerHandler` are not modelled. Their bodies are empty apart from a TODO comment, so a call returns nothing and ends in a return-type TypeError.
- `PHP_SESSION_ACTIVE` and `PHP_SESSION_NONE` are PHP runtime integers. They are modelled as the two cases of `Status`.
- `isStarted()` is not defined in the class. `Status` assumes it reads `started`.
- Values: arrays, floats, objects and resources are not in `Value`. The store itself looks only at whether a value is null, so this changes nothing for stored values. An array, float or object given as the `uniqueId` option is outside the model.
- `Session.MemorySession.ToArray`: returns a map, so it does not model the insertion order of PHP arrays. It also does not model PHP's conversion of numeric-string keys to integer keys.
- `Session.MemorySession.Destroy`: `removeData` is a `bool`. A non-boolean argument would be tested for truthiness.
- `Session.MemorySession.Get`: the default value is a `Value`. PHP accepts any value there and returns it unchanged.
