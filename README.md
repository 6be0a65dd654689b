# module-factoids in Dafny

A model of the factoid store of the WildPHP IRC bot, in its two generations.

- **Legacy store.** `GlobalStorage` is an insertion-ordered PHP array from key to text. The `Factoids` module keeps one global storage and creates a storage for each channel the first time that channel is used. Its command handlers do the following:
  - `create` and `createGlobal` split their argument at a space.
  - `remove` and `removeGlobal` trim their argument.
  - `listAll` and `listGlobals` list keys in insertion order.
  - `get` answers with the channel value, falls back to the global one, and skips falsy values.
  - `saveJson` and `loadJson` convert all storages to and from one nested `{ "global": {...}, "#chan": {...} }` structure.
- **Record-based store.**
  - A `Factoid` is a seven-field record with getters, setters and a fixed-order `toArray`.
  - A `FactoidPool` is an ordered sequence of factoids. It has a first-match `findByKey` and converts to and from saved records (`toSaveableArray`, `populateFromSavedArray`). The schema check in `populateFromSavedArray` skips bad records.
  - A `FactoidPoolCollection` maps channel names to pools. `saveFactoidData` flushes the `factoidStorage` data storage, then writes numbered `{channel, pool}` records. `loadStoredFactoids` reads them back.

Modules, one per file:

- `PhpArrays` (`php_arrays.dfy`): PHP ordered arrays as sequences of key/value pairs. Lookup uses the first occurrence, assignment replaces in place or appends, and `unset` removes the entry. It also holds the scalar values a decoded array can contain.
- `PhpStrings` (`php_strings.dfy`): `trim` with its default character list, and `explode(' ', s, limit)` for a positive limit.
- `GlobalStore` (`global_store.dfy`): class `GlobalStorage` and the specification functions of `add` and `setAll`. `ChannelStorage` is a synonym for `GlobalStorage` (see "Left out").
- `LegacyFactoids` (`legacy_factoids.dfy`): the `Registry` value (global contents plus each channel's contents, in creation order), one specification function per handler, and class `Factoids`. The class's ghost `Model()` is tied to the registry functions.
- `FactoidRecord` (`factoid_record.dfy`): class `Factoid`, its value `FactoidValue`, `Encode`/`Decode` between a value and its saved record, and the schema check.
- `Pool` (`factoid_pool.dfy`): class `FactoidPool` over a `seq<Factoid>`.
- `PoolCollection` (`factoid_pool_collection.dfy`): class `DataStorage` (the abstract `factoidStorage`: integer key to record) and class `FactoidPoolCollection` over a sequence of (channel, pool) pairs, with a ghost `Repr` footprint.

Inputs that come from outside the module are parameters:

- Whether the Auth module trusts the nickname is a `trusted: bool`.
- The channel a command came from is a `channel: string`.
- The decoded JSON file is an `Option<Structure>`; `None` means it did not decode.
- The data storage is a `DataStorage` object.

A handler's reply is its result.

## Model

| member | source | states |
|---|---|---|
| PhpArrays.Get | src/GlobalStorage.php:77-83 | `$m[$k]` after an `array_key_exists` check: nothing exactly when the key is absent, otherwise a value stored under it |
| PhpArrays.Put | src/GlobalStorage.php:45 | `$m[$k] = $v` keeps the key list for a present key and appends the key (and the entry) for a new one |
| PhpArrays.Remove | src/GlobalStorage.php:69 | `unset($m[$k])` changes nothing for a missing key, otherwise drops exactly one entry and adds none |
| PhpArrays.PutGet | src/GlobalStorage.php:45 | after `$m[$k] = $v`, `$k` reads `$v` and every other key reads what it read before |
| PhpArrays.PutDistinct | src/GlobalStorage.php:45 | array assignment keeps the keys distinct |
| PhpArrays.RemoveGet | src/GlobalStorage.php:69 | after `unset($m[$k])`, `$k` is absent and every other key reads what it read before, keys distinct |
| PhpStrings.Trim | src/Factoids.php:130 | `trim` yields the infix whose first and last characters are not whitespace, with only trimmable characters cut off on either side |
| PhpStrings.TrimStart | src/Factoids.php:130 | the left cut of `trim`: it skips exactly the run of trimmable characters from the given position and stops at the first character that is kept |
| PhpStrings.TrimEnd | src/Factoids.php:130 | the right cut of `trim`: it drops exactly the run of trimmable characters before the given end, never past the left cut, and stops at a kept character |
| PhpStrings.TrimIdempotent | src/Factoids.php:158 | trimming a trimmed key changes nothing |
| PhpStrings.Explode | src/Factoids.php:79 | `explode` with a positive limit gives 1..limit pieces that join back to the text with spaces; only the last piece may hold a space, and only when the limit was reached |
| PhpStrings.ExplodeOne | src/Factoids.php:104 | with limit 1, `explode` yields the whole text as its single piece |
| PhpStrings.ExplodeTwo | src/Factoids.php:79 | with limit 2, `explode` cuts at the first space into the text before it and everything after it, or yields one piece |
| GlobalStore.Accepts | src/GlobalStorage.php:37-43 | `add` stores exactly when key and value are strings and the key is new or overwriting was asked for |
| GlobalStore.Added | src/GlobalStorage.php:37-47 | the storage after `add`: unchanged when rejected, otherwise `$storage[$key] = $value` |
| GlobalStore.SetAllSpec | src/GlobalStorage.php:96-102 | the storage after `setAll`: `add(key, value)` without overwrite for each item in order |
| GlobalStore.AddedEffect | src/GlobalStorage.php:37-47 | `add` changes nothing for a non-string key or value or an existing key without overwrite; otherwise the key maps to the value, other keys are unchanged, a new key is appended and an overwritten one keeps its place |
| GlobalStore.SetAllAppends | src/GlobalStorage.php:96-102 | `setAll` keeps the old entries unchanged in their places and only appends |
| GlobalStore.SetAllNeverOverwrites | src/GlobalStorage.php:96-102 | `setAll` never changes the value of a key already present |
| GlobalStore.SetAllCovers | src/GlobalStorage.php:96-102 | every string/string item's key is present after `setAll`, and every appended entry comes from such an item |
| GlobalStore.NewItems | src/GlobalStorage.php:96-102 | the items `setAll` stores, in the items' order: each has a string key and value, and its key was not stored before |
| GlobalStore.SetAllOrder | src/GlobalStorage.php:96-102 | for a PHP array of items, `setAll` yields the old storage followed by exactly the new string items, in the items' order |
| GlobalStore.AsPhpArrayGet | src/GlobalStorage.php:88-91 | the array `getAll` hands out answers every key as the storage does, as PHP strings, and has distinct keys |
| GlobalStore.SetAllRestores | src/GlobalStorage.php:88-102 | `setAll` of a storage's `getAll` into an empty storage rebuilds it exactly |
| GlobalStore.GlobalStorage.constructor | src/GlobalStorage.php:28 | a new storage is empty |
| GlobalStore.GlobalStorage.Add | src/GlobalStorage.php:37-47 | returns whether the item was accepted; the new storage is `Added` of the old one (see AddedEffect) |
| GlobalStore.GlobalStorage.Exists | src/GlobalStorage.php:54-57 | holds exactly for the keys `getAll` lists |
| GlobalStore.GlobalStorage.Remove | src/GlobalStorage.php:64-71 | returns whether the key was there; the storage loses exactly that entry (nothing for a missing key), and the key no longer exists |
| GlobalStore.GlobalStorage.Get | src/GlobalStorage.php:77-83 | nothing exactly for a missing key, otherwise the value stored under it |
| GlobalStore.GlobalStorage.GetAll | src/GlobalStorage.php:88-91 | the whole `$storage` array, in insertion order |
| GlobalStore.GlobalStorage.SetAll | src/GlobalStorage.php:96-102 | the loop of `add` without overwrite yields `SetAllSpec` of the old storage |
| LegacyFactoids.EnsureChannel | src/Factoids.php:244-250 | `getChannelStorage` appends an empty storage for a channel without one and changes nothing otherwise |
| LegacyFactoids.EnsureChannelEffect | src/Factoids.php:244-250 | `getChannelStorage` is idempotent, creates the channel's storage empty, and changes no storage's contents |
| LegacyFactoids.UpdateChannelEffect | src/Factoids.php:87-88 | writing one channel's storage changes no other channel and not the global storage, and a new channel is appended |
| LegacyFactoids.CreateSpec | src/Factoids.php:75-88 | `create`: nothing for an untrusted caller or fewer than two pieces of `explode(' ', params, 2)`; otherwise `add(piece 0, piece 1, true)` on the channel's storage |
| LegacyFactoids.AddToChannelSpec | src/Factoids.php:87-88 | the channel's storage is created if missing and `add(key, value, true)` is applied to it |
| LegacyFactoids.CreateGlobalSpec | src/Factoids.php:100-113 | `createGlobal` with a given `explode` limit (the source passes 1): `add(piece 0, piece 1, true)` on the global storage when there are two pieces |
| LegacyFactoids.RemoveSpec | src/Factoids.php:124-141 | `remove`: nothing for an untrusted caller; otherwise the trimmed key is removed from the channel's storage |
| LegacyFactoids.RemoveKeySpec | src/Factoids.php:128-141 | the channel's storage is created if missing, and the key is removed from it when `exists` holds |
| LegacyFactoids.RemoveGlobalSpec | src/Factoids.php:152-169 | `removeGlobal`: nothing for an untrusted caller; otherwise the trimmed key is removed from the global storage |
| LegacyFactoids.RemoveGlobalKeySpec | src/Factoids.php:156-169 | the key is removed from the global storage when `exists` holds |
| LegacyFactoids.Truthy | src/Factoids.php:259-262 | PHP truthiness of what `get` returns: `false`, `""` and `"0"` are falsy |
| LegacyFactoids.Reply | src/Factoids.php:256-263 | `get`: the channel value if truthy, otherwise the global value if truthy, otherwise nothing |
| LegacyFactoids.CreateNeedsTrustAndSpace | src/Factoids.php:75-82 | an untrusted caller or a text without a space stores nothing and creates no channel storage |
| LegacyFactoids.CreateEffect | src/Factoids.php:79-88 | `create` maps the text before the first space to everything after it, overwriting; other keys, other channels and the global storage are unchanged |
| LegacyFactoids.CreateGlobalNeverStores | src/Factoids.php:104-107 | as written, `createGlobal` never changes anything |
| LegacyFactoids.CreateGlobalIntendedStores | src/Factoids.php:104-113 | with limit 2, `createGlobal` stores the text after the first space under the text before it, globally, and leaves the channels alone |
| LegacyFactoids.RemoveEffect | src/Factoids.php:128-141 | `remove` deletes the trimmed key from this channel only; a missing key changes nothing but the channel's creation; the global storage is never touched |
| LegacyFactoids.RemoveGlobalEffect | src/Factoids.php:156-169 | `removeGlobal` deletes the trimmed key from the global storage only, keeping the other keys |
| LegacyFactoids.CreateThenReply | src/Factoids.php:252-263 | a truthy value created in a channel is what `get` answers there for its key |
| LegacyFactoids.RemoveThenReply | src/Factoids.php:252-263 | after `remove`, `get` in that channel answers the global value if truthy, else nothing |
| LegacyFactoids.FalsyCountsAsAbsent | src/Factoids.php:258-263 | a stored `""` or `"0"` answers as if the entry were missing, and every answer is truthy |
| LegacyFactoids.SaveChannels | src/Factoids.php:227-230 | `$structure[$channel] = $storage->getAll()` for each channel storage in creation order |
| LegacyFactoids.SaveStructure | src/Factoids.php:223-230 | the structure `saveJson` encodes: `global` assigned first, then every channel |
| LegacyFactoids.SaveChannelsGet | src/Factoids.php:225-230 | the saved structure holds each channel's contents under its name, and otherwise what was there before |
| LegacyFactoids.SaveStructureLayout | src/Factoids.php:221-233 | `global` comes first; a channel named `global` overwrites the global contents; no other keys |
| LegacyFactoids.SaveFirstKey | src/Factoids.php:225-230 | the channel assignments keep `global` as the first key |
| LegacyFactoids.SaveStructureShape | src/Factoids.php:221-233 | without a channel named `global`, the structure is `global` followed by the channels in creation order |
| LegacyFactoids.SaveDistinct | src/Factoids.php:221-233 | the saved structure has distinct keys |
| LegacyFactoids.SaveChannelsDistinct | src/Factoids.php:227-230 | the channel assignments keep the keys distinct |
| LegacyFactoids.SaveChannelsAppends | src/Factoids.php:227-230 | channels with new names are appended to the structure in creation order |
| LegacyFactoids.ChannelSetAll | src/Factoids.php:216-217 | `getChannelStorage($channel)->setAll($items)` |
| LegacyFactoids.LoadChannels | src/Factoids.php:214-218 | the channel loop of `loadJson`: `setAll` of each entry into its channel's storage, in order |
| LegacyFactoids.LoadSpec | src/Factoids.php:199-219 | `loadJson`: nothing for a file that does not decode or decodes empty; otherwise a truthy `global` entry goes to the global storage through `setAll`, and every other entry to its channel |
| LegacyFactoids.LoadChannelsStep | src/Factoids.php:214-218 | each further top-level entry applies `setAll` to its channel's storage |
| LegacyFactoids.LoadChannelsKeepsGlobal | src/Factoids.php:214-218 | loading the channel entries leaves the global storage alone |
| LegacyFactoids.LoadChannelsNeverOverwrites | src/Factoids.php:214-218 | loading channel entries keeps every existing channel entry's value and the registry well-formed |
| LegacyFactoids.LoadNeverOverwrites | src/Factoids.php:199-219 | `loadJson` never changes the value of an entry already in the global or a channel storage |
| LegacyFactoids.LoadChannelsRestores | src/Factoids.php:214-218 | loading the saved channel entries into no channels rebuilds every channel in order |
| LegacyFactoids.LoadChannelsOnlyFrom | src/Factoids.php:214-218 | loading creates channel storages only for names among the entries |
| LegacyFactoids.SaveLoadRoundTrip | src/Factoids.php:199-233 | `loadJson` of what `saveJson` wrote, into a fresh module, rebuilds every storage when no channel is named `global` |
| LegacyFactoids.GlobalChannelIsLost | src/Factoids.php:209-218 | a channel named `global` is saved over the global contents and does not come back as a channel |
| LegacyFactoids.Factoids.Valid | src/Factoids.php:31-36 | the storage objects' contents form a well-formed registry |
| LegacyFactoids.Factoids.constructor | src/Factoids.php:44 | after `setup` without a file, the global storage is empty and there are no channels |
| LegacyFactoids.Factoids.ExistsChannelStorage | src/Factoids.php:235-238 | holds exactly when the channel has a storage |
| LegacyFactoids.Factoids.GetChannelStorage | src/Factoids.php:244-250 | returns the channel's storage, creating it empty if needed; an existing one is returned as it is, with nothing changed |
| LegacyFactoids.Factoids.AddChannelStorage | src/Factoids.php:246-247 | a new empty storage is appended under the channel name |
| LegacyFactoids.Factoids.Create | src/Factoids.php:70-93 | the new contents are `CreateSpec` of the old ones (see CreateEffect); any storage object it adds is new, and the global storage object is kept |
| LegacyFactoids.Factoids.AddToChannel | src/Factoids.php:87-88 | `add(key, value, true)` on the channel's storage, created if missing; any storage object it adds is new, and the global storage object is kept |
| LegacyFactoids.Factoids.CreateGlobal | src/Factoids.php:95-118 | changes nothing, as written |
| LegacyFactoids.Factoids.CreateGlobalCorrected | src/Factoids.php:104-113 | with limit 2, the global storage gets the split key and value (see CreateGlobalIntendedStores) |
| LegacyFactoids.Factoids.Remove | src/Factoids.php:119-146 | the new contents are `RemoveSpec` of the old ones (see RemoveEffect); any storage object it adds is new, and the global storage object is kept |
| LegacyFactoids.Factoids.RemoveKey | src/Factoids.php:128-141 | deletes the trimmed key from the channel's storage, created if missing, if present; any storage object it adds is new, and the global storage object is kept |
| LegacyFactoids.Factoids.RemoveGlobal | src/Factoids.php:147-174 | the new contents are `RemoveGlobalSpec` of the old ones (see RemoveGlobalEffect) |
| LegacyFactoids.Factoids.RemoveGlobalKey | src/Factoids.php:156-169 | deletes the key from the global storage if present |
| LegacyFactoids.Factoids.ListAll | src/Factoids.php:175-185 | the channel's keys in insertion order; the channel's storage is created; any storage object it adds is new, and the global storage object is kept |
| LegacyFactoids.Factoids.ListGlobals | src/Factoids.php:187-197 | the global keys in insertion order |
| LegacyFactoids.Factoids.Get | src/Factoids.php:252-267 | answers `Reply` (channel value if truthy, else global value if truthy, else nothing); the channel's storage is created; any storage object it adds is new, and the global storage object is kept |
| LegacyFactoids.Factoids.SetAllForChannel | src/Factoids.php:216-217 | `setAll` into the channel's storage, created if missing; any storage object it adds is new |
| LegacyFactoids.Factoids.SaveJson | src/Factoids.php:221-233 | the structure built is `SaveStructure` of the contents (see SaveStructureLayout, SaveLoadRoundTrip) |
| LegacyFactoids.Factoids.LoadJson | src/Factoids.php:199-219 | the new contents are `LoadSpec` of the old ones and the decoded structure; any storage object it adds is new, and the global storage object is kept |
| LegacyFactoids.Factoids.LoadChannelEntries | src/Factoids.php:214-218 | the loop over the remaining entries yields `LoadChannels` of the contents; any storage object it adds is new |
| FactoidRecord.SchemaMatches | src/FactoidPool.php:56-57 | a saved record is accepted exactly when its key list is the seven field names in canonical order |
| FactoidRecord.Decode | src/FactoidPool.php:56-66 | a record reads back exactly when its keys are the seven names in order and each value has its setter's type; name and contents are read from their keys |
| FactoidRecord.Encode | src/Factoid.php:171-182 | the record has exactly the seven names in canonical order and reads back as the same factoid |
| FactoidRecord.DecodeOnlyEncodings | src/FactoidPool.php:56-66 | a record that reads back as a factoid is that factoid's `toArray` |
| FactoidRecord.Factoid.constructor | src/Factoid.php:24-54 | a new factoid has empty strings, zero times and is not locked |
| FactoidRecord.Factoid.GetName | src/Factoid.php:59-62 | the factoid's name |
| FactoidRecord.Factoid.GetCreatedTime | src/Factoid.php:75-78 | the factoid's creation time |
| FactoidRecord.Factoid.GetEditedTime | src/Factoid.php:91-94 | the factoid's edit time |
| FactoidRecord.Factoid.GetCreatedByAccount | src/Factoid.php:107-110 | the account that created the factoid |
| FactoidRecord.Factoid.GetEditedByAccount | src/Factoid.php:123-126 | the account that last edited the factoid |
| FactoidRecord.Factoid.IsLocked | src/Factoid.php:139-142 | whether the factoid is locked |
| FactoidRecord.Factoid.GetContents | src/Factoid.php:155-158 | the factoid's contents |
| FactoidRecord.Factoid.SetName | src/Factoid.php:67-70 | `getName` returns the value set, and no other field changes |
| FactoidRecord.Factoid.SetCreatedTime | src/Factoid.php:83-86 | `getCreatedTime` returns the value set, and no other field changes |
| FactoidRecord.Factoid.SetEditedTime | src/Factoid.php:99-102 | `getEditedTime` returns the value set, and no other field changes |
| FactoidRecord.Factoid.SetCreatedByAccount | src/Factoid.php:115-118 | `getCreatedByAccount` returns the value set, and no other field changes |
| FactoidRecord.Factoid.SetEditedByAccount | src/Factoid.php:131-134 | `getEditedByAccount` returns the value set, and no other field changes |
| FactoidRecord.Factoid.SetLocked | src/Factoid.php:147-150 | `isLocked` returns the value set, and no other field changes |
| FactoidRecord.Factoid.SetContents | src/Factoid.php:163-166 | `getContents` returns the value set, and no other field changes |
| FactoidRecord.Factoid.ToArray | src/Factoid.php:171-182 | exactly the seven names in canonical order, each value the matching getter's result; reads back as the factoid |
| Pool.EncodeAllViewsAt | src/FactoidPool.php:30-31 | the saveable array has one record per factoid object, the i-th being that object's `toArray()` |
| Pool.Decoded | src/FactoidPool.php:52-69 | the factoids `populateFromSavedArray` reads back: every record that decodes, in order, the others skipped |
| Pool.DecodedCounts | src/FactoidPool.php:52-69 | exactly the records with the canonical key list are read back, and each factoid read comes from one of the records |
| Pool.DecodedEncodeAll | src/FactoidPool.php:24-69 | reading back a saveable array gives the same factoids, field for field, in order |
| Pool.EncodeAllTyped | src/FactoidPool.php:59-66 | saved records always carry values of the types the setters take |
| Pool.FirstNamed | src/FactoidPool.php:41-47 | the position of the first factoid with the name, or none exactly when no factoid has it |
| Pool.DuplicateNamesKept | src/FactoidPool.php:54-67 | two saved factoids with the same name both come back, and the search finds the earlier one |
| Pool.FromRecord | src/FactoidPool.php:59-66 | a new factoid whose fields are the record's values |
| Pool.FactoidPool.constructor | src/FactoidPool.php:16-19 | a new pool is empty |
| Pool.FactoidPool.ToSaveableArray | src/FactoidPool.php:24-34 | the loop yields `EncodeAll` of the pool's factoids |
| Pool.FactoidPool.FindByKey | src/FactoidPool.php:41-47 | the first factoid in pool order with that name, or nothing exactly when none has it |
| Pool.FactoidPool.Add | src/FactoidPool.php:59-67 | a new factoid with the record's values is appended, and the pool's earlier factoids are kept |
| Pool.FactoidPool.ReadRecord | src/FactoidPool.php:54-68 | one record is appended if it has the canonical keys and skipped otherwise |
| Pool.FactoidPool.PopulateFromSavedArray | src/FactoidPool.php:52-69 | the pool gains `Decoded(records)` after what it held: accepted records in order, the others skipped; the factoid objects already there stay at the front, and every added one is new |
| PoolCollection.DataStorage.constructor | src/FactoidPoolCollection.php:25 | a data storage starts empty |
| PoolCollection.DataStorage.Flush | src/FactoidPoolCollection.php:41 | `flush` drops every record |
| PoolCollection.DataStorage.Set | src/FactoidPoolCollection.php:52 | `set` stores the record under its key, replacing or appending |
| PoolCollection.DataStorage.GetAll | src/FactoidPoolCollection.php:26 | every stored record, in insertion order |
| PoolCollection.SavedRecords | src/FactoidPoolCollection.php:43-53 | the records `saveFactoidData` writes: pool n (from 1) under key n as `{channel, pool->toSaveableArray()}` |
| PoolCollection.Loaded | src/FactoidPoolCollection.php:28-35 | the collection after `loadStoredFactoids`: each record in turn stores its read-back pool under its channel |
| PoolCollection.SavedRecordsKeys | src/FactoidPoolCollection.php:43-53 | saved records are keyed 1..n in collection order, so each `set` appends |
| PoolCollection.LoadedStep | src/FactoidPoolCollection.php:28-35 | each further record stores its read-back pool under its channel |
| PoolCollection.LastFor | src/FactoidPoolCollection.php:28-35 | the last record for a channel, or none exactly when there is none |
| PoolCollection.LoadedGet | src/FactoidPoolCollection.php:28-35 | each channel ends with the pool of its last record; channels without a record keep their pool |
| PoolCollection.LoadedDistinct | src/FactoidPoolCollection.php:28-35 | channel names stay distinct while loading |
| PoolCollection.ContentsOfPut | src/FactoidPoolCollection.php:34 | storing a pool under a channel stores its factoids under that channel |
| PoolCollection.SaveLoadRoundTrip | src/FactoidPoolCollection.php:23-54 | saving then loading into an empty collection gives the same channels with the same factoids in the same order, and the saved data is well typed |
| PoolCollection.FactoidPoolCollection.constructor | src/FactoidPoolCollection.php:18-21 | a new collection is empty and owns no pools yet |
| PoolCollection.FactoidPoolCollection.SaveFactoidData | src/FactoidPoolCollection.php:38-54 | the storage holds exactly `SavedRecords` of the collection, and the collection is unchanged, so saving twice writes the same records |
| PoolCollection.FactoidPoolCollection.SavePool | src/FactoidPoolCollection.php:50-52 | pool i is written under key i + 1 as its channel and saveable array, extending the records written so far by exactly that one |
| PoolCollection.FactoidPoolCollection.OffsetSet | src/FactoidPoolCollection.php:34 | the pool replaces a known channel's pool in place or is appended; the collection's footprint gains exactly that pool and its factoids |
| PoolCollection.FactoidPoolCollection.LoadRecord | src/FactoidPoolCollection.php:30-34 | a new pool populated from the record is stored under the record's channel; everything the collection gains is newly created |
| PoolCollection.FactoidPoolCollection.NewPool | src/FactoidPoolCollection.php:32-33 | `new FactoidPool()` then `populateFromSavedArray`: a fresh pool of fresh factoids holding the records read back |
| PoolCollection.FactoidPoolCollection.LoadStoredFactoids | src/FactoidPoolCollection.php:23-36 | the new contents are `Loaded` of the old ones and the stored data (see LoadedGet); everything the collection gains is newly created, so the same storage can be saved to afterwards |

## Left out

- IRC output, event wiring, `register_shutdown_function` and `__destruct`: transport plumbing. A handler's reply is its result; messages are not modelled.
- The Auth module's `nicknameIsTrusted`: a foreign call, modelled as the `trusted` parameter.
- Reading and writing `factoids.json` (`file_exists`, `file_get_contents`, `json_decode`, `json_encode`, `file_put_contents`): file I/O. The decoded structure is a value, and a file that does not decode is `None`.
- `DataStorageFactory` and its backend: not part of this model. `DataStorage` stands in for it as an ordered map from integer key to record with `flush`, `set` and `getAll`.
- `ChannelStorage.php` is not part of this model: `ChannelStorage` is assumed to behave exactly like `GlobalStorage`.
- The `Collection` base classes and `Types::instanceof`: not part of this model. A pool is a sequence with append and first-match search; the collection is an ordered map whose `offsetSet` replaces or appends.
- Pool.FactoidPool.FindByKey: compares names with exact equality, not PHP's loose `==` (for example `"1e1" == "10"` is not modelled).
- GlobalStore.GlobalStorage.Add: keys are always strings; PHP's conversion of numeric-string array keys to integers (which then fail `is_string` in `setAll`) is not modelled.
- Pool.FactoidPool.PopulateFromSavedArray: requires every record with the canonical keys to hold values of the setters' types. PHP would coerce or throw a TypeError, and neither is modelled.
- PoolCollection.FactoidPoolCollection.LoadStoredFactoids: requires the stored data to pass the same typing, for the same reason.
- Malformed input whose PHP behaviour is unspecified (notices, warnings, TypeErrors) is not representable, because the types rule it out. This covers a stored record without `channel` or `pool`, and a non-array value in the JSON structure or in a pool.
- A decoded JSON structure always has distinct top-level keys, as every PHP array does; `LoadSpec` and `LoadJson` require this.
- The optional `$initialValues` argument of the `FactoidPoolCollection` constructor: not modelled; a new collection starts empty.
- `createdTime`/`editedTime` are unbounded integers. PHP's integer width and floats are not modelled.
- Templates, move, rename, edit and what `locked` means: not in the modelled source.

## Findings

| source | as written | input that shows it | evidently intended | confidence | as-written member | corrected member |
|---|---|---|---|---|---|---|
| src/Factoids.php:104-107 | `explode(' ', $params, 1)` always returns one piece, so `count($pieces) < 2` always returns and `createGlobal` never stores anything | a trusted `createGlobal` with `params = "hello world"`: the global storage stays unchanged | limit 2, as `create` uses: store `world` under `hello` in the global storage | high (not executed) | LegacyFactoids.CreateGlobalNeverStores | LegacyFactoids.CreateGlobalIntendedStores |
