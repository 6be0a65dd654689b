/** The legacy factoid module (src/Factoids.php): one global storage plus a
    lazily created storage per channel, the command handlers that create,
    remove, list and look up factoids, and the conversion of all storages to
    and from one nested `{ "global": {...}, "#chan": {...} }` structure.

    IRC output, event wiring, the Auth module and file/JSON I/O are not part
    of this model: the trust decision is a boolean parameter, a handler's
    reply is its result, and the decoded JSON is a value. */
module LegacyFactoids {
  import opened PhpArrays
  import opened PhpStrings
  import opened GlobalStore

  /** The contents of every storage: the global one, and each channel's in
      the order the channel storages were created. */
  datatype Registry = Registry(global: Store, channels: seq<(string, Store)>)

  /** The decoded JSON structure: top-level key => (key => value). */
  type Structure = seq<(string, PhpArray)>

  /** The state right after `setup` when there is no saved file. */
  const Empty := Registry([], [])

  /** Every PHP array in the registry has distinct keys. */
  ghost predicate WellFormed(r: Registry)
  {
    && DistinctKeys(r.global)
    && DistinctKeys(r.channels)
    && forall i :: 0 <= i < |r.channels| ==> DistinctKeys(r.channels[i].1)
  }

  /** The contents of a channel's storage; a channel without one reads as empty. */
  function ChannelStore(r: Registry, channel: string): Store
  {
    match PhpArrays.Get(r.channels, channel)
    case None => []
    case Some(s) => s
  }

  /** The registry after `getChannelStorage(channel)`: an empty storage is
      appended for a channel that has none. */
  function EnsureChannel(r: Registry, channel: string): Registry
  {
    if HasKey(r.channels, channel) then r
    else r.(channels := r.channels + [(channel, [])])
  }

  /** The registry with one channel's storage replaced. */
  function UpdateChannel(r: Registry, channel: string, s: Store): Registry
  {
    r.(channels := Put(r.channels, channel, s))
  }

  /** Every channel storage's contents as read back through ChannelStore. */
  lemma {:induction false} ChannelStoreAt(r: Registry, i: nat)
    requires WellFormed(r) && i < |r.channels|
    ensures ChannelStore(r, r.channels[i].0) == r.channels[i].1
  {
    GetAt(r.channels, i);
  }

  /** `getChannelStorage` is idempotent, creates the channel's storage empty
      on first use, keeps the well-formedness of the registry, and changes
      nothing else. */
  lemma EnsureChannelEffect(r: Registry, channel: string)
    requires WellFormed(r)
    ensures var r' := EnsureChannel(r, channel);
      && WellFormed(r')
      && EnsureChannel(r', channel) == r'
      && HasKey(r'.channels, channel)
      && r'.global == r.global
      && forall c :: ChannelStore(r', c) == ChannelStore(r, c)
  {
    var r' := EnsureChannel(r, channel);
    if !HasKey(r.channels, channel) {
      assert r'.channels == Put(r.channels, channel, []);
      PutDistinct(r.channels, channel, []);
      PutGet(r.channels, channel, [], channel);
      forall c ensures ChannelStore(r', c) == ChannelStore(r, c) {
        PutGet(r.channels, channel, [], c);
      }
    }
  }

  /** Updating a channel's storage keeps the registry well-formed, sets that
      channel's contents and leaves the global storage and every other
      channel as they were. */
  lemma UpdateChannelEffect(r: Registry, channel: string, s: Store, other: string)
    requires WellFormed(r) && DistinctKeys(s)
    ensures var r' := UpdateChannel(r, channel, s);
      && WellFormed(r')
      && r'.global == r.global
      && ChannelStore(r', channel) == s
      && (other != channel ==> ChannelStore(r', other) == ChannelStore(r, other))
      && Keys(r'.channels) == if HasKey(r.channels, channel) then Keys(r.channels) else Keys(r.channels) + [channel]
  {
    var r' := UpdateChannel(r, channel, s);
    PutDistinct(r.channels, channel, s);
    PutGet(r.channels, channel, s, channel);
    PutGet(r.channels, channel, s, other);
    forall i | 0 <= i < |r'.channels| ensures DistinctKeys(r'.channels[i].1) {
      if r'.channels[i] != (channel, s) {
        assert r'.channels[i] in r.channels;
      }
    }
  }

  // ---------------------------------------------------------------------
  // Command handlers on the registry value

  /** The key and value that `explode(' ', params, limit)` yields, or nothing
      when it yields fewer than two pieces. */
  function SplitKeyValue(params: string, limit: nat): Option<(string, string)>
    requires limit >= 1
  {
    var pieces := Explode(params, limit);
    if |pieces| < 2 then None else Some((pieces[0], pieces[1]))
  }

  /** `create`: for a trusted caller whose text holds a space, stores the
      text after the first space under the text before it in the channel's
      storage, overwriting an existing entry. */
  function CreateSpec(r: Registry, channel: string, params: string, trusted: bool): Registry
  {
    if !trusted then r
    else match SplitKeyValue(params, 2)
      case None => r
      case Some(kv) => AddToChannelSpec(r, channel, kv.0, kv.1)
  }

  /** `create` once the text is split: the channel's storage is created if
      missing, and the value is stored under the key, overwriting. */
  function AddToChannelSpec(r: Registry, channel: string, key: string, value: string): Registry
  {
    var r1 := EnsureChannel(r, channel);
    UpdateChannel(r1, channel, Added(ChannelStore(r1, channel), PString(key), PString(value), true))
  }

  /** `createGlobal` with the given `explode` limit: the source passes 1. */
  function CreateGlobalSpec(r: Registry, params: string, trusted: bool, limit: nat): Registry
    requires limit >= 1
  {
    if !trusted then r
    else match SplitKeyValue(params, limit)
      case None => r
      case Some(kv) => r.(global := Added(r.global, PString(kv.0), PString(kv.1), true))
  }

  /** `remove`: for a trusted caller, deletes the trimmed key from the
      channel's storage if it is there. */
  function RemoveSpec(r: Registry, channel: string, params: string, trusted: bool): Registry
  {
    if !trusted then r
    else
      RemoveKeySpec(r, channel, Trim(params))
  }

  /** `remove` of an already trimmed key: the channel's storage is created
      if missing, and the key is deleted from it if present. */
  function RemoveKeySpec(r: Registry, channel: string, key: string): Registry
  {
    var r1 := EnsureChannel(r, channel);
    var s := ChannelStore(r1, channel);
    if !HasKey(s, key) then r1
    else UpdateChannel(r1, channel, PhpArrays.Remove(s, key))
  }

  /** `removeGlobal`: for a trusted caller, deletes the trimmed key from the
      global storage if it is there. */
  function RemoveGlobalSpec(r: Registry, params: string, trusted: bool): Registry
  {
    if !trusted then r
    else RemoveGlobalKeySpec(r, Trim(params))
  }

  /** `removeGlobal` of an already trimmed key: deleted from the global
      storage if present. */
  function RemoveGlobalKeySpec(r: Registry, key: string): Registry
  {
    if !HasKey(r.global, key) then r
    else r.(global := PhpArrays.Remove(r.global, key))
  }

  /** PHP truthiness of what `get` returns: false, "" and "0" are falsy. */
  predicate Truthy(v: Option<string>)
  {
    v.Some? && v.value != "" && v.value != "0"
  }

  /** The text `get` sends for a command: the channel's value if truthy,
      otherwise the global value if truthy, otherwise nothing. */
  function Reply(r: Registry, channel: string, command: string): Option<string>
  {
    var c := PhpArrays.Get(ChannelStore(r, channel), command);
    var v := if Truthy(c) then c else PhpArrays.Get(r.global, command);
    if Truthy(v) then v else None
  }

  /** `create` stores nothing for an untrusted caller or for text without a
      space: not even the channel's storage is created. */
  lemma CreateNeedsTrustAndSpace(r: Registry, channel: string, params: string, trusted: bool)
    requires !trusted || ' ' !in params
    ensures CreateSpec(r, channel, params, trusted) == r
  {
    ExplodeTwo(params);
  }

  /** `create` splits at the first space: the key is the text before it, the
      value everything after it, further spaces included; the channel entry
      is overwritten if present and appended otherwise; the global storage
      and other channels stay as they were. */
  lemma CreateEffect(r: Registry, channel: string, params: string, other: string)
    requires WellFormed(r)
    requires ' ' in params
    ensures var r' := CreateSpec(r, channel, params, true);
      var i := FindChar(params, ' ');
      var key := params[..i];
      var s := ChannelStore(r, channel);
      var s' := ChannelStore(r', channel);
      && WellFormed(r')
      && r'.global == r.global
      && PhpArrays.Get(s', key) == Some(params[i + 1..])
      && (other != key ==> PhpArrays.Get(s', other) == PhpArrays.Get(s, other))
      && (other != channel ==> ChannelStore(r', other) == ChannelStore(r, other))
      && Keys(s') == if HasKey(s, key) then Keys(s) else Keys(s) + [key]
  {
    ExplodeTwo(params);
    var i := FindChar(params, ' ');
    var key, value := params[..i], params[i + 1..];
    assert SplitKeyValue(params, 2) == Some((key, value));
    var r1 := EnsureChannel(r, channel);
    EnsureChannelEffect(r, channel);
    var s := ChannelStore(r1, channel);
    assert s == ChannelStore(r, channel);
    var k1 := IndexOf(r1.channels, channel).value;
    ChannelStoreAt(r1, k1);
    AddedEffect(s, PString(key), PString(value), true, other);
    var s' := Added(s, PString(key), PString(value), true);
    assert Accepts(s, PString(key), PString(value), true);
    var r' := UpdateChannel(r1, channel, s');
    assert CreateSpec(r, channel, params, true) == r';
    UpdateChannelEffect(r1, channel, s', other);
    assert ChannelStore(r', channel) == s';
    assert other != channel ==> ChannelStore(r1, other) == ChannelStore(r, other);
  }

  /** As written, `createGlobal` never changes anything: `explode` with
      limit 1 always yields a single piece, so the count check returns. */
  lemma CreateGlobalNeverStores(r: Registry, params: string, trusted: bool)
    ensures CreateGlobalSpec(r, params, trusted, 1) == r
  {
    ExplodeOne(params);
  }

  /** With the limit 2 that `create` uses, `createGlobal` stores the text
      after the first space under the text before it in the global storage
      and leaves every channel storage alone. */
  lemma CreateGlobalIntendedStores(r: Registry, params: string)
    requires WellFormed(r)
    requires ' ' in params
    ensures var r' := CreateGlobalSpec(r, params, true, 2);
      var i := FindChar(params, ' ');
      && WellFormed(r')
      && r'.channels == r.channels
      && PhpArrays.Get(r'.global, params[..i]) == Some(params[i + 1..])
  {
    ExplodeTwo(params);
    var i := FindChar(params, ' ');
    AddedEffect(r.global, PString(params[..i]), PString(params[i + 1..]), true, "");
  }

  /** `remove` deletes the trimmed key from this channel only: afterwards the
      key is absent there, every other key of the channel is kept, and the
      global storage and other channels are untouched. A missing key changes
      nothing beyond creating the channel's storage. */
  lemma RemoveEffect(r: Registry, channel: string, params: string, other: string)
    requires WellFormed(r)
    ensures var r' := RemoveSpec(r, channel, params, true);
      var key := Trim(params);
      && WellFormed(r')
      && r'.global == r.global
      && (!HasKey(ChannelStore(r, channel), key) ==> r' == EnsureChannel(r, channel))
      && PhpArrays.Get(ChannelStore(r', channel), key).None?
      && (other != key ==> PhpArrays.Get(ChannelStore(r', channel), other) == PhpArrays.Get(ChannelStore(r, channel), other))
      && (other != channel ==> ChannelStore(r', other) == ChannelStore(r, other))
  {
    var r1 := EnsureChannel(r, channel);
    EnsureChannelEffect(r, channel);
    var key := Trim(params);
    var s := ChannelStore(r1, channel);
    var k1 := IndexOf(r1.channels, channel).value;
    ChannelStoreAt(r1, k1);
    if HasKey(s, key) {
      RemoveGet(s, key, key);
      RemoveGet(s, key, other);
      UpdateChannelEffect(r1, channel, PhpArrays.Remove(s, key), other);
    }
  }

  /** `removeGlobal` deletes the trimmed key from the global storage only. */
  lemma RemoveGlobalEffect(r: Registry, params: string, other: string)
    requires WellFormed(r)
    ensures var r' := RemoveGlobalSpec(r, params, true);
      var key := Trim(params);
      && WellFormed(r')
      && r'.channels == r.channels
      && PhpArrays.Get(r'.global, key).None?
      && (other != key ==> PhpArrays.Get(r'.global, other) == PhpArrays.Get(r.global, other))
  {
    var key := Trim(params);
    var g := PhpArrays.Remove(r.global, key);
    assert RemoveGlobalSpec(r, params, true) == r.(global := g);
    RemoveGet(r.global, key, key);
    RemoveGet(r.global, key, other);
  }

  /** A value created for a channel is what `get` then answers in that
      channel, provided it is truthy. */
  lemma CreateThenReply(r: Registry, channel: string, params: string)
    requires WellFormed(r)
    requires ' ' in params
    requires var i := FindChar(params, ' '); params[i + 1..] != "" && params[i + 1..] != "0"
    ensures var i := FindChar(params, ' ');
      Reply(CreateSpec(r, channel, params, true), channel, params[..i]) == Some(params[i + 1..])
  {
    CreateEffect(r, channel, params, "");
  }

  /** After a channel entry is removed, `get` in that channel falls back to
      the global value (when truthy). */
  lemma RemoveThenReply(r: Registry, channel: string, params: string)
    requires WellFormed(r)
    ensures var key := Trim(params);
      var g := PhpArrays.Get(r.global, key);
      Reply(RemoveSpec(r, channel, params, true), channel, key) == if Truthy(g) then g else None
  {
    RemoveEffect(r, channel, params, "");
  }

  /** A stored "" or "0" counts as absent: `get` answers exactly as if the
      channel had no entry for the command; and whatever `get` answers is
      itself truthy. */
  lemma FalsyCountsAsAbsent(r: Registry, channel: string, command: string)
    requires WellFormed(r)
    requires PhpArrays.Get(ChannelStore(r, channel), command) in {Some(""), Some("0")}
    ensures Reply(r, channel, command) ==
      Reply(UpdateChannel(r, channel, PhpArrays.Remove(ChannelStore(r, channel), command)), channel, command)
    ensures Reply(r, channel, command).Some? ==> Truthy(Reply(r, channel, command))
  {
    var s := ChannelStore(r, channel);
    var k := IndexOf(r.channels, channel).value;
    ChannelStoreAt(r, k);
    RemoveGet(s, command, command);
    UpdateChannelEffect(r, channel, PhpArrays.Remove(s, command), "");
  }

  // ---------------------------------------------------------------------
  // saveJson / loadJson on the registry value

  /** `$structure[$channel] = getAll()` for each channel in turn, on top of `acc`. */
  function SaveChannels(acc: Structure, channels: seq<(string, Store)>): Structure
  {
    if channels == [] then acc
    else
      var last := channels[|channels| - 1];
      Put(SaveChannels(acc, channels[..|channels| - 1]), last.0, AsPhpArray(last.1))
  }

  /** The structure `saveJson` encodes: `global` first, then every channel. */
  function SaveStructure(r: Registry): Structure
  {
    SaveChannels(Put([], "global", AsPhpArray(r.global)), r.channels)
  }

  /** What the saved structure holds under each key: a channel's contents
      under its name, the global contents under `global` unless a channel
      of that name has overwritten them, and nothing else. */
  lemma {:induction false} SaveChannelsGet(acc: Structure, channels: seq<(string, Store)>, k: string)
    requires DistinctKeys(channels)
    ensures PhpArrays.Get(SaveChannels(acc, channels), k) ==
      match PhpArrays.Get(channels, k)
      case Some(s) => Some(AsPhpArray(s))
      case None => PhpArrays.Get(acc, k)
  {
    if channels != [] {
      var front := channels[..|channels| - 1];
      var last := channels[|channels| - 1];
      SaveChannelsGet(acc, front, k);
      PutGet(SaveChannels(acc, front), last.0, AsPhpArray(last.1), k);
      if k == last.0 {
        GetAt(channels, |channels| - 1);
      } else {
        SplitLast(channels);
        GetAppendOther(front, last.0, last.1, k);
      }
    }
  }

  /** `saveJson` starts with `global` and keeps it first; a channel storage
      named `global` overwrites the global contents in place. */
  lemma SaveStructureLayout(r: Registry, k: string)
    requires WellFormed(r)
    ensures var st := SaveStructure(r);
      && |st| > 0 && st[0].0 == "global"
      && PhpArrays.Get(st, k) ==
           if HasKey(r.channels, k) then Some(AsPhpArray(ChannelStore(r, k)))
           else if k == "global" then Some(AsPhpArray(r.global))
           else None
  {
    SaveChannelsGet(Put([], "global", AsPhpArray(r.global)), r.channels, k);
    SaveFirstKey(Put([], "global", AsPhpArray(r.global)), r.channels);
  }

  /** Assignments on top of a non-empty structure keep its first key first. */
  lemma {:induction false} SaveFirstKey(acc: Structure, channels: seq<(string, Store)>)
    requires |acc| > 0
    ensures |SaveChannels(acc, channels)| > 0 && SaveChannels(acc, channels)[0].0 == acc[0].0
  {
    if channels != [] {
      var front := channels[..|channels| - 1];
      var last := channels[|channels| - 1];
      SaveFirstKey(acc, front);
      var p := SaveChannels(acc, front);
      assert Keys(Put(p, last.0, AsPhpArray(last.1)))[0] == Keys(p)[0];
    }
  }

  /** The registry after `getChannelStorage(channel)->setAll(items)`. */
  function ChannelSetAll(r: Registry, channel: string, items: PhpArray): Registry
  {
    var r1 := EnsureChannel(r, channel);
    UpdateChannel(r1, channel, SetAllSpec(ChannelStore(r1, channel), items))
  }

  /** The channel storages after `setAll(items)` on each channel in turn. */
  function LoadChannels(r: Registry, items: Structure): Registry
  {
    if items == [] then r
    else
      var last := items[|items| - 1];
      ChannelSetAll(LoadChannels(r, items[..|items| - 1]), last.0, last.1)
  }

  /** The registry after `loadJson` of a decoded structure (None: the file
      did not decode). */
  function LoadSpec(r: Registry, decoded: Option<Structure>): Registry
    requires decoded.Some? ==> DistinctKeys(decoded.value)
  {
    match decoded
    case None => r
    case Some(d) =>
      if d == [] then r
      else
        var g := PhpArrays.Get(d, "global");
        var r1 := if g.Some? && g.value != [] then r.(global := SetAllSpec(r.global, g.value)) else r;
        LoadChannels(r1, PhpArrays.Remove(d, "global"))
  }

  /** Loading channel entries never touches the global storage, keeps the
      registry well-formed, and never overwrites an entry already present in
      a channel's storage. */
  lemma {:induction false} LoadChannelsNeverOverwrites(r: Registry, items: Structure, channel: string, key: string)
    requires WellFormed(r)
    requires HasKey(ChannelStore(r, channel), key)
    ensures var r' := LoadChannels(r, items);
      && WellFormed(r')
      && r'.global == r.global
      && PhpArrays.Get(ChannelStore(r', channel), key) == PhpArrays.Get(ChannelStore(r, channel), key)
  {
    if items != [] {
      var front := items[..|items| - 1];
      var last := items[|items| - 1];
      LoadChannelsNeverOverwrites(r, front, channel, key);
      var p := LoadChannels(r, front);
      var r1 := EnsureChannel(p, last.0);
      EnsureChannelEffect(p, last.0);
      var s := ChannelStore(r1, last.0);
      var k1 := IndexOf(r1.channels, last.0).value;
      ChannelStoreAt(r1, k1);
      SetAllAppends(s, last.1);
      UpdateChannelEffect(r1, last.0, SetAllSpec(s, last.1), channel);
      if channel == last.0 {
        SetAllNeverOverwrites(s, last.1, key);
      }
    }
  }

  /** Loading one more item applies `setAll` to that item's channel. */
  lemma LoadChannelsStep(r: Registry, items: Structure, i: nat)
    requires i < |items|
    ensures LoadChannels(r, items[..i + 1]) == ChannelSetAll(LoadChannels(r, items[..i]), items[i].0, items[i].1)
  {
    assert items[..i + 1][..i] == items[..i];
  }

  /** Loading channel entries leaves the global storage as it is. */
  lemma {:induction false} LoadChannelsKeepsGlobal(r: Registry, items: Structure)
    ensures LoadChannels(r, items).global == r.global
  {
    if items != [] {
      LoadChannelsKeepsGlobal(r, items[..|items| - 1]);
    }
  }

  /** `loadJson` never overwrites: every entry already in the global storage
      or in a channel's storage keeps its value. */
  lemma LoadNeverOverwrites(r: Registry, decoded: Option<Structure>, channel: string, key: string)
    requires WellFormed(r)
    requires decoded.Some? ==> DistinctKeys(decoded.value)
    ensures var r' := LoadSpec(r, decoded);
      && (HasKey(r.global, key) ==> PhpArrays.Get(r'.global, key) == PhpArrays.Get(r.global, key))
      && (HasKey(ChannelStore(r, channel), key) ==>
            PhpArrays.Get(ChannelStore(r', channel), key) == PhpArrays.Get(ChannelStore(r, channel), key))
  {
    if decoded.Some? && decoded.value != [] {
      var d := decoded.value;
      var g := PhpArrays.Get(d, "global");
      var r1 := if g.Some? && g.value != [] then r.(global := SetAllSpec(r.global, g.value)) else r;
      if g.Some? && g.value != [] {
        SetAllAppends(r.global, g.value);
        if HasKey(r.global, key) {
          SetAllNeverOverwrites(r.global, g.value, key);
        }
      }
      LoadChannelsKeepsGlobal(r1, PhpArrays.Remove(d, "global"));
      if HasKey(ChannelStore(r, channel), key) {
        LoadChannelsNeverOverwrites(r1, PhpArrays.Remove(d, "global"), channel, key);
      }
    }
  }

  /** The channel part of a saved structure: each channel's contents under its name. */
  function ChannelsAsPhp(channels: seq<(string, Store)>): (st: Structure)
    ensures |st| == |channels|
    ensures forall i :: 0 <= i < |channels| ==> st[i] == (channels[i].0, AsPhpArray(channels[i].1))
  {
    seq(|channels|, i requires 0 <= i < |channels| => (channels[i].0, AsPhpArray(channels[i].1)))
  }

  /** Channels whose names are new to the structure are appended in order. */
  lemma {:induction false} SaveChannelsAppends(acc: Structure, channels: seq<(string, Store)>)
    requires DistinctKeys(channels)
    requires forall i :: 0 <= i < |channels| ==> !HasKey(acc, channels[i].0)
    ensures SaveChannels(acc, channels) == acc + ChannelsAsPhp(channels)
  {
    if channels != [] {
      var front := channels[..|channels| - 1];
      var last := channels[|channels| - 1];
      SaveChannelsAppends(acc, front);
      assert ChannelsAsPhp(channels) == ChannelsAsPhp(front) + [(last.0, AsPhpArray(last.1))];
      assert !HasKey(acc + ChannelsAsPhp(front), last.0);
    }
  }

  /** Loading the channel part of a saved structure on top of an empty set of
      channels rebuilds every channel storage, in the same order. */
  lemma {:induction false} LoadChannelsRestores(g: Store, channels: seq<(string, Store)>)
    requires DistinctKeys(channels)
    requires forall i :: 0 <= i < |channels| ==> DistinctKeys(channels[i].1)
    ensures LoadChannels(Registry(g, []), ChannelsAsPhp(channels)) == Registry(g, channels)
  {
    if channels != [] {
      var n := |channels| - 1;
      var front := channels[..n];
      var last := channels[n];
      assert ChannelsAsPhp(channels)[..n] == ChannelsAsPhp(front);
      LoadChannelsRestores(g, front);
      assert !HasKey(front, last.0);
      var r1 := Registry(g, front + [(last.0, [])]);
      assert EnsureChannel(Registry(g, front), last.0) == r1;
      IndexOfFirst(r1.channels, last.0, n);
      SetAllRestores(last.1);
      assert Put(r1.channels, last.0, last.1) == channels;
    }
  }

  /** Round trip: `loadJson` of what `saveJson` wrote, into a freshly set up
      module, rebuilds the global storage and every channel storage, in the
      same order, provided no channel is literally named `global`. */
  lemma SaveLoadRoundTrip(r: Registry)
    requires WellFormed(r)
    requires !HasKey(r.channels, "global")
    ensures DistinctKeys(SaveStructure(r))
    ensures LoadSpec(Empty, Some(SaveStructure(r))) == r
  {
    SaveDistinct(r);
    var st := SaveStructure(r);
    var rest := ChannelsAsPhp(r.channels);
    assert PhpArrays.Get(st, "global") == Some(AsPhpArray(r.global))
        && PhpArrays.Remove(st, "global") == rest by {
      SaveStructureShape(r);
    }
    assert LoadSpec(Empty, Some(st)) == LoadChannels(Registry(r.global, []), rest) by {
      SetAllRestores(r.global);
    }
    LoadChannelsRestores(r.global, r.channels);
  }

  /** Without a channel named `global`, the saved structure is `global`
      followed by every channel in creation order. */
  lemma SaveStructureShape(r: Registry)
    requires WellFormed(r)
    requires !HasKey(r.channels, "global")
    ensures var st := SaveStructure(r);
      && st == [("global", AsPhpArray(r.global))] + ChannelsAsPhp(r.channels)
      && PhpArrays.Get(st, "global") == Some(AsPhpArray(r.global))
      && PhpArrays.Remove(st, "global") == ChannelsAsPhp(r.channels)
  {
    var head := [("global", AsPhpArray(r.global))];
    assert Put([], "global", AsPhpArray(r.global)) == head;
    SaveChannelsAppends(head, r.channels);
    var st := SaveStructure(r);
    IndexOfFirst(st, "global", 0);
  }

  /** A channel storage named `global` does not survive a save and load:
      its contents come back as the global storage and the channel is gone. */
  lemma GlobalChannelIsLost(r: Registry)
    requires WellFormed(r)
    requires HasKey(r.channels, "global")
    ensures PhpArrays.Get(SaveStructure(r), "global") == Some(AsPhpArray(ChannelStore(r, "global")))
    ensures DistinctKeys(SaveStructure(r))
    ensures !HasKey(LoadSpec(Empty, Some(SaveStructure(r))).channels, "global")
  {
    SaveDistinct(r);
    var st := SaveStructure(r);
    assert PhpArrays.Get(st, "global") == Some(AsPhpArray(ChannelStore(r, "global"))) by {
      SaveStructureLayout(r, "global");
    }
    var rest := PhpArrays.Remove(st, "global");
    assert !HasKey(rest, "global") by {
      RemoveGet(st, "global", "global");
    }
    var g := PhpArrays.Get(st, "global");
    var r1 := if g.Some? && g.value != [] then Empty.(global := SetAllSpec(Empty.global, g.value)) else Empty;
    LoadChannelsOnlyFrom(r1, rest, "global");
  }

  /** The saved structure has distinct keys. */
  lemma SaveDistinct(r: Registry)
    requires WellFormed(r)
    ensures DistinctKeys(SaveStructure(r))
  {
    SaveChannelsDistinct(Put([], "global", AsPhpArray(r.global)), r.channels);
  }

  lemma {:induction false} SaveChannelsDistinct(acc: Structure, channels: seq<(string, Store)>)
    requires DistinctKeys(acc)
    ensures DistinctKeys(SaveChannels(acc, channels))
  {
    if channels != [] {
      var last := channels[|channels| - 1];
      SaveChannelsDistinct(acc, channels[..|channels| - 1]);
      PutDistinct(SaveChannels(acc, channels[..|channels| - 1]), last.0, AsPhpArray(last.1));
    }
  }

  /** Loading creates channel storages only for the names among the items. */
  lemma {:induction false} LoadChannelsOnlyFrom(r: Registry, items: Structure, c: string)
    requires !HasKey(r.channels, c) && !HasKey(items, c)
    ensures !HasKey(LoadChannels(r, items).channels, c)
  {
    if items != [] {
      var front := items[..|items| - 1];
      var last := items[|items| - 1];
      assert !HasKey(front, c);
      LoadChannelsOnlyFrom(r, front, c);
      var p := LoadChannels(r, front);
      var r1 := EnsureChannel(p, last.0);
      assert !HasKey(r1.channels, c);
      PutGet(r1.channels, last.0, SetAllSpec(ChannelStore(r1, last.0), last.1), c);
    }
  }

  // ---------------------------------------------------------------------
  // The module object

  /** The factoid module (`Factoids`): `globalStorage` and the array
      `$channelStorage` from channel name to that channel's storage object.
      `Channels` is the contents of the channel storages, kept in step. */
  class Factoids {
    var globalStorage: GlobalStorage
    var channelStorage: seq<(string, ChannelStorage)>
    ghost var Channels: seq<(string, Store)>

    /** The channel storage objects. */
    ghost function Objects(): set<ChannelStorage>
      reads this
    {
      set i | 0 <= i < |channelStorage| :: channelStorage[i].1
    }

    /** Every storage is a valid storage object of its own, and `Channels`
        lists the channel storages' contents under the same names. */
    ghost predicate Valid()
      reads this, globalStorage, Objects()
      ensures Valid() ==> WellFormed(Model())
    {
      && globalStorage.Valid()
      && DistinctKeys(channelStorage)
      && |Channels| == |channelStorage|
      && (forall i :: 0 <= i < |channelStorage| ==>
            && Channels[i] == (channelStorage[i].0, channelStorage[i].1.storage)
            && channelStorage[i].1.Valid()
            && channelStorage[i].1 != globalStorage)
      && (forall i, j :: 0 <= i < j < |channelStorage| ==> channelStorage[i].1 != channelStorage[j].1)
    }

    /** The contents of all storages. */
    ghost function Model(): Registry
      reads this, globalStorage
    {
      Registry(globalStorage.storage, Channels)
    }

    /** `setup` before any file is loaded: an empty global storage and no channels. */
    constructor ()
      ensures Valid() && Model() == Empty
      ensures fresh(globalStorage)
    {
      globalStorage := new GlobalStorage();
      channelStorage := [];
      Channels := [];
    }

    /** `existsChannelStorage`: holds exactly for the channels that have a storage. */
    function ExistsChannelStorage(channel: string): (b: bool)
      reads this, globalStorage, Objects()
      requires Valid()
      ensures b <==> HasKey(Model().channels, channel)
    {
      assert forall i :: 0 <= i < |channelStorage| ==> Channels[i].0 == channelStorage[i].0;
      IndexOf(channelStorage, channel).Some?
    }

    /** `getChannelStorage`: the channel's storage object, created empty and
        appended on first use. */
    method GetChannelStorage(channel: string) returns (s: ChannelStorage, ghost k: nat)
      requires Valid()
      modifies this
      ensures Valid()
      ensures Model() == EnsureChannel(old(Model()), channel)
      ensures k < |channelStorage| && channelStorage[k] == (channel, s)
      ensures IndexOf(Channels, channel) == Some(k)
      ensures HasKey(old(channelStorage), channel) ==> channelStorage == old(channelStorage)
      ensures globalStorage == old(globalStorage)
      ensures old(Objects()) <= Objects() && forall o :: o in Objects() ==> o in old(Objects()) || fresh(o)
    {
      if !ExistsChannelStorage(channel) {
        AddChannelStorage(channel);
      }
      assert HasKey(channelStorage, channel);
      var at := IndexOf(channelStorage, channel).value;
      s := channelStorage[at].1;
      k := at;
      IndexOfFirst(Channels, channel, k);
    }

    /** The branch of `getChannelStorage` for a channel seen for the first
        time: a new empty storage is appended under its name. */
    method AddChannelStorage(channel: string)
      requires Valid() && !HasKey(channelStorage, channel)
      modifies this
      ensures Valid()
      ensures |channelStorage| == |old(channelStorage)| + 1
      ensures channelStorage == old(channelStorage) + [(channel, channelStorage[|channelStorage| - 1].1)]
      ensures fresh(channelStorage[|channelStorage| - 1].1)
      ensures Objects() == old(Objects()) + {channelStorage[|channelStorage| - 1].1}
      ensures Channels == old(Channels) + [(channel, [])]
      ensures globalStorage == old(globalStorage)
    {
      var created := new GlobalStorage();
      PutDistinct(channelStorage, channel, created);
      channelStorage := channelStorage + [(channel, created)];
      Channels := Channels + [(channel, [])];
      assert channelStorage[|channelStorage| - 1].1 == created;
      assert Objects() == old(Objects()) + {created} by {
        forall o | o in old(Objects()) ensures o in Objects() {
          var i :| 0 <= i < |old(channelStorage)| && old(channelStorage)[i].1 == o;
          assert channelStorage[i].1 == o;
        }
      }
    }

    /** `create`: see CreateSpec, CreateEffect and CreateNeedsTrustAndSpace. */
    method Create(channel: string, params: string, trusted: bool)
      requires Valid()
      modifies this, Objects()
      ensures Valid()
      ensures Model() == CreateSpec(old(Model()), channel, params, trusted)
      ensures globalStorage == old(globalStorage) && fresh(Objects() - old(Objects()))
    {
      if !trusted {
        return;
      }
      var pieces := Explode(params, 2);
      if |pieces| < 2 {
        return;
      }
      AddToChannel(channel, pieces[0], pieces[1]);
    }

    /** The rest of `create` once the text is split: the channel's storage
        is created if missing, and the value is stored under the key. */
    method AddToChannel(channel: string, key: string, value: string)
      requires Valid()
      modifies this, Objects()
      ensures Valid()
      ensures Model() == AddToChannelSpec(old(Model()), channel, key, value)
      ensures globalStorage == old(globalStorage) && fresh(Objects() - old(Objects()))
    {
      var storage, k := GetChannelStorage(channel);
      ghost var before := Model();
      label Fetched:
      var _ := storage.Add(PString(key), PString(value), true);
      Channels := Channels[k := (channel, storage.storage)];
      ResyncOne@Fetched(k);
      assert Model() == UpdateChannel(before, channel, storage.storage);
    }

    /** `createGlobal`: `explode` with limit 1 yields one piece, so the count
        check always returns and the `add` after it is never reached. */
    method CreateGlobal(params: string, trusted: bool)
      requires Valid()
      modifies globalStorage
      ensures Valid()
      ensures Model() == old(Model())
      ensures Model() == CreateGlobalSpec(old(Model()), params, trusted, 1)
    {
      CreateGlobalNeverStores(old(Model()), params, trusted);
      if !trusted {
        return;
      }
      var pieces := Explode(params, 1);
      if |pieces| < 2 {
        return;
      }
      assert false;
    }

    /** `createGlobal` with the limit 2 evidently intended: for a trusted
        caller whose text holds a space, stores the text after the first
        space under the text before it in the global storage, overwriting;
        see CreateGlobalIntendedStores. */
    method CreateGlobalCorrected(params: string, trusted: bool)
      requires Valid()
      modifies globalStorage
      ensures Valid()
      ensures Model() == CreateGlobalSpec(old(Model()), params, trusted, 2)
    {
      if !trusted {
        return;
      }
      var pieces := Explode(params, 2);
      if |pieces| < 2 {
        return;
      }
      var _ := globalStorage.Add(PString(pieces[0]), PString(pieces[1]), true);
    }

    /** `remove`: see RemoveSpec and RemoveEffect. */
    method Remove(channel: string, params: string, trusted: bool)
      requires Valid()
      modifies this, Objects()
      ensures Valid()
      ensures Model() == RemoveSpec(old(Model()), channel, params, trusted)
      ensures globalStorage == old(globalStorage) && fresh(Objects() - old(Objects()))
    {
      if !trusted {
        return;
      }
      var key := Trim(params);
      RemoveKey(channel, key);
    }

    /** The rest of `remove` once the key is trimmed: the channel's storage
        is created if missing, and the key is deleted from it if present. */
    method RemoveKey(channel: string, key: string)
      requires Valid()
      modifies this, Objects()
      ensures Valid()
      ensures Model() == RemoveKeySpec(old(Model()), channel, key)
      ensures globalStorage == old(globalStorage) && fresh(Objects() - old(Objects()))
    {
      var storage, k := GetChannelStorage(channel);
      ghost var before := Model();
      ChannelStoreAt(before, k);
      if !storage.Exists(key) {
        return;
      }
      label Fetched:
      var _ := storage.Remove(key);
      Channels := Channels[k := (channel, storage.storage)];
      ResyncOne@Fetched(k);
      assert Model() == UpdateChannel(before, channel, storage.storage);
    }

    /** `removeGlobal`: see RemoveGlobalSpec and RemoveGlobalEffect. */
    method RemoveGlobal(params: string, trusted: bool)
      requires Valid()
      modifies globalStorage
      ensures Valid()
      ensures Model() == RemoveGlobalSpec(old(Model()), params, trusted)
    {
      if !trusted {
        return;
      }
      var key := Trim(params);
      RemoveGlobalKey(key);
    }

    /** The rest of `removeGlobal` once the key is trimmed. */
    method RemoveGlobalKey(key: string)
      requires Valid()
      modifies globalStorage
      ensures Valid()
      ensures Model() == RemoveGlobalKeySpec(old(Model()), key)
    {
      if !globalStorage.Exists(key) {
        return;
      }
      var _ := globalStorage.Remove(key);
    }

    /** `listAll`: the keys of this channel's storage in insertion order
        (creating the storage if need be). */
    method ListAll(channel: string) returns (keys: seq<string>)
      requires Valid()
      modifies this
      ensures Valid()
      ensures Model() == EnsureChannel(old(Model()), channel)
      ensures keys == Keys(ChannelStore(old(Model()), channel))
      ensures globalStorage == old(globalStorage) && fresh(Objects() - old(Objects()))
    {
      var storage, k := GetChannelStorage(channel);
      keys := Keys(storage.GetAll());
      ChannelStoreAt(Model(), k);
      EnsureChannelEffect(old(Model()), channel);
    }

    /** `listGlobals`: the keys of the global storage in insertion order. */
    method ListGlobals() returns (keys: seq<string>)
      requires Valid()
      ensures keys == Keys(Model().global)
    {
      keys := Keys(globalStorage.GetAll());
    }

    /** `get`: the reply to a command, channel value first, global value
        second, falsy values skipped; creates the channel's storage. */
    method Get(channel: string, command: string) returns (reply: Option<string>)
      requires Valid()
      modifies this
      ensures Valid()
      ensures Model() == EnsureChannel(old(Model()), channel)
      ensures reply == Reply(old(Model()), channel, command)
      ensures globalStorage == old(globalStorage) && fresh(Objects() - old(Objects()))
    {
      var storage, k := GetChannelStorage(channel);
      ChannelStoreAt(Model(), k);
      EnsureChannelEffect(old(Model()), channel);
      var value := storage.Get(command);
      if !Truthy(value) {
        value := globalStorage.Get(command);
      }
      if !Truthy(value) {
        return None;
      }
      reply := value;
    }

    /** `getChannelStorage(channel)->setAll(items)`, the body of the channel
        loop of `loadJson`. */
    method SetAllForChannel(channel: string, items: PhpArray)
      requires Valid()
      modifies this, Objects()
      ensures Valid()
      ensures globalStorage == old(globalStorage)
      ensures Model() == ChannelSetAll(old(Model()), channel, items)
      ensures fresh(Objects() - old(Objects()))
    {
      var storage, k := GetChannelStorage(channel);
      ghost var before := Model();
      ChannelStoreAt(before, k);
      label Fetched:
      storage.SetAll(items);
      Channels := Channels[k := (channel, storage.storage)];
      ResyncOne@Fetched(k);
      assert Model() == UpdateChannel(before, channel, storage.storage);
    }

    /** After the storage at `k` alone has changed and its entry in
        `Channels` has been brought up to date, the module is valid again. */
    twostate lemma ResyncOne(k: nat)
      requires old(Valid())
      requires k < |channelStorage| && channelStorage[k].1.Valid()
      requires channelStorage == old(channelStorage) && globalStorage == old(globalStorage)
      requires Channels == old(Channels)[k := (channelStorage[k].0, channelStorage[k].1.storage)]
      requires unchanged(globalStorage)
      requires forall o :: o in old(Objects()) && o != channelStorage[k].1 ==> unchanged(o)
      ensures Valid()
    {
      forall i | 0 <= i < |channelStorage| && i != k
        ensures channelStorage[i].1.storage == old(channelStorage[i].1.storage)
      {
        assert channelStorage[i].1 in old(Objects());
      }
    }

    /** `saveJson`: the structure it encodes; see SaveStructure,
        SaveStructureLayout and SaveLoadRoundTrip. */
    method SaveJson() returns (structure: Structure)
      requires Valid()
      ensures structure == SaveStructure(Model())
    {
      structure := [];
      structure := Put(structure, "global", AsPhpArray(globalStorage.GetAll()));
      var i := 0;
      while i < |channelStorage|
        invariant 0 <= i <= |channelStorage|
        invariant structure == SaveChannels(Put([], "global", AsPhpArray(globalStorage.storage)), Channels[..i])
      {
        PrefixStep(Channels, i);
        var channel, storage := channelStorage[i].0, channelStorage[i].1;
        assert Channels[i] == (channel, storage.storage);
        structure := Put(structure, channel, AsPhpArray(storage.GetAll()));
        i := i + 1;
      }
      assert Channels[..i] == Channels;
    }

    /** `loadJson` of the decoded file (None: it did not decode); see
        LoadSpec, LoadNeverOverwrites and SaveLoadRoundTrip. */
    method LoadJson(decoded: Option<Structure>)
      requires Valid()
      requires decoded.Some? ==> DistinctKeys(decoded.value)
      modifies this, globalStorage, Objects()
      ensures Valid()
      ensures Model() == LoadSpec(old(Model()), decoded)
      ensures globalStorage == old(globalStorage) && fresh(Objects() - old(Objects()))
    {
      if decoded.None? || decoded.value == [] {
        return;
      }
      var d := decoded.value;
      var global := PhpArrays.Get(d, "global");
      if global.Some? && global.value != [] {
        globalStorage.SetAll(global.value);
      }
      LoadChannelEntries(PhpArrays.Remove(d, "global"));
    }

    /** The channel loop of `loadJson`: `setAll` of each remaining entry
        into the storage of the channel it is saved under, in order. */
    method LoadChannelEntries(rest: Structure)
      requires Valid()
      modifies this, Objects()
      ensures Valid()
      ensures globalStorage == old(globalStorage)
      ensures Model() == LoadChannels(old(Model()), rest)
      ensures fresh(Objects() - old(Objects()))
    {
      var i := 0;
      while i < |rest|
        invariant 0 <= i <= |rest|
        invariant Valid()
        invariant globalStorage == old(globalStorage)
        invariant Model() == LoadChannels(old(Model()), rest[..i])
        invariant fresh(Objects() - old(Objects()))
      {
        LoadChannelsStep(old(Model()), rest, i);
        SetAllForChannel(rest[i].0, rest[i].1);
        i := i + 1;
      }
      assert rest[..i] == rest;
    }
  }
}
