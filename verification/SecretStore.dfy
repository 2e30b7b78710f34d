/**
  The keychain-backed secret store of the desktop app
  (cmd/rela-desktop/hostconfig.go): items and an index per document in a store
  whose every call may fail, and a cache over it.
*/
module SecretStore {

  import opened Wrappers

  /** What one keychain item holds; `bytes` is the length of its encoding. */
  datatype Value =
    | Text(text: string)
    | State(access: string, expiresAt: int, needsConsentAt: int, bytes: nat)

  function Size(v: Value): nat { match v case Text(t) => |t| case State(_, _, _, bytes) => bytes }

  datatype Key = Key(doc: string, name: string)

  /** A document's index item; Damaged is one that does not decode. */
  datatype Index = Listing(names: set<string>, places: seq<string>) | Damaged

  /** The items of the service: one index per document, one item per secret. */
  datatype Keep = Keep(indexes: map<string, Index>, items: map<Key, Value>)

  /** A failed write may have been refused, or applied before the error came back. */
  datatype Outcome = Done | Refused | Torn

  predicate Applied(o: Outcome) { !o.Refused? }

  function WithIndex(k: Keep, doc: string, i: Index): Keep { k.(indexes := k.indexes[doc := i]) }

  function WithoutIndex(k: Keep, doc: string): Keep { k.(indexes := k.indexes - {doc}) }

  function WithItem(k: Keep, key: Key, v: Value): Keep { k.(items := k.items[key := v]) }

  function WithoutItem(k: Keep, key: Key): Keep { k.(items := k.items - {key}) }

  /** The operating system's store. Each call may fail. */
  class Keychain {
    var keep: Keep

    constructor (keep: Keep)
      ensures this.keep == keep
    {
      this.keep := keep;
    }

    method SetItem(key: Key, v: Value) returns (o: Outcome)
      modifies this
      ensures keep == if Applied(o) then WithItem(old(keep), key, v) else old(keep)
    {
      o := *;
      if Applied(o) {
        keep := WithItem(keep, key, v);
      }
    }

    /** Deleting an item that is not there counts as done. */
    method DeleteItem(key: Key) returns (o: Outcome)
      modifies this
      ensures keep == if Applied(o) then WithoutItem(old(keep), key) else old(keep)
    {
      o := *;
      if Applied(o) {
        keep := WithoutItem(keep, key);
      }
    }

    method SetIndex(doc: string, i: Index) returns (o: Outcome)
      modifies this
      ensures keep == if Applied(o) then WithIndex(old(keep), doc, i) else old(keep)
    {
      o := *;
      if Applied(o) {
        keep := WithIndex(keep, doc, i);
      }
    }

    method DeleteIndex(doc: string) returns (o: Outcome)
      modifies this
      ensures keep == if Applied(o) then WithoutIndex(old(keep), doc) else old(keep)
    {
      o := *;
      if Applied(o) {
        keep := WithoutIndex(keep, doc);
      }
    }

    method GetItem(key: Key) returns (failed: bool, v: Option<Value>)
      ensures !failed ==> v == if key in keep.items then Some(keep.items[key]) else None
    {
      failed := *;
      v := if key in keep.items then Some(keep.items[key]) else None;
    }

    method GetIndex(doc: string) returns (failed: bool, i: Option<Index>)
      ensures !failed ==> i == if doc in keep.indexes then Some(keep.indexes[doc]) else None
    {
      failed := *;
      i := if doc in keep.indexes then Some(keep.indexes[doc]) else None;
    }
  }

  // ----- places -----

  const MAX_PLACES := 32

  const MAX_SECRET_BYTES := 2000

  function Without(places: seq<string>, p: string): (out: seq<string>)
    ensures |out| <= |places| && (p !in places ==> out == places)
    ensures forall q :: q in out <==> q in places && q != p
  {
    if places == [] then []
    else Without(places[..|places| - 1], p)
         + if places[|places| - 1] == p then [] else [places[|places| - 1]]
  }

  /** withPlace: moved or added to the end, the oldest dropped first. */
  function WithPlace(places: seq<string>, p: string): seq<string> {
    var out := Without(places, p) + [p];
    if |out| > MAX_PLACES then out[|out| - MAX_PLACES..] else out
  }

  // ----- one document -----

  datatype Entry = Entry(names: set<string>, places: seq<string>, values: map<string, Value>)

  function ValuesOf(k: Keep, doc: string, names: set<string>): map<string, Value> {
    map n | n in names && Key(doc, n) in k.items :: k.items[Key(doc, n)]
  }

  /** What reading the keychain gives for a document when no call fails. */
  function Fresh(k: Keep, doc: string): Option<Entry> {
    if doc !in k.indexes then Some(Entry({}, [], map[]))
    else match k.indexes[doc]
      case Damaged => None
      case Listing(names, places) => Some(Entry(names, places, ValuesOf(k, doc, names)))
  }

  predicate May(e: Entry, place: string) { |e.values| == 0 || place in e.places }

  /** writeIndex: a document that lists no secrets has no index. */
  function WriteIndexKeep(k: Keep, doc: string, names: set<string>, places: seq<string>, o: Outcome): Keep {
    if !Applied(o) then k
    else if names == {} then WithoutIndex(k, doc)
    else WithIndex(k, doc, Listing(names, places))
  }

  /** put once it may write: the item, the index, and the cleanup of an unlisted item. */
  function PutKeep(
    k: Keep, doc: string, e: Entry, place: string, name: string, v: Value,
    item: Outcome, index: Outcome, cleanup: Outcome): Keep
  {
    var stored := if Applied(item) then WithItem(k, Key(doc, name), v) else k;
    if item != Done then stored
    else
      var listed := WriteIndexKeep(stored, doc, e.names + {name}, WithPlace(e.places, place), index);
      if index == Done || name in e.names || !Applied(cleanup) then listed
      else WithoutItem(listed, Key(doc, name))
  }

  function RemoveKeep(k: Keep, doc: string, e: Entry, name: string, item: Outcome, index: Outcome): Keep {
    var gone := if Applied(item) then WithoutItem(k, Key(doc, name)) else k;
    if item != Done then gone
    else WriteIndexKeep(gone, doc, e.names - {name}, e.places, index)
  }

  // ----- the store, step by step -----

  datatype Store = Store(keep: Keep, cache: map<string, Entry>)

  const EMPTY: Store := Store(Keep(map[], map[]), map[])

  /**
    One call, with how the keychain answered: `readable` if no read failed. A
    restart of the app starts with an empty cache.
  */
  datatype Op =
    | Read(doc: string, readable: bool)
    | Put(doc: string, place: string, name: string, value: Value,
          readable: bool, item: Outcome, index: Outcome, cleanup: Outcome)
    | Remove(doc: string, place: string, name: string, readable: bool, item: Outcome, index: Outcome)
    | Trust(doc: string, place: string, readable: bool, index: Outcome)
    | Restart

  /** keychainSecrets.entry */
  function Lookup(s: Store, doc: string, readable: bool): Option<Entry> {
    if doc in s.cache then Some(s.cache[doc])
    else if readable then Fresh(s.keep, doc)
    else None
  }

  function Cached(s: Store, doc: string, e: Entry): Store { s.(cache := s.cache[doc := e]) }

  predicate Storable(v: Value) { 0 < Size(v) <= MAX_SECRET_BYTES }

  function Step(s: Store, op: Op): Store {
    if op.Restart? then s.(cache := map[])
    else if op.Put? && !Storable(op.value) then s
    else match Lookup(s, op.doc, op.readable)
      case None => s
      case Some(e) =>
        if op.Read? || (!op.Trust? && !May(e, op.place)) then Cached(s, op.doc, e)
        else
          var keep := match op
            case Put(doc, place, name, value, _, item, index, cleanup) =>
              PutKeep(s.keep, doc, e, place, name, value, item, index, cleanup)
            case Remove(doc, _, name, _, item, index) => RemoveKeep(s.keep, doc, e, name, item, index)
            case Trust(doc, place, _, index) =>
              WriteIndexKeep(s.keep, doc, e.names, WithPlace(e.places, place), index)
            case Read(_, _) => s.keep;
          Store(keep, s.cache - {op.doc})
  }

  /** Whether the call reports success. */
  predicate Succeeds(s: Store, op: Op) {
    op.Restart? || var e := Lookup(s, op.doc, op.readable);
    e.Some? && match op
      case Read(_, _) => true
      case Put(_, place, _, value, _, item, index, _) =>
        Storable(value) && May(e.value, place) && item == Done && index == Done
      case Remove(_, place, _, _, item, index) => May(e.value, place) && item == Done && index == Done
      case Trust(_, _, _, index) => index == Done
  }

  /** What forPlace answers. */
  datatype Release = Unreadable | Withheld | Released(values: map<string, Value>)

  function ReleaseOf(e: Option<Entry>, place: string): Release {
    match e
    case None => Unreadable
    case Some(e) => if May(e, place) then Released(e.values) else Withheld
  }

  /** keychainSecrets; `place` stands for its placeKey throughout. */
  class KeychainSecrets {
    const kc: Keychain
    var cache: map<string, Entry>

    function View(): Store
      reads this, kc
    {
      Store(kc.keep, cache)
    }

    constructor (kc: Keychain)
      ensures this.kc == kc && View() == Store(kc.keep, map[])
    {
      this.kc := kc;
      cache := map[];
    }

    method GetEntry(doc: string) returns (e: Option<Entry>, ghost readable: bool)
      modifies this
      ensures e == Lookup(old(View()), doc, readable)
      ensures View() == if e.Some? then Cached(old(View()), doc, e.value) else old(View())
    {
      if doc in cache {
        assert cache[doc := cache[doc]] == cache;
        return Some(cache[doc]), true;
      }
      var failed, index := kc.GetIndex(doc);
      if failed {
        return None, false;
      }
      if index.Some? && index.value.Damaged? {
        return None, true;
      }
      var names := if index.Some? then index.value.names else {};
      var places := if index.Some? then index.value.places else [];
      var values: map<string, Value> := map[];
      var rest := names;
      while rest != {}
        invariant rest <= names && values == ValuesOf(kc.keep, doc, names - rest)
        invariant cache == old(cache)
        decreases |rest|
      {
        var name :| name in rest;
        var unread, v := kc.GetItem(Key(doc, name));
        if unread {
          return None, false;
        }
        if v.Some? {
          values := values[name := v.value];
        }
        rest := rest - {name};
      }
      assert names - rest == names;
      assert names == {} ==> values == map[];
      var entry := Entry(names, places, values);
      cache := cache[doc := entry];
      return Some(entry), true;
    }

    method ForPlace(doc: string, place: string) returns (r: Release, ghost op: Op)
      modifies this
      ensures op.Read? && op.doc == doc && View() == Step(old(View()), op)
      ensures r == ReleaseOf(Lookup(old(View()), doc, op.readable), place)
    {
      var e, readable := GetEntry(doc);
      op := Read(doc, readable);
      if e.None? {
        return Unreadable, op;
      }
      if |e.value.values| > 0 && place !in e.value.places {
        return Withheld, op;
      }
      return Released(e.value.values), op;
    }

    method TrustPlace(doc: string, place: string) returns (ok: bool, ghost op: Op)
      modifies this, kc
      ensures op.Trust? && op.doc == doc && op.place == place
      ensures View() == Step(old(View()), op) && ok == Succeeds(old(View()), op)
    {
      var e, readable := GetEntry(doc);
      if e.None? {
        return false, Trust(doc, place, readable, Refused);
      }
      cache := cache - {doc};
      var o := WriteIndex(doc, e.value.names, WithPlace(e.value.places, place));
      return o == Done, Trust(doc, place, readable, o);
    }

    method PutSecret(doc: string, place: string, name: string, value: Value) returns (ok: bool, ghost op: Op)
      modifies this, kc
      ensures op.Put? && op.doc == doc && op.place == place && op.name == name && op.value == value
      ensures View() == Step(old(View()), op) && ok == Succeeds(old(View()), op)
    {
      if !Storable(value) {
        return false, Put(doc, place, name, value, true, Refused, Refused, Refused);
      }
      var e, readable := GetEntry(doc);
      if e.None? {
        return false, Put(doc, place, name, value, readable, Refused, Refused, Refused);
      }
      if |e.value.values| > 0 && place !in e.value.places {
        return false, Put(doc, place, name, value, readable, Refused, Refused, Refused);
      }
      cache := cache - {doc};
      var item, index, cleanup := WritePut(doc, e.value, place, name, value);
      return item == Done && index == Done, Put(doc, place, name, value, readable, item, index, cleanup);
    }

    /** Unlisted, a new item could be neither shown nor removed, so it is deleted again. */
    method WritePut(doc: string, e: Entry, place: string, name: string, value: Value)
      returns (item: Outcome, index: Outcome, cleanup: Outcome)
      modifies kc
      ensures kc.keep == PutKeep(old(kc.keep), doc, e, place, name, value, item, index, cleanup)
    {
      index, cleanup := Refused, Refused;
      item := kc.SetItem(Key(doc, name), value);
      if item != Done {
        return;
      }
      index := WriteIndex(doc, e.names + {name}, WithPlace(e.places, place));
      if index != Done && name !in e.names {
        cleanup := kc.DeleteItem(Key(doc, name));
      }
    }

    method RemoveSecret(doc: string, place: string, name: string) returns (ok: bool, ghost op: Op)
      modifies this, kc
      ensures op.Remove? && op.doc == doc && op.place == place && op.name == name
      ensures View() == Step(old(View()), op) && ok == Succeeds(old(View()), op)
    {
      var e, readable := GetEntry(doc);
      if e.None? || (|e.value.values| > 0 && place !in e.value.places) {
        return false, Remove(doc, place, name, readable, Refused, Refused);
      }
      cache := cache - {doc};
      var item := kc.DeleteItem(Key(doc, name));
      if item != Done {
        return false, Remove(doc, place, name, readable, item, Refused);
      }
      var index := WriteIndex(doc, e.value.names - {name}, e.value.places);
      return index == Done, Remove(doc, place, name, readable, item, index);
    }

    method WriteIndex(doc: string, names: set<string>, places: seq<string>) returns (o: Outcome)
      modifies kc
      ensures kc.keep == WriteIndexKeep(old(kc.keep), doc, names, places, o)
    {
      if |names| == 0 {
        o := kc.DeleteIndex(doc);
      } else {
        o := kc.SetIndex(doc, Listing(names, places));
      }
    }
  }
}
