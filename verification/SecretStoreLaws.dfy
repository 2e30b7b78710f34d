/** What the secret store keeps over every sequence of calls. */
module SecretStoreLaws {

  import opened Wrappers
  import opened SecretStore

  function Run(s: Store, ops: seq<Op>): Store {
    if ops == [] then s else Step(Run(s, ops[..|ops| - 1]), ops[|ops| - 1])
  }

  // ----- the cache -----

  ghost predicate Coherent(s: Store) {
    forall doc :: doc in s.cache ==> Fresh(s.keep, doc) == Some(s.cache[doc])
  }

  /** Two stores that hold the same for one document. */
  ghost predicate SameDoc(a: Keep, b: Keep, doc: string) {
    && (doc in a.indexes <==> doc in b.indexes)
    && (doc in a.indexes ==> a.indexes[doc] == b.indexes[doc])
    && forall name ::
         && (Key(doc, name) in a.items <==> Key(doc, name) in b.items)
         && (Key(doc, name) in a.items ==> a.items[Key(doc, name)] == b.items[Key(doc, name)])
  }

  lemma SameDocSameFresh(a: Keep, b: Keep, doc: string)
    requires SameDoc(a, b, doc)
    ensures Fresh(a, doc) == Fresh(b, doc)
  {
    if doc in a.indexes && a.indexes[doc].Listing? {
      var names := a.indexes[doc].names;
      assert ValuesOf(a, doc, names) == ValuesOf(b, doc, names);
    }
  }

  lemma PutElsewhere(k: Keep, op: Op, e: Entry, doc: string)
    requires op.Put? && doc != op.doc
    ensures SameDoc(k, PutKeep(k, op.doc, e, op.place, op.name, op.value, op.item, op.index, op.cleanup), doc)
  {
  }

  lemma RemoveElsewhere(k: Keep, op: Op, e: Entry, doc: string)
    requires op.Remove? && doc != op.doc
    ensures SameDoc(k, RemoveKeep(k, op.doc, e, op.name, op.item, op.index), doc)
  {
  }

  /** Whatever the keychain answers, a call leaves other documents alone. */
  lemma OtherDocsUntouched(s: Store, op: Op, doc: string)
    requires !op.Restart? && doc != op.doc
    ensures Fresh(Step(s, op).keep, doc) == Fresh(s.keep, doc)
    ensures doc in Step(s, op).cache <==> doc in s.cache
    ensures doc in s.cache ==> Step(s, op).cache[doc] == s.cache[doc]
  {
    var k := Step(s, op).keep;
    if k != s.keep {
      var e := Lookup(s, op.doc, op.readable).value;
      match op {
        case Put(_, _, _, _, _, _, _, _) => PutElsewhere(s.keep, op, e, doc);
        case Remove(_, _, _, _, _, _) => RemoveElsewhere(s.keep, op, e, doc);
        case Trust(_, _, _, _) => assert SameDoc(s.keep, k, doc);
        case Read(_, _) =>
      }
      SameDocSameFresh(s.keep, k, doc);
    }
  }

  lemma StepKeepsCoherent(s: Store, op: Op)
    requires Coherent(s)
    ensures Coherent(Step(s, op))
  {
    var t := Step(s, op);
    forall doc | doc in t.cache ensures Fresh(t.keep, doc) == Some(t.cache[doc]) {
      if !op.Restart? && doc != op.doc {
        OtherDocsUntouched(s, op, doc);
      }
    }
  }

  /**
    After any calls and restarts, with any keychain call failing or applied despite its error,
    a cached entry is what a fresh read of the keychain would give.
  */
  lemma {:induction false} CacheStaysCoherent(s: Store, ops: seq<Op>)
    requires Coherent(s)
    ensures Coherent(Run(s, ops))
  {
    if ops != [] {
      CacheStaysCoherent(s, ops[..|ops| - 1]);
      StepKeepsCoherent(Run(s, ops[..|ops| - 1]), ops[|ops| - 1]);
    }
  }

  lemma LookupIsFresh(s: Store, doc: string, readable: bool)
    requires Coherent(s) && Lookup(s, doc, readable).Some?
    ensures Fresh(s.keep, doc) == Lookup(s, doc, readable)
  {
  }

  // ----- unlisted items -----

  /** An item its document's index does not list can be neither shown nor removed. */
  predicate Orphan(k: Keep, key: Key) {
    key in k.items && !(key.doc in k.indexes && k.indexes[key.doc].Listing? && key.name in k.indexes[key.doc].names)
  }

  /** The calls after which the written item is stored but not listed. */
  predicate LeavesOrphan(s: Store, op: Op) {
    op.Put? && Storable(op.value)
    && var e := Lookup(s, op.doc, op.readable);
       e.Some? && May(e.value, op.place) && op.name !in e.value.names
       && (op.item == Torn || (op.item == Done && op.index == Refused && op.cleanup == Refused))
  }

  lemma PutOrphans(k: Keep, op: Op, e: Entry, key: Key)
    requires op.Put? && Fresh(k, op.doc) == Some(e)
    ensures var k' := PutKeep(k, op.doc, e, op.place, op.name, op.value, op.item, op.index, op.cleanup);
            var fails := op.item == Torn || (op.item == Done && op.index == Refused && op.cleanup == Refused);
            Orphan(k', key) <==>
              if key == Key(op.doc, op.name) && op.item != Refused then op.name !in e.names && fails
              else Orphan(k, key)
  {
  }

  lemma RemoveOrphans(k: Keep, op: Op, e: Entry, key: Key)
    requires op.Remove? && Fresh(k, op.doc) == Some(e)
    ensures Orphan(RemoveKeep(k, op.doc, e, op.name, op.item, op.index), key) ==> Orphan(k, key)
  {
    if key.name in e.names && key.name != op.name {
      assert key.name in e.names - {op.name};
    }
  }

  lemma PutNewOrphan(s: Store, op: Op, e: Entry)
    requires op.Put? && Lookup(s, op.doc, op.readable) == Some(e) && Fresh(s.keep, op.doc) == Some(e)
    requires Storable(op.value) && May(e, op.place) && !Orphan(s.keep, Key(op.doc, op.name))
    ensures (exists key :: Orphan(Step(s, op).keep, key) && !Orphan(s.keep, key)) <==> LeavesOrphan(s, op)
  {
    forall key ensures Orphan(Step(s, op).keep, key) && !Orphan(s.keep, key)
                       ==> key == Key(op.doc, op.name) && LeavesOrphan(s, op)
    {
      PutOrphans(s.keep, op, e, key);
    }
    PutOrphans(s.keep, op, e, Key(op.doc, op.name));
  }

  /**
    A call makes an orphan exactly when it newly names an item, and either the
    item's own write reported a failure it had applied, or the index write and
    the cleanup delete were both refused.
  */
  lemma NewOrphanExactly(s: Store, op: Op)
    requires Coherent(s)
    requires op.Put? ==> !Orphan(s.keep, Key(op.doc, op.name))
    ensures (exists key :: Orphan(Step(s, op).keep, key) && !Orphan(s.keep, key)) <==> LeavesOrphan(s, op)
  {
    var t := Step(s, op);
    if !op.Restart? && t.keep != s.keep {
      LookupIsFresh(s, op.doc, op.readable);
      var e := Lookup(s, op.doc, op.readable).value;
      match op {
        case Put(_, _, _, _, _, _, _, _) => PutNewOrphan(s, op, e);
        case Remove(_, _, _, _, _, _) =>
          forall key ensures Orphan(t.keep, key) ==> Orphan(s.keep, key) {
            RemoveOrphans(s.keep, op, e, key);
          }
        case Trust(_, _, _, _) =>
        case Read(_, _) =>
      }
    }
  }

  /** A first put whose item write is applied and still fails leaves its item unlisted. */
  lemma TornPutLeavesOrphan(doc: string, place: string, name: string, v: Value)
    requires Storable(v)
    ensures var op := Put(doc, place, name, v, true, Torn, Refused, Refused);
            !Succeeds(EMPTY, op) && Orphan(Step(EMPTY, op).keep, Key(doc, name))
  {
  }

  ghost predicate NoOrphans(k: Keep) { forall key :: !Orphan(k, key) }

  ghost predicate NoneLeft(s: Store, ops: seq<Op>) {
    forall i :: 0 <= i < |ops| ==> !LeavesOrphan(Run(s, ops[..i]), ops[i])
  }

  /** Every stored item stays listed until a call of that kind happens. */
  lemma {:induction false} ItemsStayListed(s: Store, ops: seq<Op>)
    requires Coherent(s) && NoOrphans(s.keep) && NoneLeft(s, ops)
    ensures NoOrphans(Run(s, ops).keep)
  {
    if ops != [] {
      var last := |ops| - 1;
      forall i | 0 <= i < last ensures !LeavesOrphan(Run(s, ops[..last][..i]), ops[..last][i]) {
        assert ops[..last][..i] == ops[..i];
      }
      ItemsStayListed(s, ops[..last]);
      CacheStaysCoherent(s, ops[..last]);
      NewOrphanExactly(Run(s, ops[..last]), ops[last]);
    }
  }

  // ----- what a call does to the values -----

  /** A put that reports success is what a later read gives; nothing else moves. */
  lemma PutThenRead(s: Store, op: Op)
    requires Coherent(s) && op.Put? && Succeeds(s, op)
    ensures var e := Lookup(s, op.doc, op.readable).value;
            Fresh(Step(s, op).keep, op.doc)
            == Some(Entry(e.names + {op.name}, WithPlace(e.places, op.place), e.values[op.name := op.value]))
  {
    LookupIsFresh(s, op.doc, op.readable);
    var e := Lookup(s, op.doc, op.readable).value;
    var stored := WithItem(s.keep, Key(op.doc, op.name), op.value);
    assert Step(s, op).keep
        == WriteIndexKeep(stored, op.doc, e.names + {op.name}, WithPlace(e.places, op.place), Done);
    ListedFresh(stored, op.doc, e.names + {op.name}, WithPlace(e.places, op.place));
    PutValues(s.keep, op.doc, e, op.name, op.value);
  }

  lemma ListedFresh(k: Keep, doc: string, names: set<string>, places: seq<string>)
    requires names != {}
    ensures Fresh(WriteIndexKeep(k, doc, names, places, Done), doc)
            == Some(Entry(names, places, ValuesOf(k, doc, names)))
  {
    var listed := WithIndex(k, doc, Listing(names, places));
    assert ValuesOf(listed, doc, names) == ValuesOf(k, doc, names);
  }

  lemma PutValues(k: Keep, doc: string, e: Entry, name: string, v: Value)
    requires Fresh(k, doc) == Some(e)
    ensures ValuesOf(WithItem(k, Key(doc, name), v), doc, e.names + {name}) == e.values[name := v]
  {
  }

  lemma RemoveThenRead(s: Store, op: Op)
    requires Coherent(s) && op.Remove? && Succeeds(s, op)
    ensures var e := Lookup(s, op.doc, op.readable).value;
            var names := e.names - {op.name};
            Fresh(Step(s, op).keep, op.doc)
            == Some(if names == {} then Entry({}, [], map[]) else Entry(names, e.places, e.values - {op.name}))
  {
    LookupIsFresh(s, op.doc, op.readable);
    RemovedFresh(s.keep, op.doc, Lookup(s, op.doc, op.readable).value, op.name);
  }

  lemma RemovedFresh(k: Keep, doc: string, e: Entry, name: string)
    requires Fresh(k, doc) == Some(e)
    ensures var names := e.names - {name};
            Fresh(RemoveKeep(k, doc, e, name, Done, Done), doc)
            == Some(if names == {} then Entry({}, [], map[]) else Entry(names, e.places, e.values - {name}))
  {
    assert ValuesOf(WithoutItem(k, Key(doc, name)), doc, e.names - {name}) == e.values - {name};
    var k' := RemoveKeep(k, doc, e, name, Done, Done);
    assert ValuesOf(k', doc, e.names - {name}) == e.values - {name};
  }

  /** Whatever a put reports, it changes no other value of the document. */
  lemma PutIsContained(k: Keep, op: Op, e: Entry, name: string)
    requires op.Put? && name != op.name && Fresh(k, op.doc) == Some(e)
    ensures var k' := PutKeep(k, op.doc, e, op.place, op.name, op.value, op.item, op.index, op.cleanup);
            var after := Fresh(k', op.doc);
            after.Some? && (name in after.value.values <==> name in e.values)
            && (name in e.values ==> after.value.values[name] == e.values[name])
  {
    var k' := PutKeep(k, op.doc, e, op.place, op.name, op.value, op.item, op.index, op.cleanup);
    assert Key(op.doc, name) in k'.items <==> Key(op.doc, name) in k.items;
    assert Fresh(k', op.doc).Some? && (name in Fresh(k', op.doc).value.names <==> name in e.names);
  }
}
