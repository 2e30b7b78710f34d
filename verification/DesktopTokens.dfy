/**
  Connector tokens on the desktop (cmd/rela-desktop/tokens.go): two keychain
  items per token, beside the document's secrets.
*/
module DesktopTokens {

  import opened Wrappers
  import opened Text
  import opened SecretStore
  import opened SecretStoreLaws

  const TOKEN_PREFIX := "token/"

  function RefreshItem(n: string): string { TOKEN_PREFIX + n + "/refresh" }

  function StateItem(n: string): string { TOKEN_PREFIX + n + "/state" }

  datatype Token = Token(refresh: string, access: string, expiresAt: int, needsConsentAt: int)

  datatype Reading = Unread | NotTrusted | NotFound | Corrupt | Found(token: Token)

  /** A refresh item is always text. */
  function TextOf(v: Value): string { match v case Text(t) => t case State(_, _, _, _) => "" }

  function TokenIn(values: map<string, Value>, n: string): Reading {
    if RefreshItem(n) !in values then NotFound
    else
      var refresh := TextOf(values[RefreshItem(n)]);
      if StateItem(n) !in values then Found(Token(refresh, "", 0, 0))
      else match values[StateItem(n)]
        case Text(_) => Corrupt
        case State(access, expiresAt, consent, _) => Found(Token(refresh, access, expiresAt, consent))
  }

  function ReadingOf(r: Release, n: string): Reading {
    match r
    case Unreadable => Unread
    case Withheld => NotTrusted
    case Released(values) => TokenIn(values, n)
  }

  /** Two writes, the second only once the first succeeded. */
  function BothSteps(s: Store, first: Op, second: Op): Store {
    if Succeeds(s, first) then Step(Step(s, first), second) else Step(s, first)
  }

  predicate BothSucceed(s: Store, first: Op, second: Op) {
    Succeeds(s, first) && Succeeds(Step(s, first), second)
  }

  /** The two writes of Put. */
  predicate IsTokenPut(first: Op, second: Op, doc: string, place: string, n: string, t: Token) {
    && first.Put? && first.doc == doc && first.place == place
    && first.name == RefreshItem(n) && first.value == Text(t.refresh)
    && second.Put? && second.doc == doc && second.place == place && second.name == StateItem(n)
    && second.value.State? && second.value.access == t.access
    && second.value.expiresAt == t.expiresAt && second.value.needsConsentAt == t.needsConsentAt
  }

  predicate IsTokenDelete(first: Op, second: Op, doc: string, place: string, n: string) {
    && first.Remove? && first.doc == doc && first.place == place && first.name == RefreshItem(n)
    && second.Remove? && second.doc == doc && second.place == place && second.name == StateItem(n)
  }

  class KeychainTokens {
    const kc: KeychainSecrets
    const doc: string
    const place: string

    constructor (kc: KeychainSecrets, doc: string, place: string)
      ensures this.kc == kc && this.doc == doc && this.place == place
    {
      this.kc, this.doc, this.place := kc, doc, place;
    }

    method Get(n: string) returns (r: Reading, ghost op: Op)
      modifies kc
      ensures op.Read? && op.doc == doc && kc.View() == Step(old(kc.View()), op)
      ensures r == ReadingOf(ReleaseOf(Lookup(old(kc.View()), doc, op.readable), place), n)
    {
      var release;
      release, op := kc.ForPlace(doc, place);
      match release {
        case Unreadable => r := Unread;
        case Withheld => r := NotTrusted;
        case Released(values) =>
          if RefreshItem(n) !in values {
            return NotFound, op;
          }
          var t := Token(TextOf(values[RefreshItem(n)]), "", 0, 0);
          if StateItem(n) in values {
            var state := values[StateItem(n)];
            if state.Text? {
              return Corrupt, op;
            }
            t := t.(access := state.access, expiresAt := state.expiresAt, needsConsentAt := state.needsConsentAt);
          }
          r := Found(t);
      }
    }

    /** The refresh item is written first. `bytes` is the length of the encoded state. */
    method Put(n: string, t: Token, bytes: nat) returns (ok: bool, ghost first: Op, ghost second: Op)
      modifies kc, kc.kc
      ensures IsTokenPut(first, second, doc, place, n, t)
      ensures kc.View() == BothSteps(old(kc.View()), first, second)
      ensures ok == BothSucceed(old(kc.View()), first, second)
    {
      var state := State(t.access, t.expiresAt, t.needsConsentAt, bytes);
      second := SecretStore.Put(doc, place, StateItem(n), state, false, Refused, Refused, Refused);
      if t.refresh == "" {
        return false, SecretStore.Put(doc, place, RefreshItem(n), Text(""), false, Refused, Refused, Refused), second;
      }
      ok, first := kc.PutSecret(doc, place, RefreshItem(n), Text(t.refresh));
      if ok {
        ok, second := kc.PutSecret(doc, place, StateItem(n), state);
      }
    }

    method Delete(n: string) returns (ok: bool, ghost first: Op, ghost second: Op)
      modifies kc, kc.kc
      ensures IsTokenDelete(first, second, doc, place, n)
      ensures kc.View() == BothSteps(old(kc.View()), first, second)
      ensures ok == BothSucceed(old(kc.View()), first, second)
    {
      second := Remove(doc, place, StateItem(n), false, Refused, Refused);
      ok, first := kc.RemoveSecret(doc, place, RefreshItem(n));
      if ok {
        ok, second := kc.RemoveSecret(doc, place, StateItem(n));
      }
    }
  }

  // ----- item names -----

  lemma ItemNames(n: string, m: string)
    ensures RefreshItem(n) != StateItem(m)
    ensures n != m ==> RefreshItem(n) != RefreshItem(m) && StateItem(n) != StateItem(m)
  {
    var r, s := RefreshItem(n), StateItem(m);
    assert r[|r| - 1] == 'h' && s[|s| - 1] == 'e';
    if |n| == |m| {
      assert RefreshItem(n)[6..6 + |n|] == n && RefreshItem(m)[6..6 + |m|] == m;
      assert StateItem(n)[6..6 + |n|] == n && StateItem(m)[6..6 + |m|] == m;
    }
  }

  // ----- one write and the other values -----

  function Values(s: Store, doc: string): map<string, Value> {
    match Fresh(s.keep, doc) case None => map[] case Some(e) => e.values
  }

  predicate SameAt(a: map<string, Value>, b: map<string, Value>, name: string) {
    (name in a <==> name in b) && (name in a ==> a[name] == b[name])
  }

  /** However it ends, a write of one item leaves every other value as it was. */
  lemma OtherValueKept(s: Store, op: Op, name: string)
    requires Coherent(s) && (op.Put? || op.Remove? || op.Trust?) && (op.Trust? || name != op.name)
    ensures SameAt(Values(s, op.doc), Values(Step(s, op), op.doc), name)
  {
    if Step(s, op).keep != s.keep {
      LookupIsFresh(s, op.doc, op.readable);
      var e := Lookup(s, op.doc, op.readable).value;
      match op {
        case Put(_, _, _, _, _, _, _, _) => PutIsContained(s.keep, op, e, name);
        case Remove(_, _, _, _, _, _) => RemoveIsContained(s.keep, op, e, name);
        case Trust(doc, place, _, index) => TrustIsContained(s.keep, op, e);
      }
    }
  }

  lemma RemoveIsContained(k: Keep, op: Op, e: Entry, name: string)
    requires op.Remove? && name != op.name && Fresh(k, op.doc) == Some(e)
    ensures var after := Fresh(RemoveKeep(k, op.doc, e, op.name, op.item, op.index), op.doc);
            after.Some? && SameAt(e.values, after.value.values, name)
  {
    if name in e.names {
      assert name in e.names - {op.name};
    }
  }

  lemma TrustIsContained(k: Keep, op: Op, e: Entry)
    requires op.Trust? && Fresh(k, op.doc) == Some(e)
    ensures var after := Fresh(WriteIndexKeep(k, op.doc, e.names, WithPlace(e.places, op.place), op.index), op.doc);
            after.Some? && after.value.values == e.values
  {
    var k' := WriteIndexKeep(k, op.doc, e.names, WithPlace(e.places, op.place), op.index);
    assert ValuesOf(k', op.doc, e.names) == ValuesOf(k, op.doc, e.names);
    assert e.names == {} ==> e.values == map[];
  }

  // ----- tokens -----

  /** What Put stored is what Get reads, at the place that stored it. */
  lemma TokenRoundTrip(s: Store, first: Op, second: Op, doc: string, place: string, n: string, t: Token)
    requires Coherent(s) && IsTokenPut(first, second, doc, place, n, t)
    ensures BothSucceed(s, first, second) ==>
              forall readable ::
                var e := Lookup(BothSteps(s, first, second), doc, readable);
                e.Some? ==> ReadingOf(ReleaseOf(e, place), n) == Found(t)
  {
    if BothSucceed(s, first, second) {
      StepKeepsCoherent(s, first);
      var mid := Step(s, first);
      StepKeepsCoherent(mid, second);
      PutThenRead(s, first);
      LookupIsFresh(mid, doc, second.readable);
      PutThenRead(mid, second);
      var after := Step(mid, second);
      forall readable | Lookup(after, doc, readable).Some?
        ensures ReadingOf(ReleaseOf(Lookup(after, doc, readable), place), n) == Found(t)
      {
        LookupIsFresh(after, doc, readable);
        BothItemsRead(Lookup(s, doc, first.readable).value.values, Lookup(after, doc, readable).value,
          Lookup(mid, doc, second.readable).value.places, place, n, t, second.value);
      }
    }
  }

  lemma BothItemsRead(
    old': map<string, Value>, e: Entry, places: seq<string>, place: string, n: string, t: Token, state: Value)
    requires e.places == WithPlace(places, place)
    requires e.values == old'[RefreshItem(n) := Text(t.refresh)][StateItem(n) := state]
    requires state.State? && state.access == t.access
    requires state.expiresAt == t.expiresAt && state.needsConsentAt == t.needsConsentAt
    ensures ReadingOf(ReleaseOf(Some(e), place), n) == Found(t)
  {
    ItemNames(n, n);
    assert e.places[|e.places| - 1] == place;
  }

  // ----- what Get reads at a place -----

  /** Get's answer when no keychain read fails. */
  function ReadAt(s: Store, doc: string, place: string, n: string): Reading {
    ReadingOf(ReleaseOf(Fresh(s.keep, doc), place), n)
  }

  /** Cached or not, whatever Get can read is that answer. */
  ghost predicate Gets(s: Store, doc: string, place: string, n: string, r: Reading) {
    && (Lookup(s, doc, true).Some? <==> r != Unread)
    && forall readable ::
         var e := Lookup(s, doc, readable);
         e.Some? ==> ReadingOf(ReleaseOf(e, place), n) == r
  }

  lemma GetIsReadAt(s: Store, doc: string, place: string, n: string)
    requires Coherent(s)
    ensures Gets(s, doc, place, n, ReadAt(s, doc, place, n))
  {
    forall readable | Lookup(s, doc, readable).Some?
      ensures Lookup(s, doc, readable) == Fresh(s.keep, doc)
    {
      LookupIsFresh(s, doc, readable);
    }
  }

  /** The place may read the document. */
  predicate MayAt(s: Store, doc: string, place: string) {
    var e := Fresh(s.keep, doc);
    e.Some? && May(e.value, place)
  }

  predicate ListedAt(s: Store, doc: string, place: string) {
    var e := Fresh(s.keep, doc);
    e.Some? && place in e.value.places
  }

  lemma ReadAtValues(s: Store, doc: string, place: string, n: string)
    requires MayAt(s, doc, place)
    ensures ReadAt(s, doc, place, n) == TokenIn(Values(s, doc), n)
  {
  }

  /** The put reaches its item write, and the write is applied. */
  predicate Writes(s: Store, op: Op) {
    op.Put? && Storable(op.value) && Applied(op.item)
    && var e := Lookup(s, op.doc, op.readable);
       e.Some? && May(e.value, op.place)
  }

  /** A put from a listed place leaves it listed, however it ends. */
  lemma PutKeepsListed(s: Store, op: Op)
    requires Coherent(s) && op.Put? && ListedAt(s, op.doc, op.place)
    ensures ListedAt(Step(s, op), op.doc, op.place)
  {
    if Step(s, op).keep != s.keep {
      LookupIsFresh(s, op.doc, op.readable);
      var e := Lookup(s, op.doc, op.readable).value;
      PutLists(s.keep, op, e);
      WithPlaceLists(e.places, op.place);
    }
  }

  lemma PutLists(k: Keep, op: Op, e: Entry)
    requires op.Put? && Fresh(k, op.doc) == Some(e)
    ensures var k' := PutKeep(k, op.doc, e, op.place, op.name, op.value, op.item, op.index, op.cleanup);
            var after := Fresh(k', op.doc);
            after.Some? && after.value.places
              == if op.item == Done && Applied(op.index) then WithPlace(e.places, op.place) else e.places
  {
  }

  lemma WithPlaceLists(places: seq<string>, place: string)
    ensures place in WithPlace(places, place)
  {
    var w := WithPlace(places, place);
    assert w[|w| - 1] == place;
  }

  /** The value of a put's own item afterwards, if it was there before. */
  lemma PutNamedValue(k: Keep, op: Op, e: Entry)
    requires op.Put? && Fresh(k, op.doc) == Some(e)
    ensures var k' := PutKeep(k, op.doc, e, op.place, op.name, op.value, op.item, op.index, op.cleanup);
            var after := Fresh(k', op.doc);
            && after.Some?
            && (op.name in e.values ==>
                  op.name in after.value.values
                  && after.value.values[op.name] == if Applied(op.item) then op.value else e.values[op.name])
            && (op.name !in e.values && op.name in after.value.values ==>
                  after.value.values[op.name] == op.value)
  {
  }

  lemma StepNamedValue(s: Store, op: Op)
    requires Coherent(s) && op.Put?
    ensures var before, after := Values(s, op.doc), Values(Step(s, op), op.doc);
            && (op.name in before ==>
                  op.name in after
                  && after[op.name] == if Writes(s, op) then op.value else before[op.name])
            && (op.name !in before && op.name in after ==> after[op.name] == op.value)
  {
    if Lookup(s, op.doc, op.readable).Some? {
      LookupIsFresh(s, op.doc, op.readable);
      PutNamedValue(s.keep, op, Lookup(s, op.doc, op.readable).value);
    }
  }

  /** The token's state item does not decode. */
  predicate DamagedState(s: Store, doc: string, n: string) {
    StateItem(n) in Values(s, doc) && Values(s, doc)[StateItem(n)].Text?
  }

  lemma AfterFirstPut(s: Store, first: Op, second: Op, doc: string, place: string, n: string, t: Token)
    requires Coherent(s) && IsTokenPut(first, second, doc, place, n, t) && Succeeds(s, first)
    ensures Coherent(Step(s, first)) && ListedAt(Step(s, first), doc, place)
    ensures var v := Values(Step(s, first), doc);
            RefreshItem(n) in v && v[RefreshItem(n)] == Text(t.refresh)
            && SameAt(Values(s, doc), v, StateItem(n))
  {
    ItemNames(n, n);
    StepKeepsCoherent(s, first);
    PutThenRead(s, first);
    OtherValueKept(s, first, StateItem(n));
    WithPlaceLists(Lookup(s, doc, first.readable).value.places, place);
  }

  /**
    Once the refresh item is written, Get at that place finds the new refresh
    token whatever becomes of the second write, except exactly when a damaged
    state item was there and the second write did not replace it.
  */
  lemma NewRefreshSurvives(s: Store, first: Op, second: Op, doc: string, place: string, n: string, t: Token)
    requires Coherent(s) && IsTokenPut(first, second, doc, place, n, t) && Succeeds(s, first)
    ensures var after := BothSteps(s, first, second);
            var r := ReadAt(after, doc, place, n);
            && Gets(after, doc, place, n, r)
            && if DamagedState(s, doc, n) && !Writes(Step(s, first), second) then r == Corrupt
               else r.Found? && r.token.refresh == t.refresh
  {
    var mid := Step(s, first);
    AfterFirstPut(s, first, second, doc, place, n, t);
    ItemNames(n, n);
    StepKeepsCoherent(mid, second);
    OtherValueKept(mid, second, RefreshItem(n));
    StepNamedValue(mid, second);
    PutKeepsListed(mid, second);
    GetIsReadAt(Step(mid, second), doc, place, n);
    ReadAtValues(Step(mid, second), doc, place, n);
  }

  /**
    A stored token is never lost at a listed place: after a put, Get finds the new
    refresh token if the refresh item was written and the old one if it was not,
    whatever the index write reports and whatever becomes of the state item.
    Again a damaged state item that was not replaced is the one exception.
  */
  lemma StoredTokenNeverLost(s: Store, first: Op, second: Op, doc: string, place: string, n: string, t: Token)
    requires Coherent(s) && IsTokenPut(first, second, doc, place, n, t)
    requires ListedAt(s, doc, place) && RefreshItem(n) in Values(s, doc)
    ensures var after := BothSteps(s, first, second);
            var r := ReadAt(after, doc, place, n);
            && Gets(after, doc, place, n, r)
            && if DamagedState(s, doc, n) && !(Succeeds(s, first) && Writes(Step(s, first), second)) then r == Corrupt
               else r.Found?
                    && r.token.refresh == if Writes(s, first) then t.refresh else TextOf(Values(s, doc)[RefreshItem(n)])
  {
    if Succeeds(s, first) {
      LookupIsFresh(s, doc, first.readable);
      NewRefreshSurvives(s, first, second, doc, place, n, t);
    } else {
      ItemNames(n, n);
      StepKeepsCoherent(s, first);
      StepNamedValue(s, first);
      OtherValueKept(s, first, StateItem(n));
      PutKeepsListed(s, first);
      GetIsReadAt(Step(s, first), doc, place, n);
      ReadAtValues(Step(s, first), doc, place, n);
    }
  }

  /**
    A failed put at a place nobody approved gave a value to a name that the index
    listed without one. The document then has a secret to withhold from the place.
  */
  predicate LocksOut(s: Store, op: Op) {
    && op.Put? && Writes(s, op)
    && var e := Lookup(s, op.doc, op.readable).value;
       && |e.values| == 0 && op.place !in e.places && op.name in e.names
       && !(op.item == Done && Applied(op.index))
  }

  lemma PutMay(s: Store, op: Op)
    requires Coherent(s) && op.Put? && Lookup(s, op.doc, op.readable).Some?
    requires Storable(op.value) && MayAt(s, op.doc, op.place)
    ensures MayAt(Step(s, op), op.doc, op.place) <==> !LocksOut(s, op)
  {
    LookupIsFresh(s, op.doc, op.readable);
    PutMayRead(s.keep, op, Lookup(s, op.doc, op.readable).value);
  }

  lemma PutMayRead(k: Keep, op: Op, e: Entry)
    requires op.Put? && Fresh(k, op.doc) == Some(e) && May(e, op.place)
    ensures var k' := PutKeep(k, op.doc, e, op.place, op.name, op.value, op.item, op.index, op.cleanup);
            var after := Fresh(k', op.doc);
            after.Some? && (May(after.value, op.place) <==>
              !(|e.values| == 0 && op.place !in e.places && Applied(op.item) && op.name in e.names
                && !(op.item == Done && Applied(op.index))))
  {
    var k' := PutKeep(k, op.doc, e, op.place, op.name, op.value, op.item, op.index, op.cleanup);
    PutLists(k, op, e);
    WithPlaceLists(e.places, op.place);
    if |e.values| == 0 && op.place !in e.places && !(op.item == Done && Applied(op.index)) {
      OnlyOwnValue(k, op, e);
      var after := Fresh(k', op.doc).value;
      assert op.name in after.values ==> after.values != map[];
    }
  }

  /** With no value before and no index written, only a listed name can gain one. */
  lemma OnlyOwnValue(k: Keep, op: Op, e: Entry)
    requires op.Put? && Fresh(k, op.doc) == Some(e) && e.values == map[]
    requires !(op.item == Done && Applied(op.index))
    ensures var k' := PutKeep(k, op.doc, e, op.place, op.name, op.value, op.item, op.index, op.cleanup);
            var after := Fresh(k', op.doc).value.values;
            && Fresh(k', op.doc).Some?
            && (op.name in after <==> Applied(op.item) && op.name in e.names)
            && (op.name !in after ==> after == map[])
  {
    var k' := PutKeep(k, op.doc, e, op.place, op.name, op.value, op.item, op.index, op.cleanup);
    assert Fresh(k', op.doc).value.names == e.names;
    forall m | m in e.names && m != op.name ensures Key(op.doc, m) !in k'.items {
      assert m !in e.values;
    }
  }

  /** Removing can only take secrets away, so a place that might read still may. */
  lemma RemoveKeepsMay(s: Store, op: Op)
    requires Coherent(s) && op.Remove? && MayAt(s, op.doc, op.place)
    ensures MayAt(Step(s, op), op.doc, op.place)
  {
    if Step(s, op).keep != s.keep {
      LookupIsFresh(s, op.doc, op.readable);
      RemovedMay(s.keep, op, Lookup(s, op.doc, op.readable).value);
    }
  }

  lemma RemovedMay(k: Keep, op: Op, e: Entry)
    requires op.Remove? && Fresh(k, op.doc) == Some(e) && May(e, op.place)
    ensures var after := Fresh(RemoveKeep(k, op.doc, e, op.name, op.item, op.index), op.doc);
            after.Some? && May(after.value, op.place)
  {
    var after := Fresh(RemoveKeep(k, op.doc, e, op.name, op.item, op.index), op.doc).value;
    if e.values == map[] {
      assert after.values == map[];
    } else if e.names - {op.name} == {} && op.item == Done && Applied(op.index) {
      assert after.values == map[];
    }
  }

  lemma OtherValuesKept(s: Store, op: Op, n: string, other: string)
    requires Coherent(s) && (op.Put? || op.Remove?) && n != other
    requires op.name == RefreshItem(n) || op.name == StateItem(n)
    ensures TokenIn(Values(Step(s, op), op.doc), other) == TokenIn(Values(s, op.doc), other)
  {
    ItemNames(n, other);
    ItemNames(other, n);
    OtherValueKept(s, op, RefreshItem(other));
    OtherValueKept(s, op, StateItem(other));
  }

  /** One write of a token, and what Get reads of another one. */
  lemma OtherReadAt(s: Store, op: Op, n: string, other: string)
    requires Coherent(s) && (op.Put? || op.Remove?) && n != other
    requires op.name == RefreshItem(n) || op.name == StateItem(n)
    ensures ReadAt(Step(s, op), op.doc, op.place, other)
            == if LocksOut(s, op) then NotTrusted else ReadAt(s, op.doc, op.place, other)
  {
    if Step(s, op).keep != s.keep {
      LookupIsFresh(s, op.doc, op.readable);
      OtherValuesKept(s, op, n, other);
      ReadAtValues(s, op.doc, op.place, other);
      AfterWrite(s, op);
      if MayAt(Step(s, op), op.doc, op.place) {
        ReadAtValues(Step(s, op), op.doc, op.place, other);
      }
    } else if LocksOut(s, op) {
      LockingWrites(s, op);
    }
  }

  lemma AfterWrite(s: Store, op: Op)
    requires Coherent(s) && (op.Put? || op.Remove?) && Step(s, op).keep != s.keep
    ensures MayAt(s, op.doc, op.place) && Fresh(Step(s, op).keep, op.doc).Some?
    ensures MayAt(Step(s, op), op.doc, op.place) <==> !LocksOut(s, op)
  {
    LookupIsFresh(s, op.doc, op.readable);
    if op.Put? {
      PutMay(s, op);
      PutLists(s.keep, op, Lookup(s, op.doc, op.readable).value);
    } else {
      RemoveKeepsMay(s, op);
    }
  }

  /** A write that locks the place out does change the store. */
  lemma LockingWrites(s: Store, op: Op)
    requires Coherent(s) && LocksOut(s, op)
    ensures Step(s, op).keep != s.keep
  {
    LookupIsFresh(s, op.doc, op.readable);
    OnlyOwnValue(s.keep, op, Lookup(s, op.doc, op.readable).value);
  }

  /**
    However a token's writes end, Get reads every other token as before, except
    when the first put locks its own place out.
  */
  lemma OtherTokensKept(s: Store, first: Op, second: Op, doc: string, place: string, n: string, t: Token, other: string)
    requires Coherent(s) && n != other
    requires IsTokenPut(first, second, doc, place, n, t) || IsTokenDelete(first, second, doc, place, n)
    ensures var after := BothSteps(s, first, second);
            && Gets(after, doc, place, other, ReadAt(after, doc, place, other))
            && ReadAt(after, doc, place, other)
               == if LocksOut(s, first) then NotTrusted else ReadAt(s, doc, place, other)
  {
    StepKeepsCoherent(s, first);
    OtherReadAt(s, first, n, other);
    if Succeeds(s, first) {
      StepKeepsCoherent(Step(s, first), second);
      OtherReadAt(Step(s, first), second, n, other);
      if first.Put? {
        AfterFirstPut(s, first, second, doc, place, n, t);
        ListedNotLocked(Step(s, first), second);
      }
    }
    GetIsReadAt(BothSteps(s, first, second), doc, place, other);
  }

  /** A failed removal that deleted its item leaves the name listed without a value. */
  lemma NameWithoutValue(s: Store, op: Op, e: Entry)
    requires op.Remove? && op.item == Done && op.index == Refused && Lookup(s, op.doc, op.readable) == Some(e)
    requires Fresh(s.keep, op.doc) == Some(e) && e.names == {op.name} && op.place in e.places
    ensures Fresh(Step(s, op).keep, op.doc) == Some(e.(values := map[]))
  {
    assert Step(s, op).keep == WithoutItem(s.keep, Key(op.doc, op.name));
    LoneItemGone(s.keep, op.doc, op.name, e);
  }

  lemma LoneItemGone(k: Keep, doc: string, name: string, e: Entry)
    requires Fresh(k, doc) == Some(e) && e.names == {name}
    ensures Fresh(WithoutItem(k, Key(doc, name)), doc) == Some(e.(values := map[]))
  {
    assert ValuesOf(WithoutItem(k, Key(doc, name)), doc, {name}) == map[];
  }

  lemma FirstPut(doc: string, place: string, name: string, v: Value)
    requires Storable(v)
    ensures Fresh(Step(EMPTY, Put(doc, place, name, v, true, Done, Done, Refused)).keep, doc)
            == Some(Entry({name}, [place], map[name := v]))
  {
    assert Lookup(EMPTY, doc, true) == Some(Entry({}, [], map[])) && {} + {name} == {name};
    PutThenRead(EMPTY, Put(doc, place, name, v, true, Done, Done, Refused));
    assert WithPlace([], place) == [place];
  }

  lemma LockedOut(s: Store, op: Op, e: Entry, other: string)
    requires Coherent(s) && LocksOut(s, op) && Fresh(s.keep, op.doc) == Some(e)
    ensures ReadAt(s, op.doc, op.place, other) == NotFound
    ensures ReadAt(Step(s, op), op.doc, op.place, other) == NotTrusted
  {
    LookupIsFresh(s, op.doc, op.readable);
    LockingWrites(s, op);
    AfterWrite(s, op);
  }

  /**
    Such a put can happen: a token stored at one place is deleted there with the
    index write failing, and a put from another place then fails the same way.
    Get at that place reported any other token missing and now reports no trust.
  */
  lemma PlaceLocksItselfOut(doc: string, place: string, elsewhere: string, n: string, refresh: string, other: string)
    requires place != elsewhere && Storable(Text(refresh))
    ensures var item := RefreshItem(n);
            var s := Step(Step(EMPTY, Put(doc, place, item, Text(refresh), true, Done, Done, Refused)),
                          Remove(doc, place, item, true, Done, Refused));
            var again := Put(doc, elsewhere, item, Text(refresh), true, Done, Refused, Refused);
            && Coherent(s) && LocksOut(s, again)
            && ReadAt(s, doc, elsewhere, other) == NotFound
            && ReadAt(Step(s, again), doc, elsewhere, other) == NotTrusted
  {
    var item := RefreshItem(n);
    var stored := Step(EMPTY, Put(doc, place, item, Text(refresh), true, Done, Done, Refused));
    FirstPut(doc, place, item, Text(refresh));
    StepKeepsCoherent(EMPTY, Put(doc, place, item, Text(refresh), true, Done, Done, Refused));
    NameWithoutValue(stored, Remove(doc, place, item, true, Done, Refused),
      Entry({item}, [place], map[item := Text(refresh)]));
    StepKeepsCoherent(stored, Remove(doc, place, item, true, Done, Refused));
    var s := Step(stored, Remove(doc, place, item, true, Done, Refused));
    var again := Put(doc, elsewhere, item, Text(refresh), true, Done, Refused, Refused);
    LookupIsFresh(s, doc, true);
    LockedOut(s, again, Entry({item}, [place], map[]), other);
  }

  lemma ListedNotLocked(s: Store, op: Op)
    requires Coherent(s) && op.Put? && ListedAt(s, op.doc, op.place)
    ensures !LocksOut(s, op)
  {
    if Writes(s, op) {
      LookupIsFresh(s, op.doc, op.readable);
    }
  }

  /** Once its refresh item is removed, Get at that place does not find the token. */
  lemma DeletedIsNotFound(s: Store, first: Op, second: Op, doc: string, place: string, n: string)
    requires Coherent(s) && IsTokenDelete(first, second, doc, place, n) && Succeeds(s, first)
    ensures Gets(BothSteps(s, first, second), doc, place, n, NotFound)
  {
    var mid := Step(s, first);
    ItemNames(n, n);
    LookupIsFresh(s, doc, first.readable);
    StepKeepsCoherent(s, first);
    RemoveThenRead(s, first);
    RemoveKeepsMay(s, first);
    StepKeepsCoherent(mid, second);
    RemoveKeepsMay(mid, second);
    OtherValueKept(mid, second, RefreshItem(n));
    GetIsReadAt(Step(mid, second), doc, place, n);
    ReadAtValues(Step(mid, second), doc, place, n);
  }

  // ----- beside the secrets -----

  predicate IsSecretChar(c: char) {
    'a' <= c <= 'z' || 'A' <= c <= 'Z' || '0' <= c <= '9' || c == '_' || c == '.' || c == '-'
  }

  /** secretNamePattern */
  predicate ValidSecretName(name: string) {
    1 <= |name| <= 64 && forall c :: c in name ==> IsSecretChar(c)
  }

  function WithoutTokenItems(values: map<string, Value>): map<string, Value> {
    map name | name in values && !(TOKEN_PREFIX <= name) :: values[name]
  }

  /** Scripts read every secret and no token item, and no secret can be one. */
  lemma SecretsApartFromTokens(values: map<string, Value>, name: string, n: string)
    ensures RefreshItem(n) !in WithoutTokenItems(values) && StateItem(n) !in WithoutTokenItems(values)
    ensures ValidSecretName(name) ==>
              name != RefreshItem(n) && name != StateItem(n) && SameAt(values, WithoutTokenItems(values), name)
  {
    assert TOKEN_PREFIX <= RefreshItem(n) && TOKEN_PREFIX <= StateItem(n);
    if TOKEN_PREFIX <= name {
      assert name[5] == '/' && name[5] in name;
    }
  }

  // ----- account names -----

  /** The account of a document's index, or of one of its items. */
  function Account(doc: string, name: Option<string>): string {
    match name case None => doc case Some(n) => doc + ['/'] + n
  }

  /** Document ids have no '/', so no two items share an account. */
  lemma AccountsDistinct(doc: string, name: Option<string>, doc': string, name': Option<string>)
    requires '/' !in doc && '/' !in doc' && Account(doc, name) == Account(doc', name')
    ensures doc == doc' && name == name'
  {
    if name.Some? {
      CutOf(doc, '/', name.value);
    }
    if name'.Some? {
      CutOf(doc', '/', name'.value);
    }
  }
}
