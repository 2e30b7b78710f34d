/**
  Which places a document's secrets are released to: the most recently approved
  ones since its index was last removed (withPlace and forPlace in
  cmd/rela-desktop/hostconfig.go).
*/
module PlaceHistory {

  import opened Wrappers
  import opened SecretStore
  import opened SecretStoreLaws

  // ----- a bounded list of most recent places -----

  /** The list after approving the places of `h` in turn. */
  function Recent(h: seq<string>): seq<string> {
    if h == [] then [] else WithPlace(Recent(h[..|h| - 1]), h[|h| - 1])
  }

  /** The places approved after the last approval of `p`. */
  function Since(h: seq<string>, p: string): set<string> {
    if h == [] || h[|h| - 1] == p then {} else Since(h[..|h| - 1], p) + {h[|h| - 1]}
  }

  function SetOf(s: seq<string>): set<string> { set x | x in s }

  /** The list holds each kept place once, in order of its last approval. */
  ghost predicate IsRecent(h: seq<string>, r: seq<string>) {
    && Unique(r) && |r| <= MAX_PLACES
    && (forall i :: 0 <= i < |r| ==> InOrder(h, r, i))
    && (forall p :: p in h && p !in r ==> LongAgo(h, p))
  }

  predicate InOrder(h: seq<string>, r: seq<string>, i: nat)
    requires i < |r|
  {
    r[i] in h && SetOf(r[i + 1..]) == Since(h, r[i])
  }

  predicate LongAgo(h: seq<string>, p: string) { |Since(h, p)| >= MAX_PLACES }

  lemma {:induction false} WithoutOne(r: seq<string>, p: string) returns (i: nat)
    requires Unique(r) && p in r
    ensures i < |r| && r[i] == p && Without(r, p) == r[..i] + r[i + 1..]
  {
    var last := |r| - 1;
    if r[last] == p {
      i := last;
      assert Without(r[..last], p) == r[..last];
    } else {
      i := WithoutOne(r[..last], p);
      assert r[..last][..i] == r[..i];
      assert r[i + 1..] == r[..last][i + 1..] + [r[last]];
    }
  }

  lemma {:induction false} UniqueSize(s: seq<string>)
    requires Unique(s)
    ensures |SetOf(s)| == |s|
  {
    if s != [] {
      var last := |s| - 1;
      UniqueSize(s[..last]);
      assert SetOf(s) == SetOf(s[..last]) + {s[last]};
    }
  }

  lemma {:induction false} RecentIsRecent(h: seq<string>)
    ensures IsRecent(h, Recent(h))
  {
    if h != [] {
      var start, p := h[..|h| - 1], h[|h| - 1];
      RecentIsRecent(start);
      if p in Recent(start) {
        MovedToEnd(start, Recent(start), p);
      } else if |Recent(start)| < MAX_PLACES {
        AddedAtEnd(start, Recent(start), p);
      } else {
        OldestDropped(start, Recent(start), p);
      }
      assert start + [p] == h;
    }
  }

  lemma SinceSnoc(h: seq<string>, p: string, q: string)
    ensures Since(h + [p], q) == if p == q then {} else Since(h, q) + {p}
  {
    assert (h + [p])[..|h|] == h;
  }

  /** `kept[i]` stands in `kept` as it stood among the approvals, `p` apart. */
  predicate StillInOrder(h: seq<string>, kept: seq<string>, p: string, i: nat)
    requires i < |kept|
  {
    kept[i] in h && SetOf(kept[i + 1..]) + {p} == Since(h, kept[i]) + {p}
  }

  lemma OneMore(h: seq<string>, kept: seq<string>, p: string)
    requires Unique(kept) && p !in kept && |kept| < MAX_PLACES
    requires forall i :: 0 <= i < |kept| ==> StillInOrder(h, kept, p, i)
    requires forall q :: q in h && q !in kept && q != p ==> |Since(h, q) + {p}| >= MAX_PLACES
    ensures IsRecent(h + [p], kept + [p])
  {
    var r := kept + [p];
    forall i | 0 <= i < |r| ensures InOrder(h + [p], r, i) {
      if i < |kept| {
        assert StillInOrder(h, kept, p, i);
        KeptInOrder(h, kept, p, i);
      } else {
        SinceSnoc(h, p, p);
      }
    }
    forall q | q in h + [p] && q !in r ensures LongAgo(h + [p], q) {
      SinceSnoc(h, p, q);
    }
  }

  lemma KeptInOrder(h: seq<string>, kept: seq<string>, p: string, i: nat)
    requires i < |kept| && p !in kept && StillInOrder(h, kept, p, i)
    ensures InOrder(h + [p], kept + [p], i)
  {
    SinceSnoc(h, p, kept[i]);
    assert (kept + [p])[i + 1..] == kept[i + 1..] + [p];
    assert SetOf(kept[i + 1..] + [p]) == SetOf(kept[i + 1..]) + {p};
  }

  lemma AddedAtEnd(h: seq<string>, r: seq<string>, p: string)
    requires IsRecent(h, r) && p !in r && |r| < MAX_PLACES
    ensures WithPlace(r, p) == r + [p] && IsRecent(h + [p], r + [p])
  {
    forall i | 0 <= i < |r| ensures StillInOrder(h, r, p, i) {
      assert InOrder(h, r, i);
    }
    forall q | q in h && q !in r ensures |Since(h, q) + {p}| >= MAX_PLACES {
      assert LongAgo(h, q);
      NotSmaller(Since(h, q), p);
    }
    OneMore(h, r, p);
  }

  lemma NotSmaller(s: set<string>, p: string)
    ensures |s + {p}| == if p in s then |s| else |s| + 1
  {
    assert p in s ==> s + {p} == s;
  }

  lemma OldestDropped(h: seq<string>, r: seq<string>, p: string)
    requires IsRecent(h, r) && p !in r && |r| == MAX_PLACES
    ensures WithPlace(r, p) == r[1..] + [p] && IsRecent(h + [p], r[1..] + [p])
  {
    var kept := r[1..];
    forall i | 0 <= i < |kept| ensures StillInOrder(h, kept, p, i) {
      assert InOrder(h, r, i + 1);
      assert kept[i + 1..] == r[i + 2..];
    }
    forall q | q in h && q !in kept && q != p ensures |Since(h, q) + {p}| >= MAX_PLACES {
      OldEnough(h, r, p, q);
    }
    OneMore(h, kept, p);
    assert (r + [p])[1..] == kept + [p];
  }

  lemma OldEnough(h: seq<string>, r: seq<string>, p: string, q: string)
    requires IsRecent(h, r) && p !in r && |r| == MAX_PLACES && q in h && q !in r[1..]
    ensures |Since(h, q) + {p}| >= MAX_PLACES
  {
    NotSmaller(Since(h, q), p);
    if q == r[0] {
      assert InOrder(h, r, 0);
      assert forall x :: x in r[1..] ==> x in r;
      UniqueSize(r[1..]);
    } else {
      assert r == [r[0]] + r[1..];
      assert LongAgo(h, q);
    }
  }

  lemma MovedToEnd(h: seq<string>, r: seq<string>, p: string)
    requires IsRecent(h, r) && p in r
    ensures IsRecent(h + [p], WithPlace(r, p))
  {
    var j := WithoutOne(r, p);
    var kept := r[..j] + r[j + 1..];
    forall i | 0 <= i < |kept| ensures StillInOrder(h, kept, p, i) {
      assert InOrder(h, r, if i < j then i else i + 1);
      OrderWithout(h, r, p, j, i);
    }
    forall q | q in h && q !in kept && q != p ensures |Since(h, q) + {p}| >= MAX_PLACES {
      assert r == r[..j] + [p] + r[j + 1..];
      assert LongAgo(h, q);
      NotSmaller(Since(h, q), p);
    }
    UniqueWithout(r, j);
    OneMore(h, kept, p);
  }

  lemma UniqueWithout(r: seq<string>, j: nat)
    requires Unique(r) && j < |r|
    ensures Unique(r[..j] + r[j + 1..]) && r[j] !in r[..j] + r[j + 1..]
  {
  }

  lemma OrderWithout(h: seq<string>, r: seq<string>, p: string, j: nat, i: nat)
    requires j < |r| && r[j] == p && i < |r| - 1 && InOrder(h, r, if i < j then i else i + 1)
    ensures StillInOrder(h, r[..j] + r[j + 1..], p, i)
  {
    var kept := r[..j] + r[j + 1..];
    if i < j {
      assert r[i + 1..] == r[i + 1..j] + [p] + r[j + 1..];
      assert kept[i + 1..] == r[i + 1..j] + r[j + 1..];
    } else {
      assert kept[i + 1..] == r[i + 2..];
    }
  }

  /** Kept are exactly the places with fewer than 32 others approved since. */
  lemma KeptExactly(h: seq<string>, p: string)
    ensures p in Recent(h) <==> p in h && |Since(h, p)| < MAX_PLACES
    ensures Unique(Recent(h)) && |Recent(h)| <= MAX_PLACES
  {
    RecentIsRecent(h);
    var r := Recent(h);
    if p in r {
      var i :| 0 <= i < |r| && r[i] == p;
      assert InOrder(h, r, i);
      UniqueSize(r[i + 1..]);
    } else if p in h {
      assert LongAgo(h, p);
    }
  }

  // ----- approvals over a run -----

  /** What a call does to the places of its document. */
  datatype Mark = Approve(doc: string, place: string) | Forget(doc: string) | Nothing

  function MarkOf(s: Store, op: Op): Mark {
    if op.Restart? then Nothing else
    var e := Lookup(s, op.doc, op.readable);
    if e.None? then Nothing
    else match op
      case Read(_, _) => Nothing
      case Put(doc, place, _, value, _, item, index, _) =>
        if Storable(value) && May(e.value, place) && item == Done && Applied(index)
        then Approve(doc, place) else Nothing
      case Remove(doc, place, name, _, item, index) =>
        if May(e.value, place) && item == Done && Applied(index) && e.value.names - {name} == {}
        then Forget(doc) else Nothing
      case Trust(doc, place, _, index) =>
        if !Applied(index) then Nothing
        else if e.value.names == {} then Forget(doc) else Approve(doc, place)
  }

  function Marked(h: seq<string>, mark: Mark, doc: string): seq<string> {
    match mark
    case Approve(d, place) => if d == doc then h + [place] else h
    case Forget(d) => if d == doc then [] else h
    case Nothing => h
  }

  function Marks(s: Store, ops: seq<Op>): (marks: seq<Mark>)
    ensures |marks| == |ops|
  {
    seq(|ops|, i requires 0 <= i < |ops| => MarkOf(Run(s, ops[..i]), ops[i]))
  }

  function Approvals(marks: seq<Mark>, doc: string): seq<string> {
    if marks == [] then [] else Marked(Approvals(marks[..|marks| - 1], doc), marks[|marks| - 1], doc)
  }

  /** The approvals for a document since its index was last removed. */
  function History(s: Store, ops: seq<Op>, doc: string): seq<string> { Approvals(Marks(s, ops), doc) }

  function PlacesOf(k: Keep, doc: string): seq<string> {
    if doc in k.indexes && k.indexes[doc].Listing? then k.indexes[doc].places else []
  }

  /** Approving adds the place last; forgetting drops the list. */
  function Placed(places: seq<string>, mark: Mark, doc: string): seq<string> {
    match mark
    case Approve(d, p) => if d == doc then WithPlace(places, p) else places
    case Forget(d) => if d == doc then [] else places
    case Nothing => places
  }

  lemma PlacesFromFresh(k: Keep, doc: string)
    ensures PlacesOf(k, doc) == match Fresh(k, doc) case None => [] case Some(e) => e.places
  {
  }

  lemma WrittenPlaces(k: Keep, doc: string, names: set<string>, places: seq<string>, o: Outcome)
    ensures PlacesOf(WriteIndexKeep(k, doc, names, places, o), doc)
            == if !Applied(o) then PlacesOf(k, doc) else if names == {} then [] else places
  {
  }

  lemma PutPlaces(k: Keep, op: Op, e: Entry)
    requires op.Put? && e.places == PlacesOf(k, op.doc)
    ensures PlacesOf(PutKeep(k, op.doc, e, op.place, op.name, op.value, op.item, op.index, op.cleanup), op.doc)
            == if op.item == Done && Applied(op.index) then WithPlace(e.places, op.place) else e.places
  {
  }

  lemma MarkNamesItsDoc(s: Store, op: Op, doc: string)
    requires op.Restart? || doc != op.doc
    ensures forall places :: Placed(places, MarkOf(s, op), doc) == places
  {
  }

  lemma PlacesElsewhere(s: Store, op: Op, doc: string)
    requires op.Restart? || doc != op.doc
    ensures PlacesOf(Step(s, op).keep, doc) == PlacesOf(s.keep, doc)
  {
    if !op.Restart? {
      OtherDocsUntouched(s, op, doc);
      PlacesFromFresh(s.keep, doc);
      PlacesFromFresh(Step(s, op).keep, doc);
    }
  }

  lemma StepPlaces(s: Store, op: Op, doc: string)
    requires Coherent(s)
    ensures PlacesOf(Step(s, op).keep, doc) == Placed(PlacesOf(s.keep, doc), MarkOf(s, op), doc)
  {
    if op.Restart? || doc != op.doc {
      MarkNamesItsDoc(s, op, doc);
      PlacesElsewhere(s, op, doc);
    } else if Step(s, op).keep != s.keep || MarkOf(s, op) != Nothing {
      StepPlacesHere(s, op);
    }
  }

  lemma StepPlacesHere(s: Store, op: Op)
    requires !op.Restart? && Coherent(s) && (Step(s, op).keep != s.keep || MarkOf(s, op) != Nothing)
    ensures PlacesOf(Step(s, op).keep, op.doc) == Placed(PlacesOf(s.keep, op.doc), MarkOf(s, op), op.doc)
  {
    LookupIsFresh(s, op.doc, op.readable);
    PlacesFromFresh(s.keep, op.doc);
    var e := Lookup(s, op.doc, op.readable).value;
    match op {
      case Put(_, _, _, _, _, _, _, _) => StoredPlaces(s, op, e);
      case Remove(_, _, _, _, _, _) => RemovePlaces(s, op, e);
      case Trust(_, _, _, _) => TrustPlaces(s, op, e);
      case Read(_, _) =>
    }
  }

  lemma StoredPlaces(s: Store, op: Op, e: Entry)
    requires op.Put? && Lookup(s, op.doc, op.readable) == Some(e) && e.places == PlacesOf(s.keep, op.doc)
    ensures PlacesOf(Step(s, op).keep, op.doc) == Placed(e.places, MarkOf(s, op), op.doc)
  {
    PutPlaces(s.keep, op, e);
  }

  lemma RemovePlaces(s: Store, op: Op, e: Entry)
    requires op.Remove? && Lookup(s, op.doc, op.readable) == Some(e) && e.places == PlacesOf(s.keep, op.doc)
    ensures PlacesOf(Step(s, op).keep, op.doc) == Placed(e.places, MarkOf(s, op), op.doc)
  {
    WrittenPlaces(WithoutItem(s.keep, Key(op.doc, op.name)), op.doc, e.names - {op.name}, e.places, op.index);
  }

  lemma TrustPlaces(s: Store, op: Op, e: Entry)
    requires op.Trust? && Lookup(s, op.doc, op.readable) == Some(e) && e.places == PlacesOf(s.keep, op.doc)
    ensures PlacesOf(Step(s, op).keep, op.doc) == Placed(e.places, MarkOf(s, op), op.doc)
  {
    WrittenPlaces(s.keep, op.doc, e.names, WithPlace(e.places, op.place), op.index);
  }

  lemma RecentSnoc(h: seq<string>, p: string)
    ensures Recent(h + [p]) == WithPlace(Recent(h), p)
  {
    assert (h + [p])[..|h|] == h;
  }

  lemma MarksPrefix(s: Store, start: seq<Op>, op: Op)
    ensures Marks(s, start + [op]) == Marks(s, start) + [MarkOf(Run(s, start), op)]
  {
    assert (start + [op])[..|start|] == start;
    forall i | 0 <= i < |start| ensures Marks(s, start + [op])[i] == Marks(s, start)[i] {
      assert (start + [op])[..i] == start[..i];
    }
  }

  lemma {:induction false} PlacesAreRecent(ops: seq<Op>, doc: string)
    ensures PlacesOf(Run(EMPTY, ops).keep, doc) == Recent(History(EMPTY, ops, doc))
  {
    if ops != [] {
      var start := ops[..|ops| - 1];
      assert ops == start + [ops[|ops| - 1]];
      PlacesAreRecent(start, doc);
      CacheStaysCoherent(EMPTY, start);
      StepPlaces(Run(EMPTY, start), ops[|ops| - 1], doc);
      MarksPrefix(EMPTY, start, ops[|ops| - 1]);
      match MarkOf(Run(EMPTY, start), ops[|ops| - 1]) {
        case Approve(_, p) => RecentSnoc(History(EMPTY, start, doc), p);
        case _ =>
      }
    }
  }

  /**
    After any calls on an empty keychain, and however they failed: a document's
    secrets are released to a place exactly when the place was approved since the
    index was last removed, and fewer than 32 other places were approved after it.
  */
  lemma ReleasedExactly(ops: seq<Op>, doc: string, place: string, readable: bool)
    requires var e := Lookup(Run(EMPTY, ops), doc, readable);
             e.Some? && |e.value.values| > 0
    ensures var h := History(EMPTY, ops, doc);
            ReleaseOf(Lookup(Run(EMPTY, ops), doc, readable), place).Released?
            <==> place in h && |Since(h, place)| < MAX_PLACES
  {
    CacheStaysCoherent(EMPTY, ops);
    LookupIsFresh(Run(EMPTY, ops), doc, readable);
    PlacesAreRecent(ops, doc);
    KeptExactly(History(EMPTY, ops, doc), place);
  }

  /** An approval is a put or a trust that succeeded, or whose index write was applied all the same. */
  lemma ApprovalIsSuccess(s: Store, op: Op, doc: string, place: string)
    requires MarkOf(s, op) == Approve(doc, place)
    ensures (op.Put? || op.Trust?) && op.doc == doc && op.place == place
    ensures Succeeds(s, op) || op.index == Torn
  {
  }

  /** Each approval in the history is one such call, with no removal of the index after it. */
  lemma ApprovalOrigin(s: Store, ops: seq<Op>, doc: string, place: string) returns (i: nat)
    requires place in History(s, ops, doc)
    ensures i < |ops| && MarkOf(Run(s, ops[..i]), ops[i]) == Approve(doc, place)
    ensures forall j :: i < j < |ops| ==> MarkOf(Run(s, ops[..j]), ops[j]) != Forget(doc)
  {
    i := OriginInMarks(Marks(s, ops), doc, place);
    forall j | i < j < |ops| ensures MarkOf(Run(s, ops[..j]), ops[j]) != Forget(doc) {
      assert Marks(s, ops)[j] != Forget(doc);
    }
  }

  lemma {:induction false} OriginInMarks(marks: seq<Mark>, doc: string, place: string) returns (i: nat)
    requires place in Approvals(marks, doc)
    ensures i < |marks| && marks[i] == Approve(doc, place)
    ensures forall j :: i < j < |marks| ==> marks[j] != Forget(doc)
  {
    var last := |marks| - 1;
    if marks[last] == Approve(doc, place) {
      i := last;
    } else {
      i := OriginInMarks(marks[..last], doc, place);
      assert forall j :: 0 <= j < last ==> marks[..last][j] == marks[j];
    }
  }
}
