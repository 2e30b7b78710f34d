/**
  Replacement of the generated region of a document, and the generator's write
  and check modes (cmd/gen-icons/main.go).
*/
module GeneratedRegion {

  import opened Wrappers

  const DOCS_BEGIN := "<!-- BEGIN generated: icons -->"

  const DOCS_END := "<!-- END generated: icons -->"

  predicate MatchesAt(s: string, pattern: string, i: nat) {
    i + |pattern| <= |s| && s[i..i + |pattern|] == pattern
  }

  /** strings.Index, from position `i`. */
  function Find(s: string, pattern: string, i: nat): (r: Option<nat>)
    requires i <= |s|
    ensures r.Some? ==> i <= r.value && MatchesAt(s, pattern, r.value) && r.value + |pattern| <= |s|
    ensures r.Some? ==> forall j :: i <= j < r.value ==> !MatchesAt(s, pattern, j)
    ensures r.None? ==> forall j :: i <= j <= |s| ==> !MatchesAt(s, pattern, j)
    decreases |s| - i
  {
    if MatchesAt(s, pattern, i) then Some(i)
    else if i == |s| then None
    else Find(s, pattern, i + 1)
  }

  predicate Contains(s: string, pattern: string) { exists i: nat :: i <= |s| && MatchesAt(s, pattern, i) }

  /** Where the begin marker starts, and the end marker. */
  function Region(begin: string, end: string, doc: string): (r: Option<(nat, nat)>)
    ensures r.Some? ==> r.value.0 <= r.value.1 <= |doc| && r.value.0 + |begin| <= |doc|
  {
    match Find(doc, begin, 0)
    case None => None
    case Some(start) =>
      match Find(doc, end, start)
      case None => None
      case Some(stop) => Some((start, stop))
  }

  /** ReplaceRegion; None when a marker is missing. */
  function Replaced(begin: string, end: string, doc: string, body: string): Option<string> {
    match Region(begin, end, doc)
    case None => None
    case Some((start, stop)) => Some(doc[..start + |begin|] + body + doc[stop..])
  }

  /**
    What the two markers need: the end marker's first character occurs nowhere
    else in either, so neither can overlap the other or itself; and the end
    marker is not the start of the begin marker.
  */
  predicate Separate(begin: string, end: string) {
    && |end| > 0 && |begin| > 0
    && (forall k :: 0 < k < |end| ==> end[k] != end[0])
    && (forall k :: 0 < k < |begin| ==> begin[k] != end[0])
    && (exists k :: 0 <= k < |begin| && k < |end| && begin[k] != end[k])
  }

  lemma MarkersAreSeparate()
    ensures Separate(DOCS_BEGIN, DOCS_END)
  {
    assert DOCS_BEGIN[5] != DOCS_END[5];
  }

  /** One differing character rules a match out. */
  lemma Differs(s: string, p: string, i: nat, k: nat)
    requires k < |p| && (i + k >= |s| || s[i + k] != p[k])
    ensures !MatchesAt(s, p, i)
  {
    if i + |p| <= |s| {
      assert s[i..i + |p|][k] == s[i + k];
    }
  }

  ghost predicate FirstAt(s: string, p: string, at: nat) {
    MatchesAt(s, p, at) && forall j: nat :: j < at ==> !MatchesAt(s, p, j)
  }

  lemma FirstCarries(a: string, b: string, p: string, at: nat)
    requires FirstAt(a, p, at) && |b| >= at + |p| && a[..at + |p|] == b[..at + |p|]
    ensures FirstAt(b, p, at)
  {
    Agree(a, b, p, at, at + |p|);
    forall j: nat | j < at ensures !MatchesAt(b, p, j) {
      Agree(a, b, p, j, at + |p|);
    }
  }

  /** The first match is found at a position both strings agree up to. */
  lemma SameStart(a: string, b: string, p: string, at: nat)
    requires Find(a, p, 0) == Some(at) && |b| >= at + |p| && a[..at + |p|] == b[..at + |p|]
    ensures Find(b, p, 0) == Some(at)
  {
    FirstCarries(a, b, p, at);
    FirstMatch(b, p, at);
  }

  lemma FirstMatch(s: string, p: string, at: nat)
    requires FirstAt(s, p, at)
    ensures Find(s, p, 0) == Some(at)
  {
  }

  lemma Agree(a: string, b: string, p: string, j: nat, n: nat)
    requires j + |p| <= n && n <= |a| && n <= |b| && a[..n] == b[..n]
    ensures MatchesAt(a, p, j) <==> MatchesAt(b, p, j)
  {
    MatchesInPrefix(a, p, j, n);
    MatchesInPrefix(b, p, j, n);
  }

  lemma MatchesInPrefix(s: string, p: string, j: nat, n: nat)
    requires j + |p| <= n <= |s|
    ensures MatchesAt(s, p, j) <==> MatchesAt(s[..n], p, j)
  {
    assert s[..n][j..j + |p|] == s[j..j + |p|];
  }

  /** Before the end marker there is none: not in the begin marker, the body or across them. */
  lemma NoEarlierEnd(begin: string, end: string, head: string, body: string, tail: string, j: nat)
    requires Separate(begin, end) && !Contains(body, end) && end <= tail
    requires |head| <= j < |head + begin + body|
    ensures !MatchesAt(head + begin + body + tail, end, j)
  {
    var r, at, m := head + begin + body + tail, |head + begin|, |head + begin + body|;
    if j == |head| {
      var k: nat :| k < |begin| && k < |end| && begin[k] != end[k];
      Differs(r, end, j, k);
    } else if j < at {
      Differs(r, end, j, 0);
    } else if j + |end| <= m {
      assert r[j..j + |end|] == body[j - at..j - at + |end|];
      assert !MatchesAt(body, end, j - at);
    } else {
      assert r[m] == tail[0] == end[0];
      Differs(r, end, j, m - j);
    }
  }

  lemma RegionOf(begin: string, end: string, head: string, body: string, tail: string)
    requires Separate(begin, end) && !Contains(body, end) && end <= tail
    requires Find(head + begin + body + tail, begin, 0) == Some(|head|)
    ensures Region(begin, end, head + begin + body + tail) == Some((|head|, |head| + |begin| + |body|))
  {
    var r, m := head + begin + body + tail, |head| + |begin| + |body|;
    assert r[m..m + |end|] == tail[..|end|];
    assert MatchesAt(r, end, m);
    forall j: nat | |head| <= j < m ensures !MatchesAt(r, end, j) {
      NoEarlierEnd(begin, end, head, body, tail, j);
    }
  }

  /** A replacement, cut at the markers. */
  lemma ReplacedParts(begin: string, end: string, doc: string, body: string)
    requires Region(begin, end, doc).Some?
    ensures var (start, stop) := Region(begin, end, doc).value;
            var r := Replaced(begin, end, doc, body).value;
            && r == doc[..start] + begin + body + doc[stop..] && end <= doc[stop..]
            && Find(r, begin, 0) == Some(start)
  {
    var (start, stop) := Region(begin, end, doc).value;
    var r := Replaced(begin, end, doc, body).value;
    assert doc[..start + |begin|] == doc[..start] + begin;
    assert doc[stop..][..|end|] == doc[stop..stop + |end|];
    assert r[..start + |begin|] == doc[..start + |begin|];
    SameStart(doc, r, begin, start);
  }

  /** After a replacement the region is exactly the new body. */
  lemma RegionOfReplaced(begin: string, end: string, doc: string, body: string)
    requires Separate(begin, end) && !Contains(body, end) && Region(begin, end, doc).Some?
    ensures var (start, stop) := Region(begin, end, doc).value;
            Region(begin, end, Replaced(begin, end, doc, body).value)
            == Some((start, start + |begin| + |body|))
  {
    var (start, stop) := Region(begin, end, doc).value;
    ReplacedParts(begin, end, doc, body);
    RegionOf(begin, end, doc[..start], body, doc[stop..]);
  }

  /** Of two replacements the last wins: nothing of the first is left. */
  lemma LastWins(begin: string, end: string, doc: string, body: string, next: string)
    requires Separate(begin, end) && !Contains(body, end) && Region(begin, end, doc).Some?
    ensures Replaced(begin, end, Replaced(begin, end, doc, body).value, next) == Replaced(begin, end, doc, next)
  {
    var (start, stop) := Region(begin, end, doc).value;
    RegionOfReplaced(begin, end, doc, body);
    Recut(doc[..start + |begin|], body, doc[stop..]);
  }

  lemma Recut(head: string, body: string, tail: string)
    ensures (head + body + tail)[..|head|] == head
    ensures (head + body + tail)[|head| + |body|..] == tail
  {
  }

  /** Replacing again with the same body changes nothing exactly when it holds no end marker. */
  lemma IdempotentExactly(begin: string, end: string, doc: string, body: string)
    requires Separate(begin, end) && Region(begin, end, doc).Some?
    ensures var once := Replaced(begin, end, doc, body).value;
            Replaced(begin, end, once, body) == Some(once) <==> !Contains(body, end)
  {
    if Contains(body, end) {
      GrowsEachTime(begin, end, doc, body);
    } else {
      LastWins(begin, end, doc, body, body);
    }
  }

  lemma GrowsEachTime(begin: string, end: string, doc: string, body: string)
    requires Separate(begin, end) && Region(begin, end, doc).Some? && Contains(body, end)
    ensures var once := Replaced(begin, end, doc, body).value;
            var twice := Replaced(begin, end, once, body);
            twice.Some? && |twice.value| > |once|
  {
    var i: nat :| i <= |body| && MatchesAt(body, end, i);
    GrowsAt(begin, end, doc, body, i);
  }

  lemma GrowsAt(begin: string, end: string, doc: string, body: string, i: nat)
    requires Region(begin, end, doc).Some? && 0 < |end| && i <= |body| && MatchesAt(body, end, i)
    ensures var once := Replaced(begin, end, doc, body).value;
            var twice := Replaced(begin, end, once, body);
            twice.Some? && |twice.value| > |once|
  {
    var (start, stop) := Region(begin, end, doc).value;
    ReplacedParts(begin, end, doc, body);
    MatchInMiddle(doc[..start + |begin|], body, doc[stop..], end, i);
    RegionEndsBy(begin, end, Replaced(begin, end, doc, body).value, start, start + |begin| + i);
    Longer(begin, end, Replaced(begin, end, doc, body).value, body);
  }

  /** An end marker after the begin marker bounds the region. */
  lemma RegionEndsBy(begin: string, end: string, doc: string, start: nat, at: nat)
    requires Find(doc, begin, 0) == Some(start) && start <= at && MatchesAt(doc, end, at)
    ensures Region(begin, end, doc).Some?
    ensures Region(begin, end, doc).value.0 == start && Region(begin, end, doc).value.1 <= at
  {
  }

  /** A replacement longer than the region grows the document. */
  lemma Longer(begin: string, end: string, doc: string, body: string)
    requires var r := Region(begin, end, doc);
             r.Some? && r.value.1 < r.value.0 + |begin| + |body|
    ensures Replaced(begin, end, doc, body).Some? && |Replaced(begin, end, doc, body).value| > |doc|
  {
  }

  lemma MatchInMiddle(head: string, body: string, tail: string, p: string, i: nat)
    requires i <= |body| && MatchesAt(body, p, i)
    ensures MatchesAt(head + body + tail, p, |head| + i)
  {
    assert (head + body + tail)[|head| + i..|head| + i + |p|] == body[i..i + |p|];
  }

  /** A table whose text holds the end marker makes the guide longer at every run. */
  lemma EndMarkerInTable(head: string, before: string, after: string)
    requires Find(head + DOCS_BEGIN + DOCS_END, DOCS_BEGIN, 0) == Some(|head|)
    ensures var table := before + DOCS_END + after;
            var once := Replaced(DOCS_BEGIN, DOCS_END, head + DOCS_BEGIN + DOCS_END, table);
            once.Some? && var twice := Replaced(DOCS_BEGIN, DOCS_END, once.value, table);
            twice.Some? && |twice.value| > |once.value|
  {
    var table := before + DOCS_END + after;
    MarkersAreSeparate();
    assert head + DOCS_BEGIN + "" + DOCS_END == head + DOCS_BEGIN + DOCS_END;
    assert !Contains("", DOCS_END);
    RegionOf(DOCS_BEGIN, DOCS_END, head, "", DOCS_END);
    assert DOCS_END[0..|DOCS_END|] == DOCS_END;
    MatchInMiddle(before, DOCS_END, after, DOCS_END, 0);
    assert Contains(table, DOCS_END);
    GrowsEachTime(DOCS_BEGIN, DOCS_END, head + DOCS_BEGIN + DOCS_END, table);
  }

  // ----- write and check -----

  datatype Outcome = Fine | Stale(paths: seq<string>) | Failed

  datatype Output = Output(path: string, body: string)

  /** The rendered sources, and where each goes. */
  datatype Rendering = Rendering(
    goPath: string, goSource: string, tsPath: string, tsSource: string, docsPath: string, docsBody: string)

  function Outputs(guide: string, r: Rendering): seq<Output> {
    [Output(r.goPath, r.goSource), Output(r.tsPath, r.tsSource), Output(r.docsPath, guide)]
  }

  function Written(files: map<string, string>, outputs: seq<Output>): map<string, string> {
    if outputs == [] then files
    else Written(files, outputs[..|outputs| - 1])[outputs[|outputs| - 1].path := outputs[|outputs| - 1].body]
  }

  /** Present with this content. */
  predicate UpToDate(files: map<string, string>, o: Output) { o.path in files && files[o.path] == o.body }

  function StalePaths(files: map<string, string>, outputs: seq<Output>): seq<string> {
    if outputs == [] then []
    else StalePaths(files, outputs[..|outputs| - 1])
         + if UpToDate(files, outputs[|outputs| - 1]) then [] else [outputs[|outputs| - 1].path]
  }

  /** A repository; a path in `broken` can be neither read nor written. */
  class Repository {
    var files: map<string, string>
    const broken: set<string>

    constructor (files: map<string, string>, broken: set<string>)
      ensures this.files == files && this.broken == broken
    {
      this.files, this.broken := files, broken;
    }

    /** run, once the table is valid and rendered. */
    method Run(r: Rendering, check: bool) returns (result: Outcome)
      modifies this
      ensures check ==> files == old(files)
      ensures result.Fine? || result.Stale? ==>
                r.docsPath in old(files) && Replaced(DOCS_BEGIN, DOCS_END, old(files)[r.docsPath], r.docsBody).Some?
      ensures result.Fine? || result.Stale? ==>
                var outputs := Outputs(Replaced(DOCS_BEGIN, DOCS_END, old(files)[r.docsPath], r.docsBody).value, r);
                if check then
                  result == if StalePaths(files, outputs) == [] then Fine else Stale(StalePaths(files, outputs))
                else result == Fine && files == Written(old(files), outputs)
      ensures result.Failed? ==>
                r.goPath in broken || r.tsPath in broken || r.docsPath in broken || r.docsPath !in old(files)
                || Region(DOCS_BEGIN, DOCS_END, old(files)[r.docsPath]).None?
    {
      if r.docsPath in broken || r.docsPath !in files {
        return Failed;
      }
      var guide := Replaced(DOCS_BEGIN, DOCS_END, files[r.docsPath], r.docsBody);
      if guide.None? {
        return Failed;
      }
      var outputs := Outputs(guide.value, r);
      var stale: seq<string> := [];
      for i := 0 to |outputs|
        invariant stale == if check then StalePaths(old(files), outputs[..i]) else []
        invariant files == if check then old(files) else Written(old(files), outputs[..i])
      {
        var o := outputs[i];
        assert outputs[..i + 1][..i] == outputs[..i];
        if o.path in broken {
          return Failed;
        }
        if check {
          if o.path !in files || files[o.path] != o.body {
            stale := stale + [o.path];
          }
        } else {
          files := files[o.path := o.body];
        }
      }
      assert outputs[..|outputs|] == outputs;
      result := if |stale| > 0 then Stale(stale) else Fine;
    }
  }

  lemma {:induction false} NothingStale(files: map<string, string>, outputs: seq<Output>)
    ensures StalePaths(files, outputs) == [] <==> forall o :: o in outputs ==> UpToDate(files, o)
  {
    if outputs != [] {
      NothingStale(files, outputs[..|outputs| - 1]);
      assert outputs == outputs[..|outputs| - 1] + [outputs[|outputs| - 1]];
    }
  }

  lemma WrittenThree(files: map<string, string>, a: Output, b: Output, c: Output)
    ensures Written(files, [a, b, c]) == files[a.path := a.body][b.path := b.body][c.path := c.body]
  {
    assert [a, b, c][..2] == [a, b] && [a, b][..1] == [a] && [a][..0] == [];
    assert Written(files, [a]) == files[a.path := a.body];
    assert Written(files, [a, b]) == files[a.path := a.body][b.path := b.body];
  }

  /** After a write, only the guide can differ from what is rendered next. */
  lemma OnlyGuideCanDiffer(files: map<string, string>, r: Rendering, guide: string, again: string)
    requires r.goPath != r.tsPath && r.goPath != r.docsPath && r.tsPath != r.docsPath
    ensures var after := Written(files, Outputs(guide, r));
            r.docsPath in after && after[r.docsPath] == guide
            && (StalePaths(after, Outputs(again, r)) == [] <==> guide == again)
  {
    var after := Written(files, Outputs(guide, r));
    WrittenThree(files, Output(r.goPath, r.goSource), Output(r.tsPath, r.tsSource), Output(r.docsPath, guide));
    NothingStale(after, Outputs(again, r));
    assert Output(r.docsPath, again) in Outputs(again, r);
  }

  /** A check right after a write finds nothing stale, exactly when the table's text holds no end marker. */
  lemma CheckAfterWriteExactly(files: map<string, string>, r: Rendering)
    requires r.goPath != r.tsPath && r.goPath != r.docsPath && r.tsPath != r.docsPath
    requires r.docsPath in files && Region(DOCS_BEGIN, DOCS_END, files[r.docsPath]).Some?
    ensures var guide := Replaced(DOCS_BEGIN, DOCS_END, files[r.docsPath], r.docsBody).value;
            var after := Written(files, Outputs(guide, r));
            var again := Replaced(DOCS_BEGIN, DOCS_END, guide, r.docsBody);
            r.docsPath in after && after[r.docsPath] == guide && again.Some?
            && (StalePaths(after, Outputs(again.value, r)) == [] <==> !Contains(r.docsBody, DOCS_END))
  {
    MarkersAreSeparate();
    CheckAfterWrite(DOCS_BEGIN, DOCS_END, files, r);
  }

  lemma CheckAfterWrite(begin: string, end: string, files: map<string, string>, r: Rendering)
    requires Separate(begin, end)
    requires r.goPath != r.tsPath && r.goPath != r.docsPath && r.tsPath != r.docsPath
    requires r.docsPath in files && Region(begin, end, files[r.docsPath]).Some?
    ensures var guide := Replaced(begin, end, files[r.docsPath], r.docsBody).value;
            var after := Written(files, Outputs(guide, r));
            var again := Replaced(begin, end, guide, r.docsBody);
            r.docsPath in after && after[r.docsPath] == guide && again.Some?
            && (StalePaths(after, Outputs(again.value, r)) == [] <==> !Contains(r.docsBody, end))
  {
    var guide := Replaced(begin, end, files[r.docsPath], r.docsBody).value;
    IdempotentExactly(begin, end, files[r.docsPath], r.docsBody);
    if Contains(r.docsBody, end) {
      GrowsEachTime(begin, end, files[r.docsPath], r.docsBody);
    }
    OnlyGuideCanDiffer(files, r, guide, Replaced(begin, end, guide, r.docsBody).value);
  }
}
