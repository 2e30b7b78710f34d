/** The string operations the ACL relies on: strings.Cut and strings.TrimSpace. */
module Text {

  import opened Wrappers

  /** The index of the first `c`, or |s| when there is none. */
  function IndexOf(s: string, c: char): (i: nat)
    ensures i <= |s| && c !in s[..i]
    ensures i < |s| ==> s[i] == c
  {
    if s == "" then 0
    else if s[0] == c then 0
    else
      var i := IndexOf(s[1..], c) + 1;
      assert s[..i] == [s[0]] + s[1..][..i - 1];
      i
  }

  /** strings.Cut(s, c): the part before, and the part after if `c` occurs. */
  function Cut(s: string, c: char): (parts: (string, Option<string>))
    ensures c !in parts.0
    ensures parts.1.None? <==> c !in s
    ensures s == match parts.1 case None => parts.0 case Some(rest) => parts.0 + [c] + rest
  {
    var i := IndexOf(s, c);
    if i == |s| then (s, None) else (s[..i], Some(s[i + 1..]))
  }

  lemma CutOf(left: string, c: char, right: string)
    requires c !in left
    ensures Cut(left + [c] + right, c) == (left, Some(right))
  {
    var s := left + [c] + right;
    var i := IndexOf(s, c);
    assert s[|left|] == c && s[..|left|] == left;
    assert i == |left|;
    assert s[..|left|] == left && s[|left| + 1..] == right;
  }

  predicate IsSpace(c: char) {
    c in {'\t', '\n', '\r', ' ', '\U{0B}', '\U{0C}', '\U{85}', '\U{A0}', '\U{1680}',
          '\U{2028}', '\U{2029}', '\U{202F}', '\U{205F}', '\U{3000}'}
    || '\U{2000}' <= c <= '\U{200A}'
  }

  function TrimSpace(s: string): string {
    if s == "" then s
    else if IsSpace(s[0]) then TrimSpace(s[1..])
    else if IsSpace(s[|s| - 1]) then TrimSpace(s[..|s| - 1])
    else s
  }

  /** isBlank: only ASCII space, tab, line feed or carriage return. */
  predicate IsBlank(s: string) {
    forall c :: c in s ==> c in {' ', '\t', '\n', '\r'}
  }
}
