/** The few operations of Go's `strings` package that the modelled code relies on. */
module Strings {

  predicate HasPrefix(s: string, prefix: string) {
    prefix <= s
  }

  predicate HasSuffix(s: string, suffix: string) {
    |suffix| <= |s| && s[|s| - |suffix|..] == suffix
  }

  function TrimPrefix(s: string, prefix: string): string {
    if prefix <= s then s[|prefix|..] else s
  }

  predicate Contains(s: string, sub: string) {
    exists i :: 0 <= i <= |s| && sub <= s[i..]
  }

  /** The position of the first `c` in `s`, or -1. */
  function Index(s: string, c: char): (i: int)
    ensures -1 <= i < |s|
    ensures i >= 0 ==> s[i] == c && c !in s[..i]
    ensures i < 0 <==> c !in s
  {
    if s == "" then -1
    else if s[0] == c then 0
    else
      var j := Index(s[1..], c);
      assert s == [s[0]] + s[1..];
      if j < 0 then -1 else
        assert s[..j + 1] == [s[0]] + s[1..][..j];
        j + 1
  }

  lemma IndexIs(s: string, c: char, i: nat)
    requires i < |s| && s[i] == c && c !in s[..i]
    ensures Index(s, c) == i
  {
    assert s[..i] + [c] + s[i + 1..] == s;
  }

  /** Two strings cut at their first `c` are equal only when both halves are. */
  lemma CutIsUnique(a: string, x: string, b: string, y: string, c: char)
    requires c !in a && c !in b
    requires a + [c] + x == b + [c] + y
    ensures a == b && x == y
  {
    var s, t := a + [c] + x, b + [c] + y;
    assert s[..|a|] == a && s[|a|] == c && s[|a| + 1..] == x;
    assert t[..|b|] == b && t[|b|] == c && t[|b| + 1..] == y;
    IndexIs(s, c, |a|);
    IndexIs(t, c, |b|);
  }

  /** `strings.Replace(s, old, new, -1)` for a non-empty `old`: leftmost, non-overlapping. */
  function ReplaceAll(s: string, old': string, new': string): string
    requires old' != ""
  {
    if |s| < |old'| then s
    else if old' <= s then new' + ReplaceAll(s[|old'|..], old', new')
    else [s[0]] + ReplaceAll(s[1..], old', new')
  }

  /** `strings.Split(s, c)` for a one-character separator. */
  function Split(s: string, c: char): (parts: seq<string>)
    ensures |parts| > 0
  {
    var i := Index(s, c);
    if i < 0 then [s] else [s[..i]] + Split(s[i + 1..], c)
  }

  function JoinWith(parts: seq<string>, c: char): string
    requires |parts| > 0
  {
    if |parts| == 1 then parts[0] else parts[0] + [c] + JoinWith(parts[1..], c)
  }

  /** Split gives the only parts without the separator that joined by it make the text. */
  lemma {:induction false} SplitIs(s: string, c: char, parts: seq<string>)
    requires |parts| > 0
    ensures parts == Split(s, c) <==> JoinWith(parts, c) == s && forall i :: 0 <= i < |parts| ==> c !in parts[i]
    decreases |s| + |parts|
  {
    SplitJoins(s, c);
    if JoinWith(parts, c) == s && forall i :: 0 <= i < |parts| ==> c !in parts[i] {
      JoinSplits(parts, c);
    }
  }

  lemma {:induction false} SplitJoins(s: string, c: char)
    ensures JoinWith(Split(s, c), c) == s && forall i :: 0 <= i < |Split(s, c)| ==> c !in Split(s, c)[i]
    decreases s
  {
    hide Index, JoinWith;
    var i := Index(s, c);
    if i < 0 {
      JoinOne(s, c);
    } else {
      var parts := Split(s[i + 1..], c);
      SplitJoins(s[i + 1..], c);
      JoinMore(s[..i], parts, c);
      assert Split(s, c) == [s[..i]] + parts && s == s[..i] + [c] + s[i + 1..];
    }
  }

  lemma JoinOne(s: string, c: char)
    ensures JoinWith([s], c) == s
  {
  }

  lemma JoinMore(s: string, parts: seq<string>, c: char)
    requires |parts| > 0
    ensures JoinWith([s] + parts, c) == s + [c] + JoinWith(parts, c)
  {
    assert ([s] + parts)[1..] == parts;
  }

  lemma {:induction false} JoinSplits(parts: seq<string>, c: char)
    requires |parts| > 0 && forall i :: 0 <= i < |parts| ==> c !in parts[i]
    ensures Split(JoinWith(parts, c), c) == parts
    decreases parts
  {
    var s := JoinWith(parts, c);
    if |parts| > 1 {
      var rest := JoinWith(parts[1..], c);
      assert s == parts[0] + [c] + rest && s[..|parts[0]|] == parts[0] && s[|parts[0]| + 1..] == rest;
      IndexIs(s, c, |parts[0]|);
      JoinSplits(parts[1..], c);
    }
  }

  /** unicode.IsSpace. */
  predicate IsSpace(c: char) {
    c in {' ', '\t', '\n', '\r', '\U{000B}', '\U{000C}', '\U{0085}', '\U{00A0}', '\U{1680}'} ||
    '\U{2000}' <= c <= '\U{200A}' || c in {'\U{2028}', '\U{2029}', '\U{202F}', '\U{205F}', '\U{3000}'}
  }

  function TrimLeft(s: string): string {
    if s != "" && IsSpace(s[0]) then TrimLeft(s[1..]) else s
  }

  function TrimSpace(s: string): string {
    TrimRight(TrimLeft(s))
  }

  function TrimRight(s: string): string {
    if s != "" && IsSpace(s[|s| - 1]) then TrimRight(s[..|s| - 1]) else s
  }

  ghost predicate AllSpace(s: string) {
    forall i :: 0 <= i < |s| ==> IsSpace(s[i])
  }

  ghost predicate NoSpaceAround(s: string) {
    s != "" ==> !IsSpace(s[0]) && !IsSpace(s[|s| - 1])
  }

  lemma {:induction false} TrimLeftIs(s: string) returns (l: string)
    ensures s == l + TrimLeft(s) && AllSpace(l) && (TrimLeft(s) != "" ==> !IsSpace(TrimLeft(s)[0]))
    decreases s
  {
    hide IsSpace;
    if s != "" && IsSpace(s[0]) {
      var m := TrimLeftIs(s[1..]);
      l := [s[0]] + m;
    } else {
      l := "";
    }
  }

  lemma {:induction false} TrimRightIs(s: string) returns (r: string)
    ensures s == TrimRight(s) + r && AllSpace(r)
    ensures TrimRight(s) != "" ==> !IsSpace(TrimRight(s)[|TrimRight(s)| - 1]) && TrimRight(s)[0] == s[0]
    decreases s
  {
    hide IsSpace;
    if s != "" && IsSpace(s[|s| - 1]) {
      var m := TrimRightIs(s[..|s| - 1]);
      r := m + [s[|s| - 1]];
    } else {
      r := "";
    }
  }

  /** TrimSpace cuts white space off both ends, and all of it. */
  lemma TrimSpaceIs(s: string) returns (l: string, r: string)
    ensures s == l + TrimSpace(s) + r && AllSpace(l) && AllSpace(r) && NoSpaceAround(TrimSpace(s))
  {
    hide IsSpace, TrimLeft, TrimRight, AllSpace;
    l := TrimLeftIs(s);
    r := TrimRightIs(TrimLeft(s));
  }
}
