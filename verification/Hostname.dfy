/**
 The rewrite of a configured host name into a legal one, label by label
 (alphabet as in section 2.1 of RFC 1123, with lower-case letters only).
 Strings are byte strings: an illegal multi-byte character counts one position
 per byte.
 */
module Hostname {

  const MAX_LENGTH: nat := 64

  /** What a call leads to; a non-empty label without a legal byte indexes an empty match list. */
  datatype Outcome = Name(name: string) | EmptyHostname | IndexPanic

  predicate Legal(c: char) {
    'a' <= c <= 'z' || '0' <= c <= '9' || c == '-'
  }

  predicate HasLegal(e: string) {
    exists i :: 0 <= i < |e| && Legal(e[i])
  }

  // ------------------------------------------------------------- specification

  /** Every illegal byte replaced. */
  function Masked(e: string): (r: string)
    ensures |r| == |e| && forall i :: 0 <= i < |e| ==> r[i] == if Legal(e[i]) then e[i] else '-'
  {
    seq(|e|, i requires 0 <= i < |e| => if Legal(e[i]) then e[i] else '-')
  }

  /** Leading illegal bytes dropped, the others replaced. */
  function CleanLabel(e: string): (r: string) {
    if e == "" then "" else if Legal(e[0]) then Masked(e) else CleanLabel(e[1..])
  }

  /** What label number `k` contributes. */
  function Piece(e: string, k: nat): (r: string) {
    if e == "" then "" else (if k == 0 then "" else ".") + CleanLabel(e)
  }

  function CleanLabels(ls: seq<string>): (h: string) {
    if ls == [] then "" else CleanLabels(ls[..|ls| - 1]) + Piece(ls[|ls| - 1], |ls| - 1)
  }

  /** `strings.Split(s, ".")` */
  function SplitDots(s: string): (ls: seq<string>)
    ensures |ls| >= 1
    ensures forall i :: 0 <= i < |ls| ==> '.' !in ls[i]
  {
    if s == "" then [""]
    else
      var rest := SplitDots(s[1..]);
      if s[0] == '.' then [""] + rest else [[s[0]] + rest[0]] + rest[1..]
  }

  function TrimDash(s: string): (r: string) {
    if s != "" && s[0] == '-' then s[1..] else s
  }

  function Truncate(s: string, n: nat): (r: string) {
    if |s| <= n then s else s[..n]
  }

  predicate Acceptable(e: string) {
    e == "" || HasLegal(e)
  }

  predicate Panics(ls: seq<string>) {
    exists i :: 0 <= i < |ls| && !Acceptable(ls[i])
  }

  function HostnameOf(s: string): (r: Outcome) {
    if s == "" then EmptyHostname
    else
      var ls := SplitDots(TrimDash(s));
      if Panics(ls) then IndexPanic else Name(Truncate(CleanLabels(ls), MAX_LENGTH))
  }

  // ------------------------------------------------------------------ program

  /** The positions of the legal bytes, in order. */
  ghost predicate Matches(e: string, indexes: seq<nat>) {
    && (forall i :: 0 <= i < |indexes| ==> indexes[i] < |e| && Legal(e[indexes[i]]))
    && (forall i, j :: 0 <= i < j < |indexes| ==> indexes[i] < indexes[j])
    && (forall p :: 0 <= p < |e| && Legal(e[p]) ==> p in indexes)
  }

  /** `FindAllIndex` for the one-byte pattern of legal characters. */
  method FindLegal(e: string) returns (indexes: seq<nat>)
    ensures Matches(e, indexes)
  {
    indexes := [];
    for p := 0 to |e|
      invariant forall i :: 0 <= i < |indexes| ==> indexes[i] < p && Legal(e[indexes[i]])
      invariant forall i, j :: 0 <= i < j < |indexes| ==> indexes[i] < indexes[j]
      invariant forall q :: 0 <= q < p && Legal(e[q]) ==> q in indexes
    {
      if Legal(e[p]) {
        indexes := indexes + [p];
      }
    }
  }

  /** Nothing between two neighbouring matches is a match. */
  lemma NoneBetween(e: string, indexes: seq<nat>, i: nat, p: nat)
    requires Matches(e, indexes) && 0 < i < |indexes| && indexes[i - 1] < p < indexes[i]
    ensures !Legal(e[p])
  {
    forall j | 0 <= j < |indexes|
      ensures indexes[j] != p
    {
      assert j < i - 1 ==> indexes[j] < indexes[i - 1];
      assert i < j ==> indexes[i] < indexes[j];
    }
  }

  /** Nothing in front of the first match or behind the last is a match. */
  lemma NoneOutside(e: string, indexes: seq<nat>, p: nat)
    requires Matches(e, indexes) && p < |e|
    requires indexes == [] || p < indexes[0] || indexes[|indexes| - 1] < p
    ensures !Legal(e[p])
  {
    forall j | 0 <= j < |indexes|
      ensures indexes[j] != p
    {
      assert 0 < j ==> indexes[0] < indexes[j];
      assert j < |indexes| - 1 ==> indexes[j] < indexes[|indexes| - 1];
    }
  }

  function Dashes(n: nat): (r: string)
    ensures |r| == n && forall i :: 0 <= i < n ==> r[i] == '-'
  {
    seq(n, _ => '-')
  }

  lemma MaskedGap(e: string, from: nat, to: nat)
    requires from <= to <= |e| && forall p :: from <= p < to ==> !Legal(e[p])
    ensures Masked(e)[from..to] == Dashes(to - from)
  {
  }

  lemma MaskedMore(e: string, first: nat, end: nat, next: nat)
    requires first <= end <= next < |e| && Legal(e[next]) && forall p :: end <= p < next ==> !Legal(e[p])
    ensures Masked(e)[first..next + 1] == Masked(e)[first..end] + Dashes(next - end) + e[next..next + 1]
  {
    MaskedGap(e, end, next);
    var m := Masked(e);
    hide Masked, Dashes;
    assert m[first..next + 1] == m[first..end] + m[end..next] + m[next..next + 1];
    assert m[next..next + 1] == e[next..next + 1];
  }

  /** One label: matched bytes joined, each gap behind the first match filled up with dashes. */
  method CleanElement(e: string, prefix: string) returns (ok: bool, validated: string)
    ensures ok <==> HasLegal(e)
    ensures ok ==> validated == prefix + CleanLabel(e)
  {
    var indexes := FindLegal(e);
    validated := prefix;
    if indexes == [] {
      forall p: nat | p < |e| { NoneOutside(e, indexes, p); }
      return false, prefix;
    }
    assert Legal(e[indexes[0]]);
    hide Masked, Dashes, CleanLabel;
    ghost var first := indexes[0];
    validated := JoinMatches(e, indexes, prefix);
    var end := indexes[|indexes| - 1] + 1;
    validated := validated + Dashes(|e| - end);
    forall p: nat | p < first || end <= p < |e| ensures !Legal(e[p]) { NoneOutside(e, indexes, p); }
    MaskedGap(e, end, |e|);
    assert Masked(e)[first..] == Masked(e)[first..end] + Masked(e)[end..|e|];
    CleanFrom(e, first);
    ok := true;
  }

  lemma Regroup(prefix: string, a: string, d: string, x: string)
    ensures prefix + (a + d + x) == ((prefix + a) + d) + x
    ensures d == "" ==> prefix + (a + d + x) == (prefix + a) + x
    ensures a == "" && d == "" ==> prefix + (a + d + x) == prefix + x
  {
  }

  /** The prefix and the label from its first match through match number `i`, counted from one. */
  ghost function Matched(e: string, indexes: seq<nat>, i: nat, prefix: string): (r: string)
    requires Matches(e, indexes) && i <= |indexes|
  {
    if i == 0 then prefix else prefix + Masked(e)[indexes[0]..indexes[i - 1] + 1]
  }

  lemma MatchedFirst(e: string, indexes: seq<nat>, prefix: string)
    requires Matches(e, indexes) && indexes != []
    ensures Matched(e, indexes, 1, prefix) == prefix + e[indexes[0]..indexes[0] + 1]
  {
    var first := indexes[0];
    hide Masked, Dashes, Matches;
    MaskedMore(e, first, first, first);
    Regroup(prefix, Masked(e)[first..first], Dashes(0), e[first..first + 1]);
  }

  lemma GapIsClear(e: string, indexes: seq<nat>, i: nat)
    requires Matches(e, indexes) && 0 < i < |indexes|
    ensures indexes[0] < indexes[i - 1] + 1 <= indexes[i] < |e| && Legal(e[indexes[i]])
    ensures forall p :: indexes[i - 1] + 1 <= p < indexes[i] ==> !Legal(e[p])
  {
    forall p: nat | indexes[i - 1] + 1 <= p < indexes[i] ensures !Legal(e[p]) { NoneBetween(e, indexes, i, p); }
  }

  lemma MatchedMore(e: string, indexes: seq<nat>, i: nat, prefix: string)
    requires Matches(e, indexes) && 0 < i < |indexes|
    ensures var gap, newElem := indexes[i] - (indexes[i - 1] + 1), e[indexes[i]..indexes[i] + 1];
            && 0 <= gap
            && Matched(e, indexes, i + 1, prefix) == (Matched(e, indexes, i, prefix) + Dashes(gap)) + newElem
            && (gap == 0 ==> Matched(e, indexes, i + 1, prefix) == Matched(e, indexes, i, prefix) + newElem)
  {
    hide Masked, Dashes, Matches, Legal;
    GapIsClear(e, indexes, i);
    MatchedIs(e, indexes, i, prefix);
    MatchedIs(e, indexes, i + 1, prefix);
    hide Matched;
    ExtendedBy(e, indexes[0], indexes[i - 1] + 1, indexes[i], prefix);
  }

  lemma MatchedIs(e: string, indexes: seq<nat>, i: nat, prefix: string)
    requires Matches(e, indexes) && 0 < i <= |indexes|
    ensures indexes[0] <= indexes[i - 1] < |e|
    ensures Matched(e, indexes, i, prefix) == prefix + Masked(e)[indexes[0]..indexes[i - 1] + 1]
  {
  }

  lemma ExtendedBy(e: string, first: nat, end: nat, next: nat, prefix: string)
    requires first <= end <= next < |e| && Legal(e[next]) && forall p :: end <= p < next ==> !Legal(e[p])
    ensures var m, x := Masked(e), e[next..next + 1];
            && prefix + m[first..next + 1] == ((prefix + m[first..end]) + Dashes(next - end)) + x
            && (next == end ==> prefix + m[first..next + 1] == (prefix + m[first..end]) + x)
  {
    hide Masked, Dashes, Legal;
    MaskedMore(e, first, end, next);
    Regroup(prefix, Masked(e)[first..end], Dashes(next - end), e[next..next + 1]);
  }

  method JoinMatches(e: string, indexes: seq<nat>, prefix: string) returns (validated: string)
    requires Matches(e, indexes) && indexes != []
    ensures validated == prefix + Masked(e)[indexes[0]..indexes[|indexes| - 1] + 1]
  {
    hide Masked, Dashes;
    validated := prefix;
    var i := 0;
    while i < |indexes|
      invariant 0 <= i <= |indexes|
      invariant validated == Matched(e, indexes, i, prefix)
    {
      var newElem := e[indexes[i]..indexes[i] + 1];
      if i == 0 {
        MatchedFirst(e, indexes, prefix);
      } else {
        MatchedMore(e, indexes, i, prefix);
        var endPrev := indexes[i - 1] + 1;
        if indexes[i] - endPrev > 0 {
          validated := validated + Dashes(indexes[i] - endPrev);
        }
      }
      validated := validated + newElem;
      i := i + 1;
    }
  }

  lemma {:induction false} CleanFrom(e: string, first: nat)
    requires first < |e| && Legal(e[first]) && forall p :: 0 <= p < first ==> !Legal(e[p])
    ensures CleanLabel(e) == Masked(e)[first..]
    decreases first
  {
    if first > 0 {
      CleanFrom(e[1..], first - 1);
      assert Masked(e)[1..] == Masked(e[1..]);
    }
  }

  lemma CleanLabelsMore(ls: seq<string>, k: nat)
    requires k < |ls|
    ensures CleanLabels(ls[..k + 1]) == CleanLabels(ls[..k]) + Piece(ls[k], k)
  {
    assert ls[..k + 1][..k] == ls[..k];
  }

  /** One turn of the loop over the labels. */
  method AppendElement(h: string, e: string, k: nat) returns (ok: bool, h': string)
    ensures ok <==> Acceptable(e)
    ensures ok ==> h' == h + Piece(e, k)
  {
    ok, h' := true, h;
    if |e| != 0 {
      hide CleanLabel, HasLegal;
      var validated;
      ok, validated := CleanElement(e, if k != 0 then "." else "");
      h' := h + validated;
    }
  }

  method CleanElements(elements: seq<string>) returns (ok: bool, h: string)
    ensures ok <==> !Panics(elements)
    ensures ok ==> h == CleanLabels(elements)
  {
    hide Piece, Acceptable;
    ok, h := true, "";
    var k := 0;
    while k < |elements|
      invariant 0 <= k <= |elements| && h == CleanLabels(elements[..k])
      invariant forall i :: 0 <= i < k ==> Acceptable(elements[i])
    {
      CleanLabelsMore(elements, k);
      hide CleanLabels;
      ok, h := AppendElement(h, elements[k], k);
      if !ok {
        return;
      }
      k := k + 1;
    }
    assert elements[..|elements|] == elements;
  }

  method ValidateHostname(hostname: string) returns (r: Outcome)
    ensures r == HostnameOf(hostname)
  {
    hide CleanLabels, SplitDots, Panics;
    if |hostname| == 0 {
      return EmptyHostname;
    }
    var ok, h := CleanElements(SplitDots(TrimDash(hostname)));
    r := if ok then Name(Truncate(h, MAX_LENGTH)) else IndexPanic;
  }

  // ----------------------------------------------------- what the result is like

  ghost predicate NoAdjacentDots(s: string) {
    forall i :: 0 <= i < |s| - 1 ==> s[i] != '.' || s[i + 1] != '.'
  }

  ghost predicate LegalOrDots(s: string) {
    forall i :: 0 <= i < |s| ==> Legal(s[i]) || s[i] == '.'
  }

  ghost predicate EndsInDot(s: string) {
    s != "" && s[|s| - 1] == '.'
  }

  /** Only legal bytes and single dots, not beginning with a dash or ending with a dot, and not too long. */
  ghost predicate Canonical(s: string) {
    && s != "" && |s| <= MAX_LENGTH
    && LegalOrDots(s) && NoAdjacentDots(s) && s[0] != '-' && !EndsInDot(s)
  }

  lemma {:induction false} CleanLabelLegal(e: string)
    ensures |CleanLabel(e)| <= |e|
    ensures forall i :: 0 <= i < |CleanLabel(e)| ==> Legal(CleanLabel(e)[i])
    ensures HasLegal(e) ==> CleanLabel(e) != ""
  {
    if e != "" && !Legal(e[0]) {
      CleanLabelLegal(e[1..]);
      if HasLegal(e) {
        var i :| 0 <= i < |e| && Legal(e[i]);
        assert e[1..][i - 1] == e[i];
      }
    }
  }

  lemma AppendPiece(h: string, e: string, k: nat)
    requires LegalOrDots(h) && NoAdjacentDots(h) && !EndsInDot(h) && Acceptable(e)
    ensures var r := h + Piece(e, k);
            LegalOrDots(r) && NoAdjacentDots(r) && !EndsInDot(r)
    ensures |Piece(e, k)| <= |e| + (if k == 0 then 0 else 1)
  {
    CleanLabelLegal(e);
    hide CleanLabel, HasLegal;
    var p := Piece(e, k);
    assert forall i :: 0 <= i < |p| ==> Legal(p[i]) || (i == 0 && p[i] == '.');
    var r := h + p;
    forall i | 0 <= i < |r| - 1
      ensures r[i] != '.' || r[i + 1] != '.'
    {
      if i >= |h| {
        assert r[i + 1] == p[i + 1 - |h|];
      }
    }
  }

  /** The length of the text that splits into these labels. */
  function Extent(ls: seq<string>): (n: nat) {
    if ls == [] then 0 else Extent(ls[..|ls| - 1]) + |ls[|ls| - 1]| + (if |ls| == 1 then 0 else 1)
  }

  lemma {:induction false} CleanLabelsShape(ls: seq<string>)
    requires !Panics(ls)
    ensures var h := CleanLabels(ls);
            LegalOrDots(h) && NoAdjacentDots(h) && !EndsInDot(h) && |h| <= Extent(ls)
    decreases |ls|
  {
    if ls != [] {
      var n := |ls| - 1;
      assert !Panics(ls[..n]);
      CleanLabelsShape(ls[..n]);
      AppendPiece(CleanLabels(ls[..n]), ls[n], n);
    }
  }

  /** The labels put together again. */
  function Joined(ls: seq<string>): (s: string)
    requires ls != []
  {
    if |ls| == 1 then ls[0] else Joined(ls[..|ls| - 1]) + "." + ls[|ls| - 1]
  }

  lemma {:induction false} JoinedCons(a: string, ls: seq<string>)
    requires ls != []
    ensures Joined([a] + ls) == a + "." + Joined(ls)
    decreases |ls|
  {
    var all, n := [a] + ls, |ls| - 1;
    if n == 0 {
      assert all[..1] == [a];
    } else {
      assert all[..|all| - 1] == [a] + ls[..n];
      JoinedCons(a, ls[..n]);
    }
  }

  lemma {:induction false} JoinedFirst(c: char, ls: seq<string>)
    requires ls != []
    ensures Joined([[c] + ls[0]] + ls[1..]) == [c] + Joined(ls)
  {
    if |ls| == 1 {
      assert [[c] + ls[0]] + ls[1..] == [[c] + ls[0]];
    } else {
      JoinedCons([c] + ls[0], ls[1..]);
      JoinedCons(ls[0], ls[1..]);
      assert ls == [ls[0]] + ls[1..];
    }
  }

  /** Splitting at the dots loses nothing. */
  lemma {:induction false} JoinedSplit(s: string)
    ensures Joined(SplitDots(s)) == s
  {
    if s != "" {
      var rest := SplitDots(s[1..]);
      JoinedSplit(s[1..]);
      if s[0] == '.' {
        JoinedCons("", rest);
      } else {
        JoinedFirst(s[0], rest);
      }
    }
  }

  lemma {:induction false} ExtentIsLength(ls: seq<string>)
    requires ls != []
    ensures Extent(ls) == |Joined(ls)|
    decreases |ls|
  {
    var n := |ls| - 1;
    if n > 0 {
      ExtentIsLength(ls[..n]);
    } else {
      assert ls[..0] == [];
    }
  }

  /** The result uses only legal bytes and single dots, and is at most 64 bytes long. */
  lemma HostnameIsLegal(s: string)
    ensures HostnameOf(s).Name? ==>
              && LegalOrDots(HostnameOf(s).name) && NoAdjacentDots(HostnameOf(s).name)
              && |HostnameOf(s).name| <= MAX_LENGTH && |HostnameOf(s).name| <= |TrimDash(s)|
  {
    if HostnameOf(s).Name? {
      var t := TrimDash(s);
      CleanLabelsShape(SplitDots(t));
      ExtentIsLength(SplitDots(t));
      JoinedSplit(t);
    }
  }

  // ------------------------------------------------------------- fixed points

  predicate AllLegal(e: string) {
    forall i :: 0 <= i < |e| ==> Legal(e[i])
  }

  lemma {:induction false} LegalLabelUnchanged(e: string)
    requires AllLegal(e)
    ensures CleanLabel(e) == e
  {
    if e != "" {
      assert Masked(e) == e;
    }
  }

  /** Labels that are legal, and non-empty but for the first, are put together as they were. */
  lemma {:induction false} LegalLabelsUnchanged(ls: seq<string>)
    requires ls != []
    requires GoodLabels(ls)
    ensures CleanLabels(ls) == Joined(ls)
    decreases |ls|
  {
    var n := |ls| - 1;
    hide AllLegal, GoodLabels, CleanLabel, CleanLabels, Joined, Piece;
    GoodPrefix(ls, n);
    GoodPiece(ls[n], n);
    CleanLabelsMore(ls, n);
    assert ls[..n + 1] == ls;
    JoinedMore(ls);
    if n > 0 {
      LegalLabelsUnchanged(ls[..n]);
    } else {
      CleanNothing(ls[..n]);
    }
  }

  lemma GoodPiece(e: string, k: nat)
    requires AllLegal(e) && (k > 0 ==> e != "")
    ensures Piece(e, k) == if k == 0 then e else "." + e
  {
    hide AllLegal, CleanLabel;
    LegalLabelUnchanged(e);
  }

  lemma {:induction false} JoinedMore(ls: seq<string>)
    requires ls != []
    ensures var n := |ls| - 1;
            Joined(ls) == if n == 0 then ls[0] else Joined(ls[..n]) + ("." + ls[n])
  {
    var n := |ls| - 1;
    if n > 0 {
      assert Joined(ls) == Joined(ls[..n]) + "." + ls[n];
      hide Joined;
      assert Joined(ls[..n]) + "." + ls[n] == Joined(ls[..n]) + ("." + ls[n]);
    }
  }

  lemma CleanNothing(ls: seq<string>)
    requires ls == []
    ensures CleanLabels(ls) == ""
  {
  }

  lemma GoodPrefix(ls: seq<string>, n: nat)
    requires GoodLabels(ls) && n < |ls|
    ensures GoodLabels(ls[..n]) && AllLegal(ls[n]) && (n > 0 ==> ls[n] != "")
  {
  }

  /** Legal labels, none of them empty but perhaps the first. */
  ghost predicate GoodLabels(ls: seq<string>) {
    (forall i :: 0 <= i < |ls| ==> AllLegal(ls[i])) && (forall i :: 0 < i < |ls| ==> ls[i] != "")
  }

  lemma GoodAfterDot(rest: seq<string>)
    requires GoodLabels(rest) && rest != [] && rest[0] != ""
    ensures GoodLabels([""] + rest)
  {
  }

  lemma GoodAfterChar(c: char, rest: seq<string>)
    requires GoodLabels(rest) && rest != [] && Legal(c)
    ensures GoodLabels([[c] + rest[0]] + rest[1..])
  {
    assert AllLegal(rest[0]);
    assert AllLegal([c] + rest[0]);
    hide AllLegal;
    var ls := [[c] + rest[0]] + rest[1..];
    assert forall i :: 0 < i < |ls| ==> ls[i] == rest[i];
  }

  /** What is canonical but for the ends stays so without its first byte. */
  ghost predicate Regular(s: string) {
    LegalOrDots(s) && NoAdjacentDots(s) && !EndsInDot(s)
  }

  lemma RegularTail(s: string)
    requires Regular(s) && s != ""
    ensures Regular(s[1..]) && (Legal(s[0]) || s[0] == '.')
    ensures s[0] == '.' ==> s[1..] != "" && s[1..][0] != '.'
  {
    var t := s[1..];
    assert forall i :: 0 <= i < |t| ==> t[i] == s[i + 1];
  }

  lemma {:induction false} SplitOfCanonical(s: string)
    requires Regular(s)
    ensures GoodLabels(SplitDots(s)) && (s != "" && s[0] != '.' ==> SplitDots(s)[0] != "")
  {
    hide Regular, GoodLabels;
    if s == "" {
      GoodNothing();
    } else {
      var rest := SplitDots(s[1..]);
      RegularTail(s);
      SplitOfCanonical(s[1..]);
      if s[0] == '.' {
        GoodAfterDot(rest);
      } else {
        GoodAfterChar(s[0], rest);
      }
    }
  }

  lemma GoodNothing()
    ensures GoodLabels([""])
  {
  }

  lemma GoodAcceptable(ls: seq<string>)
    requires GoodLabels(ls)
    ensures !Panics(ls)
  {
    forall i | 0 <= i < |ls|
      ensures Acceptable(ls[i])
    {
      assert AllLegal(ls[i]);
      assert ls[i] != "" ==> Legal(ls[i][0]);
    }
  }

  lemma CanonicalIsFixed(s: string)
    requires Canonical(s)
    ensures HostnameOf(s) == Name(s)
  {
    assert Regular(s);
    hide CleanLabels, SplitDots, Panics, GoodLabels, Regular, Joined;
    SplitOfCanonical(s);
    LegalLabelsUnchanged(SplitDots(s));
    JoinedSplit(s);
    GoodAcceptable(SplitDots(s));
  }

  /** The rewrite leaves exactly the canonical host names as they are. */
  lemma FixedPoints(s: string)
    ensures HostnameOf(s) == Name(s) <==> Canonical(s)
  {
    if Canonical(s) {
      CanonicalIsFixed(s);
    }
    if HostnameOf(s) == Name(s) {
      HostnameIsLegal(s);
      var ls := SplitDots(TrimDash(s));
      CleanLabelsShape(ls);
      ExtentIsLength(ls);
      JoinedSplit(TrimDash(s));
    }
  }
}
