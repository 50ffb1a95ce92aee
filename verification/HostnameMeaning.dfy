/**
 What the rewrite of a host name means, without the functions it is computed by:
 from the labels of the name, and byte by byte where no byte is dropped.
 */
module HostnameMeaning {
  import opened Hostname

  /** The bytes the pattern matches, one by one. */
  lemma LegalBytes(c: char)
    ensures Legal(c) <==> c in "abcdefghijklmnopqrstuvwxyz0123456789-"
  {
    assert "abcdefghijklmnopqrstuvwxyz0123456789-" ==
           "abcdefghijklmnopqrstuvwxyz" + "0123456789" + "-";
    Letters(c);
    DigitsOnly(c);
  }

  lemma Letters(c: char)
    ensures 'a' <= c <= 'z' <==> c in "abcdefghijklmnopqrstuvwxyz"
  {
    var s := "abcdefghijklmnopqrstuvwxyz";
    assert forall i :: 0 <= i < 26 ==> s[i] as int == 'a' as int + i;
    if 'a' <= c <= 'z' {
      assert s[c as int - 'a' as int] == c;
    }
  }

  lemma DigitsOnly(c: char)
    ensures '0' <= c <= '9' <==> c in "0123456789"
  {
    var s := "0123456789";
    assert forall i :: 0 <= i < 10 ==> s[i] as int == '0' as int + i;
    if '0' <= c <= '9' {
      assert s[c as int - '0' as int] == c;
    }
  }

  // ------------------------------------------------------------- label by label

  ghost predicate FirstLegal(e: string, first: nat) {
    first < |e| && Legal(e[first]) && forall p :: 0 <= p < first ==> !Legal(e[p])
  }

  /** A label contributes itself from its first legal byte on, every other illegal byte a dash. */
  lemma PieceIs(e: string, k: nat, first: nat)
    requires FirstLegal(e, first)
    ensures Piece(e, k) == (if k == 0 then "" else ".") + Masked(e)[first..]
  {
    CleanFrom(e, first);
  }

  /** The texts one after the other. */
  function Concat(ps: seq<string>): (r: string) {
    if ps == [] then "" else Concat(ps[..|ps| - 1]) + ps[|ps| - 1]
  }

  /** What label number `i` contributes, given where its first legal byte is. */
  function Contribution(e: string, i: nat, first: nat): (p: string)
    requires e != "" ==> first <= |e|
  {
    if e == "" then "" else (if i == 0 then "" else ".") + Masked(e)[first..]
  }

  ghost predicate Firsts(ls: seq<string>, firsts: seq<nat>) {
    |firsts| == |ls| && forall i :: 0 <= i < |ls| && ls[i] != "" ==> FirstLegal(ls[i], firsts[i])
  }

  function Contributions(ls: seq<string>, firsts: seq<nat>): (ps: seq<string>)
    requires Firsts(ls, firsts)
    ensures |ps| == |ls|
  {
    seq(|ls|, i requires 0 <= i < |ls| => Contribution(ls[i], i, firsts[i]))
  }

  lemma ContributionsMore(ls: seq<string>, firsts: seq<nat>, n: nat)
    requires Firsts(ls, firsts) && n + 1 == |ls|
    ensures Firsts(ls[..n], firsts[..n])
    ensures Contributions(ls, firsts) == Contributions(ls[..n], firsts[..n]) + [Contribution(ls[n], n, firsts[n])]
  {
    hide FirstLegal;
  }

  lemma ContributionIs(e: string, i: nat, first: nat)
    requires e != "" ==> FirstLegal(e, first)
    ensures Piece(e, i) == Contribution(e, i, first)
  {
    if e != "" {
      PieceIs(e, i, first);
    }
  }

  lemma {:induction false} LabelsContribute(ls: seq<string>, firsts: seq<nat>)
    requires Firsts(ls, firsts)
    ensures CleanLabels(ls) == Concat(Contributions(ls, firsts))
    decreases |ls|
  {
    hide FirstLegal, Contribution, Piece, Contributions;
    if ls == [] {
      assert |Contributions(ls, firsts)| == 0;
    } else {
      var n := |ls| - 1;
      ContributionsMore(ls, firsts, n);
      LabelsContribute(ls[..n], firsts[..n]);
      ContributionIs(ls[n], n, firsts[n]);
    }
  }

  ghost predicate DotFree(ls: seq<string>) {
    forall i :: 0 <= i < |ls| ==> '.' !in ls[i]
  }

  lemma {:induction false} SplitOne(a: string)
    requires '.' !in a
    ensures SplitDots(a) == [a]
  {
    if a != "" {
      assert a[0] in a;
      SplitOne(a[1..]);
      assert [a[0]] + a[1..] == a;
    }
  }

  lemma {:induction false} SplitCons(a: string, t: string)
    requires '.' !in a
    ensures SplitDots(a + "." + t) == [a] + SplitDots(t)
  {
    var s := a + "." + t;
    if a == "" {
      assert s[1..] == t && s[0] == '.';
    } else {
      assert a[0] in a;
      assert s[1..] == a[1..] + "." + t && s[0] == a[0];
      SplitCons(a[1..], t);
      assert [a[0]] + a[1..] == a;
      assert SplitDots(s[1..]) == [a[1..]] + SplitDots(t);
    }
  }

  /** A name has no other labels than those it is split into. */
  lemma {:induction false} SplitJoined(ls: seq<string>)
    requires ls != [] && DotFree(ls)
    ensures SplitDots(Joined(ls)) == ls
    decreases |ls|
  {
    if |ls| == 1 {
      SplitOne(ls[0]);
    } else {
      SplitJoined(ls[1..]);
      JoinedCons(ls[0], ls[1..]);
      assert ls == [ls[0]] + ls[1..];
      SplitCons(ls[0], Joined(ls[1..]));
    }
  }

  /** `t` is `s` without one leading dash, if it has one. */
  ghost predicate Undashed(s: string, t: string) {
    s == "-" + t || (s == t && (s == "" || s[0] != '-'))
  }

  lemma TrimmedIs(s: string, t: string)
    requires Undashed(s, t)
    ensures TrimDash(s) == t
  {
    if s == "-" + t {
      assert s[1..] == t;
    }
  }

  /**
   The rewrite of every name: one leading dash goes; each label that is not empty
   contributes, behind a dot unless it is the first, its bytes from the first
   legal one on with dashes for the illegal ones; of the result the first 64 bytes
   are kept.
   */
  lemma Rewritten(s: string, t: string, ls: seq<string>, firsts: seq<nat>)
    requires s != "" && Undashed(s, t) && ls != [] && DotFree(ls) && Joined(ls) == t && Firsts(ls, firsts)
    ensures HostnameOf(s).Name?
    ensures var full, name := Concat(Contributions(ls, firsts)), HostnameOf(s).name;
            if |full| <= 64 then name == full else name == full[..64]
  {
    TrimmedIs(s, t);
    SplitJoined(ls);
    forall i | 0 <= i < |ls|
      ensures Acceptable(ls[i])
    {
      assert ls[i] != "" ==> Legal(ls[i][firsts[i]]);
    }
    LabelsContribute(ls, firsts);
  }

  /** A label that is not empty and has no legal byte is fatal. */
  lemma NothingLegal(s: string, t: string, ls: seq<string>, i: nat)
    requires s != "" && Undashed(s, t) && ls != [] && DotFree(ls) && Joined(ls) == t
    requires i < |ls| && ls[i] != "" && forall p :: 0 <= p < |ls[i]| ==> !Legal(ls[i][p])
    ensures HostnameOf(s) == IndexPanic
  {
    TrimmedIs(s, t);
    SplitJoined(ls);
    assert !Acceptable(ls[i]);
  }

  // --------------------------------------------------------------- byte by byte

  function Mask(c: char): (r: char) {
    if c == '.' || c in "abcdefghijklmnopqrstuvwxyz0123456789-" then c else '-'
  }

  function MaskAll(s: string): (r: string)
    ensures |r| == |s| && forall i :: 0 <= i < |s| ==> r[i] == Mask(s[i])
  {
    seq(|s|, i requires 0 <= i < |s| => Mask(s[i]))
  }

  lemma MaskedIs(e: string)
    requires '.' !in e
    ensures Masked(e) == MaskAll(e)
  {
    hide Legal;
    forall i | 0 <= i < |e|
      ensures Masked(e)[i] == MaskAll(e)[i]
    {
      LegalBytes(e[i]);
      assert e[i] in e;
    }
  }

  /** Each label begins with a legal byte, and only the first may be empty. */
  ghost predicate WellBegun(ls: seq<string>) {
    && (forall i :: 0 <= i < |ls| ==> '.' !in ls[i] && (ls[i] != "" ==> Legal(ls[i][0])))
    && (forall i :: 0 < i < |ls| ==> ls[i] != "")
  }

  lemma WholePiece(e: string, k: nat)
    requires '.' !in e && (e != "" ==> Legal(e[0])) && (k > 0 ==> e != "")
    ensures Piece(e, k) == if k == 0 then MaskAll(e) else "." + MaskAll(e)
  {
    hide MaskAll;
    MaskedIs(e);
    if e != "" {
      PieceIs(e, k, 0);
    }
  }

  lemma MaskJoin(a: string, e: string)
    ensures MaskAll(a + "." + e) == MaskAll(a) + ("." + MaskAll(e))
  {
    hide Mask;
    assert MaskAll(a + "." + e)[|a|] == '.' by { DotStays(); }
  }

  lemma DotStays()
    ensures Mask('.') == '.'
  {
  }

  lemma {:induction false} LabelsMasked(ls: seq<string>)
    requires ls != [] && WellBegun(ls)
    ensures CleanLabels(ls) == MaskAll(Joined(ls))
    decreases |ls|
  {
    var n := |ls| - 1;
    hide MaskAll, Piece, CleanLabels;
    CleanLabelsMore(ls, n);
    assert ls[..n + 1] == ls;
    WholePiece(ls[n], n);
    if n == 0 {
      CleanNothing(ls[..0]);
    } else {
      LabelsMasked(ls[..n]);
      MaskJoin(Joined(ls[..n]), ls[n]);
    }
  }

  /** The same, read off the text: every dot is followed by a legal byte. */
  ghost predicate WellDotted(s: string) {
    forall i :: 0 <= i < |s| && s[i] == '.' ==> i + 1 < |s| && Legal(s[i + 1])
  }

  ghost predicate RestBegun(ls: seq<string>) {
    forall i :: 0 < i < |ls| ==> ls[i] != "" && Legal(ls[i][0])
  }

  lemma AllBegun(ls: seq<string>)
    requires ls != [] && RestBegun(ls) && DotFree(ls) && (ls[0] != "" ==> Legal(ls[0][0]))
    ensures WellBegun(ls)
  {
  }

  lemma {:induction false} SplitWellBegun(s: string)
    requires WellDotted(s)
    ensures RestBegun(SplitDots(s))
    ensures s != "" && s[0] != '.' ==> SplitDots(s)[0] != "" && SplitDots(s)[0][0] == s[0]
  {
    if s != "" {
      var t := s[1..];
      var ls, rest := SplitDots(s), SplitDots(t);
      assert WellDotted(t);
      SplitWellBegun(t);
      if s[0] == '.' {
        assert t != "" && t[0] == s[1] && Legal(t[0]);
        assert ls == [""] + rest;
      } else {
        assert ls == [[s[0]] + rest[0]] + rest[1..];
      }
      hide SplitDots;
      assert forall i :: 0 < i < |ls| ==> ls[i] == if s[0] == '.' then rest[i - 1] else rest[i];
    }
  }

  /**
   Where every label begins with a legal byte, none but the first is empty, and the
   name neither begins with a dash nor is too long, nothing is dropped or added:
   legal bytes and dots stay, every other byte becomes a dash.
   */
  lemma ByteByByte(s: string)
    requires s != "" && |s| <= 64 && s[0] != '-' && (s[0] == '.' || Legal(s[0])) && WellDotted(s)
    ensures HostnameOf(s).Name? && |HostnameOf(s).name| == |s|
    ensures forall i :: 0 <= i < |s| ==>
              HostnameOf(s).name[i] ==
              if s[i] == '.' || s[i] in "abcdefghijklmnopqrstuvwxyz0123456789-" then s[i] else '-'
  {
    var ls := SplitDots(s);
    SplitWellBegun(s);
    FirstLabel(s);
    AllBegun(ls);
    JoinedSplit(s);
    LabelsMasked(ls);
    NonePanics(ls);
    TrimmedIs(s, s);
    hide SplitDots, CleanLabels, Panics;
  }

  lemma FirstLabel(s: string)
    requires s != "" && (s[0] == '.' || Legal(s[0]))
    ensures SplitDots(s)[0] != "" ==> Legal(SplitDots(s)[0][0])
  {
  }

  lemma NonePanics(ls: seq<string>)
    requires WellBegun(ls)
    ensures !Panics(ls)
  {
    forall i | 0 <= i < |ls|
      ensures Acceptable(ls[i])
    {
      assert ls[i] != "" ==> Legal(ls[i][0]);
    }
  }
}
