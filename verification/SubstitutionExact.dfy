/**
 Exactly when the order of the substitutions matters. The question is reduced to
 two keys and one string: replacing them in one order or the other gives the same
 text, or texts that have come apart for good. How they come apart is followed
 from the right end of the string to the left.
 */
module SubstitutionExact {
  import opened Wrappers
  import opened Substitution

  // ------------------------------------------------------ one pass, from the right

  predicate Plain(p: string) {
    '$' !in p
  }

  /** A pass keeps plain text at the front, and works behind it as it would without it. */
  lemma KeepsFront(x: string, p: string, k: string, v: string)
    requires Plain(p) && p <= x
    ensures ReplaceAll(x, "$" + k, v) == p + ReplaceAll(x[|p|..], "$" + k, v)
  {
    assert x == p + x[|p|..];
    SkipPlain(p, x[|p|..], "$" + k, v);
  }

  lemma PassAtDollar(x: string, k: string, v: string)
    requires Plain(k)
    ensures k <= x ==> ReplaceAll("$" + x, "$" + k, v) == v + ReplaceAll(x[|k|..], "$" + k, v)
    ensures !(k <= x) ==> ReplaceAll("$" + x, "$" + k, v) == "$" + ReplaceAll(x, "$" + k, v)
  {
    var y := "$" + x;
    assert y[1..] == x && ("$" + k)[1..] == k;
    if k <= x {
      assert y == "$" + k + x[|k|..];
      ReplaceHere(x[|k|..], "$" + k, v);
    } else {
      assert !("$" + k <= y);
    }
  }

  lemma PassAtPlain(c: char, x: string, k: string, v: string)
    requires c != '$'
    ensures ReplaceAll([c] + x, "$" + k, v) == [c] + ReplaceAll(x, "$" + k, v)
  {
    SkipPlain([c], x, "$" + k, v);
  }

  // ------------------------------------------------------------------- two passes

  /** A key and its value. */
  datatype Binding = Binding(key: string, value: string)

  predicate Ok(a: Binding) {
    Plain(a.key) && Plain(a.value)
  }

  predicate Incomparable(a: Binding, b: Binding) {
    !(a.key <= b.key) && !(b.key <= a.key)
  }

  function Pass(x: string, a: Binding): (r: string) {
    ReplaceAll(x, "$" + a.key, a.value)
  }

  /** First `a`, then `b`. */
  function Both(x: string, a: Binding, b: Binding): (r: string) {
    Pass(Pass(x, a), b)
  }

  /** What the two passes make of a '$' in front of `x`. */
  predicate Takes(x: string, a: Binding, b: Binding, c: Binding) {
    (c == a && a.key <= x) || (c == b && !(a.key <= x) && b.key <= Pass(x, a))
  }

  /** `c` is put in the place of its key at the front. */
  function Swapped(x: string, c: Binding): (r: string)
    requires c.key <= x
  {
    c.value + x[|c.key|..]
  }

  lemma BothAtDollar(x: string, a: Binding, b: Binding)
    requires Ok(a) && Ok(b)
    ensures forall c :: c == a || c == b ==>
              (Takes(x, a, b, c) ==> c.key <= Both(x, a, b) && Both("$" + x, a, b) == Swapped(Both(x, a, b), c))
    ensures !(a.key <= x) && !(b.key <= Pass(x, a)) ==> Both("$" + x, a, b) == "$" + Both(x, a, b)
  {
    PassAtDollar(x, a.key, a.value);
    hide ReplaceAll;
    if a.key <= x {
      var y := Pass(x[|a.key|..], a);
      KeepsFront(x, a.key, a.key, a.value);
      SkipPlain(a.key, y, "$" + b.key, b.value);
      SkipPlain(a.value, y, "$" + b.key, b.value);
      assert (a.key + Pass(y, b))[|a.key|..] == Pass(y, b);
    } else {
      var y := Pass(x, a);
      PassAtDollar(y, b.key, b.value);
      if b.key <= y {
        KeepsFront(y, b.key, b.key, b.value);
        assert (b.key + Pass(y[|b.key|..], b))[|b.key|..] == Pass(y[|b.key|..], b);
      }
    }
  }

  lemma BothAtPlain(c: char, x: string, a: Binding, b: Binding)
    requires c != '$'
    ensures Both([c] + x, a, b) == [c] + Both(x, a, b)
  {
    PassAtPlain(c, x, a.key, a.value);
    PassAtPlain(c, Pass(x, a), b.key, b.value);
  }

  /** A key that stands behind the '$' already is taken in either order. */
  lemma TakenInBoth(x: string, a: Binding, b: Binding)
    requires Ok(a) && Ok(b) && Incomparable(a, b) && a.key <= x
    ensures Takes(x, a, b, a) && Takes(x, b, a, a)
  {
    KeepsFront(x, a.key, b.key, b.value);
    if b.key <= x {
      SamePrefixes(a.key, b.key, x);
    }
  }

  // ---------------------------------------------------- texts that have come apart

  /** Empty, or the next '$' and what follows. */
  predicate Rest(r: string) {
    r == "" || r[0] == '$'
  }

  /** One of the two begins the other. */
  predicate Related(g: string, k: string) {
    g <= k || k <= g
  }

  /** Segments, each behind a '$'. */
  function Glue(gs: seq<string>): (w: string) {
    if gs == [] then "" else "$" + gs[0] + Glue(gs[1..])
  }

  lemma {:induction false} GlueSnoc(gs: seq<string>, g: string)
    ensures Glue(gs + [g]) == Glue(gs) + "$" + g
  {
    if gs == [] {
      assert gs + [g] == [g];
      assert Glue([g]) == "$" + g + Glue([]);
    } else {
      assert (gs + [g])[1..] == gs[1..] + [g];
      GlueSnoc(gs[1..], g);
    }
  }

  lemma {:induction false} GlueCons(g: string, gs: seq<string>)
    ensures Glue([g] + gs) == "$" + g + Glue(gs)
  {
    assert ([g] + gs)[1..] == gs;
  }

  /** Segments that a '$' could turn into `k`, or `k` into. */
  ghost predicate Window(gs: seq<string>, k: string) {
    gs != [] && forall i :: 0 <= i < |gs| ==> Plain(gs[i]) && Related(gs[i], k)
  }

  /** `x` is ahead of `y` by a window of segments. */
  ghost predicate AheadBy(x: string, y: string, k: string, f: string, g: string, gs: seq<string>, r: string) {
    Plain(f) && Plain(g) && f <= g && Window(gs, k) && Rest(r) && x == f + (Glue(gs) + r) && y == g + r
  }

  ghost predicate Ahead(x: string, y: string, k: string) {
    exists f, g, gs, r :: AheadBy(x, y, k, f, g, gs, r)
  }

  /** Counted from the right, the texts have a segment in which they differ. */
  ghost predicate DifferAt(x: string, y: string, a: string, b: string, g: string, h: string, r: string) {
    Plain(g) && Plain(h) && g != h && Rest(r) && x == a + ("$" + g + r) && y == b + ("$" + h + r)
  }

  ghost predicate Differ(x: string, y: string) {
    exists a, b, g, h, r :: DifferAt(x, y, a, b, g, h, r)
  }

  ghost predicate Apart(x: string, y: string, a: Binding, b: Binding) {
    Ahead(x, y, a.key) || Ahead(y, x, b.key) || Differ(x, y)
  }

  /** Plain text at the front of `f` and a rest lies in `f`. */
  lemma FrontIn(p: string, f: string, r: string)
    requires Plain(p) && Rest(r) && p <= f + r
    ensures p <= f
  {
    assert r != "" ==> (f + r)[|f|] == '$';
    assert forall i :: 0 <= i < |p| ==> p[i] == (f + r)[i] && p[i] in p;
  }

  lemma GlueIsRest(gs: seq<string>, r: string)
    requires Rest(r)
    ensures Rest(Glue(gs) + r)
  {
  }

  lemma RelatedPrefix(f: string, g: string, k: string)
    requires f <= g && Related(g, k)
    ensures Related(f, k)
  {
    if k <= g {
      SamePrefixes(f, k, g);
    }
  }

  lemma WindowCons(f: string, gs: seq<string>, k: string)
    requires Plain(f) && Related(f, k) && (gs == [] || Window(gs, k))
    ensures Window([f] + gs, k)
  {
  }

  lemma SwapFront(f: string, r: string, c: Binding)
    requires c.key <= f
    ensures c.key <= f + r && Swapped(f + r, c) == Swapped(f, c) + r
  {
    assert (f + r)[|c.key|..] == f[|c.key|..] + r;
    assert c.value + (f[|c.key|..] + r) == (c.value + f[|c.key|..]) + r;
  }

  lemma SwapPlain(f: string, c: Binding)
    requires Ok(c) && Plain(f) && c.key <= f
    ensures Plain(Swapped(f, c))
  {
  }

  lemma SwapPrefix(f: string, g: string, c: Binding)
    requires c.key <= f && f <= g
    ensures c.key <= g && Swapped(f, c) <= Swapped(g, c)
  {
  }

  lemma AheadPlain(c: char, x: string, y: string, k: string)
    requires c != '$' && Ahead(x, y, k)
    ensures Ahead([c] + x, [c] + y, k)
  {
    var f, g, gs, r :| AheadBy(x, y, k, f, g, gs, r);
    var w := Glue(gs) + r;
    hide Glue, Window;
    assert [c] + (f + w) == ([c] + f) + w && [c] + (g + r) == ([c] + g) + r;
    assert AheadBy([c] + x, [c] + y, k, [c] + f, [c] + g, gs, r);
  }

  /** The same key is taken on both sides. */
  lemma AheadSwap(x: string, y: string, k: string, c: Binding)
    requires Ok(c) && Ahead(x, y, k) && c.key <= x && c.key <= y
    ensures Ahead(Swapped(x, c), Swapped(y, c), k)
  {
    var f, g, gs, r :| AheadBy(x, y, k, f, g, gs, r);
    var w := Glue(gs) + r;
    GlueIsRest(gs, r);
    hide Glue, Window, Swapped;
    FrontIn(c.key, f, w);
    SwapFront(f, w, c);
    SwapPrefix(f, g, c);
    SwapFront(g, r, c);
    SwapPlain(f, c);
    SwapPlain(g, c);
    assert AheadBy(Swapped(x, c), Swapped(y, c), k, Swapped(f, c), Swapped(g, c), gs, r);
  }

  /** A '$' in front of a text that is ahead adds its front to the window. */
  lemma {:induction false} Widened(f: string, gs: seq<string>, r: string)
    ensures "$" + (f + (Glue(gs) + r)) == "" + (Glue([f] + gs) + r)
  {
    GlueCons(f, gs);
    var w := Glue(gs);
    assert "$" + (f + (w + r)) == "" + ("$" + f + w + r);
  }

  /** The side that is behind takes `k`: the other gets further ahead. */
  lemma AheadTake(x: string, y: string, c: Binding)
    requires Ok(c) && Ahead(x, y, c.key) && c.key <= y
    ensures Ahead("$" + x, Swapped(y, c), c.key)
  {
    var k := c.key;
    var f, g, gs, r :| AheadBy(x, y, k, f, g, gs, r);
    hide Glue, Swapped;
    FrontIn(k, g, r);
    SamePrefixes(f, k, g);
    WindowCons(f, gs, k);
    hide Window;
    Widened(f, gs, r);
    SwapFront(g, r, c);
    SwapPlain(g, c);
    assert AheadBy("$" + x, Swapped(y, c), k, "", Swapped(g, c), [f] + gs, r);
  }

  /** The last segment of the window, split off. */
  lemma {:induction false} Unglued(gs: seq<string>, r: string)
    requires gs != []
    ensures Glue(gs) + r == Glue(gs[..|gs| - 1]) + ("$" + gs[|gs| - 1] + r)
  {
    var us, h := gs[..|gs| - 1], gs[|gs| - 1];
    hide Glue;
    GlueSnoc(us, h);
    assert gs == us + [h];
    assert Glue(us) + "$" + h + r == Glue(us) + ("$" + h + r);
  }

  lemma AheadStay(x: string, y: string, k: string)
    requires Ahead(x, y, k)
    ensures Ahead("$" + x, "$" + y, k) || Differ("$" + x, "$" + y)
  {
    var f, g, gs, r :| AheadBy(x, y, k, f, g, gs, r);
    var us, h := gs[..|gs| - 1], gs[|gs| - 1];
    Unglued(gs, r);
    hide Glue;
    if g == h {
      RelatedPrefix(f, g, k);
      WindowCons(f, us, k);
      hide Window;
      Widened(f, us, "$" + g + r);
      FromNothing(g, r);
      assert AheadBy("$" + x, "$" + y, k, "", "", [f] + us, "$" + g + r);
    } else {
      hide Window;
      StandApart(f, Glue(us), h, r);
      FromNothing(g, r);
      assert DifferAt("$" + x, "$" + y, "$" + (f + Glue(us)), "", h, g, r);
    }
  }

  lemma FromNothing(g: string, r: string)
    ensures "$" + (g + r) == "" + ("$" + g + r)
  {
  }

  lemma StandApart(f: string, w: string, h: string, r: string)
    ensures "$" + (f + (w + ("$" + h + r))) == ("$" + (f + w)) + ("$" + h + r)
    ensures f + (w + ("$" + h + r)) == (f + w) + ("$" + h + r)
  {
  }

  /** The side that is ahead cannot take another key and meet. */
  lemma AheadOther(x: string, y: string, k: string, c: Binding)
    requires Ok(c) && Ahead(x, y, k) && c.key <= x && !(c.key <= k) && !(k <= c.key)
    ensures Differ(Swapped(x, c), "$" + y)
  {
    var f, g, gs, r :| AheadBy(x, y, k, f, g, gs, r);
    var us, h := gs[..|gs| - 1], gs[|gs| - 1];
    GlueIsRest(gs, r);
    Unglued(gs, r);
    hide Glue, Swapped;
    FrontIn(c.key, f, Glue(gs) + r);
    if g == h {
      RelatedPrefix(c.key, g, k);
    } else {
      SwapFront(f, Glue(gs) + r, c);
      StandApart(Swapped(f, c), Glue(us), h, r);
      hide Window;
      FromNothing(g, r);
      assert DifferAt(Swapped(x, c), "$" + y, Swapped(f, c) + Glue(us), "", h, g, r);
    }
  }

  /** The two keys are not in front of the two texts at once. */
  lemma AheadFronts(x: string, y: string, k: string, j: string)
    requires Ahead(x, y, k) && Plain(j) && Plain(k) && j <= x && k <= y
    ensures j <= k || k <= j
  {
    var f, g, gs, r :| AheadBy(x, y, k, f, g, gs, r);
    GlueIsRest(gs, r);
    FrontIn(j, f, Glue(gs) + r);
    FrontIn(k, g, r);
    SamePrefixes(j, k, g);
  }

  /** What happens in front of the segment in which two texts differ does not matter. */
  lemma DifferStays(x: string, y: string, m: nat, n: nat, u: string, w: string)
    requires Differ(x, y) && m <= |x| && n <= |y| && Plain(x[..m]) && Plain(y[..n])
    ensures Differ(u + x[m..], w + y[n..])
  {
    var a, b, g, h, r :| DifferAt(x, y, a, b, g, h, r);
    FrontIn(x[..m], a, "$" + g + r);
    FrontIn(y[..n], b, "$" + h + r);
    Dropped(a, "$" + g + r, m, u);
    Dropped(b, "$" + h + r, n, w);
    assert DifferAt(u + x[m..], w + y[n..], u + a[m..], w + b[n..], g, h, r);
  }

  lemma Dropped(a: string, r: string, m: nat, u: string)
    requires m <= |a|
    ensures u + (a + r)[m..] == (u + a[m..]) + r
  {
    assert (a + r)[m..] == a[m..] + r;
  }

  /** Equal texts come apart when only one side takes a key. */
  lemma ComesApart(x: string, c: Binding)
    requires Ok(c) && c.key <= x
    ensures Ahead("$" + x, Swapped(x, c), c.key)
  {
    var f := Segment(x);
    var r := x[|f|..];
    assert x == f + r;
    FrontIn(c.key, f, r);
    assert Glue([]) + r == r && [f] + [] == [f];
    Widened(f, [], r);
    SwapFront(f, r, c);
    SwapPlain(f, c);
    assert AheadBy("$" + x, Swapped(x, c), c.key, "", Swapped(f, c), [f], r);
  }

  // -------------------------------------------------------- apart means different

  lemma AheadUnequal(x: string, y: string, k: string)
    requires Ahead(x, y, k)
    ensures x != y
  {
    var f, g, gs, r :| AheadBy(x, y, k, f, g, gs, r);
    if |f| < |g| {
      assert x[|f|] == '$';
      assert y[|f|] == g[|f|] && g[|f|] in g;
    } else {
      assert |y| < |x|;
    }
  }

  lemma DifferUnequal(x: string, y: string)
    requires Differ(x, y)
    ensures x != y
  {
    var a, b, g, h, r :| DifferAt(x, y, a, b, g, h, r);
    if |x| != |y| {
    } else if |g| == |h| {
      assert x[|a| + 1..][..|g|] == g && y[|a| + 1..][..|g|] == h;
    } else if |g| < |h| {
      assert x[|a|] == '$';
      assert y[|a|] == h[|a| - |b| - 1] && h[|a| - |b| - 1] in h;
    } else {
      assert y[|b|] == '$';
      assert x[|b|] == g[|b| - |a| - 1] && g[|b| - |a| - 1] in g;
    }
  }

  lemma ApartUnequal(x: string, y: string, a: Binding, b: Binding)
    requires Apart(x, y, a, b)
    ensures x != y
  {
    hide Ahead, Differ;
    if Differ(x, y) {
      DifferUnequal(x, y);
    } else if Ahead(x, y, a.key) {
      AheadUnequal(x, y, a.key);
    } else {
      AheadUnequal(y, x, b.key);
    }
  }

  // ------------------------------------------------------------- two keys, any text

  ghost predicate Unrelated(a: Binding, b: Binding) {
    Ok(a) && Ok(b) && Incomparable(a, b)
  }

  lemma FrontsKept(x: string, a: Binding, b: Binding)
    requires Ok(a) && Ok(b) && b.key <= Pass(x, a) && a.key <= Pass(x, b)
    ensures b.key <= Both(x, a, b) && a.key <= Both(x, b, a)
  {
    KeepsFront(Pass(x, a), b.key, b.key, b.value);
    KeepsFront(Pass(x, b), a.key, a.key, a.value);
  }

  lemma StepAhead(x: string, a: Binding, b: Binding)
    requires Unrelated(a, b) && Ahead(Both(x, a, b), Both(x, b, a), a.key)
    ensures var x', y' := Both("$" + x, a, b), Both("$" + x, b, a);
            Ahead(x', y', a.key) || Differ(x', y')
  {
    var u, v := Both(x, a, b), Both(x, b, a);
    BothAtDollar(x, a, b);
    BothAtDollar(x, b, a);
    hide Ahead, Differ, Pass, Both;
    if a.key <= x {
      TakenInBoth(x, a, b);
      AheadSwap(u, v, a.key, a);
    } else if b.key <= x {
      TakenInBoth(x, b, a);
      AheadSwap(u, v, a.key, b);
    } else if b.key <= Pass(x, a) {
      if a.key <= Pass(x, b) {
        FrontsKept(x, a, b);
        AheadFronts(u, v, a.key, b.key);
      } else {
        assert Takes(x, a, b, b);
        AheadOther(u, v, a.key, b);
      }
    } else if a.key <= Pass(x, b) {
      assert Takes(x, b, a, a);
      AheadTake(u, v, a);
    } else {
      AheadStay(u, v, a.key);
    }
  }

  /** At a '$' the two passes keep what they have, or exchange plain text at its front. */
  lemma StepForm(x: string, a: Binding, b: Binding) returns (m: nat, w: string)
    requires Ok(a) && Ok(b)
    ensures m <= |Both(x, a, b)| && Plain(Both(x, a, b)[..m])
    ensures Both("$" + x, a, b) == w + Both(x, a, b)[m..]
  {
    BothAtDollar(x, a, b);
    hide Pass, Both;
    if a.key <= x {
      assert Takes(x, a, b, a);
      m, w := |a.key|, a.value;
    } else if b.key <= Pass(x, a) {
      assert Takes(x, a, b, b);
      m, w := |b.key|, b.value;
    } else {
      m, w := 0, "$";
    }
  }

  lemma StepDiffer(x: string, a: Binding, b: Binding)
    requires Ok(a) && Ok(b) && Differ(Both(x, a, b), Both(x, b, a))
    ensures Differ(Both("$" + x, a, b), Both("$" + x, b, a))
  {
    hide Both, Differ;
    var m, u := StepForm(x, a, b);
    var n, w := StepForm(x, b, a);
    DifferStays(Both(x, a, b), Both(x, b, a), m, n, u, w);
  }

  lemma StepSame(x: string, a: Binding, b: Binding)
    requires Unrelated(a, b) && Both(x, a, b) == Both(x, b, a)
    ensures var x', y' := Both("$" + x, a, b), Both("$" + x, b, a);
            x' == y' || Ahead(x', y', a.key) || Ahead(y', x', b.key)
    ensures !(a.key <= x) && a.key <= Pass(x, b) ==> Ahead(Both("$" + x, a, b), Both("$" + x, b, a), a.key)
  {
    var u := Both(x, a, b);
    BothAtDollar(x, a, b);
    BothAtDollar(x, b, a);
    hide Ahead, Pass, Both;
    if a.key <= x {
      TakenInBoth(x, a, b);
    } else if b.key <= x {
      TakenInBoth(x, b, a);
      assert Takes(x, a, b, b) && Takes(x, b, a, b);
      if a.key <= Pass(x, b) {
        StillInFront(x, a, b);
      }
    } else if b.key <= Pass(x, a) {
      if a.key <= Pass(x, b) {
        FrontsKept(x, a, b);
        SamePrefixes(a.key, b.key, u);
      } else {
        assert Takes(x, a, b, b);
        ComesApart(u, b);
      }
    } else if a.key <= Pass(x, b) {
      assert Takes(x, b, a, a);
      ComesApart(u, a);
    }
  }

  lemma StillInFront(x: string, a: Binding, b: Binding)
    requires Ok(a) && Ok(b) && b.key <= x && a.key <= Pass(x, b)
    ensures Related(a.key, b.key)
  {
    KeepsFront(x, b.key, b.key, b.value);
    SamePrefixes(a.key, b.key, Pass(x, b));
  }

  lemma StepPlain(c: char, x: string, a: Binding, b: Binding)
    requires c != '$' && Apart(Both(x, a, b), Both(x, b, a), a, b)
    ensures Apart(Both([c] + x, a, b), Both([c] + x, b, a), a, b)
  {
    var u, v := Both(x, a, b), Both(x, b, a);
    BothAtPlain(c, x, a, b);
    BothAtPlain(c, x, b, a);
    hide Ahead, Differ, Both;
    if Differ(u, v) {
      DifferStays(u, v, 0, 0, [c], [c]);
      assert u[0..] == u && v[0..] == v;
    } else if Ahead(u, v, a.key) {
      AheadPlain(c, u, v, a.key);
    } else {
      AheadPlain(c, v, u, b.key);
    }
  }

  lemma DifferSymmetric(x: string, y: string)
    requires Differ(x, y)
    ensures Differ(y, x)
  {
    var a, b, g, h, r :| DifferAt(x, y, a, b, g, h, r);
    assert DifferAt(y, x, b, a, h, g, r);
  }

  /** Texts that have come apart stay apart. */
  lemma StaysApart(c: char, x: string, a: Binding, b: Binding)
    requires Unrelated(a, b) && Apart(Both(x, a, b), Both(x, b, a), a, b)
    ensures Apart(Both([c] + x, a, b), Both([c] + x, b, a), a, b)
  {
    hide Ahead, Differ, Both;
    if c != '$' {
      StepPlain(c, x, a, b);
    } else if Differ(Both(x, a, b), Both(x, b, a)) {
      StepDiffer(x, a, b);
    } else if Ahead(Both(x, a, b), Both(x, b, a), a.key) {
      StepAhead(x, a, b);
    } else {
      StepAhead(x, b, a);
      if Differ(Both("$" + x, b, a), Both("$" + x, a, b)) {
        DifferSymmetric(Both("$" + x, b, a), Both("$" + x, a, b));
      }
    }
  }

  /** The two orders give the same, or texts that are apart. */
  lemma {:induction false} SameOrApart(x: string, a: Binding, b: Binding)
    requires Unrelated(a, b)
    ensures Both(x, a, b) == Both(x, b, a) || Apart(Both(x, a, b), Both(x, b, a), a, b)
    decreases |x|
  {
    if x != "" {
      var c, y := x[0], x[1..];
      assert x == [c] + y;
      SameOrApart(y, a, b);
      hide Both, Ahead, Differ;
      if Apart(Both(y, a, b), Both(y, b, a), a, b) {
        StaysApart(c, y, a, b);
      } else if c == '$' {
        StepSame(y, a, b);
      } else {
        BothAtPlain(c, y, a, b);
        BothAtPlain(c, y, b, a);
      }
    }
  }

  /** A '$' behind which only the other key brings out `a`, anywhere in the text, sets the two orders apart. */
  lemma {:induction false} ExposedApart(u: string, x: string, a: Binding, b: Binding)
    requires Unrelated(a, b) && !(a.key <= x) && a.key <= Pass(x, b)
    ensures Apart(Both(u + "$" + x, a, b), Both(u + "$" + x, b, a), a, b)
    decreases |u|
  {
    if u == "" {
      assert u + "$" + x == "$" + x;
      SameOrApart(x, a, b);
      hide Both, Ahead, Differ;
      if Both(x, a, b) == Both(x, b, a) {
        StepSame(x, a, b);
      } else {
        StaysApart('$', x, a, b);
      }
    } else {
      assert u + "$" + x == [u[0]] + (u[1..] + "$" + x);
      ExposedApart(u[1..], x, a, b);
      StaysApart(u[0], u[1..] + "$" + x, a, b);
    }
  }

  // ------------------------------------------------------- reduction to two keys

  lemma SomeExposed(s: string, env: Env) returns (i: nat, k: string)
    requires !Settled(s, env)
    ensures i < |s| && Dangling(s, env.Keys, i) && k in env && k <= Partial(s[i + 1..], env, env.Keys - {k})
  {
    hide Partial;
    k :| k in env && Exposes(s, env, env.Keys - {k}, k);
    i := WhereExposed(s, env, env.Keys - {k}, k);
  }

  /** The last '$' that can be completed: what follows it is settled. */
  lemma {:induction false} LastExposed(s: string, env: Env) returns (i: nat, k: string)
    requires !Settled(s, env)
    ensures i < |s| && Dangling(s, env.Keys, i) && Settled(s[i + 1..], env)
    ensures k in env && k <= Partial(s[i + 1..], env, env.Keys - {k})
    decreases |s|
  {
    hide Partial, Settled, Exposes, Dangling;
    i, k := SomeExposed(s, env);
    if !Settled(s[i + 1..], env) {
      var m := i + 1;
      i, k := LastExposed(s[m..], env);
      DanglingShift(s, env.Keys, m, i);
      i := m + i;
    }
  }

  lemma DanglingShift(s: string, keys: set<string>, m: nat, i: nat)
    requires m <= |s| && Dangling(s[m..], keys, i)
    ensures m + i < |s| && Dangling(s, keys, m + i) && s[m..][i + 1..] == s[m + i + 1..]
  {
    assert s[m..][i + 1..] == s[m + i + 1..];
  }

  /** The key whose value comes first in what turns plain text into `k`. */
  lemma {:induction false} Needed(t: string, env: Env, done: set<string>, k: string) returns (j: string)
    requires Plain(k) && k <= Partial(t, env, done) && !(k <= t)
    ensures j in done && j in env
    ensures forall d :: j !in d ==> !(k <= Partial(t, env, d))
    decreases |t|
  {
    assert k[0] in k && k[0] == Partial(t, env, done)[0];
    var q := if t[0] == '$' then KeyAt(env.Keys, t[1..]) else None;
    if q.Some? {
      j := q.value;
      assert forall d :: j !in d ==> Partial(t, env, d)[0] == '$';
    } else {
      j := Needed(t[1..], env, done, k[1..]);
      forall d | j !in d
        ensures !(k <= Partial(t, env, d))
      {
        assert Partial(t, env, d)[1..] == Partial(t[1..], env, d);
      }
    }
  }

  /** A '$' that is not followed by the key splits the text for a pass. */
  lemma {:induction false} PassOver(u: string, x: string, k: string, v: string)
    requires Plain(k) && !(k <= x)
    ensures ReplaceAll(u + "$" + x, "$" + k, v) == ReplaceAll(u, "$" + k, v) + "$" + ReplaceAll(x, "$" + k, v)
    decreases |u|
  {
    var from, y := "$" + k, u + "$" + x;
    if u == "" {
      assert y == "$" + x;
      PassAtDollar(x, k, v);
    } else if from <= u {
      assert y[|from|..] == u[|from|..] + "$" + x;
      PassOver(u[|from|..], x, k, v);
    } else {
      assert y[1..] == u[1..] + "$" + x;
      PassOver(u[1..], x, k, v);
      NotAcross(u, x, k);
    }
  }

  lemma NotAcross(u: string, x: string, k: string)
    requires Plain(k) && u != "" && !("$" + k <= u)
    ensures !("$" + k <= u + "$" + x)
  {
    var from, y := "$" + k, u + "$" + x;
    assert forall i :: 1 <= i < |from| ==> from[i] == k[i - 1] && k[i - 1] in k;
    assert y[|u|] == '$';
    assert |from| <= |u| ==> y[..|from|] == u[..|from|];
  }

  /** All keys but two, one after the other, leave a '$' alone that only one of the two can follow. */
  lemma {:induction false} OthersPass(u: string, t: string, env: Env, k: string, keys: set<string>, done: set<string>,
                                      order: seq<string>) returns (w: string)
    requires PlainEnv(env) && NeverExposed(t, env, {}) && k in env && k <= Partial(t, env, env.Keys - {k})
    requires done <= keys <= env.Keys - {k} && IsOrder(order, keys - done)
    ensures ReplaceInOrder(u + "$" + Partial(t, env, done), order, env) == w + "$" + Partial(t, env, keys)
    decreases |order|
  {
    if order == [] {
      OrderOfNothing(keys - done);
      assert done == keys;
      w := u;
    } else {
      var j := order[0];
      assert j in order;
      var x := Partial(t, env, done);
      if j <= x {
        OneKeyInFront(t, env, done, j, k);
      }
      PassOver(u, x, j, env[j]);
      ReplaceOneMore(t, env, done, j);
      OrderTail(order, keys - done);
      assert keys - done - {j} == keys - (done + {j});
      w := OthersPass(ReplaceAll(u, "$" + j, env[j]), t, env, k, keys, done + {j}, order[1..]);
    }
  }

  lemma OrderOfNothing(keys: set<string>)
    requires IsOrder([], keys)
    ensures keys == {}
  {
    assert forall k :: k in keys ==> k in [];
  }

  lemma OneKeyInFront(t: string, env: Env, d: set<string>, j: string, k: string)
    requires PlainEnv(env) && j in env && k in env && d <= env.Keys
    requires j <= Partial(t, env, d) && k <= Partial(t, env, env.Keys - {k})
    ensures j == k
  {
    hide Partial;
    PartialGrows(t, env, d, env.Keys, j);
    PartialGrows(t, env, env.Keys - {k}, env.Keys, k);
    SamePrefixes(j, k, Partial(t, env, env.Keys));
  }

  lemma {:induction false} AnOrder(keys: set<string>) returns (order: seq<string>)
    ensures IsOrder(order, keys)
    decreases keys
  {
    if keys == {} {
      order := [];
    } else {
      var k :| k in keys;
      var rest := AnOrder(keys - {k});
      order := [k] + rest;
      assert forall j :: j in order <==> j == k || j in rest;
    }
  }

  lemma OrderWith(keys: set<string>, order: seq<string>, k: string)
    requires IsOrder(order, keys) && k !in keys
    ensures IsOrder(order + [k], keys + {k})
  {
    assert forall j :: j in order + [k] <==> j in order || j == k;
  }

  /** The text that all other keys leave, and the two orders of the last two keys on it. */
  lemma LastTwo(s: string, env: Env, others: seq<string>, j: string, k: string)
    requires j in env && k in env && j != k && IsOrder(others, env.Keys - {j, k})
    ensures IsOrder(others + [j] + [k], env.Keys)
    ensures ReplaceInOrder(s, others + [j] + [k], env)
         == Both(ReplaceInOrder(s, others, env), Binding(j, env[j]), Binding(k, env[k]))
  {
    OrderWith(env.Keys - {j, k}, others, j);
    OrderWith(env.Keys - {j, k} + {j}, others + [j], k);
    assert env.Keys - {j, k} + {j} + {k} == env.Keys;
    InOrderSnoc(s, others, j, env);
    InOrderSnoc(s, others + [j], k, env);
  }

  lemma DanglingSplits(s: string, keys: set<string>, i: nat)
    requires Dangling(s, keys, i)
    ensures i < |s| && s == s[..i] + "$" + s[i + 1..]
  {
  }

  lemma SettledPass(t: string, env: Env, done: set<string>, j: string)
    requires PlainEnv(env) && NeverExposed(t, env, {}) && j in env && j !in done && done <= env.Keys
    ensures ReplaceAll(Partial(t, env, done), "$" + j, env[j]) == Partial(t, env, done + {j})
  {
    hide Partial, ReplaceAll;
    ReplaceOneMore(t, env, done, j);
  }

  /** After all other keys, the '$' stands before a text that shows `k` only when `j` is replaced too. */
  lemma Reduced(s: string, env: Env, i: nat, j: string, k: string, others: seq<string>) returns (u: string, x: string)
    requires PlainEnv(env) && Dangling(s, env.Keys, i) && Settled(s[i + 1..], env) && j in env && k in env && j != k
    requires k <= Partial(s[i + 1..], env, env.Keys - {k})
    requires !(k <= Partial(s[i + 1..], env, env.Keys - {j, k}))
    requires IsOrder(others, env.Keys - {j, k})
    ensures ReplaceInOrder(s, others, env) == u + "$" + x
    ensures !(k <= x) && k <= ReplaceAll(x, "$" + j, env[j])
  {
    var t, keys := s[i + 1..], env.Keys - {j, k};
    DanglingSplits(s, env.Keys, i);
    hide Partial, Settled, NeverExposed, PlainEnv, Dangling, ReplaceInOrder, ReplaceAll, IsOrder;
    SettledNeverExposed(t, env);
    PartialNone(t, env);
    assert keys - {} == keys;
    u := OthersPass(s[..i], t, env, k, keys, {}, others);
    x := Partial(t, env, keys);
    SettledPass(t, env, keys, j);
    assert keys + {j} == env.Keys - {k};
  }

  lemma OrdersDiffer(s: string, env: Env) returns (o1: seq<string>, o2: seq<string>)
    requires PlainEnv(env) && !Settled(s, env)
    ensures IsOrder(o1, env.Keys) && IsOrder(o2, env.Keys)
    ensures ReplaceInOrder(s, o1, env) != ReplaceInOrder(s, o2, env)
  {
    var i, j, k := Chosen(s, env);
    var others := AnOrder(env.Keys - {j, k});
    var a, b := Binding(k, env[k]), Binding(j, env[j]);
    KeysUnrelated(env, k, j);
    var u, x := Reduced(s, env, i, j, k, others);
    hide Partial, Settled, ReplaceInOrder, IsOrder, Both, Ahead, Differ, ReplaceAll, PlainEnv, Dangling, Unrelated;
    LastTwo(s, env, others, j, k);
    assert {k, j} == {j, k};
    LastTwo(s, env, others, k, j);
    ExposedApart(u, x, a, b);
    ApartUnequal(Both(u + "$" + x, a, b), Both(u + "$" + x, b, a), a, b);
    o1, o2 := others + [k] + [j], others + [j] + [k];
  }

  lemma KeysUnrelated(env: Env, k: string, j: string)
    requires PlainEnv(env) && j in env && k in env && j != k
    ensures Unrelated(Binding(k, env[k]), Binding(j, env[j]))
  {
  }

  /** The last '$' that can be completed, the key it is completed to, and one that this key needs. */
  lemma Chosen(s: string, env: Env) returns (i: nat, j: string, k: string)
    requires PlainEnv(env) && !Settled(s, env)
    ensures Dangling(s, env.Keys, i) && Settled(s[i + 1..], env) && j in env && k in env && j != k
    ensures k <= Partial(s[i + 1..], env, env.Keys - {k})
    ensures !(k <= Partial(s[i + 1..], env, env.Keys - {j, k}))
  {
    i, k := LastExposed(s, env);
    hide Partial, Settled;
    j := Needed(s[i + 1..], env, env.Keys - {k}, k);
  }

  /**
   Where names and values are plain, the order of iteration is irrelevant if and
   only if replacing all variables but one never completes a '$' that starts no
   `$key` to the remaining one.
   */
  lemma OrderIrrelevantExactly(s: string, env: Env)
    requires PlainEnv(env)
    ensures OrderIrrelevant(s, env) <==> Settled(s, env)
  {
    hide PlainEnv, Settled, ReplaceInOrder;
    if Settled(s, env) {
      forall o1, o2 | IsOrder(o1, env.Keys) && IsOrder(o2, env.Keys)
        ensures ReplaceInOrder(s, o1, env) == ReplaceInOrder(s, o2, env)
      {
        OrderIndependent(s, env, o1);
        OrderIndependent(s, env, o2);
      }
    } else {
      var o1, o2 := OrdersDiffer(s, env);
    }
  }
}
