/**
 Substitution of environment variables in program arguments. The program
 replaces the variables one after the other, in the order in which Go iterates
 over a map, which is unspecified; the point is when that order does not matter.
 */
module Substitution {
  import opened Wrappers

  /** `strings.ReplaceAll` for a non-empty pattern: leftmost matches, not overlapping. */
  function ReplaceAll(s: string, from: string, to: string): (r: string)
    requires from != ""
    decreases |s|
  {
    if s == "" then ""
    else if from <= s then to + ReplaceAll(s[|from|..], from, to)
    else [s[0]] + ReplaceAll(s[1..], from, to)
  }

  /** The parts with `sep` between them. */
  function Weave(parts: seq<string>, sep: string): (s: string)
    requires parts != []
  {
    if |parts| == 1 then parts[0] else parts[0] + sep + Weave(parts[1..], sep)
  }

  /** `from` occurs nowhere in `p`. */
  ghost predicate Without(p: string, from: string) {
    forall i :: 0 <= i <= |p| ==> !(from <= p[i..])
  }

  /** The first occurrence of `from` in `p + from` is the one at its end. */
  ghost predicate UpToFirst(p: string, from: string) {
    forall i :: 0 <= i < |p| ==> !(from <= (p + from)[i..])
  }

  /** The text between the leftmost, not overlapping occurrences of `from`. */
  ghost predicate Between(parts: seq<string>, from: string) {
    && parts != [] && Without(parts[|parts| - 1], from)
    && forall i :: 0 <= i < |parts| - 1 ==> UpToFirst(parts[i], from)
  }

  lemma {:induction false} ReplaceNone(p: string, from: string, to: string)
    requires from != "" && Without(p, from)
    ensures ReplaceAll(p, from, to) == p
  {
    if p != "" {
      assert p[0..] == p;
      assert forall i :: 0 <= i <= |p| - 1 ==> p[1..][i..] == p[i + 1..];
      ReplaceNone(p[1..], from, to);
    }
  }

  /** A match is replaced. */
  lemma ReplaceHere(x: string, from: string, to: string)
    requires from != ""
    ensures ReplaceAll(from + x, from, to) == to + ReplaceAll(x, from, to)
  {
    assert (from + x)[|from|..] == x;
  }

  lemma ReplaceLater(s: string, from: string, to: string)
    requires from != "" && s != "" && !(from <= s)
    ensures ReplaceAll(s, from, to) == [s[0]] + ReplaceAll(s[1..], from, to)
  {
  }

  lemma NotYet(p: string, from: string, rest: string)
    requires p != "" && UpToFirst(p, from)
    ensures UpToFirst(p[1..], from) && !(from <= p + from + rest)
  {
    assert (p + from)[0..] == p + from && (p + from + rest)[..|p + from|] == p + from;
    assert forall i :: 0 <= i < |p| - 1 ==> (p[1..] + from)[i..] == (p + from)[i + 1..];
  }

  lemma {:induction false} ReplaceFirst(p: string, from: string, to: string, rest: string)
    requires from != "" && UpToFirst(p, from)
    ensures ReplaceAll(p + from + rest, from, to) == p + to + ReplaceAll(rest, from, to)
  {
    hide ReplaceAll, UpToFirst;
    if p == "" {
      ReplaceHere(rest, from, to);
      assert p + from == from && p + to == to;
    } else {
      NotYet(p, from, rest);
      ReplaceLater(p + from + rest, from, to);
      assert (p + from + rest)[1..] == p[1..] + from + rest;
      ReplaceFirst(p[1..], from, to, rest);
    }
  }

  /** Cut at the occurrences of `from`, a text comes back with `to` in their place. */
  lemma {:induction false} ReplaceAllIs(parts: seq<string>, from: string, to: string)
    requires from != "" && Between(parts, from)
    ensures ReplaceAll(Weave(parts, from), from, to) == Weave(parts, to)
  {
    if |parts| == 1 {
      ReplaceNone(parts[0], from, to);
    } else {
      ReplaceFirst(parts[0], from, to, Weave(parts[1..], from));
      ReplaceAllIs(parts[1..], from, to);
    }
  }

  lemma Longer(c: char, p: string, from: string, s: string)
    requires UpToFirst(p, from) && [c] + p + from <= s && !(from <= s)
    ensures UpToFirst([c] + p, from)
  {
    var q := [c] + p + from;
    assert forall i :: 0 < i <= |p| ==> q[i..] == (p + from)[i - 1..];
    assert q[0..] == q && !(from <= q);
  }

  lemma LongerWithout(c: char, p: string, from: string)
    requires Without(p, from) && !(from <= [c] + p)
    ensures Without([c] + p, from)
  {
    assert forall i :: 0 < i <= |p| + 1 ==> ([c] + p)[i..] == p[i - 1..];
    assert ([c] + p)[0..] == [c] + p;
  }

  /** Every text can be cut like that. */
  lemma {:induction false} Cut(s: string, from: string) returns (parts: seq<string>)
    requires from != ""
    ensures Between(parts, from) && Weave(parts, from) == s
    decreases |s|
  {
    if s == "" {
      parts := [""];
    } else if from <= s {
      var rest := Cut(s[|from|..], from);
      parts := [""] + rest;
      assert parts[1..] == rest;
      assert s == from + s[|from|..];
    } else {
      var rest := Cut(s[1..], from);
      parts := [[s[0]] + rest[0]] + rest[1..];
      assert s == [s[0]] + s[1..];
      if |rest| == 1 {
        LongerWithout(s[0], rest[0], from);
      } else {
        assert parts[1..] == rest[1..];
        assert s == [s[0]] + rest[0] + from + Weave(rest[1..], from);
        Longer(s[0], rest[0], from, s);
      }
    }
  }

  type Env = map<string, string>

  /** The substitutions one after the other. */
  function ReplaceInOrder(s: string, order: seq<string>, env: Env): (r: string)
    requires forall k :: k in order ==> k in env
    decreases |order|
  {
    if order == [] then s
    else ReplaceInOrder(ReplaceAll(s, "$" + order[0], env[order[0]]), order[1..], env)
  }

  /** One of the orders in which a map with these keys may be iterated. */
  ghost predicate IsOrder(order: seq<string>, keys: set<string>) {
    && (forall k :: k in order <==> k in keys)
    && forall i, j :: 0 <= i < j < |order| ==> order[i] != order[j]
  }

  // ------------------------------------------------- the meaning of an argument

  ghost function KeyAt(keys: set<string>, s: string): (k: Option<string>)
    ensures k.Some? ==> k.value in keys && k.value <= s
    ensures k.None? ==> forall j :: j in keys ==> !(j <= s)
  {
    if j :| j in keys && j <= s then Some(j) else None
  }

  /** One pass from left to right that replaces every `$key` by its value. */
  ghost function Simultaneous(s: string, env: Env): (r: string)
    decreases |s|
  {
    if s == "" then ""
    else
      var k := if s[0] == '$' then KeyAt(env.Keys, s[1..]) else None;
      if k.Some? then env[k.value] + Simultaneous(s[1 + |k.value|..], env)
      else [s[0]] + Simultaneous(s[1..], env)
  }

  /** Names without '$', none the beginning of another; values without '$'. */
  ghost predicate PlainEnv(env: Env) {
    && (forall k :: k in env ==> '$' !in k && '$' !in env[k])
    && (forall j, k :: j in env && k in env && j <= k ==> j == k)
  }

  lemma {:induction false} OnePassSkips(w: string, s: string, env: Env)
    requires '$' !in w
    ensures Simultaneous(w + s, env) == w + Simultaneous(s, env)
    decreases |w|
  {
    if w == "" {
      assert w + s == s;
    } else {
      assert (w + s)[1..] == w[1..] + s && w[0] in w;
      OnePassSkips(w[1..], s, env);
    }
  }

  /**
   The one pass: text without '$' stays, the '$key' that follows it gives way to
   the value, and a '$' that no key follows stays too.
   */
  lemma OnePass(w: string, k: string, s: string, env: Env)
    requires '$' !in w && PlainEnv(env)
    ensures Simultaneous("", env) == ""
    ensures Simultaneous(w + s, env) == w + Simultaneous(s, env)
    ensures k in env ==> Simultaneous("$" + k + s, env) == env[k] + Simultaneous(s, env)
    ensures (forall j :: j in env ==> !(j <= s)) ==> Simultaneous("$" + s, env) == "$" + Simultaneous(s, env)
  {
    hide PlainEnv, KeyAt;
    OnePassSkips(w, s, env);
    if k in env {
      OnePassKey(k, s, env);
    }
    if forall j :: j in env ==> !(j <= s) {
      OnePassDangling(s, env);
    }
  }

  lemma OnePassKey(k: string, s: string, env: Env)
    requires PlainEnv(env) && k in env
    ensures Simultaneous("$" + k + s, env) == env[k] + Simultaneous(s, env)
  {
    var t := "$" + k + s;
    assert t[1..] == k + s && t[1 + |k|..] == s;
    KeyThere(env, k, s);
    hide KeyAt, PlainEnv;
  }

  lemma OnePassDangling(s: string, env: Env)
    requires forall j :: j in env ==> !(j <= s)
    ensures Simultaneous("$" + s, env) == "$" + Simultaneous(s, env)
  {
    assert ("$" + s)[1..] == s && KeyAt(env.Keys, s).None?;
    hide KeyAt;
  }

  /** With no key the beginning of another, the key that is there is the one found. */
  lemma KeyThere(env: Env, k: string, s: string)
    requires PlainEnv(env) && k in env
    ensures KeyAt(env.Keys, k + s) == Some(k)
  {
    var j := KeyAt(env.Keys, k + s);
    assert k <= k + s && j.Some?;
    assert |j.value| <= |k| ==> j.value <= k;
    assert |k| <= |j.value| ==> k <= j.value;
  }

  /** The one-pass result with only the keys of `done` replaced. */
  ghost function Partial(s: string, env: Env, done: set<string>): (r: string)
    decreases |s|
  {
    if s == "" then ""
    else
      var k := if s[0] == '$' then KeyAt(env.Keys, s[1..]) else None;
      if k.Some? then (if k.value in done then env[k.value] else "$" + k.value) + Partial(s[1 + |k.value|..], env, done)
      else [s[0]] + Partial(s[1..], env, done)
  }

  /** A '$' that starts no `$key`. */
  ghost predicate Dangling(s: string, keys: set<string>, i: nat) {
    i < |s| && s[i] == '$' && KeyAt(keys, s[i + 1..]).None?
  }

  /** Once the keys of `done` are replaced, some dangling '$' of the argument is followed by `k`. */
  ghost predicate Exposes(s: string, env: Env, done: set<string>, k: string) {
    exists i: nat :: Dangling(s, env.Keys, i) && k <= Partial(s[i + 1..], env, done)
  }

  /** Replacing all variables but one never makes a `$key` of that one out of a dangling '$'. */
  ghost predicate Settled(s: string, env: Env) {
    forall k :: k in env ==> !Exposes(s, env, env.Keys - {k}, k)
  }

  /** The result does not depend on the order in which the map is iterated. */
  ghost predicate OrderIrrelevant(s: string, env: Env) {
    forall o1, o2 :: IsOrder(o1, env.Keys) && IsOrder(o2, env.Keys) ==>
      ReplaceInOrder(s, o1, env) == ReplaceInOrder(s, o2, env)
  }

  // ----------------------------------------------------- partial substitution

  lemma {:induction false} PartialNone(s: string, env: Env)
    ensures Partial(s, env, {}) == s
    decreases |s|
  {
    if s != "" {
      var k := if s[0] == '$' then KeyAt(env.Keys, s[1..]) else None;
      if k.Some? {
        var rest := s[1 + |k.value|..];
        PartialNone(rest, env);
        assert Partial(s, env, {}) == "$" + k.value + rest;
        hide Partial, KeyAt;
        KeyInFront(s, k.value);
      } else {
        PartialNone(s[1..], env);
        assert Partial(s, env, {}) == [s[0]] + s[1..];
        hide Partial, KeyAt;
      }
    }
  }

  lemma KeyInFront(s: string, k: string)
    requires s != "" && s[0] == '$' && k <= s[1..]
    ensures s == "$" + k + s[1 + |k|..]
  {
    assert s[1..] == k + s[1..][|k|..];
  }

  lemma {:induction false} PartialAll(s: string, env: Env)
    ensures Partial(s, env, env.Keys) == Simultaneous(s, env)
    decreases |s|
  {
    if s != "" {
      var k := if s[0] == '$' then KeyAt(env.Keys, s[1..]) else None;
      if k.Some? {
        PartialAll(s[1 + |k.value|..], env);
      } else {
        PartialAll(s[1..], env);
      }
    }
  }

  /** Plain text at the front of a partial result stays there when more keys are replaced. */
  lemma {:induction false} PartialGrows(s: string, env: Env, done: set<string>, done': set<string>, p: string)
    requires '$' !in p && done <= done' && p <= Partial(s, env, done)
    ensures p <= Partial(s, env, done')
    decreases |s|
  {
    if s != "" && p != "" {
      var k := if s[0] == '$' then KeyAt(env.Keys, s[1..]) else None;
      assert p[0] in p;
      if k.None? {
        PartialGrows(s[1..], env, done, done', p[1..]);
      } else if k.value in done {
        var v, rest := env[k.value], s[1 + |k.value|..];
        if |v| < |p| {
          assert p[|v|..] <= Partial(rest, env, done);
          PartialGrows(rest, env, done, done', p[|v|..]);
          assert p == v + p[|v|..];
        }
      }
    }
  }

  lemma ExposesSuffix(s: string, env: Env, done: set<string>, k: string, n: nat)
    requires n <= |s| && Exposes(s[n..], env, done, k)
    ensures Exposes(s, env, done, k)
  {
    var i: nat :| Dangling(s[n..], env.Keys, i) && k <= Partial(s[n..][i + 1..], env, done);
    assert s[n..][i + 1..] == s[n + i + 1..];
    assert Dangling(s, env.Keys, n + i);
  }

  lemma ExposesGrows(s: string, env: Env, done: set<string>, done': set<string>, k: string)
    requires '$' !in k && done <= done' && Exposes(s, env, done, k)
    ensures Exposes(s, env, done', k)
  {
    var i: nat :| Dangling(s, env.Keys, i) && k <= Partial(s[i + 1..], env, done);
    PartialGrows(s[i + 1..], env, done, done', k);
  }

  lemma WhereExposed(s: string, env: Env, done: set<string>, k: string) returns (i: nat)
    requires Exposes(s, env, done, k)
    ensures Dangling(s, env.Keys, i) && k <= Partial(s[i + 1..], env, done)
  {
    hide Partial;
    i :| Dangling(s, env.Keys, i) && k <= Partial(s[i + 1..], env, done);
  }

  // ----------------------------------------------------- one replacement pass

  /** Text without '$' is passed over. */
  lemma {:induction false} SkipPlain(v: string, x: string, from: string, to: string)
    requires '$' !in v && from != "" && from[0] == '$'
    ensures ReplaceAll(v + x, from, to) == v + ReplaceAll(x, from, to)
    decreases |v|
  {
    if v == "" {
      assert v + x == x;
    } else {
      var y, r := v + x, ReplaceAll(x, from, to);
      assert y[0] == v[0] && v[0] in v;
      assert !(from <= y);
      assert y[1..] == v[1..] + x;
      SkipPlain(v[1..], x, from, to);
      assert ReplaceAll(y, from, to) == [y[0]] + (v[1..] + r);
      assert [v[0]] + (v[1..] + r) == v + r;
    }
  }

  /** Two beginnings of the same text: one is the beginning of the other. */
  lemma Comparable(a: string, b: string, x: string)
    ensures a <= b + x ==> a <= b || b <= a
  {
  }

  lemma SamePrefixes(a: string, b: string, x: string)
    requires a <= x && b <= x
    ensures a <= b || b <= a
  {
    assert x == b + x[|b|..];
    Comparable(a, b, x[|b|..]);
  }

  /** Another key at the front is passed over. */
  lemma SkipOtherKey(j: string, x: string, k: string, to: string)
    requires '$' !in j && !(j <= k) && !(k <= j)
    ensures ReplaceAll("$" + j + x, "$" + k, to) == "$" + j + ReplaceAll(x, "$" + k, to)
  {
    var s := "$" + j + x;
    assert s[1..] == j + x;
    assert "$" + k <= s ==> k <= j + x by {
      assert ("$" + k)[1..] == k;
    }
    Comparable(k, j, x);
    SkipPlain(j, x, "$" + k, to);
    assert "$" + (j + ReplaceAll(x, "$" + k, to)) == "$" + j + ReplaceAll(x, "$" + k, to);
  }

  /** Replacing one more key in a partial result gives the partial result with that key. */
  lemma {:induction false} ReplaceOneMore(s: string, env: Env, done: set<string>, k: string)
    requires PlainEnv(env) && k in env && k !in done && !Exposes(s, env, done, k)
    ensures ReplaceAll(Partial(s, env, done), "$" + k, env[k]) == Partial(s, env, done + {k})
    decreases |s|
  {
    if s != "" {
      var from := "$" + k;
      var j := if s[0] == '$' then KeyAt(env.Keys, s[1..]) else None;
      var n := if j.Some? then 1 + |j.value| else 1;
      if Exposes(s[n..], env, done, k) {
        ExposesSuffix(s, env, done, k, n);
      }
      ReplaceOneMore(s[n..], env, done, k);
      var x := Partial(s[n..], env, done);
      if j.Some? {
        if j.value == k {
          ReplaceHere(x, from, env[k]);
        } else if j.value in done {
          SkipPlain(env[j.value], x, from, env[k]);
        } else {
          SkipOtherKey(j.value, x, k, env[k]);
        }
      } else {
        assert ([s[0]] + x)[1..] == x;
        if s[0] == '$' {
          assert Dangling(s, env.Keys, 0) && s[0 + 1..] == s[1..];
          assert from[1..] == k;
          assert !(from <= [s[0]] + x);
        }
      }
    }
  }

  // ------------------------------------------------------------ the confluence

  ghost predicate NeverExposed(s: string, env: Env, done: set<string>) {
    forall d, k :: done <= d <= env.Keys && k in env && k !in d ==> !Exposes(s, env, d, k)
  }

  lemma {:induction false} OrderFromPartial(s: string, env: Env, done: set<string>, order: seq<string>)
    requires PlainEnv(env) && NeverExposed(s, env, done) && IsOrder(order, env.Keys - done) && done <= env.Keys
    ensures ReplaceInOrder(Partial(s, env, done), order, env) == Simultaneous(s, env)
    decreases |order|
  {
    if order == [] {
      assert forall k :: k in env.Keys ==> k in done by {
        forall k | k in env.Keys
          ensures k in done
        {
          assert k in env.Keys - done ==> k in order;
        }
      }
      assert done == env.Keys;
      PartialAll(s, env);
    } else {
      var k := order[0];
      assert k in order;
      ReplaceOneMore(s, env, done, k);
      OrderTail(order, env.Keys - done);
      assert env.Keys - done - {k} == env.Keys - (done + {k});
      OrderFromPartial(s, env, done + {k}, order[1..]);
    }
  }

  lemma OrderTail(order: seq<string>, keys: set<string>)
    requires order != [] && IsOrder(order, keys)
    ensures IsOrder(order[1..], keys - {order[0]})
  {
    var rest := order[1..];
    forall j
      ensures j in rest <==> j in keys - {order[0]}
    {
      assert order == [order[0]] + rest;
      assert j in order <==> j in keys;
    }
    assert forall a, b :: 0 <= a < b < |rest| ==> rest[a] == order[a + 1] && rest[b] == order[b + 1];
  }

  lemma SettledNeverExposed(s: string, env: Env)
    requires PlainEnv(env) && Settled(s, env)
    ensures NeverExposed(s, env, {})
  {
    forall d, k | d <= env.Keys && k in env && k !in d
      ensures !Exposes(s, env, d, k)
    {
      if Exposes(s, env, d, k) {
        ExposesGrows(s, env, d, env.Keys - {k}, k);
      }
    }
  }

  /** Confluence: every iteration order gives the one-pass simultaneous substitution. */
  lemma OrderIndependent(s: string, env: Env, order: seq<string>)
    requires PlainEnv(env) && Settled(s, env) && IsOrder(order, env.Keys)
    ensures ReplaceInOrder(s, order, env) == Simultaneous(s, env)
  {
    PartialNone(s, env);
    SettledNeverExposed(s, env);
    assert env.Keys - {} == env.Keys;
    OrderFromPartial(s, env, {}, order);
  }

  // -------------------------------------------- a condition on the text alone

  /** The text up to the next '$'. */
  function Segment(s: string): (r: string)
    ensures r <= s && '$' !in r
    ensures |r| < |s| ==> s[|r|] == '$'
  {
    if s == "" || s[0] == '$' then "" else [s[0]] + Segment(s[1..])
  }

  /**
   Every '$' starts some `$key`, or is followed by text that cannot become the
   rest of a key, whatever the next substitution puts behind it.
   */
  ghost predicate Separated(s: string, keys: set<string>) {
    forall i: nat :: Dangling(s, keys, i) ==>
      Segment(s[i + 1..]) == s[i + 1..] || forall k :: k in keys ==> !(Segment(s[i + 1..]) <= k)
  }

  /** Partial substitution starts with the plain text it finds. */
  lemma {:induction false} PartialSegment(s: string, env: Env, done: set<string>)
    ensures Segment(s) <= Partial(s, env, done)
    ensures Segment(s) == s ==> Partial(s, env, done) == s
  {
    if s != "" && s[0] != '$' {
      PartialSegment(s[1..], env, done);
    }
  }

  lemma SeparatedAt(s: string, env: Env, k: string, i: nat)
    requires PlainEnv(env) && Separated(s, env.Keys) && k in env && Dangling(s, env.Keys, i)
    ensures !(k <= Partial(s[i + 1..], env, env.Keys - {k}))
  {
    var t := s[i + 1..];
    var x, g := Partial(t, env, env.Keys - {k}), Segment(t);
    PartialSegment(t, env, env.Keys - {k});
    hide Partial, Segment, PlainEnv;
    assert x == g + x[|g|..] && t == g + t[|g|..];
    Comparable(k, g, x[|g|..]);
  }

  lemma SeparatedIsSettled(s: string, env: Env)
    requires PlainEnv(env) && Separated(s, env.Keys)
    ensures Settled(s, env)
  {
    hide Partial, Separated, PlainEnv;
    forall k, i: nat | k in env && Dangling(s, env.Keys, i)
      ensures !(k <= Partial(s[i + 1..], env, env.Keys - {k}))
    {
      SeparatedAt(s, env, k, i);
    }
  }

  // ------------------------------------------- no hypothesis can be left out

  /** A value that contains '$': the order decides whether it is substituted in turn. */
  lemma OrderMattersForValues()
    ensures var env := map["A" := "$B", "B" := "x"];
            ReplaceInOrder("$A", ["A", "B"], env) != ReplaceInOrder("$A", ["B", "A"], env)
  {
    var env := map["A" := "$B", "B" := "x"];
    assert ReplaceAll("$A", "$A", "$B") == "$B";
    assert ReplaceAll("$B", "$B", "x") == "x";
    assert ReplaceAll("$A", "$B", "x") == "$A" by {
      assert "$A"[1] != "$B"[1] && "$A"[1..] == "A";
      assert ReplaceAll("A", "$B", "x") == "A";
    }
    assert ReplaceInOrder("$A", ["A", "B"], env) == ReplaceInOrder("$B", ["B"], env) by {
      assert ["A", "B"][1..] == ["B"];
    }
    assert ReplaceInOrder("$A", ["B", "A"], env) == ReplaceInOrder("$A", ["A"], env) by {
      assert ["B", "A"][1..] == ["A"];
    }
  }

  /** A name that begins another: the order decides which of them is found. */
  lemma OrderMattersForPrefixes()
    ensures var env := map["A" := "x", "AB" := "y"];
            ReplaceInOrder("$AB", ["A", "AB"], env) != ReplaceInOrder("$AB", ["AB", "A"], env)
  {
    var env := map["A" := "x", "AB" := "y"];
    assert ReplaceAll("$AB", "$A", "x") == "xB" by {
      assert "$AB"[2..] == "B";
      assert ReplaceAll("B", "$A", "x") == "B";
    }
    assert ReplaceAll("$AB", "$AB", "y") == "y";
    assert ReplaceAll("xB", "$AB", "y") == "xB" by { assert "xB"[1..] == "B"; }
    assert ReplaceAll("y", "$A", "x") == "y";
    assert ReplaceInOrder("$AB", ["A", "AB"], env) == ReplaceInOrder("xB", ["AB"], env) by {
      assert ["A", "AB"][1..] == ["AB"];
    }
    assert ReplaceInOrder("$AB", ["AB", "A"], env) == ReplaceInOrder("y", ["A"], env) by {
      assert ["AB", "A"][1..] == ["A"];
    }
  }

  /** A '$' in front of a variable whose value is a name: the order decides whether they combine. */
  lemma OrderMattersForDangling()
    ensures var env := map["A" := "B", "B" := "x"];
            PlainEnv(env) && ReplaceInOrder("$$A", ["A", "B"], env) != ReplaceInOrder("$$A", ["B", "A"], env)
  {
    var env := map["A" := "B", "B" := "x"];
    assert ReplaceAll("$$A", "$A", "B") == "$B" by {
      assert "$$A"[1..] == "$A";
      assert ReplaceAll("$A", "$A", "B") == "B";
    }
    assert ReplaceAll("$B", "$B", "x") == "x";
    assert ReplaceAll("$$A", "$B", "x") == "$$A" by {
      assert "$$A"[1..] == "$A";
      assert "$A"[1..] == "A";
    }
    assert ReplaceInOrder("$$A", ["A", "B"], env) == ReplaceInOrder("$B", ["B"], env) by {
      assert ["A", "B"][1..] == ["B"];
    }
    assert ReplaceInOrder("$$A", ["B", "A"], env) == ReplaceInOrder("$$A", ["A"], env) by {
      assert ["B", "A"][1..] == ["A"];
    }
  }

  // --------------------------------------------------------------- the program

  function IndexOfEquals(s: string): (i: nat)
    requires '=' in s
    ensures i < |s| && s[i] == '=' && '=' !in s[..i]
  {
    if s[0] == '=' then 0 else 1 + IndexOfEquals(s[1..])
  }

  function KeyOf(s: string): (k: string)
    requires '=' in s
  {
    s[..IndexOfEquals(s)]
  }

  function ValueOf(s: string): (v: string)
    requires '=' in s
  {
    s[IndexOfEquals(s) + 1..]
  }

  ghost predicate Definitions(envs: seq<string>) {
    forall i :: 0 <= i < |envs| ==> '=' in envs[i]
  }

  /** The text before the first '=' of `e` is `k`. */
  predicate Names(e: string, k: string) {
    '=' !in k && k + "=" <= e
  }

  /** A definition splits at its first '=' into its name and its value, and has no other name. */
  lemma SplitsAtFirst(e: string, k: string)
    requires '=' in e
    ensures e == KeyOf(e) + "=" + ValueOf(e) && Names(e, KeyOf(e))
    ensures Names(e, k) ==> k == KeyOf(e)
  {
    var i := IndexOfEquals(e);
    assert KeyOf(e) + "=" + ValueOf(e) == e;
    assert KeyOf(e) + "=" == e[..i + 1];
    if Names(e, k) {
      assert forall j :: 0 <= j < i ==> e[j] == e[..i][j] && e[..i][j] in e[..i];
      assert forall j :: 0 <= j < |k| ==> e[j] == (k + "=")[j] && (k + "=")[j] == k[j] && k[j] in k;
      assert e[|k|] == (k + "=")[|k|];
      assert |k| == i && k == e[..i];
    }
  }

  /** Entry `i` defines `k` as `v`, and no later one of the first `n` defines `k`. */
  ghost predicate LastOf(envs: seq<string>, n: nat, i: nat, k: string, v: string)
    requires n <= |envs|
  {
    && i < n && envs[i] == k + "=" + v && '=' !in k
    && forall j :: i < j < n ==> !Names(envs[j], k)
  }

  /** `env` holds the names the first `n` entries define, each with its last definition. */
  ghost predicate Defines(envs: seq<string>, n: nat, env: Env)
    requires n <= |envs|
  {
    && (forall i, k :: 0 <= i < n && Names(envs[i], k) ==> k in env)
    && (forall k :: k in env ==> exists i: nat :: LastOf(envs, n, i, k, env[k]))
  }

  lemma DefinesMore(envs: seq<string>, n: nat, env: Env)
    requires Definitions(envs) && n < |envs| && Defines(envs, n, env)
    ensures Defines(envs, n + 1, env[KeyOf(envs[n]) := ValueOf(envs[n])])
  {
    var key, env' := KeyOf(envs[n]), env[KeyOf(envs[n]) := ValueOf(envs[n])];
    SplitsAtFirst(envs[n], key);
    hide KeyOf, ValueOf;
    forall i, k | 0 <= i < n + 1 && Names(envs[i], k)
      ensures k in env'
    {
      if i == n {
        SplitsAtFirst(envs[n], k);
      }
    }
    hide Names;
    var m := n + 1;
    forall k | k in env'
      ensures exists i: nat :: LastOf(envs, m, i, k, env'[k])
    {
      if k == key {
        NameHasNoEquals(envs[n], key);
        assert LastOf(envs, m, n, k, env'[k]);
      } else {
        var i: nat :| LastOf(envs, n, i, k, env[k]);
        SplitsAtFirst(envs[n], k);
        assert LastOf(envs, m, i, k, env'[k]);
      }
    }
  }

  lemma NameHasNoEquals(e: string, k: string)
    requires Names(e, k)
    ensures '=' !in k
  {
  }

  method ReadEnv(envs: seq<string>) returns (ee: Env)
    requires Definitions(envs)
    ensures Defines(envs, |envs|, ee)
  {
    ee := map[];
    var i := 0;
    while i < |envs|
      invariant 0 <= i <= |envs| && Defines(envs, i, ee)
    {
      DefinesMore(envs, i, ee);
      hide Defines, KeyOf, ValueOf;
      ee := ee[KeyOf(envs[i]) := ValueOf(envs[i])];
      i := i + 1;
    }
  }

  /** The inner loop: the keys in whatever order the map yields them. */
  method Expand(arg: string, ee: Env) returns (e: string, ghost order: seq<string>)
    ensures IsOrder(order, ee.Keys) && e == ReplaceInOrder(arg, order, ee)
  {
    e, order := arg, [];
    var todo := ee.Keys;
    while todo != {}
      invariant todo <= ee.Keys && IsOrder(order, ee.Keys - todo)
      invariant e == ReplaceInOrder(arg, order, ee)
      decreases todo
    {
      var k :| k in todo;
      e := ReplaceAll(e, "$" + k, ee[k]);
      InOrderSnoc(arg, order, k, ee);
      ghost var next := order + [k];
      assert IsOrder(next, ee.Keys - (todo - {k})) by {
        assert forall j :: j in next <==> j in order || j == k;
      }
      todo, order := todo - {k}, next;
    }
    assert ee.Keys - {} == ee.Keys;
  }

  lemma {:induction false} InOrderSnoc(s: string, order: seq<string>, k: string, env: Env)
    requires k in env && forall j :: j in order ==> j in env
    ensures ReplaceInOrder(s, order + [k], env) == ReplaceAll(ReplaceInOrder(s, order, env), "$" + k, env[k])
    decreases |order|
  {
    if order == [] {
      assert order + [k] == [k];
    } else {
      assert (order + [k])[1..] == order[1..] + [k];
      InOrderSnoc(ReplaceAll(s, "$" + order[0], env[order[0]]), order[1..], k, env);
    }
  }

  /** The original with the variables replaced in some order; in one pass, where the order does not matter. */
  ghost predicate Expands(arg: string, e: string, ee: Env) {
    && (exists order :: IsOrder(order, ee.Keys) && e == ReplaceInOrder(arg, order, ee))
    && (PlainEnv(ee) && Settled(arg, ee) ==> e == Simultaneous(arg, ee))
  }

  lemma IsExpansion(arg: string, ee: Env, order: seq<string>, e: string)
    requires IsOrder(order, ee.Keys) && e == ReplaceInOrder(arg, order, ee)
    ensures Expands(arg, e, ee)
  {
    hide ReplaceInOrder, PlainEnv, Settled, Simultaneous, IsOrder;
    if PlainEnv(ee) && Settled(arg, ee) {
      OrderIndependent(arg, ee, order);
    }
  }

  /** The arguments of a program, with the last definition of each variable. */
  method Args(progArgs: seq<string>, envs: seq<string>) returns (newArgs: seq<string>, ghost ee: Env)
    requires Definitions(envs)
    ensures |newArgs| == |progArgs| && Defines(envs, |envs|, ee)
    ensures forall i :: 0 <= i < |progArgs| ==> Expands(progArgs[i], newArgs[i], ee)
  {
    hide *;
    newArgs := [];
    var env := ReadEnv(envs);
    ee := env;
    var i := 0;
    while i < |progArgs|
      invariant 0 <= i <= |progArgs| && |newArgs| == i
      invariant forall j :: 0 <= j < i ==> Expands(progArgs[j], newArgs[j], ee)
    {
      var e;
      ghost var order;
      e, order := Expand(progArgs[i], env);
      IsExpansion(progArgs[i], ee, order, e);
      newArgs := newArgs + [e];
      i := i + 1;
    }
  }
}
