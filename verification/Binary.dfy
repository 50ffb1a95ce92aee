/**
 Fixed-width little-endian integers and packed structures, as Go's
 `encoding/binary` reads and writes them: a structure is the concatenation of
 its fields, each of a fixed width, with no padding.
 */
module Binary {

  type byte = x: int | 0 <= x < 256
  type Bytes = seq<byte>

  const TWO32: int := 0x1_0000_0000
  const TWO64: int := 0x1_0000_0000_0000_0000

  type uint16 = x: int | 0 <= x < 0x1_0000
  type uint32 = x: int | 0 <= x < 0x1_0000_0000
  type uint64 = x: int | 0 <= x < 0x1_0000_0000_0000_0000

  /** Conversion of any integer to `uint64`, and arithmetic in it: wraps modulo 2^64. */
  function Wrap64(x: int): (r: uint64) {
    x % TWO64
  }

  function Wrap32(x: int): (r: uint32) {
    x % TWO32
  }

  /** Conversion from `uint64` to `int64`: large values become negative. */
  function Int64(x: uint64): (r: int) {
    if x < 0x8000_0000_0000_0000 then x else x - TWO64
  }

  /** The signed number with the same bits. */
  lemma Int64Is(x: uint64)
    ensures -0x8000_0000_0000_0000 <= Int64(x) < 0x8000_0000_0000_0000 && Wrap64(Int64(x)) == x
  {
  }

  lemma FitsUint64(x: int)
    requires 0 <= x < TWO64
    ensures Wrap64(x) == x
  {
  }

  lemma NoWrap(x: int)
    requires 0 <= x < 0x8000_0000_0000_0000
    ensures Wrap64(x) == x && Int64(x) == x
  {
  }

  // ---------------------------------------------------------------- integers

  function Pow256(k: nat): (r: nat)
    ensures 1 <= r
  {
    if k == 0 then 1 else 256 * Pow256(k - 1)
  }

  function ToLE(n: nat, k: nat): (b: Bytes)
    ensures |b| == k
    decreases n, k
  {
    if k == 0 then [] else [n % 256] + ToLE(n / 256, k - 1)
  }

  function FromLE(b: Bytes): (n: nat)
    ensures n < Pow256(|b|)
  {
    if b == [] then 0 else b[0] + 256 * FromLE(b[1..])
  }

  lemma {:induction false} FromToLE(n: nat, k: nat)
    requires n < Pow256(k)
    ensures FromLE(ToLE(n, k)) == n
    decreases k
  {
    if k > 0 {
      FromToLE(n / 256, k - 1);
      assert ToLE(n, k)[1..] == ToLE(n / 256, k - 1);
    }
  }

  lemma Digits(d: byte, r: nat)
    ensures (d + 256 * r) % 256 == d && (d + 256 * r) / 256 == r
  {
  }

  lemma {:induction false} ToFromLE(b: Bytes)
    ensures ToLE(FromLE(b), |b|) == b
  {
    if b != [] {
      hide Pow256;
      ToFromLE(b[1..]);
      Digits(b[0], FromLE(b[1..]));
      assert ToLE(FromLE(b), |b|) == [b[0]] + ToLE(FromLE(b[1..]), |b| - 1);
      assert b == [b[0]] + b[1..];
    }
  }

  lemma Pow256Values()
    ensures Pow256(4) == TWO32 && Pow256(8) == TWO64
  {
    assert Pow256(2) == 0x1_0000;
    assert Pow256(4) == TWO32;
    assert Pow256(6) == 0x1_0000_0000_0000;
  }

  function Put32(n: uint32): (b: Bytes)
    ensures |b| == 4
  {
    ToLE(n, 4)
  }

  function Put64(n: uint64): (b: Bytes)
    ensures |b| == 8
  {
    ToLE(n, 8)
  }

  function Get32(b: Bytes): (n: uint32)
    requires |b| == 4
  {
    Pow256Values();
    FromLE(b)
  }

  function Get64(b: Bytes): (n: uint64)
    requires |b| == 8
  {
    Pow256Values();
    FromLE(b)
  }

  /** Decoding inverts encoding for every value of both widths. */
  lemma GetPut32(n: uint32)
    ensures Get32(Put32(n)) == n
  {
    Pow256Values();
    FromToLE(n, 4);
  }

  lemma GetPut64(n: uint64)
    ensures Get64(Put64(n)) == n
  {
    Pow256Values();
    FromToLE(n, 8);
  }

  /** Encoding inverts decoding for every byte string of either width. */
  lemma PutGet32(b: Bytes)
    requires |b| == 4
    ensures Put32(Get32(b)) == b
  {
    ToFromLE(b);
  }

  lemma PutGet64(b: Bytes)
    requires |b| == 8
    ensures Put64(Get64(b)) == b
  {
    ToFromLE(b);
  }

  lemma {:induction false} FromLE2(b: Bytes)
    requires 2 <= |b|
    ensures FromLE(b) == (b[0] as int) + 0x100 * (b[1] as int) + 0x1_0000 * FromLE(b[2..])
  {
    assert b[1..][0] == b[1] && b[1..][1..] == b[2..];
  }

  /** What four bytes mean as a number: the least significant comes first. */
  lemma Get32Value(b: Bytes)
    requires |b| == 4
    ensures Get32(b) == (b[0] as int) + 0x100 * (b[1] as int) + 0x1_0000 * (b[2] as int) + 0x100_0000 * (b[3] as int)
  {
    FromLE2(b);
    FromLE2(b[2..]);
    assert b[2..][2..] == [] && b[2..][0] == b[2] && b[2..][1] == b[3];
    assert FromLE([]) == 0;
  }

  lemma Get64Value(b: Bytes)
    requires |b| == 8
    ensures Get64(b) == (b[0] as int) + 0x100 * (b[1] as int) + 0x1_0000 * (b[2] as int) + 0x100_0000 * (b[3] as int)
                        + 0x1_0000_0000 * (b[4] as int) + 0x100_0000_0000 * (b[5] as int)
                        + 0x1_0000_0000_0000 * (b[6] as int) + 0x100_0000_0000_0000 * (b[7] as int)
  {
    hide Pow256;
    FromLE2(b);
    FromLE2(b[2..]);
    FromLE2(b[4..]);
    FromLE2(b[6..]);
    assert b[2..][2..] == b[4..] && b[4..][2..] == b[6..] && b[6..][2..] == [];
    assert b[2..][0] == b[2] && b[2..][1] == b[3] && b[4..][0] == b[4] && b[4..][1] == b[5];
    assert b[6..][0] == b[6] && b[6..][1] == b[7] && FromLE([]) == 0;
    hide FromLE;
  }

  // ---------------------------------------------------------- in-place change

  /** `c` with the bytes from `off` on replaced by `b`; a change beyond the end has no effect. */
  function Patch(c: Bytes, off: nat, b: Bytes): (r: Bytes)
    ensures |r| == |c|
  {
    if off + |b| <= |c| then c[..off] + b + c[off + |b|..] else c
  }

  lemma PatchElsewhere(c: Bytes, off: nat, b: Bytes, lo: nat, hi: nat)
    requires lo <= hi <= |c|
    requires hi <= off || off + |b| <= lo
    ensures Patch(c, off, b)[lo..hi] == c[lo..hi]
  {
  }

  lemma PatchThere(c: Bytes, off: nat, b: Bytes)
    requires off + |b| <= |c|
    ensures Patch(c, off, b)[off..off + |b|] == b
  {
  }

  lemma SliceOfSlice(c: Bytes, a: nat, b: nat, x: nat, y: nat)
    requires a <= b <= |c| && x <= y <= b - a
    ensures c[a..b][x..y] == c[a + x..a + y]
  {
    var s, t := c[a..b][x..y], c[a + x..a + y];
    assert forall i :: 0 <= i < y - x ==> s[i] == c[a + (x + i)] && t[i] == c[a + x + i];
  }

  lemma PatchMiddle(pre: Bytes, was: Bytes, now: Bytes, post: Bytes)
    requires |was| == |now|
    ensures Patch(pre + was + post, |pre|, now) == pre + now + post
  {
    var c := pre + was + post;
    assert c[..|pre|] == pre;
    assert c[|pre| + |now|..] == post;
  }

  /** A change inside a part is a change of the whole. */
  lemma PatchNested(c: Bytes, off: nat, n: nat, inner: nat, x: Bytes)
    requires off + n <= |c| && inner + |x| <= n
    ensures Patch(c, off, Patch(c[off..off + n], inner, x)) == Patch(c, off + inner, x)
  {
    var e := c[off..off + n];
    var l, r := Patch(c, off, Patch(e, inner, x)), Patch(c, off + inner, x);
    assert l == c[..off] + (e[..inner] + x + e[inner + |x|..]) + c[off + n..];
    assert c[..off] + e[..inner] == c[..off + inner];
    assert e[inner + |x|..] + c[off + n..] == c[off + inner + |x|..];
  }

  /** What a part sees of a change inside it. */
  lemma PatchSeen(c: Bytes, off: nat, x: Bytes, lo: nat, hi: nat)
    requires lo <= off && off + |x| <= hi <= |c|
    ensures Patch(c, off, x)[lo..hi] == Patch(c[lo..hi], off - lo, x)
  {
    var e := c[lo..hi];
    assert e[..off - lo] == c[lo..off];
    assert e[off - lo + |x|..] == c[off + |x|..hi];
    assert Patch(c, off, x)[lo..hi] == c[lo..off] + x + c[off + |x|..hi];
  }

  // -------------------------------------------------------------- structures

  function Sum(ws: seq<nat>): (n: nat) {
    if ws == [] then 0 else ws[0] + Sum(ws[1..])
  }

  ghost predicate HasWidths(fs: seq<Bytes>, ws: seq<nat>) {
    |fs| == |ws| && forall i :: 0 <= i < |fs| ==> |fs[i]| == ws[i]
  }

  function Join(fs: seq<Bytes>): (b: Bytes) {
    if fs == [] then [] else fs[0] + Join(fs[1..])
  }

  function Split(b: Bytes, ws: seq<nat>): (fs: seq<Bytes>)
    requires |b| == Sum(ws)
    ensures HasWidths(fs, ws)
    decreases |b|, |ws|
  {
    if ws == [] then [] else [b[..ws[0]]] + Split(b[ws[0]..], ws[1..])
  }

  /** Where field `i` starts. */
  function Offset(ws: seq<nat>, i: nat): (n: nat)
    requires i <= |ws|
  {
    if i == 0 then 0 else Offset(ws, i - 1) + ws[i - 1]
  }

  lemma {:induction false} OffsetOfRest(ws: seq<nat>, i: nat)
    requires 0 < i <= |ws|
    ensures Offset(ws, i) == ws[0] + Offset(ws[1..], i - 1)
  {
    if i > 1 {
      OffsetOfRest(ws, i - 1);
    }
  }

  lemma {:induction false} OffsetIsSum(ws: seq<nat>, i: nat)
    requires i <= |ws|
    ensures Offset(ws, i) == Sum(ws[..i])
    decreases i
  {
    if i > 0 {
      OffsetOfRest(ws, i);
      OffsetIsSum(ws[1..], i - 1);
      assert ws[..i][1..] == ws[1..][..i - 1];
    }
  }

  lemma {:induction false} SplitJoin(fs: seq<Bytes>, ws: seq<nat>)
    requires HasWidths(fs, ws)
    ensures |Join(fs)| == Sum(ws)
    ensures Split(Join(fs), ws) == fs
  {
    if fs != [] {
      SplitJoin(fs[1..], ws[1..]);
      var first, rest := fs[0], Join(fs[1..]);
      assert Join(fs) == first + rest;
      assert (first + rest)[..ws[0]] == first && (first + rest)[ws[0]..] == rest;
      assert Split(first + rest, ws) == [first] + Split(rest, ws[1..]);
    }
  }

  lemma {:induction false} JoinSplit(b: Bytes, ws: seq<nat>)
    requires |b| == Sum(ws)
    ensures Join(Split(b, ws)) == b
    decreases |ws|
  {
    if ws != [] {
      JoinSplit(b[ws[0]..], ws[1..]);
      assert Split(b, ws)[1..] == Split(b[ws[0]..], ws[1..]);
    }
  }

  /** Field `i` is read from the bytes at its offset. */
  lemma SplitFirst(b: Bytes, ws: seq<nat>)
    requires |b| == Sum(ws) && ws != []
    ensures ws[0] <= |b| && |b[ws[0]..]| == Sum(ws[1..])
    ensures Split(b, ws) == [b[..ws[0]]] + Split(b[ws[0]..], ws[1..])
    ensures Offset(ws, 0) == 0
  {
  }

  lemma {:induction false} SplitAt(b: Bytes, ws: seq<nat>, i: nat)
    requires |b| == Sum(ws) && i < |ws|
    ensures Offset(ws, i) + ws[i] <= |b| && Split(b, ws)[i] == b[Offset(ws, i)..Offset(ws, i) + ws[i]]
    decreases i
  {
    hide Offset, Split, Sum;
    SplitFirst(b, ws);
    if i > 0 {
      var lo := Offset(ws[1..], i - 1);
      SplitAt(b[ws[0]..], ws[1..], i - 1);
      OffsetOfRest(ws, i);
      SliceOfRest(b, ws[0], lo, lo + ws[i]);
    }
  }

  lemma SliceOfRest(b: Bytes, a: nat, x: nat, y: nat)
    requires a <= |b| && x <= y <= |b| - a
    ensures b[a..][x..y] == b[a + x..a + y]
  {
    SliceOfSlice(b, a, |b|, x, y);
    assert b[a..] == b[a..|b|];
  }

  lemma {:induction false} JoinAt(fs: seq<Bytes>, i: nat)
    requires i < |fs|
    ensures Join(fs) == Join(fs[..i]) + fs[i] + Join(fs[i + 1..])
  {
    if i > 0 {
      JoinAt(fs[1..], i - 1);
      assert fs[..i][1..] == fs[1..][..i - 1];
      assert fs[1..][i..] == fs[i + 1..];
    }
  }

  /** Changing one field changes the encoding at that field's offset and nowhere else. */
  lemma JoinUpdate(fs: seq<Bytes>, ws: seq<nat>, i: nat, x: Bytes)
    requires HasWidths(fs, ws) && i < |fs| && |x| == ws[i]
    ensures Offset(ws, i) + ws[i] <= |Join(fs)|
    ensures Join(fs[i := x]) == Patch(Join(fs), Offset(ws, i), x)
  {
    hide Join, Patch, Sum, Offset, Split;
    SplitJoin(fs[..i], ws[..i]);
    OffsetIsSum(ws, i);
    JoinAt(fs, i);
    JoinAt(fs[i := x], i);
    assert fs[i := x][..i] == fs[..i];
    assert fs[i := x][i + 1..] == fs[i + 1..];
    PatchMiddle(Join(fs[..i]), fs[i], x, Join(fs[i + 1..]));
  }
}
