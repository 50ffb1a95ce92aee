/**
 The boot disk as an open file: a fixed number of bytes, a file position, and
 writes that reach the medium one sector at a time. A machine that stops in the
 middle of a write leaves some sectors new and the rest old, so a run of the
 program is described by the log of its single-sector writes, and the states a
 crash can expose are the states after the prefixes of that log.
 */
module Disk {
  import opened Binary
  import opened Layout

  /** One write that the medium performs as a whole. */
  datatype SectorWrite = At(off: nat, data: Bytes)

  /** `ws` are the first few of the writes `plan`. */
  ghost predicate Begins(ws: seq<SectorWrite>, plan: seq<SectorWrite>) {
    |ws| <= |plan| && ws == plan[..|ws|]
  }

  lemma BeginsConcat(done: seq<SectorWrite>, ws: seq<SectorWrite>, plan: seq<SectorWrite>)
    requires Begins(ws, plan)
    ensures Begins(done + ws, done + plan)
  {
    assert (done + plan)[..|done + ws|] == done + plan[..|ws|];
  }

  /** `c` after the writes `ws`, in order. */
  ghost function Replay(c: Bytes, ws: seq<SectorWrite>): (r: Bytes)
    ensures |r| == |c|
    decreases |ws|
  {
    if ws == [] then c else Replay(Patch(c, ws[0].off, ws[0].data), ws[1..])
  }

  lemma {:induction false} ReplayConcat(c: Bytes, xs: seq<SectorWrite>, ys: seq<SectorWrite>)
    ensures Replay(c, xs + ys) == Replay(Replay(c, xs), ys)
    decreases |xs|
  {
    if xs == [] {
      assert xs + ys == ys;
    } else {
      assert (xs + ys)[1..] == xs[1..] + ys;
      ReplayConcat(Patch(c, xs[0].off, xs[0].data), xs[1..], ys);
    }
  }

  /** Every write lies wholly outside the bytes `lo` to `hi`. */
  ghost predicate Avoids(ws: seq<SectorWrite>, lo: nat, hi: nat) {
    forall w :: w in ws ==> hi <= w.off || w.off + |w.data| <= lo
  }

  lemma {:induction false} ReplayFrame(c: Bytes, ws: seq<SectorWrite>, lo: nat, hi: nat)
    requires lo <= hi <= |c| && Avoids(ws, lo, hi)
    ensures Replay(c, ws)[lo..hi] == c[lo..hi]
    decreases |ws|
  {
    if ws != [] {
      PatchElsewhere(c, ws[0].off, ws[0].data, lo, hi);
      ReplayFrame(Patch(c, ws[0].off, ws[0].data), ws[1..], lo, hi);
    }
  }

  /** A write not touched by the later ones is what is read back. */
  lemma ReplayReadBack(c: Bytes, ws: seq<SectorWrite>, i: nat)
    requires i < |ws| && ws[i].off + |ws[i].data| <= |c|
    requires Avoids(ws[i + 1..], ws[i].off, ws[i].off + |ws[i].data|)
    ensures Replay(c, ws)[ws[i].off..ws[i].off + |ws[i].data|] == ws[i].data
    decreases i
  {
    var c' := Patch(c, ws[0].off, ws[0].data);
    if i == 0 {
      PatchThere(c, ws[0].off, ws[0].data);
      ReplayFrame(c', ws[1..], ws[0].off, ws[0].off + |ws[0].data|);
    } else {
      assert ws[1..][i - 1] == ws[i] && ws[1..][i..] == ws[i + 1..];
      ReplayReadBack(c', ws[1..], i - 1);
    }
  }

  /** How much of `n` bytes at `off` falls into the first sector. */
  function ChunkSize(off: nat, n: nat): (r: nat)
    requires 0 < n
    ensures 0 < r <= n
  {
    if SECTOR - off % SECTOR < n then SECTOR - off % SECTOR else n
  }

  /** The single-sector writes that one `write` call of `b` at `off` is made of. */
  function Chunks(off: nat, b: Bytes): (ws: seq<SectorWrite>)
    decreases |b|
  {
    if b == [] then []
    else
      var n := ChunkSize(off, |b|);
      [At(off, b[..n])] + Chunks(off + n, b[n..])
  }

  lemma ChunksOne(off: nat, b: Bytes)
    requires 0 < |b| <= SECTOR - off % SECTOR
    ensures Chunks(off, b) == [At(off, b)]
  {
    assert b[..|b|] == b;
    assert Chunks(off + |b|, b[|b|..]) == [];
  }

  /**
   An open read-write file on the boot device. Which of the calls on it fail is a
   matter of the device, and arbitrary.
   */
  class File {
    const data: array<byte>
    const faults: nat -> bool
    var pos: int
    var calls: nat
    ghost var log: seq<SectorWrite>

    constructor (data: array<byte>, faults: nat -> bool)
      ensures this.data == data && this.faults == faults && pos == 0 && calls == 0 && log == []
    {
      this.data, this.faults := data, faults;
      pos, calls := 0, 0;
      log := [];
    }

    ghost function Content(): (c: Bytes)
      reads data
    {
      data[..]
    }

    /** No call has failed since there were `n` of them. */
    ghost predicate SoundSince(n: nat)
      reads this`calls
    {
      n <= calls && forall k :: n <= k < calls ==> !faults(k)
    }

    /** Calls were made, none of which failed. */
    twostate predicate Went(ok: bool)
      reads this`calls
    {
      old(calls) <= calls && (ok <==> SoundSince(old(calls)))
    }

    method Call() returns (ok: bool)
      modifies this`calls
      ensures calls == old(calls) + 1 && ok == !faults(old(calls)) && Went(ok)
    {
      ok := !faults(calls);
      calls := calls + 1;
    }

    method Seek(off: int) returns (ok: bool)
      modifies this`calls, this`pos
      ensures ok ==> pos == off && 0 <= off
      ensures 0 <= off ==> Went(ok)
    {
      ok := Call();
      ok := ok && 0 <= off;
      if ok {
        pos := off;
      }
    }

    method SeekEnd() returns (ok: bool, size: int)
      modifies this`calls, this`pos
      ensures ok ==> size == data.Length
      ensures Went(ok)
    {
      ok := Call();
      size := 0;
      if ok {
        pos := data.Length;
        size := data.Length;
      }
    }

    method ReadAt(n: nat, off: int) returns (ok: bool, b: Bytes)
      modifies this`calls
      ensures ok ==> 0 <= off && off + n <= data.Length && b == Content()[off..off + n]
      ensures 0 <= off && off + n <= data.Length ==> Went(ok)
    {
      ok := Call();
      ok, b := ok && 0 <= off && off + n <= data.Length, [];
      if ok {
        b := data[off..off + n];
      }
    }

    method Read(n: nat) returns (ok: bool, b: Bytes)
      modifies this`calls, this`pos
      ensures ok ==>
                && 0 <= old(pos) && old(pos) + n <= data.Length && pos == old(pos) + n
                && b == Content()[old(pos)..old(pos) + n]
      ensures 0 <= old(pos) && old(pos) + n <= data.Length ==> Went(ok)
    {
      ok, b := ReadAt(n, pos);
      if ok {
        pos := pos + n;
      }
    }

    /** One write the medium performs as a whole, or not at all. */
    method WriteSector(b: Bytes, off: nat) returns (ok: bool, ghost ws: seq<SectorWrite>)
      modifies this`calls, this`log, data
      ensures log == old(log) + ws
      ensures ws == if ok then [At(off, b)] else []
      ensures Content() == Replay(old(Content()), ws)
      ensures off + |b| <= data.Length ==> Went(ok)
    {
      ok := Call();
      if !ok || data.Length < off + |b| {
        return false, [];
      }
      ghost var c := Content();
      forall k | 0 <= k < |b| {
        data[off + k] := b[k];
      }
      ws := [At(off, b)];
      log := log + ws;
      assert Content() == Patch(c, off, b);
    }

    /**
     Writes `b` from `off` on. `ws` are the single-sector writes performed; a
     failed call has performed the first few of them.
     */
    method WriteAt(b: Bytes, off: int) returns (ok: bool, ghost ws: seq<SectorWrite>)
      modifies this`calls, this`log, data
      ensures log == old(log) + ws
      ensures 0 <= off ==> Begins(ws, Chunks(off, b))
      ensures off < 0 ==> ws == [] && !ok
      ensures ok ==> ws == Chunks(off, b)
      ensures Content() == Replay(old(Content()), ws)
      ensures 0 <= off && off + |b| <= data.Length ==> Went(ok)
      decreases |b|
    {
      if off < 0 || b == [] {
        return 0 <= off, [];
      }
      hide Patch, ChunkSize;
      var n := ChunkSize(off, |b|);
      ok, ws := WriteSector(b[..n], off);
      if ok {
        ghost var first, rest := ws, [];
        ok, rest := WriteAt(b[n..], off + n);
        ws := first + rest;
        BeginsConcat(first, rest, Chunks(off + n, b[n..]));
        ReplayConcat(old(Content()), first, rest);
      }
    }

    method Write(b: Bytes) returns (ok: bool, ghost ws: seq<SectorWrite>)
      modifies this`calls, this`log, this`pos, data
      ensures log == old(log) + ws
      ensures 0 <= old(pos) ==> Begins(ws, Chunks(old(pos), b))
      ensures old(pos) < 0 ==> ws == [] && !ok
      ensures ok ==> ws == Chunks(old(pos), b) && pos == old(pos) + |b|
      ensures Content() == Replay(old(Content()), ws)
      ensures 0 <= old(pos) && old(pos) + |b| <= data.Length ==> Went(ok)
    {
      ok, ws := WriteAt(b, pos);
      if ok {
        pos := pos + |b|;
      }
    }
  }
}
