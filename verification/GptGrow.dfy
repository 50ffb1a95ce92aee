/**
 The program that grows the disk: an object with a file, a cached header and
 a few intermediate results, whose methods read and write the file step by
 step. Any read, seek or write may fail, and a failure ends the run.
 */
module GptGrow {
  import opened Binary
  import opened Layout
  import opened Disk
  import opened Gpt
  import opened GptSafety
  import opened Wrappers

  /** `zr.Read`: fills a buffer with zeros by doubling the cleared prefix. */
  method ZeroFill(p: array<byte>)
    modifies p
    ensures p[..] == Zeros(p.Length)
  {
    if p.Length == 0 {
      return;
    }
    p[0] := 0;
    var bp := 1;
    while bp < p.Length
      invariant 1 <= bp
      invariant forall i :: 0 <= i < bp && i < p.Length ==> p[i] == 0
      decreases p.Length - bp
    {
      var n := if bp < p.Length - bp then bp else p.Length - bp;
      forall i | 0 <= i < n {
        p[bp + i] := p[i];
      }
      bp := bp * 2;
    }
  }

  class GptModifier {
    const f: File
    const crc: Checksum
    var size: int
    var partitionEntry: Option<Entry>
    var gptHeader: Header
    var backupGPTHeader: Option<Header>
    var sectorsAdded: uint64
    var originalBackupGPTLBA: uint64

    constructor (crc: Checksum, f: File, h: Header, size: int)
      ensures this.crc == crc && this.f == f && this.size == size
      ensures gptHeader == h && originalBackupGPTLBA == h.backupLBA
      ensures partitionEntry == None && backupGPTHeader == None && sectorsAdded == 0
    {
      this.crc, this.f, this.size := crc, f, size;
      gptHeader, originalBackupGPTLBA := h, h.backupLBA;
      partitionEntry, backupGPTHeader, sectorsAdded := None, None, 0;
    }

    /** Header and size as read from the file, before anything was written. */
    ghost predicate Loaded()
      reads this, f.data
    {
      && size == f.data.Length
      && 2 * SECTOR <= f.data.Length
      && gptHeader == HeaderAt(f.Content(), 1)
      && originalBackupGPTLBA == gptHeader.backupLBA
    }

    static method New(crc: Checksum, f: File) returns (m: GptModifier?)
      modifies f`calls, f`pos
      ensures m != null ==> fresh(m) && m.f == f && m.crc == crc && m.Loaded() && m.partitionEntry == None
      ensures 2 * SECTOR <= f.data.Length ==> f.Went(m != null)
    {
      m := null;
      var ok, h := GetGPTHeader(f);
      if ok {
        var size;
        ok, size := f.SeekEnd();
        if ok {
          m := new GptModifier(crc, f, h, size);
        }
      }
    }

    static method GetGPTHeader(f: File) returns (ok: bool, h: Header)
      modifies f`calls, f`pos
      ensures ok ==> 2 * SECTOR <= f.data.Length && h == HeaderAt(f.Content(), 1)
      ensures 2 * SECTOR <= f.data.Length ==> f.Went(ok)
    {
      hide DecodeHeader;
      var b;
      ok := f.Seek(SECTOR);
      if ok {
        ok, b := f.Read(SECTOR);
      }
      h := if ok then DecodeHeader(b) else DecodeHeader(Zeros(SECTOR));
    }

    predicate WantsResize()
      requires 0 <= size
      reads this
    {
      NeedsResize(gptHeader, size)
    }

    /** Seeks to `off` and writes `b` there, which lies within one sector. */
    method Put(off: int, b: Bytes) returns (ok: bool, ghost ws: seq<SectorWrite>)
      requires 0 <= off && off + |b| <= f.data.Length && 0 < |b| <= SECTOR - off % SECTOR
      modifies f`calls, f`pos, f`log, f.data
      ensures f.log == old(f.log) + ws && f.Content() == Replay(old(f.Content()), ws)
      ensures Begins(ws, [At(off, b)])
      ensures ok ==> ws == [At(off, b)]
      ensures f.Went(ok)
    {
      ws := [];
      BeginsNothing([At(off, b)]);
      ReplayNothing(f.Content());
      hide Chunks, Replay, Begins;
      ok := f.Seek(off);
      if ok {
        ChunksOne(off, b);
        ok, ws := f.Write(b);
      }
    }

    /**
     Finds the last entry before the first unused one and moves its end to the
     last usable sector of the larger disk.
     */
    method ExtendFinalPartition() returns (ok: bool, added: uint64, ghost ws: seq<SectorWrite>)
      requires Loaded() && Growable(f.Content())
      modifies this`partitionEntry, f`calls, f`pos, f`log, f.data
      ensures f.log == old(f.log) + ws && f.Content() == Replay(old(f.Content()), ws)
      ensures Begins(ws, [EntryWrite(old(f.Content()))])
      ensures ok ==>
                && ws == [EntryWrite(old(f.Content()))]
                && partitionEntry == Some(GrownEntry(old(f.Content())))
                && added == SectorsAdded(old(f.Content()))
      ensures f.Went(ok)
    {
      hide DecodeEntry, EncodeEntry, DecodeHeader, UsedFrom, Patch, Chunks;
      added, ws := 0, [];
      var peOffset;
      ok, peOffset := FindFinalPartition();
      if !ok {
        return;
      }
      var pe := partitionEntry.value;
      added := Wrap64(LastUsable(size) - pe.lastLBA);
      partitionEntry := Some(pe.(lastLBA := LastUsable(size)));
      ok, ws := Put(peOffset, EncodeEntry(partitionEntry.value));
    }

    /** The scan of the table, which stops at the first unused entry. */
    method FindFinalPartition() returns (ok: bool, peOffset: int)
      requires META <= f.data.Length && 0 < Used(f.Content())
      modifies this`partitionEntry, f`calls, f`pos
      ensures ok ==>
                && partitionEntry == Some(EntryAt(f.Content(), Used(f.Content()) - 1))
                && peOffset == EntryOffset(Used(f.Content()) - 1)
      ensures f.Went(ok)
    {
      hide DecodeEntry, UsedFrom;
      ghost var c := f.Content();
      peOffset := 0;
      ok := f.Seek(2 * SECTOR);
      if !ok {
        return;
      }
      var i := 0;
      while i < 128
        invariant 0 <= i <= 128 && ok && f.pos == EntryOffset(i) && f.Went(true)
        invariant forall j :: 0 <= j < i ==> EntryAt(c, j).firstLBA != 0
        invariant 0 < i ==> partitionEntry == Some(EntryAt(c, i - 1)) && peOffset == EntryOffset(i - 1)
      {
        var b;
        ok, b := f.Read(128);
        if !ok {
          return;
        }
        var pe := DecodeEntry(b);
        if pe.firstLBA == 0 {
          break;
        }
        partitionEntry := Some(pe);
        peOffset := 2 * SECTOR + i * 128;
        i := i + 1;
      }
      UsedUnique(c, 0, i);
    }

    /** Fills in the table checksum, from the disk or from the primary header, and then the header's own. */
    method CalculateCRCs(g: Header, skipParts: bool) returns (ok: bool, r: Header)
      requires g.headerSize <= 512
      modifies f`calls
      ensures ok && skipParts ==> r == Stamp(crc, g.(crcParts := gptHeader.crcParts))
      ensures ok && !skipParts && g.startLBAParts * SECTOR < 0x8000_0000_0000_0000 ==>
                && g.startLBAParts * SECTOR + TABLE <= f.data.Length
                && r == Stamp(crc, g.(crcParts := crc(TableAt(f.Content(), g.startLBAParts))))
      ensures (skipParts || g.startLBAParts * SECTOR + TABLE <= f.data.Length < 0x8000_0000_0000_0000) ==> f.Went(ok)
    {
      hide EncodeHeader, DecodeHeader;
      ok, r := true, g.(crc := 0);
      if !skipParts {
        var pea;
        ok, pea := f.ReadAt(TABLE, Int64(Wrap64(g.startLBAParts * SECTOR)));
        if !ok {
          return;
        }
        r := r.(crcParts := crc(pea));
      } else {
        r := r.(crcParts := gptHeader.crcParts);
      }
      r := r.(crc := crc(EncodeHeader(r)[..g.headerSize]));
    }

    /** Rewrites the primary header for the larger disk, once the table is extended. */
    method UpdatePrimaryGPTHeader(ghost c: Bytes) returns (ok: bool, ghost ws: seq<SectorWrite>)
      requires Growable(c) && size == |c| == f.data.Length && gptHeader == HeaderAt(c, 1)
      requires TableAt(f.Content(), 2) == GrownTable(c)
      modifies this`gptHeader, f`calls, f`pos, f`log, f.data
      ensures f.log == old(f.log) + ws && f.Content() == Replay(old(f.Content()), ws)
      ensures Begins(ws, [At(SECTOR, EncodeHeader(GrownHeader(crc, c)))])
      ensures ok ==> ws == [At(SECTOR, EncodeHeader(GrownHeader(crc, c)))] && gptHeader == GrownHeader(crc, c)
      ensures f.Went(ok)
    {
      hide EncodeHeader, DecodeHeader, UsedFrom, GrownTable, GrownHeader, HeaderAt, TableAt, Chunks, Begins;
      ws := [];
      BeginsNothing([At(SECTOR, EncodeHeader(GrownHeader(crc, c)))]);
      ok := MakePrimaryHeader(c);
      if ok {
        ok, ws := Put(1 * SECTOR, EncodeHeader(gptHeader));
      } else {
        ReplayNothing(f.Content());
      }
    }

    /** The cached header is brought up to date, checksums last. */
    method MakePrimaryHeader(ghost c: Bytes) returns (ok: bool)
      requires Growable(c) && size == |c| == f.data.Length && gptHeader == HeaderAt(c, 1)
      requires TableAt(f.Content(), 2) == GrownTable(c)
      modifies this`gptHeader, f`calls
      ensures ok ==> gptHeader == GrownHeader(crc, c)
      ensures f.Went(ok)
    {
      hide EncodeHeader, DecodeHeader, UsedFrom, GrownTable;
      gptHeader := gptHeader.(lastUsableLBA := LastUsable(size), backupLBA := Wrap64(size / SECTOR - 1));
      var h;
      ok, h := CalculateCRCs(gptHeader, false);
      if ok {
        gptHeader := h;
      }
    }

    /** Writes the backup header, a variant of the primary one on the disk, to the last sector. */
    method UpdateSecondaryGPTHeader(ghost c: Bytes) returns (ok: bool, ghost ws: seq<SectorWrite>)
      requires Growable(c) && |c| == f.data.Length && gptHeader == GrownHeader(crc, c)
      requires SectorAt(f.Content(), 1) == EncodeHeader(GrownHeader(crc, c))
      modifies this`backupGPTHeader, f`calls, f`pos, f`log, f.data
      ensures f.log == old(f.log) + ws && f.Content() == Replay(old(f.Content()), ws)
      ensures Begins(ws, [At((Sectors(c) - 1) * SECTOR, EncodeHeader(BackupHeader(crc, c)))])
      ensures ok ==>
                && ws == [At((Sectors(c) - 1) * SECTOR, EncodeHeader(BackupHeader(crc, c)))]
                && backupGPTHeader == Some(BackupHeader(crc, c))
      ensures f.Went(ok)
    {
      hide EncodeHeader, DecodeHeader, UsedFrom, GrownTable, GrownHeader, BackupHeader, Chunks, Begins, HeaderAt,
           Replay;
      LastSector(crc, c);
      hide Sectors, Wrap64, Int64, SectorAt, Growable;
      ws := [];
      BeginsNothing([At((Sectors(c) - 1) * SECTOR, EncodeHeader(BackupHeader(crc, c)))]);
      var g;
      ok, g := MakeBackupHeader(c);
      if ok {
        var off := Int64(Wrap64(g.currentLBA * SECTOR));
        assert off == (Sectors(c) - 1) * SECTOR;
        ok, ws := Put(off, EncodeHeader(g));
        if ok {
          backupGPTHeader := Some(g);
        }
      } else {
        ReplayNothing(f.Content());
      }
    }

    method MakeBackupHeader(ghost c: Bytes) returns (ok: bool, g: Header)
      requires Growable(c) && |c| == f.data.Length && gptHeader == GrownHeader(crc, c)
      requires SectorAt(f.Content(), 1) == EncodeHeader(GrownHeader(crc, c))
      modifies f`calls, f`pos
      ensures ok ==> g == BackupHeader(crc, c)
      ensures f.Went(ok)
    {
      hide EncodeHeader, DecodeHeader, UsedFrom, GrownTable, GrownHeader;
      NewFields(crc, c);
      ok, g := GetGPTHeader(f);
      if ok {
        DecodeEncodeHeader(GrownHeader(crc, c));
        g := g.(currentLBA := gptHeader.backupLBA, backupLBA := gptHeader.currentLBA);
        g := g.(startLBAParts := Wrap64(g.currentLBA - 32));
        ok, g := CalculateCRCs(g, true);
      }
    }

    /** Patches the sector count of the protective MBR. */
    method UpdateMBR(ghost c: Bytes) returns (ok: bool, ghost ws: seq<SectorWrite>)
      requires META <= |c| && size == |c| == f.data.Length && SectorAt(f.Content(), 0) == SectorAt(c, 0)
      modifies f`calls, f`pos, f`log, f.data
      ensures f.log == old(f.log) + ws && f.Content() == Replay(old(f.Content()), ws)
      ensures Begins(ws, [At(0, EncodeMbr(GrownMbr(c)))])
      ensures ok ==> ws == [At(0, EncodeMbr(GrownMbr(c)))]
      ensures f.Went(ok)
    {
      hide EncodeMbr, DecodeMbr;
      ws := [];
      var b;
      ok, b := f.ReadAt(SECTOR, 0);
      if !ok {
        return;
      }
      var mbr := DecodeMbr(b).(numberOfSectors := Wrap32(Wrap32(size / SECTOR) - 1));
      ok, ws := Put(0, EncodeMbr(mbr));
    }

    /** The table is where `grow` expects it, and both backup areas lie behind it. */
    ghost predicate TablesPlaced()
      reads this
    {
      && META <= f.data.Length < 0x8000_0000_0000_0000
      && gptHeader.startLBAParts == 2
      && 66 <= originalBackupGPTLBA
      && originalBackupGPTLBA * SECTOR + SECTOR <= f.data.Length
      && backupGPTHeader.Some?
      && 34 <= backupGPTHeader.value.startLBAParts
      && backupGPTHeader.value.startLBAParts * SECTOR + TABLE <= f.data.Length
    }

    /**
     Clears the old backup area, then copies the table sector by sector to the
     new one, which may overlap the cleared area.
     */
    method RelocateRedundantGPTTable() returns (ok: bool, ghost ws: seq<SectorWrite>)
      requires TablesPlaced()
      modifies f`calls, f`pos, f`log, f.data
      ensures f.log == old(f.log) + ws && f.Content() == Replay(old(f.Content()), ws)
      ensures Begins(ws, SectorWrites(originalBackupGPTLBA - 32, Zeros(33 * SECTOR))
                         + SectorWrites(backupGPTHeader.value.startLBAParts, TableAt(old(f.Content()), 2)))
      ensures ok ==> ws == SectorWrites(originalBackupGPTLBA - 32, Zeros(33 * SECTOR))
                           + SectorWrites(backupGPTHeader.value.startLBAParts, TableAt(old(f.Content()), 2))
      ensures f.Went(ok)
    {
      hide SectorWrites, Begins, Replay;
      ghost var c0 := f.Content();
      ghost var zs := SectorWrites(originalBackupGPTLBA - 32, Zeros(33 * SECTOR));
      ghost var plan := SectorWrites(backupGPTHeader.value.startLBAParts, TableAt(c0, 2));
      ok, ws := ClearOldBackup();
      if ok {
        AvoidMeta(originalBackupGPTLBA - 32, Zeros(33 * SECTOR));
        ReplayFrame(c0, zs, 2 * SECTOR, META);
        ghost var cs;
        ok, cs := CopyTable();
        BeginsConcat(zs, cs, plan);
        ReplayConcat(c0, zs, cs);
        ws := zs + cs;
      } else {
        BeginsMore(ws, zs, plan);
      }
    }

    method ClearOldBackup() returns (ok: bool, ghost ws: seq<SectorWrite>)
      requires TablesPlaced()
      modifies f`calls, f`pos, f`log, f.data
      ensures f.log == old(f.log) + ws && f.Content() == Replay(old(f.Content()), ws)
      ensures Begins(ws, SectorWrites(originalBackupGPTLBA - 32, Zeros(33 * SECTOR)))
      ensures ok ==> ws == SectorWrites(originalBackupGPTLBA - 32, Zeros(33 * SECTOR))
      ensures f.Went(ok)
    {
      hide Wrap64, Int64, Chunks, Replay, Begins, SectorWrites, Zeros;
      SectorStart(originalBackupGPTLBA - 32);
      var off := Int64(Wrap64(Wrap64(originalBackupGPTLBA - 32) * SECTOR));
      ChunksOfSectors(originalBackupGPTLBA - 32, Zeros(33 * SECTOR));
      ok, ws := Clear(off, 33 * SECTOR);
    }

    /** Seeks to `off` and writes `n` zeros. */
    method Clear(off: int, n: nat) returns (ok: bool, ghost ws: seq<SectorWrite>)
      requires 0 <= off && off + n <= f.data.Length
      modifies f`calls, f`pos, f`log, f.data
      ensures f.log == old(f.log) + ws && f.Content() == Replay(old(f.Content()), ws)
      ensures Begins(ws, Chunks(off, Zeros(n)))
      ensures ok ==> ws == Chunks(off, Zeros(n))
      ensures f.Went(ok)
    {
      hide Chunks, Replay, Begins, Zeros;
      ws := [];
      BeginsNothing(Chunks(off, Zeros(n)));
      ReplayNothing(f.Content());
      ok := f.Seek(off);
      if ok {
        var zeroes := new byte[n];
        ZeroFill(zeroes);
        ok, ws := f.Write(zeroes[..]);
      }
    }

    method CopySector(i: nat) returns (ok: bool, ghost ws: seq<SectorWrite>)
      requires TablesPlaced() && i < 32
      modifies f`calls, f`log, f.data
      ensures f.log == old(f.log) + ws && f.Content() == Replay(old(f.Content()), ws)
      ensures ws == [] || ws == [At((backupGPTHeader.value.startLBAParts + i) * SECTOR,
                                    SectorAt(old(f.Content()), 2 + i))]
      ensures ok ==> ws != []
      ensures f.Went(ok)
    {
      SectorOffset(backupGPTHeader.value.startLBAParts, i);
      SectorOffset(2, i);
      var gptOff := Wrap64(backupGPTHeader.value.startLBAParts * SECTOR);
      var off := Int64(Wrap64(gptOff + i * SECTOR));
      var from := Int64(Wrap64(Wrap64(gptHeader.startLBAParts * SECTOR) + i * SECTOR));
      SectorInside(backupGPTHeader.value.startLBAParts, i, off, f.data.Length);
      SectorInside(2, i, from, f.data.Length);
      hide Wrap64, Int64, Replay, TablesPlaced;
      ok, ws := MoveSector(from, off);
    }

    method MoveSector(from: int, off: int) returns (ok: bool, ghost ws: seq<SectorWrite>)
      requires 0 <= from && from + SECTOR <= f.data.Length
      requires 0 <= off && off + SECTOR <= f.data.Length && off % SECTOR == 0
      modifies f`calls, f`log, f.data
      ensures f.log == old(f.log) + ws && f.Content() == Replay(old(f.Content()), ws)
      ensures ws == [] || ws == [At(off, old(f.Content())[from..from + SECTOR])]
      ensures ok ==> ws != []
      ensures f.Went(ok)
    {
      hide Chunks, Replay, Begins;
      ws := [];
      ReplayNothing(f.Content());
      var b;
      ok, b := f.ReadAt(SECTOR, from);
      if ok {
        ChunksOne(off, b);
        ok, ws := f.WriteAt(b, off);
        BeginsOne(ws, At(off, b));
      }
    }

    method CopyTable() returns (ok: bool, ghost ws: seq<SectorWrite>)
      requires TablesPlaced()
      modifies f`calls, f`log, f.data
      ensures f.log == old(f.log) + ws && f.Content() == Replay(old(f.Content()), ws)
      ensures Begins(ws, SectorWrites(backupGPTHeader.value.startLBAParts, TableAt(old(f.Content()), 2)))
      ensures ok ==> ws == SectorWrites(backupGPTHeader.value.startLBAParts, TableAt(old(f.Content()), 2))
      ensures f.Went(ok)
    {
      ghost var c0, start := f.Content(), backupGPTHeader.value.startLBAParts;
      ghost var plan := SectorWrites(start, TableAt(c0, 2));
      hide SectorWrites, Begins, Replay;
      TableWrites(c0, start);
      ReplayNothing(c0);
      ok, ws := true, [];
      var i := 0;
      while i < 32
        invariant 0 <= i <= 32
        invariant ws == plan[..i] && f.log == old(f.log) + ws && f.Content() == Replay(c0, ws)
        invariant f.Went(true)
      {
        ghost var w;
        ok, w := CopyNext(c0, start, i);
        Regroup(old(f.log), ws, w);
        ws := ws + w;
        if !ok {
          return;
        }
        i := i + 1;
      }
      assert ws == plan;
      BeginsItself(plan);
    }

    /** One turn of the loop: sector `i` of the table as it was in `c0`, after those before it. */
    method CopyNext(ghost c0: Bytes, ghost start: nat, i: nat) returns (ok: bool, ghost w: seq<SectorWrite>)
      requires TablesPlaced() && i < 32 && start == backupGPTHeader.value.startLBAParts && META <= |c0|
      requires |SectorWrites(start, TableAt(c0, 2))| == 32
      requires f.Content() == Replay(c0, SectorWrites(start, TableAt(c0, 2))[..i])
      modifies f`calls, f`log, f.data
      ensures f.log == old(f.log) + w
      ensures f.Content() == Replay(c0, SectorWrites(start, TableAt(c0, 2))[..i] + w)
      ensures Begins(SectorWrites(start, TableAt(c0, 2))[..i] + w, SectorWrites(start, TableAt(c0, 2)))
      ensures ok ==> SectorWrites(start, TableAt(c0, 2))[..i] + w == SectorWrites(start, TableAt(c0, 2))[..i + 1]
      ensures f.Went(ok)
    {
      ghost var plan := SectorWrites(start, TableAt(c0, 2));
      hide SectorWrites, Begins, Replay, TableAt;
      CopiedSector(c0, plan[..i], start, i);
      ok, w := CopySector(i);
      ReplayConcat(c0, plan[..i], w);
      BeginsSnoc(plan, i, w);
    }

    /** The first two writes: after them the primary copy describes the larger disk. */
    method GrowPrimary() returns (ok: bool, ghost ws: seq<SectorWrite>)
      requires Loaded() && Resizing(f.Content()) && |Plan(crc, f.Content())| == 69
      modifies this`partitionEntry, this`sectorsAdded, this`gptHeader, f`calls, f`pos, f`log, f.data
      ensures f.log == old(f.log) + ws && f.Content() == Replay(old(f.Content()), ws)
      ensures Begins(ws, Plan(crc, old(f.Content()))[..2])
      ensures ok ==>
                && ws == Plan(crc, old(f.Content()))[..2]
                && gptHeader == GrownHeader(crc, old(f.Content()))
                && partitionEntry == Some(GrownEntry(old(f.Content())))
                && sectorsAdded == SectorsAdded(old(f.Content()))
      ensures f.Went(ok)
    {
      hide DecodeHeader, EncodeHeader, EncodeEntry, GrownHeader, BackupWrites, UsedFrom, Patch, GrownEntry,
           SectorsAdded;
      ghost var c := f.Content();
      ghost var first, second := [EntryWrite(c)], [At(SECTOR, EncodeHeader(GrownHeader(crc, c)))];
      assert Plan(crc, c)[..2] == first + second;
      var added;
      ok, added, ws := ExtendFinalPartition();
      if !ok {
        BeginsMore(ws, first, second);
        return;
      }
      sectorsAdded := added;
      ghost var w;
      ok, w := UpdatePrimaryGPTHeader(c);
      BeginsConcat(first, w, second);
      ReplayConcat(c, first, w);
      ws := first + w;
    }

    /** The remaining writes, given that the primary copy is up to date. */
    method GrowBackup(ghost c: Bytes) returns (ok: bool, ghost ws: seq<SectorWrite>)
      requires Resizing(c) && size == |c| == f.data.Length && gptHeader == GrownHeader(crc, c)
      requires originalBackupGPTLBA == HeaderAt(c, 1).backupLBA && f.Content() == AfterHeader(crc, c)
      modifies this`backupGPTHeader, f`calls, f`pos, f`log, f.data
      ensures f.log == old(f.log) + ws && f.Content() == Replay(old(f.Content()), ws)
      ensures Begins(ws, BackupWrites(crc, c))
      ensures ok ==> ws == BackupWrites(crc, c)
      ensures f.Went(ok)
    {
      hide DecodeHeader, EncodeHeader, DecodeMbr, EncodeMbr, GrownHeader, UsedFrom, Patch, GrownMbr, BackupHeader,
           SectorWrites, Begins, Replay, GrownTable, AfterHeader;
      AfterHeaderMeta(crc, c);
      BackupPlacement(crc, c);
      ghost var c2 := f.Content();
      ghost var xs := [At((Sectors(c) - 1) * SECTOR, EncodeHeader(BackupHeader(crc, c)))];
      ghost var ys := SectorWrites(HeaderAt(c, 1).lastUsableLBA + 1, Zeros(33 * SECTOR))
                      + SectorWrites(Sectors(c) - 33, GrownTable(c));
      ghost var zs := [At(0, EncodeMbr(GrownMbr(c)))];
      BackupParts(crc, c, xs, ys, zs);
      hide BackupWrites, HeaderAt, Sectors, SectorAt, TableAt;
      ok, ws := UpdateSecondaryGPTHeader(c);
      if !ok {
        BeginsMore(ws, xs, ys + zs);
        return;
      }
      AfterBackupHeader(crc, c, xs);
      ghost var w;
      ok, w := GrowTables(c, ys, zs);
      ReplayConcat(c2, xs, w);
      BeginsConcat(xs, w, ys + zs);
      Regroup(old(f.log), xs, w);
      ws := xs + w;
    }

    /** The old backup area is cleared, the table copied and the MBR patched. */
    method GrowTables(ghost c: Bytes, ghost ys: seq<SectorWrite>, ghost zs: seq<SectorWrite>)
      returns (ok: bool, ghost ws: seq<SectorWrite>)
      requires TablesPlaced() && META <= |c| && size == |c| == f.data.Length
      requires SectorAt(f.Content(), 0) == SectorAt(c, 0)
      requires ys == SectorWrites(originalBackupGPTLBA - 32, Zeros(33 * SECTOR))
                     + SectorWrites(backupGPTHeader.value.startLBAParts, TableAt(f.Content(), 2))
      requires zs == [At(0, EncodeMbr(GrownMbr(c)))]
      modifies f`calls, f`pos, f`log, f.data
      ensures f.log == old(f.log) + ws && f.Content() == Replay(old(f.Content()), ws)
      ensures Begins(ws, ys + zs)
      ensures ok ==> ws == ys + zs
      ensures f.Went(ok)
    {
      hide EncodeMbr, GrownMbr, SectorWrites, Begins, Replay;
      ghost var c3 := f.Content();
      ok, ws := RelocateRedundantGPTTable();
      if !ok {
        BeginsMore(ws, ys, zs);
        return;
      }
      AvoidMeta(originalBackupGPTLBA - 32, Zeros(33 * SECTOR));
      AvoidMeta(backupGPTHeader.value.startLBAParts, TableAt(c3, 2));
      ReplayFrame(c3, ys, 0, SECTOR);
      ghost var v;
      ok, v := UpdateMBR(c);
      ReplayConcat(c3, ys, v);
      BeginsConcat(ys, v, zs);
      Regroup(old(f.log), ys, v);
      ws := ys + v;
    }

    /**
     Grows the disk. Whether or not the run fails, the writes performed are the
     first few of the plan, so every state of the disk during and after a run is
     one of the states of crash safety; a run that succeeds has performed them all.
     */
    method Grow() returns (ok: bool, ghost ws: seq<SectorWrite>)
      requires Loaded() && (NeedsResize(gptHeader, size) ==> Growable(f.Content()))
      modifies this, f`calls, f`pos, f`log, f.data
      ensures f.log == old(f.log) + ws && f.Content() == Replay(old(f.Content()), ws)
      ensures !old(NeedsResize(gptHeader, size)) ==> ok && ws == []
      ensures old(NeedsResize(gptHeader, size)) ==>
                && Begins(ws, Plan(crc, old(f.Content())))
                && (ok ==>
                      && ws == Plan(crc, old(f.Content()))
                      && partitionEntry == Some(GrownEntry(old(f.Content())))
                      && sectorsAdded == SectorsAdded(old(f.Content())))
      ensures f.Went(ok)
    {
      hide DecodeHeader, UsedFrom, Begins, GrownEntry, SectorsAdded, Plan, Replay;
      ok, ws := true, [];
      if WantsResize() {
        ok, ws := Resize();
      } else {
        ReplayNothing(f.Content());
      }
    }

    method Resize() returns (ok: bool, ghost ws: seq<SectorWrite>)
      requires Loaded() && Resizing(f.Content())
      modifies this, f`calls, f`pos, f`log, f.data
      ensures f.log == old(f.log) + ws && f.Content() == Replay(old(f.Content()), ws)
      ensures Begins(ws, Plan(crc, old(f.Content())))
      ensures ok ==>
                && ws == Plan(crc, old(f.Content()))
                && partitionEntry == Some(GrownEntry(old(f.Content())))
                && sectorsAdded == SectorsAdded(old(f.Content()))
      ensures f.Went(ok)
    {
      hide DecodeHeader, EncodeHeader, BackupWrites, UsedFrom, Patch, Begins, GrownEntry, SectorsAdded, EntryWrite,
           GrownHeader, Replay, AfterHeader, Plan, Growable, NeedsResize, HeaderAt, Sectors, SectorAt;
      ghost var c := f.Content();
      ghost var first := PlanParts(crc, c);
      ok, ws := GrowPrimary();
      if !ok {
        BeginsMore(ws, first, BackupWrites(crc, c));
        return;
      }
      ghost var w;
      ok, w := GrowBackup(c);
      BeginsConcat(first, w, BackupWrites(crc, c));
      ReplayConcat(c, first, w);
      ws := first + w;
    }
  }

  /** The number of file system blocks `growDisk` asks for after the resize. */
  function Blocks(e: Entry, bsize: nat): (n: nat)
    requires 0 < bsize
  {
    Wrap64(Wrap64(e.lastLBA - e.firstLBA) * SECTOR) / bsize
  }

  /**
   The blocks fit into the partition and leave less than one block and one
   sector of it unused; the sector is lost because both bounds are inclusive.
   */
  lemma BlocksFit(e: Entry, bsize: nat)
    requires 0 < bsize && e.firstLBA <= e.lastLBA < 0x80_0000_0000_0000
    ensures var bytes := (e.lastLBA - e.firstLBA + 1) * SECTOR;
            Blocks(e, bsize) * bsize + SECTOR <= bytes < Blocks(e, bsize) * bsize + bsize + SECTOR
  {
    var x := (e.lastLBA - e.firstLBA) * SECTOR;
    hide Wrap64;
    SpanInBytes(e.lastLBA - e.firstLBA);
    DivisionBounds(x, bsize);
  }

  lemma SpanInBytes(n: nat)
    requires n < 0x80_0000_0000_0000
    ensures Wrap64(Wrap64(n) * SECTOR) == n * SECTOR
  {
  }

  lemma DivisionBounds(x: nat, b: nat)
    requires 0 < b
    ensures x / b * b <= x < x / b * b + b
  {
    assert x == b * (x / b) + x % b;
  }

  /**
   One boot: load the header, and grow if the device is larger than the disk.
   A boot that succeeds leaves the disk in the state `Boot` describes; one that
   fails has performed the first few writes of the plan.
   */
  method GrowDisk(crc: Checksum, f: File, bsize: nat) returns (ok: bool, blocks: nat)
    requires 0 < bsize
    requires 2 * SECTOR <= f.data.Length && NeedsResize(HeaderAt(f.Content(), 1), f.data.Length) ==>
               Growable(f.Content())
    modifies f`calls, f`pos, f`log, f.data
    ensures exists ws ::
              && f.log == old(f.log) + ws && f.Content() == Replay(old(f.Content()), ws)
              && (Resizing(old(f.Content())) ==> Begins(ws, Plan(crc, old(f.Content()))))
              && (!Resizing(old(f.Content())) ==> ws == [])
    ensures ok && Growable(old(f.Content())) ==> f.Content() == Boot(crc, old(f.Content()))
    ensures ok && Resizing(old(f.Content())) ==> blocks == Blocks(GrownEntry(old(f.Content())), bsize)
    ensures if 2 * SECTOR <= f.data.Length then f.Went(ok) else !ok
  {
    hide DecodeHeader, Plan, UsedFrom, GrownEntry, SectorsAdded, Begins;
    ghost var c, ws := f.Content(), [];
    ok, blocks := false, 0;
    assert Resizing(c) ==> Begins([], Plan(crc, c)) by {
      if Resizing(c) { BeginsNothing(Plan(crc, c)); }
    }
    assert f.Content() == Replay(c, ws);
    hide Replay;
    var m := GptModifier.New(crc, f);
    if m == null {
      return;
    }
    if !m.WantsResize() {
      ok := true;
      return;
    }
    ok, ws := m.Grow();
    if ok {
      blocks := Blocks(m.partitionEntry.value, bsize);
    }
  }

  lemma SectorStart(lba: nat)
    requires lba * SECTOR < 0x8000_0000_0000_0000
    ensures Int64(Wrap64(Wrap64(lba) * SECTOR)) == lba * SECTOR
  {
    NoWrap(lba);
    NoWrap(lba * SECTOR);
  }

  lemma BeginsNothing(plan: seq<SectorWrite>)
    ensures Begins([], plan)
  {
  }

  lemma PlanParts(crc: Checksum, c: Bytes) returns (first: seq<SectorWrite>)
    requires Growable(c)
    ensures |Plan(crc, c)| == 69 && first == Plan(crc, c)[..2] && Plan(crc, c) == first + BackupWrites(crc, c)
    ensures Replay(c, first) == AfterHeader(crc, c)
  {
    hide DecodeHeader, EncodeHeader, BackupWrites, UsedFrom, Patch, EntryWrite, GrownHeader, AfterHeader;
    first := Plan(crc, c)[..2];
    PlanLength(crc, c);
    PlanPrefix(crc, c, 2);
    assert BackupWrites(crc, c)[..0] == [];
  }

  /** The backup header goes to the last whole sector, and its offset does not wrap. */
  lemma LastSector(crc: Checksum, c: Bytes)
    requires Growable(c)
    ensures BackupHeader(crc, c).currentLBA == Sectors(c) - 1
    ensures 0 <= (Sectors(c) - 1) * SECTOR && (Sectors(c) - 1) * SECTOR + SECTOR <= |c|
    ensures (Sectors(c) - 1) * SECTOR % SECTOR == 0
    ensures Int64(Wrap64((Sectors(c) - 1) * SECTOR)) == (Sectors(c) - 1) * SECTOR
  {
    hide DecodeHeader, EncodeHeader, GrownHeader, BackupHeader, GrownTable, UsedFrom;
    NewFields(crc, c);
    Geometry(c);
    NoWrap((Sectors(c) - 1) * SECTOR);
  }

  /** Where the two backup areas and the table lie. */
  lemma BackupPlacement(crc: Checksum, c: Bytes)
    requires Resizing(c)
    ensures META <= |c| < 0x8000_0000_0000_0000 && 34 <= Sectors(c) - 33 && Sectors(c) * SECTOR <= |c|
    ensures GrownHeader(crc, c).startLBAParts == 2 && BackupHeader(crc, c).startLBAParts == Sectors(c) - 33
    ensures HeaderAt(c, 1).backupLBA - 32 == HeaderAt(c, 1).lastUsableLBA + 1
    ensures 66 <= HeaderAt(c, 1).backupLBA && HeaderAt(c, 1).backupLBA * SECTOR + SECTOR <= |c|
  {
    hide DecodeHeader, EncodeHeader, GrownHeader, BackupHeader, GrownTable, UsedFrom;
    NewFields(crc, c);
    Geometry(c);
  }

  lemma BackupParts(
    crc: Checksum, c: Bytes, xs: seq<SectorWrite>, ys: seq<SectorWrite>, zs: seq<SectorWrite>)
    requires Resizing(c)
    requires xs == [At((Sectors(c) - 1) * SECTOR, EncodeHeader(BackupHeader(crc, c)))]
    requires ys == SectorWrites(HeaderAt(c, 1).lastUsableLBA + 1, Zeros(33 * SECTOR))
                   + SectorWrites(Sectors(c) - 33, GrownTable(c))
    requires zs == [At(0, EncodeMbr(GrownMbr(c)))]
    ensures BackupWrites(crc, c) == xs + (ys + zs)
  {
    hide DecodeHeader, EncodeHeader, EncodeMbr, GrownMbr, BackupHeader, SectorWrites, GrownTable, UsedFrom;
  }

  /** The write of the backup header leaves the MBR and the table alone. */
  lemma AfterBackupHeader(crc: Checksum, c: Bytes, xs: seq<SectorWrite>)
    requires Resizing(c) && xs == [At((Sectors(c) - 1) * SECTOR, EncodeHeader(BackupHeader(crc, c)))]
    ensures var r := Replay(AfterHeader(crc, c), xs);
            SectorAt(r, 0) == SectorAt(c, 0) && TableAt(r, 2) == GrownTable(c)
  {
    hide DecodeHeader, EncodeHeader, BackupHeader, GrownTable, GrownHeader, UsedFrom, Replay, AfterHeader;
    BackupPlacement(crc, c);
    AfterHeaderMeta(crc, c);
    FirstSector(crc, c);
    ReplayFrame(AfterHeader(crc, c), xs, 0, SECTOR);
    ReplayFrame(AfterHeader(crc, c), xs, 2 * SECTOR, META);
  }

  lemma FirstSector(crc: Checksum, c: Bytes)
    requires Resizing(c)
    ensures SectorAt(AfterHeader(crc, c), 0) == SectorAt(c, 0)
  {
    hide DecodeHeader, EncodeHeader, EncodeEntry, UsedFrom, Patch, GrownHeader;
    Regions(crc, c);
    var c1 := Patch(c, EntryWrite(c).off, EntryWrite(c).data);
    PatchElsewhere(c, EntryWrite(c).off, EntryWrite(c).data, 0, SECTOR);
    PatchElsewhere(c1, SECTOR, EncodeHeader(GrownHeader(crc, c)), 0, SECTOR);
  }

  /** Earlier copies do not disturb the table being copied. */
  lemma CopiedSector(c: Bytes, ws: seq<SectorWrite>, start: nat, i: nat)
    requires META <= |c| && 34 <= start && i < 32 && |SectorWrites(start, TableAt(c, 2))| == 32
    requires ws == SectorWrites(start, TableAt(c, 2))[..i]
    ensures SectorWrites(start, TableAt(c, 2))[i] == At((start + i) * SECTOR, SectorAt(Replay(c, ws), 2 + i))
  {
    var t, r := TableAt(c, 2), Replay(c, ws);
    AvoidMeta(start, t);
    ReplayFrame(c, ws, 2 * SECTOR, META);
    hide Replay;
    SliceOfSlice(r, 2 * SECTOR, META, i * SECTOR, i * SECTOR + SECTOR);
  }

  /** The offset of sector `lba + i`, as it is computed. */
  lemma SectorOffset(lba: nat, i: nat)
    requires (lba + i) * SECTOR < 0x8000_0000_0000_0000
    ensures Int64(Wrap64(Wrap64(lba * SECTOR) + i * SECTOR)) == (lba + i) * SECTOR
  {
    NoWrap(lba * SECTOR);
    NoWrap((lba + i) * SECTOR);
  }

  lemma SectorInside(lba: nat, i: nat, off: int, n: nat)
    requires i < 32 && lba * SECTOR + TABLE <= n && off == (lba + i) * SECTOR
    ensures 0 <= off && off + SECTOR <= n && off % SECTOR == 0
  {
  }

  lemma BeginsOne(ws: seq<SectorWrite>, w: SectorWrite)
    ensures Begins(ws, [w]) ==> ws == [] || ws == [w]
  {
  }

  lemma TableWrites(c: Bytes, start: nat)
    requires META <= |c|
    ensures |TableAt(c, 2)| % SECTOR == 0 && |SectorWrites(start, TableAt(c, 2))| == 32
  {
  }

  lemma ReplayNothing(c: Bytes)
    ensures Replay(c, []) == c
  {
  }

  lemma Regroup(xs: seq<SectorWrite>, ys: seq<SectorWrite>, zs: seq<SectorWrite>)
    ensures (xs + ys) + zs == xs + (ys + zs)
  {
  }

  lemma BeginsSnoc(plan: seq<SectorWrite>, i: nat, w: seq<SectorWrite>)
    requires i < |plan| && (w == [] || w == [plan[i]])
    ensures Begins(plan[..i] + w, plan)
    ensures w != [] ==> plan[..i] + w == plan[..i + 1]
    ensures i + 1 == |plan| && w != [] ==> plan[..i] + w == plan
  {
  }

  lemma BeginsMore(ws: seq<SectorWrite>, xs: seq<SectorWrite>, ys: seq<SectorWrite>)
    requires Begins(ws, xs)
    ensures Begins(ws, xs + ys)
  {
    assert (xs + ys)[..|ws|] == xs[..|ws|];
  }

  lemma BeginsItself(ws: seq<SectorWrite>)
    ensures Begins(ws, ws)
  {
    assert ws[..|ws|] == ws;
  }

  lemma AvoidMeta(lba: nat, t: Bytes)
    requires 34 <= lba && |t| % SECTOR == 0
    ensures Avoids(SectorWrites(lba, t), 0, META)
  {
  }
}
