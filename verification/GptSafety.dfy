/**
 Safety of growing a GPT disk: every state a crash can expose is recoverable,
 the final state is a valid GPT disk of the new size, nothing but the metadata
 is touched, and what a reboot does after a crash.
 */
module GptSafety {
  import opened Binary
  import opened Layout
  import opened Disk
  import opened Gpt

  /** The disk is growable and the program decides to grow it. */
  ghost predicate Resizing(c: Bytes) {
    Growable(c) && NeedsResize(HeaderAt(c, 1), |c|)
  }

  /** The primary header has the fixed fields of a GPT header; no checksum need be right. */
  ghost predicate Sane(c: Bytes) {
    && Growable(c)
    && var h := HeaderAt(c, 1);
    && h.signature == SIGNATURE
    && 92 <= h.headerSize
    && h.noOfParts * h.sizePartEntry == TABLE
    && 34 <= h.firstUsableLBA
  }

  // ---------------------------------------------------------------- geometry

  /** No computation of the resize wraps around, and the new areas lie strictly after the old. */
  lemma Geometry(c: Bytes)
    requires Growable(c)
    ensures NeedsResize(HeaderAt(c, 1), |c|) <==> (HeaderAt(c, 1).lastUsableLBA + 35) * SECTOR < |c|
    ensures LastUsable(|c|) == Sectors(c) - 34
    ensures Wrap64(Sectors(c) - 1) == Sectors(c) - 1 && Wrap64(Sectors(c) - 33) == Sectors(c) - 33
    ensures Sectors(c) * SECTOR <= |c| < (Sectors(c) + 1) * SECTOR
    ensures Resizing(c) ==> HeaderAt(c, 1).lastUsableLBA < LastUsable(|c|)
    ensures Resizing(c) ==> HeaderAt(c, 1).backupLBA < Sectors(c) - 1
  {
    hide DecodeHeader, UsedFrom, Wrap64;
    var l, s := HeaderAt(c, 1).lastUsableLBA, Sectors(c);
    WholeSectors(|c|);
    FewerSectors(l + 34, |c|);
    FitsUint64(l + 35);
    FitsUint64((l + 35) * SECTOR);
    FitsUint64(s - 1);
    FitsUint64(s - 33);
    FitsUint64(s - 34);
    if (l + 35) * SECTOR < |c| {
      FewerSectors(l + 35, |c|);
    }
  }

  lemma WholeSectors(n: nat)
    ensures n / SECTOR * SECTOR <= n < (n / SECTOR + 1) * SECTOR
  {
  }

  lemma FewerSectors(k: nat, n: nat)
    requires k * SECTOR <= n
    ensures k <= n / SECTOR
  {
    WholeSectors(n);
  }

  /** The order of the areas on a disk that is to grow, in sectors. */
  lemma Placement(c: Bytes)
    requires Resizing(c)
    ensures var l, s := HeaderAt(c, 1).lastUsableLBA, Sectors(c);
            && META <= |c| < 0x8000_0000_0000_0000 && s * SECTOR <= |c| < (s + 1) * SECTOR
            && 33 <= l && l + 35 <= s && HeaderAt(c, 1).backupLBA == l + 33 && 0 < Used(c)
  {
    hide DecodeHeader, UsedFrom;
    Geometry(c);
  }

  /** Where each group of writes lands. */
  lemma Regions(crc: Checksum, c: Bytes)
    requires Resizing(c)
    ensures META - TABLE <= EntryWrite(c).off && EntryWrite(c).off + 128 <= META
    ensures |EntryWrite(c).data| == 128 && |Plan(crc, c)[1].data| == SECTOR
    ensures forall w :: w in BackupWrites(crc, c) ==>
              && |w.data| == SECTOR
              && (w.off == 0
                  || (HeaderAt(c, 1).lastUsableLBA + 1) * SECTOR <= w.off
                     <= (HeaderAt(c, 1).lastUsableLBA + 33) * SECTOR
                  || (Sectors(c) - 33) * SECTOR <= w.off <= (Sectors(c) - 1) * SECTOR)
  {
    hide DecodeHeader, EncodeHeader, EncodeEntry, DecodeEntry, EncodeMbr, DecodeMbr, UsedFrom, GrownTable,
         BackupHeader, GrownHeader, GrownEntry, GrownMbr;
    Geometry(c);
  }

  // --------------------------------------------------- one intact copy, always

  lemma StampIntact(crc: Checksum, h: Header)
    requires h.signature == SIGNATURE && 92 <= h.headerSize <= 512
    ensures HeaderIntact(crc, EncodeHeader(Stamp(crc, h)))
  {
    hide EncodeHeader, DecodeHeader;
    var r := Stamp(crc, h);
    DecodeEncodeHeader(r);
    EncodeHeaderCrc(r, 0);
    assert r.(crc := 0) == h.(crc := 0);
    assert Put32(0) == [0, 0, 0, 0] by {
      assert ToLE(0, 2) == [0, 0];
    }
  }

  /** Self-consistency of a copy depends on its header sector and its table only. */
  lemma CopyIntactFrame(crc: Checksum, c: Bytes, c': Bytes, lba: nat)
    requires CopyIntact(crc, c, lba) && |c'| == |c|
    requires SectorAt(c', lba) == SectorAt(c, lba)
    requires TableAt(c', HeaderAt(c, lba).startLBAParts) == TableAt(c, HeaderAt(c, lba).startLBAParts)
    ensures CopyIntact(crc, c', lba)
  {
    hide DecodeHeader, HeaderIntact;
  }

  /** The disk after the first two writes. */
  ghost function AfterHeader(crc: Checksum, c: Bytes): (r: Bytes)
    requires Growable(c)
    ensures |r| == |c|
  {
    Patch(Patch(c, EntryWrite(c).off, EntryWrite(c).data), SECTOR, EncodeHeader(GrownHeader(crc, c)))
  }

  lemma AfterHeaderMeta(crc: Checksum, c: Bytes)
    requires Resizing(c)
    ensures SectorAt(AfterHeader(crc, c), 1) == EncodeHeader(GrownHeader(crc, c))
    ensures TableAt(AfterHeader(crc, c), 2) == GrownTable(c)
  {
    hide EncodeHeader, DecodeHeader, GrownHeader, EncodeEntry, DecodeEntry, UsedFrom, Patch;
    Regions(crc, c);
    var c1 := Patch(c, EntryWrite(c).off, EntryWrite(c).data);
    PatchThere(c1, SECTOR, EncodeHeader(GrownHeader(crc, c)));
    PatchElsewhere(c1, SECTOR, EncodeHeader(GrownHeader(crc, c)), 2 * SECTOR, META);
  }

  /** The second write makes the primary copy self-consistent for the larger disk. */
  lemma PrimaryIntact(crc: Checksum, c: Bytes)
    requires Resizing(c) && Sane(c)
    ensures CopyIntact(crc, AfterHeader(crc, c), 1)
  {
    hide EncodeHeader, DecodeHeader, HeaderIntact, GrownTable, UsedFrom, AfterHeader;
    AfterHeaderMeta(crc, c);
    var h := HeaderAt(c, 1).(lastUsableLBA := LastUsable(|c|), backupLBA := Wrap64(Sectors(c) - 1),
                             crcParts := crc(GrownTable(c)));
    StampIntact(crc, h);
    DecodeEncodeHeader(GrownHeader(crc, c));
  }

  lemma ValidIsSane(crc: Checksum, c: Bytes)
    requires Valid(crc, c)
    ensures Sane(c)
  {
    hide DecodeHeader, UsedFrom;
  }

  lemma PlanPrefix(crc: Checksum, c: Bytes, k: nat)
    requires Growable(c) && 2 <= k <= |Plan(crc, c)|
    ensures Replay(c, Plan(crc, c)[..k]) == Replay(AfterHeader(crc, c), BackupWrites(crc, c)[..k - 2])
  {
    hide EncodeHeader, DecodeHeader, GrownHeader, EntryWrite, BackupWrites, Patch, UsedFrom;
    var ws := Plan(crc, c)[..k];
    assert ws[1..][1..] == BackupWrites(crc, c)[..k - 2];
    assert ws[0] == EntryWrite(c) && ws[1..][0] == At(SECTOR, EncodeHeader(GrownHeader(crc, c)));
  }

  /** Header and table of the primary copy stay as the second write left them. */
  lemma MetaStays(crc: Checksum, c: Bytes, k: nat)
    requires Resizing(c) && 2 <= k <= |Plan(crc, c)|
    ensures var r := Replay(c, Plan(crc, c)[..k]);
            && SectorAt(r, 1) == SectorAt(AfterHeader(crc, c), 1)
            && TableAt(r, 2) == TableAt(AfterHeader(crc, c), 2)
  {
    hide DecodeHeader, BackupWrites, AfterHeader, UsedFrom, Replay;
    Geometry(c);
    Regions(crc, c);
    PlanPrefix(crc, c, k);
    var ws := BackupWrites(crc, c)[..k - 2];
    assert forall w :: w in ws ==> w in BackupWrites(crc, c);
    ReplayFrame(AfterHeader(crc, c), ws, SECTOR, 2 * SECTOR);
    ReplayFrame(AfterHeader(crc, c), ws, 2 * SECTOR, META);
  }

  /**
   Crash safety: stop the machine after any number of the single-sector writes
   of `grow`, and either the primary copy or the old backup copy is
   self-consistent; from the second write on it is the primary.
   */
  lemma CrashSafety(crc: Checksum, c: Bytes, k: nat)
    requires Valid(crc, c) && Resizing(c) && k <= |Plan(crc, c)|
    ensures Recoverable(crc, Replay(c, Plan(crc, c)[..k]), HeaderAt(c, 1).backupLBA)
    ensures k <= 1 ==> CopyIntact(crc, Replay(c, Plan(crc, c)[..k]), HeaderAt(c, 1).backupLBA)
    ensures 2 <= k ==> CopyIntact(crc, Replay(c, Plan(crc, c)[..k]), 1)
  {
    hide CopyIntact, DecodeHeader, Plan, Replay, UsedFrom;
    if 2 <= k {
      ValidIsSane(crc, c);
      CrashLate(crc, c, k);
    } else {
      CrashEarly(crc, c, k);
    }
  }

  /** From the second write on the primary copy is intact, whatever the checksums and the backup were before. */
  lemma CrashLate(crc: Checksum, c: Bytes, k: nat)
    requires Sane(c) && Resizing(c) && 2 <= k <= |Plan(crc, c)|
    ensures CopyIntact(crc, Replay(c, Plan(crc, c)[..k]), 1)
  {
    hide DecodeHeader, HeaderIntact, AfterHeader, Plan, Replay, UsedFrom, CopyIntact;
    PrimaryIntact(crc, c);
    MetaStays(crc, c, k);
    PrimaryStart(crc, c);
    CopyIntactFrame(crc, AfterHeader(crc, c), Replay(c, Plan(crc, c)[..k]), 1);
  }

  /** The first write leaves everything behind the table alone. */
  lemma EarlyFrame(crc: Checksum, c: Bytes, k: nat, lo: nat, hi: nat)
    requires Resizing(c) && k <= 1 && k <= |Plan(crc, c)| && META <= lo <= hi <= |c|
    ensures Replay(c, Plan(crc, c)[..k])[lo..hi] == c[lo..hi]
  {
    hide DecodeHeader, Patch, EntryWrite, BackupWrites, GrownHeader, EncodeHeader, UsedFrom, Replay, Growable,
         NeedsResize, HeaderAt, Sectors;
    Placement(c);
    Regions(crc, c);
    var ws := Plan(crc, c)[..k];
    assert forall w :: w in ws ==> w == EntryWrite(c);
    ReplayFrame(c, ws, lo, hi);
  }

  lemma CrashEarly(crc: Checksum, c: Bytes, k: nat)
    requires Valid(crc, c) && Resizing(c) && k <= 1 && k <= |Plan(crc, c)|
    ensures CopyIntact(crc, Replay(c, Plan(crc, c)[..k]), HeaderAt(c, 1).backupLBA)
  {
    hide DecodeHeader, HeaderIntact, UsedFrom, Replay, Plan, Growable, NeedsResize, CopyIntact, Sectors;
    Placement(c);
    var b := HeaderAt(c, 1).backupLBA;
    EarlyFrame(crc, c, k, b * SECTOR, b * SECTOR + SECTOR);
    EarlyFrame(crc, c, k, (b - 32) * SECTOR, (b - 32) * SECTOR + TABLE);
    CopyIntactFrame(crc, c, Replay(c, Plan(crc, c)[..k]), b);
  }

  lemma PrimaryStart(crc: Checksum, c: Bytes)
    requires Resizing(c)
    ensures HeaderAt(AfterHeader(crc, c), 1) == GrownHeader(crc, c)
    ensures GrownHeader(crc, c).startLBAParts == 2
  {
    hide EncodeHeader, DecodeHeader, AfterHeader, GrownTable, UsedFrom;
    AfterHeaderMeta(crc, c);
    DecodeEncodeHeader(GrownHeader(crc, c));
  }

  // ------------------------------------------------------------ the final disk

  lemma SectorWritesAre(lba: nat, t: Bytes, n: nat)
    requires |t| == n * SECTOR
    ensures |t| % SECTOR == 0 && |SectorWrites(lba, t)| == n
    ensures forall j :: 0 <= j < n ==>
              SectorWrites(lba, t)[j] == At((lba + j) * SECTOR, t[j * SECTOR..j * SECTOR + SECTOR])
  {
  }

  lemma FourParts(x: SectorWrite, ys: seq<SectorWrite>, zs: seq<SectorWrite>, m: SectorWrite, ws: seq<SectorWrite>)
    requires ws == [x] + ys + zs + [m] && |ys| == 33 && |zs| == 32
    ensures |ws| == 67 && ws[0] == x && ws[66] == m
    ensures forall i :: 1 <= i < 34 ==> ws[i] == ys[i - 1]
    ensures forall i :: 34 <= i < 66 ==> ws[i] == zs[i - 34]
  {
  }

  lemma BackupWritesAt(crc: Checksum, c: Bytes)
    requires Growable(c)
    ensures |BackupWrites(crc, c)| == 67
    ensures BackupWrites(crc, c)[0] == At((Sectors(c) - 1) * SECTOR, EncodeHeader(BackupHeader(crc, c)))
    ensures forall i :: 1 <= i < 34 ==>
              BackupWrites(crc, c)[i] == At((HeaderAt(c, 1).lastUsableLBA + i) * SECTOR,
                                            Zeros(33 * SECTOR)[(i - 1) * SECTOR..(i - 1) * SECTOR + SECTOR])
    ensures forall i :: 34 <= i < 66 ==>
              BackupWrites(crc, c)[i] == At((Sectors(c) - 67 + i) * SECTOR,
                                            GrownTable(c)[(i - 34) * SECTOR..(i - 34) * SECTOR + SECTOR])
    ensures BackupWrites(crc, c)[66] == At(0, EncodeMbr(GrownMbr(c)))
  {
    hide DecodeHeader, EncodeHeader, EncodeMbr, DecodeMbr, GrownTable, BackupHeader, GrownHeader, UsedFrom,
         SectorWrites, Zeros;
    var l, s := HeaderAt(c, 1).lastUsableLBA, Sectors(c);
    hide Sectors, HeaderAt;
    SectorWritesAre(l + 1, Zeros(33 * SECTOR), 33);
    SectorWritesAre(s - 33, GrownTable(c), 32);
    FourParts(At((s - 1) * SECTOR, EncodeHeader(BackupHeader(crc, c))), SectorWrites(l + 1, Zeros(33 * SECTOR)),
              SectorWrites(s - 33, GrownTable(c)), At(0, EncodeMbr(GrownMbr(c))), BackupWrites(crc, c));
    hide BackupWrites;
  }

  lemma EndWrites(crc: Checksum, c: Bytes)
    requires Growable(c)
    ensures |BackupWrites(crc, c)| == 67
    ensures BackupWrites(crc, c)[0] == At((Sectors(c) - 1) * SECTOR, EncodeHeader(BackupHeader(crc, c)))
    ensures BackupWrites(crc, c)[66] == At(0, EncodeMbr(GrownMbr(c)))
    ensures |BackupWrites(crc, c)[0].data| == |BackupWrites(crc, c)[66].data| == SECTOR
  {
    hide BackupWrites, Growable, GrownTable, BackupHeader, EncodeHeader, EncodeMbr, GrownMbr, Sectors, HeaderAt, Zeros;
    BackupWritesAt(crc, c);
  }

  lemma CopyWrite(crc: Checksum, c: Bytes, j: nat)
    requires Growable(c) && j < 32
    ensures |BackupWrites(crc, c)| == 67
    ensures BackupWrites(crc, c)[34 + j] == At((Sectors(c) - 33 + j) * SECTOR,
                                               GrownTable(c)[j * SECTOR..j * SECTOR + SECTOR])
    ensures |BackupWrites(crc, c)[34 + j].data| == SECTOR
  {
    hide BackupWrites, Growable, GrownTable, BackupHeader, EncodeHeader, EncodeMbr, GrownMbr, Sectors, HeaderAt, Zeros;
    BackupWritesAt(crc, c);
    var i := 34 + j;
    assert Sectors(c) - 67 + i == Sectors(c) - 33 + j;
  }

  lemma GrowableSize(c: Bytes)
    requires Growable(c)
    ensures META <= |c| && 2 * SECTOR <= |c|
  {
  }

  lemma SliceOfZeros(n: nat, lo: nat, hi: nat)
    requires lo <= hi <= n
    ensures Zeros(n)[lo..hi] == Zeros(hi - lo)
  {
  }

  lemma ClearingWrite(crc: Checksum, c: Bytes, i: nat)
    requires Growable(c) && 1 <= i < 34
    ensures |BackupWrites(crc, c)| == 67
    ensures BackupWrites(crc, c)[i] == At((HeaderAt(c, 1).lastUsableLBA + i) * SECTOR, Zeros(SECTOR))
  {
    hide *;
    GrowableSize(c);
    BackupWritesAt(crc, c);
    SliceOfZeros(33 * SECTOR, (i - 1) * SECTOR, (i - 1) * SECTOR + SECTOR);
  }

  /** The disk after an uninterrupted resize. */
  ghost function Final(crc: Checksum, c: Bytes): (r: Bytes)
    requires Growable(c)
    ensures |r| == |c|
  {
    Replay(c, Plan(crc, c))
  }

  lemma FinalPrimary(crc: Checksum, c: Bytes)
    requires Resizing(c)
    ensures SectorAt(Final(crc, c), 1) == EncodeHeader(GrownHeader(crc, c))
    ensures HeaderAt(Final(crc, c), 1) == GrownHeader(crc, c)
    ensures TableAt(Final(crc, c), 2) == GrownTable(c)
  {
    hide DecodeHeader, EncodeHeader, AfterHeader, Plan, Replay, UsedFrom, GrownHeader, GrownTable;
    var ws := Plan(crc, c);
    assert ws[..|ws|] == ws;
    assert 2 <= |ws| by { PlanLength(crc, c); }
    MetaStays(crc, c, |ws|);
    AfterHeaderMeta(crc, c);
    DecodeEncodeHeader(GrownHeader(crc, c));
  }

  lemma PlanLength(crc: Checksum, c: Bytes)
    requires Growable(c)
    ensures |Plan(crc, c)| == 69
  {
    hide DecodeHeader, EncodeHeader, BackupWrites, GrownHeader, EntryWrite, UsedFrom;
    BackupWritesAt(crc, c);
  }

  lemma FinalIsBackupWrites(crc: Checksum, c: Bytes)
    requires Growable(c)
    ensures Final(crc, c) == Replay(AfterHeader(crc, c), BackupWrites(crc, c))
  {
    hide DecodeHeader, EncodeHeader, BackupWrites, AfterHeader, UsedFrom, Replay, EntryWrite, GrownHeader;
    PlanLength(crc, c);
    PlanPrefix(crc, c, 69);
    assert Plan(crc, c)[..69] == Plan(crc, c);
    assert BackupWrites(crc, c)[..67] == BackupWrites(crc, c);
  }

  /** The sector that write `i` of the backup goes to; `l` is the old last usable sector, `s` the sector count. */
  function Place(l: int, s: int, i: nat): (sector: int) {
    if i == 0 then s - 1 else if i < 34 then l + i else if i < 66 then s - 67 + i else 0
  }

  lemma WritePlace(crc: Checksum, c: Bytes, i: nat)
    requires Growable(c) && i < 67
    ensures |BackupWrites(crc, c)| == 67 && |BackupWrites(crc, c)[i].data| == SECTOR
    ensures BackupWrites(crc, c)[i].off == Place(HeaderAt(c, 1).lastUsableLBA, Sectors(c), i) * SECTOR
  {
    hide *;
    GrowableSize(c);
    Places(HeaderAt(c, 1).lastUsableLBA, Sectors(c), i);
    EndWrites(crc, c);
    if 1 <= i < 34 {
      ClearingWrite(crc, c, i);
    } else if 34 <= i < 66 {
      CopyWrite(crc, c, i - 34);
      assert 34 + (i - 34) == i && Sectors(c) - 33 + (i - 34) == Sectors(c) - 67 + i;
    }
  }

  lemma Places(l: int, s: int, i: nat)
    ensures Place(l, s, 0) == s - 1 && (i >= 66 ==> Place(l, s, i) == 0 == Place(l, s, i) * SECTOR)
    ensures (1 <= i < 34 ==> Place(l, s, i) == l + i) && (34 <= i < 66 ==> Place(l, s, i) == s - 67 + i)
  {
  }

  lemma SectorsApart(a: int, b: int)
    requires a != b
    ensures a * SECTOR + SECTOR <= b * SECTOR || b * SECTOR + SECTOR <= a * SECTOR
  {
  }

  ghost predicate Placed(ws: seq<SectorWrite>, l: int, s: int) {
    |ws| == 67 && forall i :: 0 <= i < 67 ==> ws[i].off == Place(l, s, i) * SECTOR && |ws[i].data| == SECTOR
  }

  lemma WritesPlaced(crc: Checksum, c: Bytes)
    requires Growable(c)
    ensures Placed(BackupWrites(crc, c), HeaderAt(c, 1).lastUsableLBA, Sectors(c))
  {
    hide BackupWrites, Growable, Place, Sectors, HeaderAt;
    GrowableSize(c);
    WritePlace(crc, c, 0);
    forall i | 0 <= i < 67 {
      WritePlace(crc, c, i);
    }
  }

  /** No later write touches what write `i` wrote, if none goes to the same place. */
  lemma LaterAvoid(ws: seq<SectorWrite>, l: int, s: int, i: nat)
    requires Placed(ws, l, s) && i < 67 && forall k :: i < k < 67 ==> Place(l, s, k) != Place(l, s, i)
    ensures Avoids(ws[i + 1..], ws[i].off, ws[i].off + |ws[i].data|)
  {
    hide Place;
    var later := ws[i + 1..];
    forall n | 0 <= n < |later|
      ensures ws[i].off + SECTOR <= later[n].off || later[n].off + |later[n].data| <= ws[i].off
    {
      var k := i + 1 + n;
      assert later[n] == ws[k];
      SectorsApart(Place(l, s, i), Place(l, s, k));
    }
  }

  /** The new backup header and the MBR are read back as written. */
  lemma FinalBackupHeader(crc: Checksum, c: Bytes)
    requires Resizing(c)
    ensures SectorAt(Final(crc, c), Sectors(c) - 1) == EncodeHeader(BackupHeader(crc, c))
    ensures SectorAt(Final(crc, c), 0) == EncodeMbr(GrownMbr(c))
  {
    hide DecodeHeader, EncodeHeader, EncodeMbr, DecodeMbr, BackupWrites, AfterHeader, UsedFrom, Replay, Final,
         BackupHeader, GrownMbr, GrownTable, Sectors, HeaderAt, Growable, NeedsResize;
    Placement(c);
    FinalIsBackupWrites(crc, c);
    EndWrites(crc, c);
    WritesPlaced(crc, c);
    LaterAvoid(BackupWrites(crc, c), HeaderAt(c, 1).lastUsableLBA, Sectors(c), 0);
    LaterAvoid(BackupWrites(crc, c), HeaderAt(c, 1).lastUsableLBA, Sectors(c), 66);
    ReplayReadBack(AfterHeader(crc, c), BackupWrites(crc, c), 0);
    ReplayReadBack(AfterHeader(crc, c), BackupWrites(crc, c), 66);
  }

  /** Each sector of the table is copied after the old backup area was cleared. */
  lemma FinalBackupSector(crc: Checksum, c: Bytes, j: nat)
    requires Resizing(c) && j < 32
    ensures SectorAt(Final(crc, c), Sectors(c) - 33 + j) == GrownTable(c)[j * SECTOR..j * SECTOR + SECTOR]
  {
    hide DecodeHeader, EncodeHeader, EncodeMbr, DecodeMbr, BackupWrites, AfterHeader, UsedFrom, Replay, Final,
         BackupHeader, GrownMbr, GrownTable, Sectors, HeaderAt, Growable, NeedsResize;
    Placement(c);
    FinalIsBackupWrites(crc, c);
    CopyWrite(crc, c, j);
    WritesPlaced(crc, c);
    LaterAvoid(BackupWrites(crc, c), HeaderAt(c, 1).lastUsableLBA, Sectors(c), 34 + j);
    ReplayReadBack(AfterHeader(crc, c), BackupWrites(crc, c), 34 + j);
  }

  /** Every byte of sector `i` of the old backup area is zero in the end, unless the new area has that sector. */
  lemma OldBackupCleared(crc: Checksum, c: Bytes, i: nat)
    requires Resizing(c) && 1 <= i <= 33 && HeaderAt(c, 1).lastUsableLBA + i < Sectors(c) - 33
    ensures (HeaderAt(c, 1).lastUsableLBA + i) * SECTOR + SECTOR <= |c|
    ensures SectorAt(Final(crc, c), HeaderAt(c, 1).lastUsableLBA + i) == Zeros(SECTOR)
  {
    hide DecodeHeader, BackupWrites, AfterHeader, UsedFrom, Replay, Final, Sectors, HeaderAt, Growable, NeedsResize;
    Placement(c);
    FinalIsBackupWrites(crc, c);
    ClearingWrite(crc, c, i);
    WritesPlaced(crc, c);
    LaterAvoid(BackupWrites(crc, c), HeaderAt(c, 1).lastUsableLBA, Sectors(c), i);
    ReplayReadBack(AfterHeader(crc, c), BackupWrites(crc, c), i);
  }

  lemma TableBySectors(a: Bytes, b: Bytes)
    requires |a| == TABLE && |b| == TABLE
    requires forall j :: 0 <= j < 32 ==> a[j * SECTOR..j * SECTOR + SECTOR] == b[j * SECTOR..j * SECTOR + SECTOR]
    ensures a == b
  {
    forall i | 0 <= i < TABLE
      ensures a[i] == b[i]
    {
      var j := i / SECTOR;
      assert a[i] == a[j * SECTOR..j * SECTOR + SECTOR][i - j * SECTOR];
    }
  }

  lemma FinalBackupSlice(crc: Checksum, c: Bytes, j: nat)
    requires Resizing(c) && j < 32
    ensures (Sectors(c) - 33) * SECTOR + TABLE <= |c|
    ensures TableAt(Final(crc, c), Sectors(c) - 33)[j * SECTOR..j * SECTOR + SECTOR]
         == GrownTable(c)[j * SECTOR..j * SECTOR + SECTOR]
  {
    hide DecodeHeader, Final, GrownTable, UsedFrom, Sectors, HeaderAt, Growable, NeedsResize, TableAt, SectorAt;
    Placement(c);
    FinalBackupSector(crc, c, j);
    TableSlice(Final(crc, c), Sectors(c) - 33, j);
  }

  lemma TableSlice(r: Bytes, lba: nat, j: nat)
    requires lba * SECTOR + TABLE <= |r| && j < 32
    ensures TableAt(r, lba)[j * SECTOR..j * SECTOR + SECTOR] == SectorAt(r, lba + j)
  {
    SliceOfSlice(r, lba * SECTOR, lba * SECTOR + TABLE, j * SECTOR, j * SECTOR + SECTOR);
  }

  lemma FinalBackupTable(crc: Checksum, c: Bytes)
    requires Resizing(c)
    ensures TableAt(Final(crc, c), Sectors(c) - 33) == GrownTable(c)
  {
    hide DecodeHeader, Final, GrownTable, UsedFrom, Sectors, HeaderAt, Growable, NeedsResize, TableAt;
    Placement(c);
    forall j | 0 <= j < 32 {
      FinalBackupSlice(crc, c, j);
    }
    TableBySectors(TableAt(Final(crc, c), Sectors(c) - 33), GrownTable(c));
  }

  /** The entry that `grow` rewrites is the last used one, and only its last LBA changes. */
  lemma EntriesOf(c: Bytes, t: Bytes, r: Bytes)
    requires Growable(c) && |r| == |c| && t == GrownTable(c) && TableAt(r, 2) == t
    ensures Used(r) == Used(c)
    ensures forall i :: 0 <= i < 128 ==> EntryAt(r, i) == if i == Used(c) - 1 then GrownEntry(c) else EntryAt(c, i)
  {
    hide DecodeEntry, EncodeEntry, DecodeHeader, UsedFrom, Patch;
    var n := Used(c);
    var w := EntryWrite(c);
    var c1 := Patch(c, w.off, w.data);
    forall i | 0 <= i < 128
      ensures EntryAt(r, i) == if i == n - 1 then GrownEntry(c) else EntryAt(c, i)
    {
      var lo := EntryOffset(i);
      SliceOfSlice(r, 2 * SECTOR, META, 128 * i, 128 * i + 128);
      SliceOfSlice(c1, 2 * SECTOR, META, 128 * i, 128 * i + 128);
      if i == n - 1 {
        PatchThere(c, w.off, w.data);
        DecodeEncodeEntry(GrownEntry(c));
      } else {
        PatchElsewhere(c, w.off, w.data, lo, lo + 128);
      }
    }
    UsedUnique(r, 0, n);
  }

  /**
   Final consistency: any resize of a disk with a sane primary header, whatever
   its checksums and its backup copy were, ends with two self-consistent copies
   that name each other, equal tables, and a backup area from the sector after
   the last usable one to the last whole sector; and it does not want to grow again.
   */
  lemma FinalConsistency(crc: Checksum, c: Bytes)
    requires Resizing(c) && Sane(c)
    ensures var r, last := Final(crc, c), Sectors(c) - 1;
            && CopyIntact(crc, r, 1) && CopyIntact(crc, r, last)
            && HeaderAt(r, 1).backupLBA == last && HeaderAt(r, last).backupLBA == 1
            && HeaderAt(r, last).startLBAParts == HeaderAt(r, 1).lastUsableLBA + 1 == last - 32
            && TableAt(r, 2) == TableAt(r, last - 32)
            && !NeedsResize(HeaderAt(r, 1), |r|)
  {
    hide DecodeHeader, EncodeHeader, CopyIntact, UsedFrom, Final, GrownTable, GrownHeader, BackupHeader, NeedsResize;
    FinalPrimary(crc, c);
    FinalBackupTable(crc, c);
    FinalCopies(crc, c);
    FinalNames(crc, c);
  }

  lemma FinalNames(crc: Checksum, c: Bytes)
    requires Resizing(c)
    ensures var r, last := Final(crc, c), Sectors(c) - 1;
            && HeaderAt(r, 1).backupLBA == last && HeaderAt(r, last).backupLBA == 1
            && HeaderAt(r, last).startLBAParts == HeaderAt(r, 1).lastUsableLBA + 1 == last - 32
            && !NeedsResize(HeaderAt(r, 1), |r|)
  {
    hide DecodeHeader, EncodeHeader, UsedFrom, Final, GrownTable, GrownHeader, BackupHeader, NeedsResize;
    FinalPrimary(crc, c);
    FinalBackupHeader(crc, c);
    DecodeEncodeHeader(BackupHeader(crc, c));
    NewFields(crc, c);
    Settled(GrownHeader(crc, c), |c|);
  }

  /** A header that reaches up to the last whole sector does not ask for a resize. */
  lemma Settled(h: Header, size: nat)
    requires 34 * SECTOR <= size < 0x8000_0000_0000_0000 && h.lastUsableLBA == size / SECTOR - 34
    ensures !NeedsResize(h, size)
  {
  }

  /** The fields of the two new headers. */
  lemma NewFields(crc: Checksum, c: Bytes)
    requires Growable(c)
    ensures var h, p, b := HeaderAt(c, 1), GrownHeader(crc, c), BackupHeader(crc, c);
            && p == h.(lastUsableLBA := Sectors(c) - 34, backupLBA := Sectors(c) - 1, crcParts := crc(GrownTable(c)),
                       crc := p.crc)
            && b == p.(currentLBA := Sectors(c) - 1, backupLBA := 1, startLBAParts := Sectors(c) - 33, crc := b.crc)
  {
    hide DecodeHeader, EncodeHeader, UsedFrom, GrownTable;
    Geometry(c);
  }

  lemma FinalCopies(crc: Checksum, c: Bytes)
    requires Resizing(c) && Sane(c)
    ensures CopyIntact(crc, Final(crc, c), 1) && CopyIntact(crc, Final(crc, c), Sectors(c) - 1)
  {
    hide DecodeHeader, EncodeHeader, HeaderIntact, UsedFrom, Final, GrownTable, Plan, GrownHeader, BackupHeader;
    Geometry(c);
    FinalPrimary(crc, c);
    FinalBackupHeader(crc, c);
    FinalBackupTable(crc, c);
    DecodeEncodeHeader(BackupHeader(crc, c));
    NewFields(crc, c);
    StampedHeaders(crc, c);
  }

  lemma StampedHeaders(crc: Checksum, c: Bytes)
    requires Resizing(c) && Sane(c)
    ensures HeaderIntact(crc, EncodeHeader(GrownHeader(crc, c)))
    ensures HeaderIntact(crc, EncodeHeader(BackupHeader(crc, c)))
  {
    hide DecodeHeader, EncodeHeader, HeaderIntact, UsedFrom, GrownTable;
    var h := HeaderAt(c, 1).(lastUsableLBA := LastUsable(|c|), backupLBA := Wrap64(Sectors(c) - 1),
                             crcParts := crc(GrownTable(c)));
    StampIntact(crc, h);
    var p := GrownHeader(crc, c);
    StampIntact(crc, p.(currentLBA := p.backupLBA, backupLBA := p.currentLBA,
                        startLBAParts := Wrap64(p.backupLBA - 32)));
  }

  /** A resized disk is a valid disk again, so it can be enlarged and resized once more. */
  lemma FinalValid(crc: Checksum, c: Bytes)
    requires Resizing(c) && Sane(c)
    ensures Valid(crc, Final(crc, c))
  {
    hide DecodeHeader, EncodeHeader, DecodeEntry, EncodeEntry, CopyIntact, UsedFrom, Final, GrownTable, Plan;
    Geometry(c);
    FinalConsistency(crc, c);
    FinalPrimary(crc, c);
    EntriesOf(c, GrownTable(c), Final(crc, c));
  }

  // ------------------------------------------------------------------- frame

  /** Every write goes to the table at the front, to the old backup area or to the new one. */
  lemma PlanAreas(crc: Checksum, c: Bytes)
    requires Resizing(c)
    ensures var l, s := HeaderAt(c, 1).lastUsableLBA, Sectors(c);
            forall w :: w in Plan(crc, c) ==>
              || w.off + |w.data| <= META
              || ((l + 1) * SECTOR <= w.off && w.off + |w.data| <= (l + 34) * SECTOR)
              || ((s - 33) * SECTOR <= w.off && w.off + |w.data| <= s * SECTOR)
  {
    hide DecodeHeader, EncodeHeader, UsedFrom, GrownHeader, BackupWrites, GrownTable, BackupHeader, EncodeMbr, GrownMbr;
    Geometry(c);
    Regions(crc, c);
    var ws := Plan(crc, c);
    assert forall w :: w in ws ==> w == ws[0] || w == ws[1] || w in BackupWrites(crc, c);
  }

  lemma GapUntouched(crc: Checksum, c: Bytes)
    requires Resizing(c) && HeaderAt(c, 1).lastUsableLBA + 34 <= Sectors(c) - 33
    ensures var r, lo, hi := Final(crc, c), (HeaderAt(c, 1).lastUsableLBA + 34) * SECTOR, (Sectors(c) - 33) * SECTOR;
            hi <= |c| && r[lo..hi] == c[lo..hi]
  {
    hide DecodeHeader, UsedFrom, Replay, Plan, Sectors, HeaderAt, Growable, NeedsResize;
    Placement(c);
    PlanAreas(crc, c);
    ReplayFrame(c, Plan(crc, c), (HeaderAt(c, 1).lastUsableLBA + 34) * SECTOR, (Sectors(c) - 33) * SECTOR);
  }

  lemma EndUntouched(crc: Checksum, c: Bytes)
    requires Resizing(c)
    ensures Sectors(c) * SECTOR <= |c| && Final(crc, c)[Sectors(c) * SECTOR..] == c[Sectors(c) * SECTOR..]
  {
    hide DecodeHeader, UsedFrom, Replay, Plan, Sectors, HeaderAt, Growable, NeedsResize;
    Placement(c);
    PlanAreas(crc, c);
    ReplayFrame(c, Plan(crc, c), Sectors(c) * SECTOR, |c|);
  }

  /**
   No byte between the table and the old last usable sector changes, nor any
   byte between the old and the new backup area, nor a last partial sector.
   */
  lemma DataUntouched(crc: Checksum, c: Bytes)
    requires Resizing(c)
    ensures var r, l, s := Final(crc, c), HeaderAt(c, 1).lastUsableLBA, Sectors(c);
            && r[META..(l + 1) * SECTOR] == c[META..(l + 1) * SECTOR]
            && (l + 34 <= s - 33 ==> r[(l + 34) * SECTOR..(s - 33) * SECTOR] == c[(l + 34) * SECTOR..(s - 33) * SECTOR])
            && r[s * SECTOR..] == c[s * SECTOR..]
  {
    hide DecodeHeader, UsedFrom, Replay, Plan, Sectors, HeaderAt, Growable, NeedsResize;
    Placement(c);
    PlanAreas(crc, c);
    ReplayFrame(c, Plan(crc, c), META, (HeaderAt(c, 1).lastUsableLBA + 1) * SECTOR);
    hide Final;
    EndUntouched(crc, c);
    if HeaderAt(c, 1).lastUsableLBA + 34 <= Sectors(c) - 33 {
      GapUntouched(crc, c);
    }
  }

  /**
   The metadata changes in a handful of fields: the MBR in its sector count,
   the table in the last LBA of the last used entry, the primary header in its
   backup LBA, its last usable LBA and its two checksums.
   */
  lemma MetadataFrame(crc: Checksum, c: Bytes)
    requires Resizing(c)
    ensures var r, p := Final(crc, c), GrownHeader(crc, c);
            && SectorAt(r, 0) == Patch(SectorAt(c, 0), 458, Put32(MbrSectors(|c|)))
            && TableAt(r, 2) == Patch(TableAt(c, 2), 128 * (Used(c) - 1) + 40, Put64(Sectors(c) - 34))
            && SectorAt(r, 1) == Patch(Patch(Patch(Patch(SectorAt(c, 1),
                                                         48, Put64(Sectors(c) - 34)),
                                                   32, Put64(Sectors(c) - 1)),
                                             88, Put32(crc(GrownTable(c)))),
                                       16, Put32(p.crc))
  {
    hide DecodeHeader, EncodeHeader, DecodeMbr, EncodeMbr, UsedFrom, Final, GrownTable, GrownHeader, Patch;
    FinalPrimary(crc, c);
    FinalBackupHeader(crc, c);
    MbrFrame(c);
    TableFrame(c);
    HeaderFrame(crc, c);
  }

  lemma MbrFrame(c: Bytes)
    requires META <= |c|
    ensures EncodeMbr(GrownMbr(c)) == Patch(SectorAt(c, 0), 458, Put32(MbrSectors(|c|)))
  {
    hide DecodeMbr, EncodeMbr, Patch;
    EncodeDecodeMbr(SectorAt(c, 0));
    EncodeMbrUpdate(DecodeMbr(SectorAt(c, 0)), MbrSectors(|c|));
  }

  lemma HeaderFrame(crc: Checksum, c: Bytes)
    requires Growable(c)
    ensures EncodeHeader(GrownHeader(crc, c))
         == Patch(Patch(Patch(Patch(SectorAt(c, 1),
                                    48, Put64(Sectors(c) - 34)),
                              32, Put64(Sectors(c) - 1)),
                        88, Put32(crc(GrownTable(c)))),
                  16, Put32(GrownHeader(crc, c).crc))
  {
    hide DecodeHeader, EncodeHeader, UsedFrom, GrownTable, GrownHeader, Patch;
    var s, p := Sectors(c), GrownHeader(crc, c);
    NewFields(crc, c);
    EncodeDecodeHeader(SectorAt(c, 1));
    var h0 := HeaderAt(c, 1);
    EncodeHeaderLastUsable(h0, s - 34);
    var h1 := h0.(lastUsableLBA := s - 34);
    EncodeHeaderBackup(h1, s - 1);
    var h2 := h1.(backupLBA := s - 1);
    EncodeHeaderCrcParts(h2, crc(GrownTable(c)));
    EncodeHeaderCrc(h2.(crcParts := crc(GrownTable(c))), p.crc);
  }

  lemma TableFrame(c: Bytes)
    requires Growable(c)
    ensures GrownTable(c) == Patch(TableAt(c, 2), 128 * (Used(c) - 1) + 40, Put64(Sectors(c) - 34))
  {
    hide DecodeHeader, DecodeEntry, EncodeEntry, UsedFrom, Put64, Patch;
    Geometry(c);
    var i := Used(c) - 1;
    var off, x := EntryOffset(i), Put64(Sectors(c) - 34);
    EncodeDecodeEntry(c[off..off + 128]);
    EncodeEntryUpdate(EntryAt(c, i), Sectors(c) - 34);
    PatchNested(c, off, 128, 40, x);
    PatchSeen(c, off + 40, x, 2 * SECTOR, META);
  }

  // ------------------------------------------------------------- partitions

  /** Used entries are pairwise disjoint, inside the usable range, and the last one is the highest. */
  ghost predicate Partitioned(c: Bytes)
    requires META <= |c|
  {
    var h, n := HeaderAt(c, 1), Used(c);
    && (forall i :: 0 <= i < n ==>
          h.firstUsableLBA <= EntryAt(c, i).firstLBA <= EntryAt(c, i).lastLBA <= h.lastUsableLBA)
    && (forall i, j :: 0 <= i < j < n ==>
          EntryAt(c, i).lastLBA < EntryAt(c, j).firstLBA || EntryAt(c, j).lastLBA < EntryAt(c, i).firstLBA)
    && (forall i :: 0 <= i < n - 1 ==> EntryAt(c, i).lastLBA < EntryAt(c, n - 1).firstLBA)
  }

  /** What `extendFinalPartition` reports. */
  function SectorsAdded(c: Bytes): (n: uint64)
    requires META <= |c| && 0 < Used(c)
  {
    Wrap64(LastUsable(|c|) - EntryAt(c, Used(c) - 1).lastLBA)
  }

  lemma PartitionsKept(crc: Checksum, c: Bytes)
    requires Resizing(c) && Partitioned(c)
    ensures var r, n := Final(crc, c), Used(c);
            && Partitioned(r) && Used(r) == n
            && (forall i :: 0 <= i < 128 && i != n - 1 ==> EntryAt(r, i) == EntryAt(c, i))
            && EntryAt(r, n - 1) == EntryAt(c, n - 1).(lastLBA := EntryAt(r, n - 1).lastLBA)
            && EntryAt(r, n - 1).lastLBA == EntryAt(c, n - 1).lastLBA + SectorsAdded(c)
            && 0 < SectorsAdded(c)
  {
    hide DecodeHeader, EncodeHeader, DecodeEntry, EncodeEntry, UsedFrom, Final, GrownTable, GrownHeader;
    Geometry(c);
    NewFields(crc, c);
    FinalPrimary(crc, c);
    EntriesOf(c, GrownTable(c), Final(crc, c));
  }

  // ------------------------------------------------------- crash and reboot

  lemma PatchTwice(c: Bytes, off: nat, b: Bytes)
    ensures Patch(Patch(c, off, b), off, b) == Patch(c, off, b)
  {
    var r := Patch(c, off, b);
    if off + |b| <= |c| {
      assert r[..off] == c[..off];
      assert r[off + |b|..] == c[off + |b|..];
    }
  }

  /** After the first write alone, the disk still wants to grow, by the same writes. */
  lemma RestartAfterEntry(crc: Checksum, c: Bytes)
    requires Resizing(c)
    ensures var r := Patch(c, EntryWrite(c).off, EntryWrite(c).data);
            && Resizing(r) && SectorAt(r, 0) == SectorAt(c, 0) && HeaderAt(r, 1) == HeaderAt(c, 1)
            && EntryWrite(r) == EntryWrite(c) && GrownTable(r) == GrownTable(c)
  {
    hide DecodeHeader, EncodeEntry, DecodeEntry, UsedFrom, Patch;
    var w := EntryWrite(c);
    var r := Patch(c, w.off, w.data);
    Regions(_ => 0, c);
    PatchElsewhere(c, w.off, w.data, 0, SECTOR);
    PatchElsewhere(c, w.off, w.data, SECTOR, 2 * SECTOR);
    EntriesOf(c, GrownTable(c), r);
    PatchTwice(c, w.off, w.data);
  }

  lemma SameFinal(crc: Checksum, c: Bytes)
    requires Resizing(c)
    ensures var r := Patch(c, EntryWrite(c).off, EntryWrite(c).data);
            Resizing(r) && Final(crc, r) == Final(crc, c)
  {
    hide DecodeHeader, EncodeHeader, DecodeMbr, EncodeMbr, UsedFrom, Patch, Final, GrownTable, EntryWrite, Replay;
    var w := EntryWrite(c);
    var r := Patch(c, w.off, w.data);
    RestartAfterEntry(crc, c);
    FinalIsBackupWrites(crc, c);
    FinalIsBackupWrites(crc, r);
    PatchTwice(c, w.off, w.data);
    assert GrownHeader(crc, r) == GrownHeader(crc, c);
    assert BackupWrites(crc, r) == BackupWrites(crc, c);
  }

  /** From the second write on the header already names the new size. */
  lemma NoRestartLater(crc: Checksum, c: Bytes, k: nat)
    requires Resizing(c) && 2 <= k <= |Plan(crc, c)|
    ensures var r := Replay(c, Plan(crc, c)[..k]);
            Growable(r) && !NeedsResize(HeaderAt(r, 1), |r|)
  {
    hide DecodeHeader, EncodeHeader, DecodeEntry, EncodeEntry, UsedFrom, AfterHeader, Plan, Replay, GrownTable,
         GrownHeader;
    Geometry(c);
    MetaStays(crc, c, k);
    AfterHeaderMeta(crc, c);
    PrimaryStart(crc, c);
    NewFields(crc, c);
    EntriesOf(c, GrownTable(c), Replay(c, Plan(crc, c)[..k]));
  }

  /**
   What the next boot does with a disk on which the resize was interrupted after
   `k` writes: it completes the resize exactly when at most the first write had
   been performed, and otherwise leaves the disk as the crash left it.
   */
  lemma CrashThenReboot(crc: Checksum, c: Bytes, k: nat)
    requires Resizing(c) && k <= |Plan(crc, c)|
    ensures var r := Replay(c, Plan(crc, c)[..k]);
            && Growable(r)
            && (NeedsResize(HeaderAt(r, 1), |r|) <==> k <= 1)
            && Boot(crc, r) == if k <= 1 then Final(crc, c) else r
  {
    hide DecodeHeader, EncodeHeader, UsedFrom, Patch, GrownTable, EntryWrite, BackupWrites, GrownHeader;
    if 2 <= k {
      NoRestartLater(crc, c, k);
    } else if k == 1 {
      assert Plan(crc, c)[..1] == [EntryWrite(c)];
      SameFinal(crc, c);
    } else {
      assert Plan(crc, c)[..0] == [];
    }
  }

  // ------------------------------------------------------- the life of a disk

  /** A valid disk stays valid when the device underneath it is enlarged. */
  lemma EnlargedValid(crc: Checksum, c: Bytes, more: Bytes)
    requires Valid(crc, c) && |c + more| < 0x8000_0000_0000_0000
    ensures Valid(crc, c + more)
    ensures HeaderAt(c + more, 1) == HeaderAt(c, 1)
  {
    hide DecodeHeader, DecodeEntry, HeaderIntact, UsedFrom;
    var d, h := c + more, HeaderAt(c, 1);
    assert SectorAt(d, 1) == SectorAt(c, 1);
    assert SectorAt(d, h.backupLBA) == SectorAt(c, h.backupLBA);
    assert TableAt(d, 2) == TableAt(c, 2);
    assert TableAt(d, h.lastUsableLBA + 1) == TableAt(c, h.lastUsableLBA + 1);
    forall i | 0 <= i < 128
      ensures EntryAt(d, i) == EntryAt(c, i)
    {
      assert d[EntryOffset(i)..EntryOffset(i) + 128] == c[EntryOffset(i)..EntryOffset(i) + 128];
    }
    UsedUnique(d, 0, Used(c));
  }

  /** The disk after a series of enlargements, each followed by a boot. */
  ghost function Life(crc: Checksum, c: Bytes, growth: seq<Bytes>): (r: Bytes)
    decreases |growth|
  {
    if growth == [] || !Growable(c + growth[0]) then c
    else Life(crc, Boot(crc, c + growth[0]), growth[1..])
  }

  ghost function Total(growth: seq<Bytes>): (n: nat) {
    if growth == [] then 0 else |growth[0]| + Total(growth[1..])
  }

  /** `r` has all the data area of `c`, with the same contents, and possibly more. */
  ghost predicate KeepsData(c: Bytes, r: Bytes) {
    && META <= |c| <= |r|
    && HeaderAt(c, 1).lastUsableLBA <= HeaderAt(r, 1).lastUsableLBA
    && META <= (HeaderAt(c, 1).lastUsableLBA + 1) * SECTOR <= |c|
    && r[META..(HeaderAt(c, 1).lastUsableLBA + 1) * SECTOR] == c[META..(HeaderAt(c, 1).lastUsableLBA + 1) * SECTOR]
  }

  lemma KeepsDataTransitive(a: Bytes, b: Bytes, c: Bytes)
    requires KeepsData(a, b) && KeepsData(b, c)
    ensures KeepsData(a, c)
  {
    hide DecodeHeader;
    var x, y := (HeaderAt(a, 1).lastUsableLBA + 1) * SECTOR, (HeaderAt(b, 1).lastUsableLBA + 1) * SECTOR;
    SliceOfSlice(b, META, y, 0, x - META);
    SliceOfSlice(c, META, y, 0, x - META);
  }

  lemma EnlargedKeeps(crc: Checksum, c: Bytes, more: Bytes)
    requires Valid(crc, c)
    ensures KeepsData(c, c + more)
  {
    hide DecodeHeader, CopyIntact, UsedFrom;
    assert SectorAt(c + more, 1) == SectorAt(c, 1);
  }

  lemma BootValid(crc: Checksum, c: Bytes)
    requires Valid(crc, c)
    ensures Valid(crc, Boot(crc, c))
    ensures !NeedsResize(HeaderAt(Boot(crc, c), 1), |c|)
    ensures KeepsData(c, Boot(crc, c))
  {
    hide DecodeHeader, EncodeHeader, CopyIntact, UsedFrom, Plan, Replay, GrownHeader, NeedsResize;
    ValidIsSane(crc, c);
    if Resizing(c) {
      Geometry(c);
      NewFields(crc, c);
      FinalPrimary(crc, c);
      FinalNames(crc, c);
      FinalValid(crc, c);
      DataUntouched(crc, c);
    }
  }

  /**
   Over any number of enlargements and boots the disk is valid after each, does
   not want to grow, and keeps every byte of the data area it started with.
   */
  lemma {:induction false} LifeValid(crc: Checksum, c: Bytes, growth: seq<Bytes>)
    requires Valid(crc, c) && |c| + Total(growth) < 0x8000_0000_0000_0000
    ensures var r := Life(crc, c, growth);
            && Valid(crc, r) && |r| == |c| + Total(growth) && KeepsData(c, r)
            && (growth != [] ==> !NeedsResize(HeaderAt(r, 1), |r|))
    decreases |growth|
  {
    if growth == [] {
      EnlargedKeeps(crc, c, []);
      assert c + [] == c;
    } else {
      var d := c + growth[0];
      EnlargedValid(crc, c, growth[0]);
      EnlargedKeeps(crc, c, growth[0]);
      ValidIsSane(crc, d);
      BootValid(crc, d);
      hide Valid, Growable, Boot, KeepsData, NeedsResize, HeaderAt;
      LifeValid(crc, Boot(crc, d), growth[1..]);
      KeepsDataTransitive(c, d, Boot(crc, d));
      KeepsDataTransitive(c, Boot(crc, d), Life(crc, Boot(crc, d), growth[1..]));
    }
  }

  /** At any time in that life a resize may be cut short after any write, and the disk is recoverable. */
  lemma LifeCrashSafety(crc: Checksum, c: Bytes, growth: seq<Bytes>, more: Bytes, k: nat)
    requires Valid(crc, c) && |c| + Total(growth) + |more| < 0x8000_0000_0000_0000
    requires var d := Life(crc, c, growth) + more;
             Resizing(d) && k <= |Plan(crc, d)|
    ensures var d := Life(crc, c, growth) + more;
            Recoverable(crc, Replay(d, Plan(crc, d)[..k]), HeaderAt(d, 1).backupLBA)
  {
    hide Valid, Growable, Boot, KeepsData, NeedsResize, HeaderAt, Recoverable, Plan, Replay, Life, Total;
    LifeValid(crc, c, growth);
    EnlargedValid(crc, Life(crc, c, growth), more);
    CrashSafety(crc, Life(crc, c, growth) + more, k);
  }

  /** A resize that was cut short late leaves no backup, but the next resize restores one. */
  lemma RepairedByNextResize(crc: Checksum, c: Bytes, k: nat, more: Bytes)
    requires Resizing(c) && Sane(c) && 2 <= k <= |Plan(crc, c)|
    requires Resizing(Replay(c, Plan(crc, c)[..k]) + more)
    ensures Valid(crc, Final(crc, Replay(c, Plan(crc, c)[..k]) + more))
  {
    hide DecodeHeader, EncodeHeader, UsedFrom, AfterHeader, Plan, Replay, GrownTable, GrownHeader, Final, NeedsResize;
    var r := Replay(c, Plan(crc, c)[..k]);
    MetaStays(crc, c, k);
    PrimaryStart(crc, c);
    NewFields(crc, c);
    assert SectorAt(r + more, 1) == SectorAt(r, 1);
    FinalValid(crc, r + more);
  }

  // ----------------------------------------------------------------- the MBR

  /**
   The size section 5.2.3 asks for, the number of sectors after the MBR or
   0xFFFFFFFF if that does not fit, is written exactly when the disk has at most
   2^32 sectors or a multiple of 2^32 of them.
   */
  lemma MbrSectorsExact(size: nat)
    requires SECTOR <= size
    ensures var s := size / SECTOR;
            MbrSectors(size) == (if s - 1 < TWO32 then s - 1 else TWO32 - 1) <==> s <= TWO32 || s % TWO32 == 0
  {
  }

  /** A disk of 2^32 + 1 sectors is recorded as one of a single sector. */
  lemma MbrSectorsWrapped()
    ensures MbrSectors((TWO32 + 1) * SECTOR) == 0
  {
  }
}
