/**
 What a GPT disk is, what growing it has to achieve, and the list of
 single-sector writes that `grow` performs. The checksum is a parameter: all
 statements hold for every function from byte strings to 32-bit values, and so
 for the IEEE CRC-32 that the program uses.
 */
module Gpt {
  import opened Binary
  import opened Layout
  import opened Disk

  type Checksum = Bytes -> uint32

  const SIGNATURE: uint64 := 0x5452415020494645 // "EFI PART"
  const TABLE: nat := 16384                     // 32 sectors of partition entries
  const META: nat := 17408                      // MBR, header and table: sectors 0 to 33

  // ------------------------------------------------------- reading the disk

  function Sectors(c: Bytes): (n: nat) {
    |c| / SECTOR
  }

  function SectorAt(c: Bytes, lba: nat): (s: Bytes)
    requires lba * SECTOR + SECTOR <= |c|
    ensures |s| == SECTOR
  {
    c[lba * SECTOR..lba * SECTOR + SECTOR]
  }

  function HeaderAt(c: Bytes, lba: nat): (h: Header)
    requires lba * SECTOR + SECTOR <= |c|
  {
    DecodeHeader(SectorAt(c, lba))
  }

  function TableAt(c: Bytes, lba: nat): (t: Bytes)
    requires lba * SECTOR + TABLE <= |c|
    ensures |t| == TABLE
  {
    c[lba * SECTOR..lba * SECTOR + TABLE]
  }

  function EntryOffset(i: nat): (off: nat) {
    2 * SECTOR + 128 * i
  }

  function EntryAt(c: Bytes, i: nat): (e: Entry)
    requires i < 128 && META <= |c|
  {
    DecodeEntry(c[EntryOffset(i)..EntryOffset(i) + 128])
  }

  /** The scan of the table stops at the first entry that has no first LBA. */
  function UsedFrom(c: Bytes, i: nat): (n: nat)
    requires i <= 128 && META <= |c|
    ensures i <= n <= 128
    ensures forall j :: i <= j < n ==> EntryAt(c, j).firstLBA != 0
    ensures n < 128 ==> EntryAt(c, n).firstLBA == 0
    decreases 128 - i
  {
    if i == 128 || EntryAt(c, i).firstLBA == 0 then i else UsedFrom(c, i + 1)
  }

  function Used(c: Bytes): (n: nat)
    requires META <= |c|
    ensures n <= 128
  {
    UsedFrom(c, 0)
  }

  lemma {:induction false} UsedUnique(c: Bytes, i: nat, n: nat)
    requires i <= n <= 128 && META <= |c|
    requires forall j :: i <= j < n ==> EntryAt(c, j).firstLBA != 0
    requires n < 128 ==> EntryAt(c, n).firstLBA == 0
    ensures UsedFrom(c, i) == n
    decreases n - i
  {
    if i < n {
      UsedUnique(c, i + 1, n);
    }
  }

  /** The signature reads "EFI PART" on the disk. */
  lemma SignatureBytes(b: Bytes)
    requires b == [0x45, 0x46, 0x49, 0x20, 0x50, 0x41, 0x52, 0x54]
    ensures Get64(b) == SIGNATURE
  {
    Get64Value(b);
  }

  // -------------------------------------------------------- well-formedness

  /** Section 5.3.2: the header checksum covers `headerSize` bytes with the checksum field zero. */
  ghost predicate HeaderIntact(crc: Checksum, s: Bytes)
    requires |s| == SECTOR
  {
    var h := DecodeHeader(s);
    && h.signature == SIGNATURE
    && 92 <= h.headerSize <= 512
    && h.crc == crc(Patch(s, 16, [0, 0, 0, 0])[..h.headerSize])
  }

  /** The copy of the GPT whose header is at `lba` is self-consistent: header, table and both checksums. */
  ghost predicate CopyIntact(crc: Checksum, c: Bytes, lba: nat) {
    && lba * SECTOR + SECTOR <= |c|
    && HeaderIntact(crc, SectorAt(c, lba))
    && var h := HeaderAt(c, lba);
    && h.currentLBA == lba
    && h.noOfParts * h.sizePartEntry == TABLE
    && h.startLBAParts * SECTOR + TABLE <= |c|
    && h.crcParts == crc(TableAt(c, h.startLBAParts))
  }

  /** What `grow` relies on; it verifies no checksum. */
  ghost predicate Growable(c: Bytes) {
    && META <= |c| < 0x8000_0000_0000_0000
    && var h := HeaderAt(c, 1);
    && h.currentLBA == 1
    && h.startLBAParts == 2
    && h.headerSize <= 512
    && 33 <= h.lastUsableLBA
    && h.backupLBA == h.lastUsableLBA + 33
    && h.backupLBA * SECTOR + SECTOR <= |c|
    && 0 < Used(c)
  }

  /** A disk as the image builder leaves it, possibly on a device that is now larger. */
  ghost predicate Valid(crc: Checksum, c: Bytes) {
    && Growable(c)
    && CopyIntact(crc, c, 1)
    && var h := HeaderAt(c, 1);
    && 34 <= h.firstUsableLBA
    && EntryAt(c, Used(c) - 1).lastLBA <= h.lastUsableLBA
    && CopyIntact(crc, c, h.backupLBA)
    && var b := HeaderAt(c, h.backupLBA);
    && b.backupLBA == 1
    && b.startLBAParts == h.lastUsableLBA + 1
  }

  /** What is left of a GPT after a crash must include one self-consistent copy. */
  ghost predicate Recoverable(crc: Checksum, c: Bytes, oldBackup: nat) {
    CopyIntact(crc, c, 1) || CopyIntact(crc, c, oldBackup)
  }

  // ------------------------------------------------------------ what grow does

  function LastUsable(size: nat): (lba: uint64) {
    Wrap64(size / SECTOR - 34)
  }

  function NeedsResize(h: Header, size: nat): (b: bool) {
    Wrap64(Wrap64(h.lastUsableLBA + 35) * SECTOR) < size
  }

  function GrownEntry(c: Bytes): (e: Entry)
    requires META <= |c| && 0 < Used(c)
  {
    EntryAt(c, Used(c) - 1).(lastLBA := LastUsable(|c|))
  }

  function EntryWrite(c: Bytes): (w: SectorWrite)
    requires META <= |c| && 0 < Used(c)
  {
    At(EntryOffset(Used(c) - 1), EncodeEntry(GrownEntry(c)))
  }

  /** The table of partition entries with the last one extended. */
  function GrownTable(c: Bytes): (t: Bytes)
    requires META <= |c| && 0 < Used(c)
    ensures |t| == TABLE
  {
    TableAt(Patch(c, EntryWrite(c).off, EntryWrite(c).data), 2)
  }

  /** The header with its own checksum filled in. */
  function Stamp(crc: Checksum, h: Header): (r: Header)
    requires h.headerSize <= 512
  {
    h.(crc := crc(EncodeHeader(h.(crc := 0))[..h.headerSize]))
  }

  function GrownHeader(crc: Checksum, c: Bytes): (h: Header)
    requires Growable(c)
  {
    Stamp(crc, HeaderAt(c, 1).(lastUsableLBA := LastUsable(|c|),
                               backupLBA := Wrap64(Sectors(c) - 1),
                               crcParts := crc(GrownTable(c))))
  }

  function BackupHeader(crc: Checksum, c: Bytes): (h: Header)
    requires Growable(c)
  {
    var p := GrownHeader(crc, c);
    Stamp(crc, p.(currentLBA := p.backupLBA, backupLBA := p.currentLBA, startLBAParts := Wrap64(p.backupLBA - 32)))
  }

  function MbrSectors(size: nat): (n: uint32) {
    Wrap32(Wrap32(size / SECTOR) - 1)
  }

  function GrownMbr(c: Bytes): (m: Mbr)
    requires META <= |c|
  {
    DecodeMbr(SectorAt(c, 0)).(numberOfSectors := MbrSectors(|c|))
  }

  function Zeros(n: nat): (b: Bytes)
    ensures |b| == n && forall i :: 0 <= i < n ==> b[i] == 0
  {
    seq(n, _ => 0)
  }

  /** `t` written sector by sector from `lba` on. */
  function SectorWrites(lba: nat, t: Bytes): (ws: seq<SectorWrite>)
    requires |t| % SECTOR == 0
  {
    seq(|t| / SECTOR, j requires 0 <= j < |t| / SECTOR => At((lba + j) * SECTOR, t[j * SECTOR..j * SECTOR + SECTOR]))
  }

  lemma SectorWritesCons(lba: nat, t: Bytes)
    requires |t| % SECTOR == 0 && t != []
    ensures |t[SECTOR..]| % SECTOR == 0
    ensures SectorWrites(lba, t) == [At(lba * SECTOR, t[..SECTOR])] + SectorWrites(lba + 1, t[SECTOR..])
  {
    var ws, rest := SectorWrites(lba, t), SectorWrites(lba + 1, t[SECTOR..]);
    assert |rest| == |ws| - 1;
    forall j | 0 <= j < |rest|
      ensures rest[j] == ws[j + 1]
    {
      SliceOfSlice(t, SECTOR, |t|, j * SECTOR, j * SECTOR + SECTOR);
    }
  }

  lemma {:induction false} ChunksOfSectors(lba: nat, t: Bytes)
    requires |t| % SECTOR == 0
    ensures Chunks(lba * SECTOR, t) == SectorWrites(lba, t)
    decreases |t|
  {
    if t != [] {
      SectorWritesCons(lba, t);
      ChunksOfSectors(lba + 1, t[SECTOR..]);
      assert ChunkSize(lba * SECTOR, |t|) == SECTOR;
      hide SectorWrites, ChunkSize;
    }
  }

  /** The writes after the two that make the primary copy describe the larger disk. */
  function BackupWrites(crc: Checksum, c: Bytes): (ws: seq<SectorWrite>)
    requires Growable(c)
  {
    [At((Sectors(c) - 1) * SECTOR, EncodeHeader(BackupHeader(crc, c)))]
    + SectorWrites(HeaderAt(c, 1).lastUsableLBA + 1, Zeros(33 * SECTOR))
    + SectorWrites(Sectors(c) - 33, GrownTable(c))
    + [At(0, EncodeMbr(GrownMbr(c)))]
  }

  /** All writes of `grow`, in order. */
  function Plan(crc: Checksum, c: Bytes): (ws: seq<SectorWrite>)
    requires Growable(c)
  {
    [EntryWrite(c), At(SECTOR, EncodeHeader(GrownHeader(crc, c)))] + BackupWrites(crc, c)
  }

  /** The disk after a boot that was not interrupted. */
  ghost function Boot(crc: Checksum, c: Bytes): (r: Bytes)
    requires Growable(c)
    ensures |r| == |c|
  {
    if NeedsResize(HeaderAt(c, 1), |c|) then Replay(c, Plan(crc, c)) else c
  }
}
