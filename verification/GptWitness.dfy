/**
 Disks that meet the hypotheses of the safety lemmas: a small one with a sane
 header on a larger device, and, by resizing and enlarging it, a fully valid one.
 */
module GptWitness {
  import opened Binary
  import opened Layout
  import opened Gpt
  import opened GptSafety

  function SmallHeader(): (h: Header) {
    Header(SIGNATURE, [0, 0, 1, 0], 92, 0, 0, 1, 73, 34, 40, Zeros(16), 2, 128, 128, 0, Zeros(420))
  }

  function AnEntry(first: uint64, last: uint64): (e: Entry) {
    Entry(Zeros(16), Zeros(16), first, last, 0, Zeros(72))
  }

  /** One partition of seven sectors, room up to sector 40, on a device of 76 sectors. */
  function SmallDisk(): (c: Bytes)
    ensures |c| == 76 * SECTOR
  {
    Zeros(SECTOR) + EncodeHeader(SmallHeader()) + EncodeEntry(AnEntry(34, 40)) + EncodeEntry(AnEntry(0, 0))
    + Zeros(74 * SECTOR - 256)
  }

  lemma SmallDiskParts()
    ensures HeaderAt(SmallDisk(), 1) == SmallHeader()
    ensures EntryAt(SmallDisk(), 0) == AnEntry(34, 40) && EntryAt(SmallDisk(), 1) == AnEntry(0, 0)
  {
    hide EncodeHeader, DecodeHeader, EncodeEntry, DecodeEntry, SmallHeader, AnEntry;
    var c := SmallDisk();
    assert SectorAt(c, 1) == EncodeHeader(SmallHeader());
    assert c[EntryOffset(0)..EntryOffset(0) + 128] == EncodeEntry(AnEntry(34, 40));
    assert c[EntryOffset(1)..EntryOffset(1) + 128] == EncodeEntry(AnEntry(0, 0));
    DecodeEncodeHeader(SmallHeader());
    DecodeEncodeEntry(AnEntry(34, 40));
    DecodeEncodeEntry(AnEntry(0, 0));
  }

  lemma SmallDiskMeets()
    ensures Sane(SmallDisk()) && Resizing(SmallDisk()) && Partitioned(SmallDisk())
  {
    hide SmallDisk, DecodeHeader, DecodeEntry, UsedFrom;
    SmallDiskParts();
    UsedUnique(SmallDisk(), 0, 1);
  }

  lemma ResizedSmallDisk(crc: Checksum) returns (f: Bytes)
    ensures |f| == 76 * SECTOR && Valid(crc, f) && HeaderAt(f, 1).lastUsableLBA == 42
  {
    hide SmallDisk, DecodeHeader, EncodeHeader, UsedFrom, Plan, Final, GrownHeader, CopyIntact;
    SmallDiskMeets();
    SmallDiskParts();
    f := Final(crc, SmallDisk());
    FinalValid(crc, SmallDisk());
    FinalPrimary(crc, SmallDisk());
    NewFields(crc, SmallDisk());
  }

  /** For every checksum there is a valid disk that wants to grow. */
  lemma ValidDiskExists(crc: Checksum) returns (c: Bytes)
    ensures Valid(crc, c) && Resizing(c)
  {
    hide DecodeHeader, CopyIntact, UsedFrom, NeedsResize, HeaderAt, Zeros, EntryAt;
    var f := ResizedSmallDisk(crc);
    var more := Zeros(10 * SECTOR);
    c := f + more;
    EnlargedValid(crc, f, more);
    Geometry(c);
  }
}
