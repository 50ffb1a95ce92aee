/**
 A second crash. A disk that an earlier crash left without a valid backup copy
 has only its primary copy to rely on; a resize keeps that one intact at every
 moment but one, and it is known exactly when it is not intact then.
 */
module GptLateCrash {
  import opened Binary
  import opened Layout
  import opened Disk
  import opened Gpt
  import opened GptSafety

  /** The disk after the first write, of the extended entry. */
  lemma AfterEntry(crc: Checksum, c: Bytes)
    requires Resizing(c) && 1 <= |Plan(crc, c)|
    ensures var r := Replay(c, Plan(crc, c)[..1]);
            |r| == |c| && SectorAt(r, 1) == SectorAt(c, 1) && TableAt(r, 2) == GrownTable(c)
  {
    hide DecodeHeader, EncodeHeader, UsedFrom, Patch, EntryWrite, BackupWrites, GrownHeader;
    var ws := Plan(crc, c)[..1];
    assert ws == [EntryWrite(c)] && ws[1..] == [];
    Regions(crc, c);
    PatchElsewhere(c, EntryWrite(c).off, EntryWrite(c).data, SECTOR, 2 * SECTOR);
  }

  lemma IntactAfterEntry(crc: Checksum, c: Bytes)
    requires Resizing(c) && CopyIntact(crc, c, 1) && 1 <= |Plan(crc, c)|
    ensures CopyIntact(crc, Replay(c, Plan(crc, c)[..1]), 1) <==> crc(GrownTable(c)) == HeaderAt(c, 1).crcParts
  {
    hide DecodeHeader, HeaderIntact, UsedFrom, Plan, Replay, GrownTable;
    AfterEntry(crc, c);
  }

  /**
   The primary copy during a resize: intact after every number of writes if it was
   before, except that after exactly one it is intact if and only if the extended
   table has the checksum of the old one. Nothing is asked of the backup copy.
   */
  lemma PrimaryThroughout(crc: Checksum, c: Bytes, k: nat)
    requires Resizing(c) && Sane(c) && CopyIntact(crc, c, 1) && k <= |Plan(crc, c)|
    ensures CopyIntact(crc, Replay(c, Plan(crc, c)[..k]), 1) <==>
              (k == 1 ==> crc(GrownTable(c)) == HeaderAt(c, 1).crcParts)
  {
    hide DecodeHeader, CopyIntact, UsedFrom, Plan, Replay, GrownTable, Sane, NeedsResize;
    if k == 0 {
      ReplayNone(c, Plan(crc, c));
    } else if k == 1 {
      IntactAfterEntry(crc, c);
    } else {
      CrashLate(crc, c, k);
    }
  }

  lemma ReplayNone(c: Bytes, ws: seq<SectorWrite>)
    ensures Replay(c, ws[..0]) == c
  {
    assert ws[..0] == [];
  }

  /** What a late crash leaves, on an enlarged device: the primary copy, sane and intact. */
  lemma LeftByLateCrash(crc: Checksum, c: Bytes, k: nat, more: Bytes)
    requires Resizing(c) && Sane(c) && 2 <= k <= |Plan(crc, c)|
    ensures var r := Replay(c, Plan(crc, c)[..k]);
            CopyIntact(crc, r, 1) && CopyIntact(crc, r + more, 1) && HeaderAt(r + more, 1) == GrownHeader(crc, c)
  {
    hide DecodeHeader, EncodeHeader, HeaderIntact, UsedFrom, AfterHeader, Plan, Replay, GrownTable, GrownHeader;
    var r := Replay(c, Plan(crc, c)[..k]);
    CrashLate(crc, c, k);
    MetaStays(crc, c, k);
    PrimaryStart(crc, c);
    var d := r + more;
    assert SectorAt(d, 1) == SectorAt(r, 1);
    assert TableAt(d, 2) == TableAt(r, 2);
  }

  /**
   Which second crash is fatal: a resize was cut short after its second write or
   later, the device has grown again, and the next resize is cut short too. The
   primary copy is intact unless that happens after exactly one write and the
   extended table has another checksum.
   */
  lemma SecondCrash(crc: Checksum, c: Bytes, k: nat, more: Bytes, m: nat)
    requires Resizing(c) && Sane(c) && 2 <= k <= |Plan(crc, c)|
    requires Resizing(Replay(c, Plan(crc, c)[..k]) + more)
    requires m <= |Plan(crc, Replay(c, Plan(crc, c)[..k]) + more)|
    ensures var d := Replay(c, Plan(crc, c)[..k]) + more;
            CopyIntact(crc, Replay(d, Plan(crc, d)[..m]), 1) <==>
              (m == 1 ==> crc(GrownTable(d)) == HeaderAt(d, 1).crcParts)
  {
    hide DecodeHeader, CopyIntact, UsedFrom, Plan, Replay, GrownTable, Sane, NeedsResize;
    var d := Replay(c, Plan(crc, c)[..k]) + more;
    SaneAgain(crc, c, k, more);
    LeftByLateCrash(crc, c, k, more);
    PrimaryThroughout(crc, d, m);
  }

  lemma SaneAgain(crc: Checksum, c: Bytes, k: nat, more: Bytes)
    requires Resizing(c) && Sane(c) && 2 <= k <= |Plan(crc, c)|
    requires Resizing(Replay(c, Plan(crc, c)[..k]) + more)
    ensures Sane(Replay(c, Plan(crc, c)[..k]) + more)
  {
    hide DecodeHeader, EncodeHeader, UsedFrom, AfterHeader, Plan, Replay, GrownTable, GrownHeader, CopyIntact,
         NeedsResize;
    LeftByLateCrash(crc, c, k, more);
    NewFields(crc, c);
  }
}
