/**
 The three on-disk structures of a GPT disk and their byte layouts
 (sections 5.2.3, 5.3.2 and 5.3.3 of the UEFI specification). Every structure
 is encoded field by field; decoding and encoding are mutually inverse on all
 512-byte and 128-byte strings, so a statement about decoded fields is a
 statement about every byte.
 */
module Layout {
  import opened Binary

  const SECTOR: nat := 512

  type Array2 = b: Bytes | |b| == 2 witness [0, 0]
  type Array4 = b: Bytes | |b| == 4 witness [0, 0, 0, 0]
  type Array16 = b: Bytes | |b| == 16 witness seq(16, _ => 0)
  type Array48 = b: Bytes | |b| == 48 witness seq(48, _ => 0)
  type Array72 = b: Bytes | |b| == 72 witness seq(72, _ => 0)
  type Array420 = b: Bytes | |b| == 420 witness seq(420, _ => 0)
  type Array446 = b: Bytes | |b| == 446 witness seq(446, _ => 0)

  // --------------------------------------------------------------- GPT header

  datatype Header = Header(
    signature: uint64,
    revision: Array4,
    headerSize: uint32,
    crc: uint32,
    reserved0: uint32,
    currentLBA: uint64,
    backupLBA: uint64,
    firstUsableLBA: uint64,
    lastUsableLBA: uint64,
    guid: Array16,
    startLBAParts: uint64,
    noOfParts: uint32,
    sizePartEntry: uint32,
    crcParts: uint32,
    reserved1: Array420)

  const HEADER_WIDTHS: seq<nat> := [8, 4, 4, 4, 4, 8, 8, 8, 8, 16, 8, 4, 4, 4, 420]

  function HeaderFields(h: Header): (fs: seq<Bytes>)
    ensures HasWidths(fs, HEADER_WIDTHS)
  {
    [Put64(h.signature), h.revision, Put32(h.headerSize), Put32(h.crc), Put32(h.reserved0),
     Put64(h.currentLBA), Put64(h.backupLBA), Put64(h.firstUsableLBA), Put64(h.lastUsableLBA), h.guid,
     Put64(h.startLBAParts), Put32(h.noOfParts), Put32(h.sizePartEntry), Put32(h.crcParts), h.reserved1]
  }

  /** Byte offsets of the fields that change during a resize. */
  lemma HeaderOffsets()
    ensures Sum(HEADER_WIDTHS) == 512
    ensures Offset(HEADER_WIDTHS, 3) == 16
    ensures Offset(HEADER_WIDTHS, 6) == 32
    ensures Offset(HEADER_WIDTHS, 8) == 48
    ensures Offset(HEADER_WIDTHS, 13) == 88
  {
    var ws := HEADER_WIDTHS;
    assert Offset(ws, 2) == 12;
    assert Offset(ws, 3) == 16;
    assert Offset(ws, 5) == 24;
    assert Offset(ws, 6) == 32;
    assert Offset(ws, 8) == 48;
    assert Offset(ws, 10) == 72;
    assert Offset(ws, 12) == 84;
    assert Offset(ws, 13) == 88;
    assert Offset(ws, 15) == 512;
    hide Sum, Offset;
    OffsetIsSum(ws, 15);
    assert ws[..15] == ws;
  }

  function EncodeHeader(h: Header): (b: Bytes)
    ensures |b| == 512
  {
    HeaderOffsets();
    SplitJoin(HeaderFields(h), HEADER_WIDTHS);
    Join(HeaderFields(h))
  }

  function DecodeHeader(b: Bytes): (h: Header)
    requires |b| == 512
  {
    HeaderOffsets();
    hide Split, Sum, Offset, Pow256, FromLE;
    var f := Split(b, HEADER_WIDTHS);
    Header(Get64(f[0]), f[1], Get32(f[2]), Get32(f[3]), Get32(f[4]),
           Get64(f[5]), Get64(f[6]), Get64(f[7]), Get64(f[8]), f[9],
           Get64(f[10]), Get32(f[11]), Get32(f[12]), Get32(f[13]), f[14])
  }

  lemma DecodeEncodeHeader(h: Header)
    ensures DecodeHeader(EncodeHeader(h)) == h
  {
    hide ToLE, FromLE;
    SplitJoin(HeaderFields(h), HEADER_WIDTHS);
    GetPut64(h.signature); GetPut32(h.headerSize); GetPut32(h.crc); GetPut32(h.reserved0);
    GetPut64(h.currentLBA); GetPut64(h.backupLBA); GetPut64(h.firstUsableLBA); GetPut64(h.lastUsableLBA);
    GetPut64(h.startLBAParts); GetPut32(h.noOfParts); GetPut32(h.sizePartEntry); GetPut32(h.crcParts);
  }

  /** One integer field decoded and encoded again. */
  lemma FieldRoundTrip(f: Bytes)
    ensures |f| == 1 ==> [f[0]] == f
    ensures |f| == 4 ==> Put32(Get32(f)) == f
    ensures |f| == 8 ==> Put64(Get64(f)) == f
  {
    if |f| == 4 { PutGet32(f); }
    if |f| == 8 { PutGet64(f); }
  }

  lemma HeaderFieldsOfDecode(b: Bytes)
    requires |b| == 512 && Sum(HEADER_WIDTHS) == 512
    ensures HeaderFields(DecodeHeader(b)) == Split(b, HEADER_WIDTHS)
  {
    hide ToLE, FromLE, Split, Sum, Pow256;
    var f := Split(b, HEADER_WIDTHS);
    var g := HeaderFields(DecodeHeader(b));
    forall i | 0 <= i < 15
      ensures g[i] == f[i]
    {
      FieldRoundTrip(f[i]);
    }
  }

  lemma EncodeDecodeHeader(b: Bytes)
    requires |b| == 512
    ensures EncodeHeader(DecodeHeader(b)) == b
  {
    HeaderOffsets();
    HeaderFieldsOfDecode(b);
    JoinSplit(b, HEADER_WIDTHS);
  }

  // The four header fields that a resize rewrites sit at bytes 16, 32, 48 and
  // 88; writing one of them leaves all other bytes of the sector as they were.

  lemma HeaderFieldUpdate(h: Header, h': Header, i: nat, x: Bytes)
    requires i < 15 && |x| == HEADER_WIDTHS[i]
    requires HeaderFields(h')[i] == x
    requires forall j :: 0 <= j < 15 && j != i ==> HeaderFields(h')[j] == HeaderFields(h)[j]
    ensures Offset(HEADER_WIDTHS, i) + |x| <= 512
    ensures EncodeHeader(h') == Patch(EncodeHeader(h), Offset(HEADER_WIDTHS, i), x)
  {
    hide HeaderFields, Join;
    var fs, fs' := HeaderFields(h), HeaderFields(h');
    assert fs' == fs[i := x];
    JoinUpdate(fs, HEADER_WIDTHS, i, x);
    assert |Join(fs)| == |EncodeHeader(h)|;
  }

  lemma EncodeHeaderCrc(h: Header, crc: uint32)
    ensures EncodeHeader(h.(crc := crc)) == Patch(EncodeHeader(h), 16, Put32(crc))
  {
    hide Put32, Put64, Join, Sum, Offset, EncodeHeader;
    HeaderOffsets();
    HeaderFieldUpdate(h, h.(crc := crc), 3, Put32(crc));
  }

  lemma EncodeHeaderBackup(h: Header, lba: uint64)
    ensures EncodeHeader(h.(backupLBA := lba)) == Patch(EncodeHeader(h), 32, Put64(lba))
  {
    hide Put32, Put64, Join, Sum, Offset, EncodeHeader;
    HeaderOffsets();
    HeaderFieldUpdate(h, h.(backupLBA := lba), 6, Put64(lba));
  }

  lemma EncodeHeaderLastUsable(h: Header, lba: uint64)
    ensures EncodeHeader(h.(lastUsableLBA := lba)) == Patch(EncodeHeader(h), 48, Put64(lba))
  {
    hide Put32, Put64, Join, Sum, Offset, EncodeHeader;
    HeaderOffsets();
    HeaderFieldUpdate(h, h.(lastUsableLBA := lba), 8, Put64(lba));
  }

  lemma EncodeHeaderCrcParts(h: Header, crc: uint32)
    ensures EncodeHeader(h.(crcParts := crc)) == Patch(EncodeHeader(h), 88, Put32(crc))
  {
    hide Put32, Put64, Join, Sum, Offset, EncodeHeader;
    HeaderOffsets();
    HeaderFieldUpdate(h, h.(crcParts := crc), 13, Put32(crc));
  }

  // ---------------------------------------------------------- partition entry

  datatype Entry = Entry(
    typeGUID: Array16,
    partGUID: Array16,
    firstLBA: uint64,
    lastLBA: uint64,
    attributes: uint64,
    name: Array72)

  const ENTRY_WIDTHS: seq<nat> := [16, 16, 8, 8, 8, 72]

  function EntryFields(e: Entry): (fs: seq<Bytes>)
    ensures HasWidths(fs, ENTRY_WIDTHS)
  {
    [e.typeGUID, e.partGUID, Put64(e.firstLBA), Put64(e.lastLBA), Put64(e.attributes), e.name]
  }

  lemma EntryOffsets()
    ensures Sum(ENTRY_WIDTHS) == 128
    ensures Offset(ENTRY_WIDTHS, 3) == 40
  {
    var ws := ENTRY_WIDTHS;
    assert Offset(ws, 1) == 16;
    assert Offset(ws, 5) == 56;
    OffsetIsSum(ws, 6);
    assert ws[..6] == ws;
  }

  function EncodeEntry(e: Entry): (b: Bytes)
    ensures |b| == 128
  {
    EntryOffsets();
    SplitJoin(EntryFields(e), ENTRY_WIDTHS);
    Join(EntryFields(e))
  }

  function DecodeEntry(b: Bytes): (e: Entry)
    requires |b| == 128
  {
    EntryOffsets();
    var f := Split(b, ENTRY_WIDTHS);
    Entry(f[0], f[1], Get64(f[2]), Get64(f[3]), Get64(f[4]), f[5])
  }

  lemma DecodeEncodeEntry(e: Entry)
    ensures DecodeEntry(EncodeEntry(e)) == e
  {
    SplitJoin(EntryFields(e), ENTRY_WIDTHS);
    GetPut64(e.firstLBA); GetPut64(e.lastLBA); GetPut64(e.attributes);
  }

  lemma EncodeDecodeEntry(b: Bytes)
    requires |b| == 128
    ensures EncodeEntry(DecodeEntry(b)) == b
  {
    EntryOffsets();
    var f := Split(b, ENTRY_WIDTHS);
    PutGet64(f[2]); PutGet64(f[3]); PutGet64(f[4]);
    JoinSplit(b, ENTRY_WIDTHS);
    assert EntryFields(DecodeEntry(b)) == f;
  }

  /** The last LBA of an entry is its bytes 40 to 48. */
  lemma EncodeEntryUpdate(e: Entry, last: uint64)
    ensures EncodeEntry(e.(lastLBA := last)) == Patch(EncodeEntry(e), 40, Put64(last))
  {
    EntryOffsets();
    JoinUpdate(EntryFields(e), ENTRY_WIDTHS, 3, Put64(last));
    assert EntryFields(e.(lastLBA := last)) == EntryFields(e)[3 := Put64(last)];
  }

  // ----------------------------------------------------------- protective MBR

  datatype Mbr = Mbr(
    bootloader: Array446,
    status: byte,
    headFirst: byte,
    sectorFirst: byte,
    cylinderFirst: byte,
    partitionType: byte,
    headLast: byte,
    sectorLast: byte,
    cylinderLast: byte,
    firstLBA: uint32,
    numberOfSectors: uint32,
    reserved6: Array48,
    magicNumber: Array2)

  const MBR_WIDTHS: seq<nat> := [446, 1, 1, 1, 1, 1, 1, 1, 1, 4, 4, 48, 2]

  function MbrFields(m: Mbr): (fs: seq<Bytes>)
    ensures HasWidths(fs, MBR_WIDTHS)
  {
    [m.bootloader, [m.status], [m.headFirst], [m.sectorFirst], [m.cylinderFirst], [m.partitionType],
     [m.headLast], [m.sectorLast], [m.cylinderLast], Put32(m.firstLBA), Put32(m.numberOfSectors),
     m.reserved6, m.magicNumber]
  }

  lemma MbrOffsets()
    ensures Sum(MBR_WIDTHS) == 512
    ensures Offset(MBR_WIDTHS, 10) == 458
  {
    var ws := MBR_WIDTHS;
    assert Offset(ws, 1) == 446;
    assert Offset(ws, 3) == 448;
    assert Offset(ws, 5) == 450;
    assert Offset(ws, 7) == 452;
    assert Offset(ws, 9) == 454;
    assert Offset(ws, 11) == 462;
    OffsetIsSum(ws, 13);
    assert ws[..13] == ws;
  }

  function EncodeMbr(m: Mbr): (b: Bytes)
    ensures |b| == 512
  {
    MbrOffsets();
    SplitJoin(MbrFields(m), MBR_WIDTHS);
    Join(MbrFields(m))
  }

  function DecodeMbr(b: Bytes): (m: Mbr)
    requires |b| == 512
  {
    MbrOffsets();
    var f := Split(b, MBR_WIDTHS);
    Mbr(f[0], f[1][0], f[2][0], f[3][0], f[4][0], f[5][0], f[6][0], f[7][0], f[8][0],
        Get32(f[9]), Get32(f[10]), f[11], f[12])
  }

  lemma DecodeEncodeMbr(m: Mbr)
    ensures DecodeMbr(EncodeMbr(m)) == m
  {
    SplitJoin(MbrFields(m), MBR_WIDTHS);
    GetPut32(m.firstLBA); GetPut32(m.numberOfSectors);
  }

  lemma EncodeDecodeMbr(b: Bytes)
    requires |b| == 512
    ensures EncodeMbr(DecodeMbr(b)) == b
  {
    hide ToLE, FromLE, Join, Sum, Split;
    MbrOffsets();
    JoinSplit(b, MBR_WIDTHS);
    var f, g := Split(b, MBR_WIDTHS), MbrFields(DecodeMbr(b));
    forall i | 0 <= i < 13
      ensures g[i] == f[i]
    {
      FieldRoundTrip(f[i]);
    }
    assert g == f;
  }

  /** The sector count of the protective MBR is its bytes 458 to 462. */
  lemma EncodeMbrUpdate(m: Mbr, n: uint32)
    ensures EncodeMbr(m.(numberOfSectors := n)) == Patch(EncodeMbr(m), 458, Put32(n))
  {
    hide Put32, Join, Sum;
    MbrOffsets();
    JoinUpdate(MbrFields(m), MBR_WIDTHS, 10, Put32(n));
    assert MbrFields(m.(numberOfSectors := n)) == MbrFields(m)[10 := Put32(n)];
  }
}
