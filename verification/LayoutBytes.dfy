/**
 Where every field of the three structures sits: what is decoded is read from
 these bytes of the sector or entry, the least significant byte of a number first.
 */
module LayoutBytes {
  import opened Binary
  import opened Layout

  lemma AllHeaderOffsets()
    ensures Offset(HEADER_WIDTHS, 0) == 0 && Offset(HEADER_WIDTHS, 1) == 8
    ensures Offset(HEADER_WIDTHS, 2) == 12 && Offset(HEADER_WIDTHS, 3) == 16
    ensures Offset(HEADER_WIDTHS, 4) == 20 && Offset(HEADER_WIDTHS, 5) == 24
    ensures Offset(HEADER_WIDTHS, 6) == 32 && Offset(HEADER_WIDTHS, 7) == 40
    ensures Offset(HEADER_WIDTHS, 8) == 48 && Offset(HEADER_WIDTHS, 9) == 56
    ensures Offset(HEADER_WIDTHS, 10) == 72 && Offset(HEADER_WIDTHS, 11) == 80
    ensures Offset(HEADER_WIDTHS, 12) == 84 && Offset(HEADER_WIDTHS, 13) == 88
    ensures Offset(HEADER_WIDTHS, 14) == 92
  {
    var ws := HEADER_WIDTHS;
    assert Offset(ws, 1) == 8;
    assert Offset(ws, 2) == 12;
    assert Offset(ws, 3) == 16;
    assert Offset(ws, 4) == 20;
    assert Offset(ws, 5) == 24;
    assert Offset(ws, 6) == 32;
    assert Offset(ws, 7) == 40;
    assert Offset(ws, 8) == 48;
    assert Offset(ws, 9) == 56;
    assert Offset(ws, 10) == 72;
    assert Offset(ws, 11) == 80;
    assert Offset(ws, 12) == 84;
    assert Offset(ws, 13) == 88;
    assert Offset(ws, 14) == 92;
    assert Offset(ws, 15) == 512;
  }

  /** Every field of a GPT header, at its offset in the sector. */
  lemma HeaderRead(b: Bytes)
    requires |b| == 512
    ensures var x := DecodeHeader(b);
            && x.signature == Get64(b[0..8]) && x.revision == b[8..12] && x.headerSize == Get32(b[12..16])
            && x.crc == Get32(b[16..20]) && x.reserved0 == Get32(b[20..24]) && x.currentLBA == Get64(b[24..32])
            && x.backupLBA == Get64(b[32..40]) && x.firstUsableLBA == Get64(b[40..48])
            && x.lastUsableLBA == Get64(b[48..56]) && x.guid == b[56..72] && x.startLBAParts == Get64(b[72..80])
            && x.noOfParts == Get32(b[80..84]) && x.sizePartEntry == Get32(b[84..88])
            && x.crcParts == Get32(b[88..92]) && x.reserved1 == b[92..512]
  {
    HeaderOffsets();
    AllHeaderOffsets();
    hide Split, Sum, Offset, Pow256, FromLE;
    SplitAt(b, HEADER_WIDTHS, 0); SplitAt(b, HEADER_WIDTHS, 1); SplitAt(b, HEADER_WIDTHS, 2);
    SplitAt(b, HEADER_WIDTHS, 3); SplitAt(b, HEADER_WIDTHS, 4); SplitAt(b, HEADER_WIDTHS, 5);
    SplitAt(b, HEADER_WIDTHS, 6); SplitAt(b, HEADER_WIDTHS, 7); SplitAt(b, HEADER_WIDTHS, 8);
    SplitAt(b, HEADER_WIDTHS, 9); SplitAt(b, HEADER_WIDTHS, 10); SplitAt(b, HEADER_WIDTHS, 11);
    SplitAt(b, HEADER_WIDTHS, 12); SplitAt(b, HEADER_WIDTHS, 13); SplitAt(b, HEADER_WIDTHS, 14);
  }

  lemma AllEntryOffsets()
    ensures Offset(ENTRY_WIDTHS, 0) == 0 && Offset(ENTRY_WIDTHS, 1) == 16
    ensures Offset(ENTRY_WIDTHS, 2) == 32 && Offset(ENTRY_WIDTHS, 3) == 40
    ensures Offset(ENTRY_WIDTHS, 4) == 48 && Offset(ENTRY_WIDTHS, 5) == 56
  {
    var ws := ENTRY_WIDTHS;
    assert Offset(ws, 1) == 16;
    assert Offset(ws, 2) == 32;
    assert Offset(ws, 3) == 40;
    assert Offset(ws, 4) == 48;
    assert Offset(ws, 5) == 56;
    assert Offset(ws, 6) == 128;
  }

  /** Every field of a partition entry. */
  lemma EntryRead(b: Bytes)
    requires |b| == 128
    ensures var x := DecodeEntry(b);
            && x.typeGUID == b[0..16] && x.partGUID == b[16..32] && x.firstLBA == Get64(b[32..40])
            && x.lastLBA == Get64(b[40..48]) && x.attributes == Get64(b[48..56]) && x.name == b[56..128]
  {
    EntryOffsets();
    AllEntryOffsets();
    hide Split, Sum, Offset, Pow256, FromLE;
    SplitAt(b, ENTRY_WIDTHS, 0); SplitAt(b, ENTRY_WIDTHS, 1); SplitAt(b, ENTRY_WIDTHS, 2);
    SplitAt(b, ENTRY_WIDTHS, 3); SplitAt(b, ENTRY_WIDTHS, 4); SplitAt(b, ENTRY_WIDTHS, 5);
  }

  lemma AllMbrOffsets()
    ensures Offset(MBR_WIDTHS, 0) == 0 && Offset(MBR_WIDTHS, 1) == 446
    ensures Offset(MBR_WIDTHS, 2) == 447 && Offset(MBR_WIDTHS, 3) == 448
    ensures Offset(MBR_WIDTHS, 4) == 449 && Offset(MBR_WIDTHS, 5) == 450
    ensures Offset(MBR_WIDTHS, 6) == 451 && Offset(MBR_WIDTHS, 7) == 452
    ensures Offset(MBR_WIDTHS, 8) == 453 && Offset(MBR_WIDTHS, 9) == 454
    ensures Offset(MBR_WIDTHS, 10) == 458 && Offset(MBR_WIDTHS, 11) == 462
    ensures Offset(MBR_WIDTHS, 12) == 510
  {
    var ws := MBR_WIDTHS;
    assert Offset(ws, 1) == 446;
    assert Offset(ws, 2) == 447;
    assert Offset(ws, 3) == 448;
    assert Offset(ws, 4) == 449;
    assert Offset(ws, 5) == 450;
    assert Offset(ws, 6) == 451;
    assert Offset(ws, 7) == 452;
    assert Offset(ws, 8) == 453;
    assert Offset(ws, 9) == 454;
    assert Offset(ws, 10) == 458;
    assert Offset(ws, 11) == 462;
    assert Offset(ws, 12) == 510;
    assert Offset(ws, 13) == 512;
  }

  /** Every field of the protective MBR. */
  lemma MbrRead(b: Bytes)
    requires |b| == 512
    ensures var x := DecodeMbr(b);
            && x.bootloader == b[0..446] && x.status == b[446] && x.headFirst == b[447] && x.sectorFirst == b[448]
            && x.cylinderFirst == b[449] && x.partitionType == b[450] && x.headLast == b[451]
            && x.sectorLast == b[452] && x.cylinderLast == b[453] && x.firstLBA == Get32(b[454..458])
            && x.numberOfSectors == Get32(b[458..462]) && x.reserved6 == b[462..510] && x.magicNumber == b[510..512]
  {
    MbrOffsets();
    AllMbrOffsets();
    hide Split, Sum, Offset, Pow256, FromLE;
    SplitAt(b, MBR_WIDTHS, 0); SplitAt(b, MBR_WIDTHS, 1); SplitAt(b, MBR_WIDTHS, 2);
    SplitAt(b, MBR_WIDTHS, 3); SplitAt(b, MBR_WIDTHS, 4); SplitAt(b, MBR_WIDTHS, 5);
    SplitAt(b, MBR_WIDTHS, 6); SplitAt(b, MBR_WIDTHS, 7); SplitAt(b, MBR_WIDTHS, 8);
    SplitAt(b, MBR_WIDTHS, 9); SplitAt(b, MBR_WIDTHS, 10); SplitAt(b, MBR_WIDTHS, 11);
    SplitAt(b, MBR_WIDTHS, 12);
  }
}
