/**
  Zone descriptors as the device returns them (struct blk_zone), the two
  lookup tables that name a zone's type and condition, and the rendering of
  one report line per descriptor.
 */
module Zones {
  import opened Wrappers
  import opened U64

  /** One descriptor of struct blk_zone: sectors are uint64, codes and flags are bytes. */
  datatype Zone = Zone(start: u64, len: u64, wp: u64, zoneType: u8, cond: u8, nonSeq: u8, reset: u8)

  /** type_text: the names of zone types 0 to 3. */
  const TypeText: seq<string> := ["RESERVED", "CONVENTIONAL", "SEQ_WRITE_REQUIRED", "SEQ_WRITE_PREFERRED"]

  /**
    condition_str as it is declared: fifteen mnemonics, with reserved codes
    only from 5 to 11, so that "ro", "fu" and "OL" sit at 12, 13 and 14.
   */
  const AsWrittenConditionStr: seq<string> :=
    ["cv", "e0", "Oi", "Oe", "Cl", "x5", "x6", "x7", "x8", "x9", "xA", "xB", "ro", "fu", "OL"]

  /**
    condition_str as corrected: one mnemonic per four-bit condition code,
    reserved codes 5 to 12 included. The report itself uses the declared table.
   */
  const ConditionStr: seq<string> :=
    ["cv", "e0", "Oi", "Oe", "Cl", "x5", "x6", "x7", "x8", "x9", "xA", "xB", "xC", "ro", "fu", "OL"]

  /** The zone conditions a device reports, with the codes of linux/blkzoned.h. */
  datatype Condition = NotWritePointer | Empty | ImplicitOpen | ExplicitOpen | Closed | ReadOnly | Full | Offline

  function Code(c: Condition): u8
  {
    match c
    case NotWritePointer => 0x0
    case Empty => 0x1
    case ImplicitOpen => 0x2
    case ExplicitOpen => 0x3
    case Closed => 0x4
    case ReadOnly => 0xD
    case Full => 0xE
    case Offline => 0xF
  }

  /** The mnemonic each condition is given by the comments of the table. */
  function Mnemonic(c: Condition): string
  {
    match c
    case NotWritePointer => "cv"
    case Empty => "e0"
    case ImplicitOpen => "Oi"
    case ExplicitOpen => "Oe"
    case Closed => "Cl"
    case ReadOnly => "ro"
    case Full => "fu"
    case Offline => "OL"
  }

  /** The index the report computes, cond & ARRAY_SIZE(condition_str), which is cond & 15: the low four bits. */
  function AsWrittenConditionIndex(cond: u8): (i: nat)
    ensures i == cond % 16 && i <= 15
  {
    Pow2Widths();
    AndLowMask(cond, 4);
    And(cond, |AsWrittenConditionStr|)
  }

  /** The mnemonic the report reads as written; None stands for the read past the end of the table. */
  function AsWrittenConditionName(cond: u8): (r: Option<string>)
    ensures r.None? <==> cond % 16 == 15
    ensures r.Some? ==> r.value == AsWrittenConditionStr[cond % 16]
  {
    var i := AsWrittenConditionIndex(cond);
    if i < |AsWrittenConditionStr| then Some(AsWrittenConditionStr[i]) else None
  }

  /** Condition 15 (offline) indexes one entry past the fifteen-entry table. */
  lemma AsWrittenConditionOutOfBounds(cond: u8)
    ensures AsWrittenConditionIndex(cond) < |AsWrittenConditionStr| <==> cond % 16 != 15
    ensures AsWrittenConditionIndex(Code(Offline)) == |AsWrittenConditionStr|
    ensures AsWrittenConditionName(Code(Offline)).None?
  {
  }

  /** With the table as written, a read-only zone is shown as full and a full zone as offline. */
  lemma AsWrittenMislabels()
    ensures AsWrittenConditionName(Code(ReadOnly)) == Some(Mnemonic(Full))
    ensures AsWrittenConditionName(Code(Full)) == Some(Mnemonic(Offline))
  {
  }

  /** The corrected lookup: the entry of the sixteen-entry table selected by the code's low four bits. */
  function ConditionName(cond: u8): (r: string)
    ensures r == ConditionStr[cond % 16]
  {
    Pow2Widths();
    AndLowMask(cond, 4);
    ConditionStr[And(cond, |ConditionStr| - 1)]
  }

  /** Each named condition is given its own mnemonic by the sixteen-entry table. */
  lemma ConditionNameMatches(c: Condition)
    ensures ConditionName(Code(c)) == Mnemonic(c)
  {
  }

  /** The reserved codes 5 to 12 are named "x" followed by their hexadecimal digit. */
  lemma ReservedConditionNames(cond: u8)
    requires 5 <= cond % 16 <= 12
    ensures ConditionName(cond) == ['x', "0123456789ABC"[cond % 16]]
  {
    var i := cond % 16;
    assert ConditionStr[5..13] == ["x5", "x6", "x7", "x8", "x9", "xA", "xB", "xC"];
    assert ConditionName(cond) == ConditionStr[5..13][i - 5];
  }

  /**
    The declared table agrees with the corrected one on codes 0 to 11, and
    from code 12 on it gives the name the corrected table has one code higher.
   */
  lemma AsWrittenShiftedFromTwelve(cond: u8)
    ensures cond % 16 < 12 ==> AsWrittenConditionName(cond) == Some(ConditionName(cond))
    ensures 12 <= cond % 16 < 15 ==> AsWrittenConditionName(cond) == Some(ConditionStr[cond % 16 + 1])
  {
    assert AsWrittenConditionStr[..12] == ConditionStr[..12];
    assert AsWrittenConditionStr[12..] == ConditionStr[13..];
  }

  /** The zone type's name, or None for type_text[type] read past its four entries. */
  function TypeName(zoneType: u8): (r: Option<string>)
    ensures r.Some? <==> zoneType < 4
    ensures r.Some? ==> r.value == TypeText[zoneType]
  {
    if zoneType < |TypeText| then Some(TypeText[zoneType]) else None
  }

  /**
    The fields of one printed report line. The two names are None where the
    source reads past the end of its table.
   */
  datatype ZoneLine = ZoneLine(start: u64, len: u64, wpOffset: u64, reset: u8, nonSeq: u8,
                               cond: u8, condName: Option<string>, zoneType: u8, typeName: Option<string>)

  /**
    One report line: the descriptor's fields, the write pointer relative to
    start (mod 2^64), and the two names looked up as the source declares them.
   */
  function Render(z: Zone): (l: ZoneLine)
    ensures Add(l.start, l.wpOffset) == z.wp
    ensures z.start <= z.wp ==> l.wpOffset == z.wp - z.start
    ensures l.start == z.start && l.len == z.len && l.reset == z.reset && l.nonSeq == z.nonSeq
    ensures l.cond == z.cond && l.condName == AsWrittenConditionName(z.cond)
    ensures l.condName.None? <==> z.cond % 16 == 15
    ensures l.condName.Some? ==> l.condName.value == AsWrittenConditionStr[z.cond % 16]
    ensures l.zoneType == z.zoneType && l.typeName == TypeName(z.zoneType)
    ensures l.typeName.Some? <==> z.zoneType < |TypeText|
  {
    ZoneLine(z.start, z.len, Sub(z.wp, z.start), z.reset, z.nonSeq,
             z.cond, AsWrittenConditionName(z.cond), z.zoneType, TypeName(z.zoneType))
  }

  function RenderAll(zs: seq<Zone>): (ls: seq<ZoneLine>)
  {
    seq(|zs|, i requires 0 <= i < |zs| => Render(zs[i]))
  }

  /** The descriptors up to, and not including, the first one of length 0: the longest prefix free of them. */
  function UntilEmpty(zs: seq<Zone>): (r: seq<Zone>)
    ensures |r| <= |zs| && r == zs[..|r|]
    ensures forall i :: 0 <= i < |r| ==> zs[i].len != 0
    ensures |r| < |zs| ==> zs[|r|].len == 0
  {
    if zs == [] || zs[0].len == 0 then []
    else [zs[0]] + UntilEmpty(zs[1..])
  }

  /** A prefix ending just before a zero-length descriptor, or at the end, is the one UntilEmpty takes. */
  lemma UntilEmptyAt(zs: seq<Zone>, n: nat)
    requires n <= |zs|
    requires forall i :: 0 <= i < n ==> zs[i].len != 0
    requires n == |zs| || zs[n].len == 0
    ensures UntilEmpty(zs) == zs[..n]
  {
  }

  /** struct blk_zone_report: the request (start sector, zone count) and the descriptor buffer it is answered in. */
  class ZoneReport {
    var sector: u64
    var nrZones: u32
    const zones: array<Zone>

    /** xmalloc of a report with room for capacity descriptors. */
    constructor (capacity: nat)
      ensures zones.Length == capacity && fresh(zones)
      ensures sector == 0 && nrZones == 0
    {
      sector, nrZones := 0, 0;
      zones := new Zone[capacity];
    }
  }

  /** The printing loop of the report: one line per descriptor, in order, up to the first of length 0. */
  method RenderZones(zones: array<Zone>, nrZones: nat) returns (lines: seq<ZoneLine>)
    requires nrZones <= zones.Length
    ensures lines == RenderAll(UntilEmpty(zones[..nrZones]))
  {
    lines := [];
    var i := 0;
    while i < nrZones
      invariant 0 <= i <= nrZones
      invariant forall j :: 0 <= j < i ==> zones[j].len != 0
      invariant lines == RenderAll(zones[..i])
    {
      if zones[i].len == 0 {
        break;
      }
      lines := lines + [Render(zones[i])];
      i := i + 1;
    }
    assert zones[..nrZones][..i] == zones[..i];
    UntilEmptyAt(zones[..nrZones], i);
  }
}
