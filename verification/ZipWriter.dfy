/** The streaming ZIP writer of `files.rs`: stored entries with data descriptors
    sent to a sink that cannot seek, then the central directory and trailer.
    `Archive` says which bytes a complete stream consists of; `RoundTrip` relates
    those bytes to the independent reader of `ZipFormat`. */
module ZipWriter {
  import opened LittleEndian
  import opened Options
  import opened ZipFormat

  /** ZIP64 thresholds; production uses 0xFFFFFFFF and 0xFFFF. */
  datatype Limits = Limits(bytes: nat, entries: nat) {
    predicate Supported() {
      bytes <= U32_MAX && entries <= U16_MAX
    }
  }

  /** A file the writer could open and read to its end. `stat` is the size its
      metadata reported beforehand, which may differ from `|data|`. */
  datatype Member = Member(name: seq<Byte>, stat: nat, date: U16, time: U16, data: seq<Byte>) {
    function Zip64(limits: Limits): bool {
      stat >= limits.bytes
    }

    function Extracted(): Entry {
      Entry(name, date, time, data)
    }

    /** The name's length fits its 16-bit field, and a file whose size looked small
        beforehand has a size below the 32-bit sentinel. */
    predicate Faithful(limits: Limits) {
      |name| <= U16_MAX && (stat >= limits.bytes || |data| < U32_MAX)
    }
  }

  datatype CentralEntry = CentralEntry(name: seq<Byte>, crc: U32, size: nat, offset: nat, date: U16, time: U16, zip64: bool) {
    function ToInfo(): Info {
      Info(name, date, time, crc, size, offset)
    }
  }

  function EntryBytes(m: Member, limits: Limits, crc: Checksum): seq<Byte> {
    var zip64 := m.Zip64(limits);
    var extra := LocalExtra(zip64, m.stat);
    LocalFixed(zip64, m.time, m.date, |m.name|, |extra|) + m.name + extra + m.data
    + Descriptor(zip64, crc(m.data), |m.data|)
  }

  function CentralOf(m: Member, offset: nat, limits: Limits, crc: Checksum): CentralEntry {
    CentralEntry(m.name, crc(m.data), |m.data|, offset, m.date, m.time, m.Zip64(limits))
  }

  function Locals(ms: seq<Member>, limits: Limits, crc: Checksum): seq<Byte> {
    if ms == [] then [] else Locals(ms[..|ms| - 1], limits, crc) + EntryBytes(ms[|ms| - 1], limits, crc)
  }

  /** The metadata the writer retains: every entry with the offset its local
      header was sent at. */
  function Retained(ms: seq<Member>, limits: Limits, crc: Checksum): (es: seq<CentralEntry>)
    ensures |es| == |ms|
  {
    if ms == [] then []
    else
      var prefix := ms[..|ms| - 1];
      Retained(prefix, limits, crc) + [CentralOf(ms[|ms| - 1], |Locals(prefix, limits, crc)|, limits, crc)]
  }

  function CentralRecord(e: CentralEntry, limits: Limits): seq<Byte> {
    var offsetZip64 := e.offset >= limits.bytes;
    var extra := CentralExtra(e.zip64, e.size, offsetZip64, e.offset);
    CentralFixed(if extra == [] then 20 else 45, e.time, e.date, e.crc, if e.zip64 then U32_MAX else e.size,
                 |e.name|, |extra|, if offsetZip64 then U32_MAX else e.offset) + e.name + extra
  }

  function Directory(es: seq<CentralEntry>, limits: Limits): seq<Byte> {
    if es == [] then [] else Directory(es[..|es| - 1], limits) + CentralRecord(es[|es| - 1], limits)
  }

  function TrailerBytes(count: nat, size: nat, start: nat, limits: Limits): seq<Byte> {
    (if start >= limits.bytes || size >= limits.bytes || count >= limits.entries
     then Zip64Eocd(count, size, start) + Zip64Locator(start + size) else [])
    + Eocd(count, size, start)
  }

  function Archive(ms: seq<Member>, limits: Limits, crc: Checksum): seq<Byte> {
    var locals := Locals(ms, limits, crc);
    var directory := Directory(Retained(ms, limits, crc), limits);
    locals + directory + TrailerBytes(|ms|, |directory|, |locals|, limits)
  }

  // ---- One record at a time ------------------------------------------------

  lemma BlockBody(extra: seq<Byte>, body: seq<Byte>)
    requires |body| < 0x1_0000
    requires extra == Le16(1) + Le16(|body|) + body
    ensures Zip64Body(extra) == Some(body)
  {
    assert Holds(extra, 0, Le16(1)) && Holds(extra, 2, Le16(|body|));
    Field16(extra, 0, 1);
    Field16(extra, 2, |body|);
    assert extra[4..4 + |body|] == body;
  }

  lemma LocalExtraBody(stat: nat)
    ensures Zip64Body(LocalExtra(true, stat)).Some? && Zip64Body(LocalExtra(false, stat)).None?
  {
  }

  lemma OffsetOnlyBody(size: nat, offset: nat)
    ensures Zip64Body(CentralExtra(false, size, true, offset)) == Some(Le64(offset))
  {
    hide Le64;
    assert [] + Le64(offset) == Le64(offset);
    BlockBody(CentralExtra(false, size, true, offset), Le64(offset));
  }

  /** The fixed part of a held central record, field by field. */
  lemma CentralFields(s: seq<Byte>, p: nat, version: nat, time: U16, date: U16, crc: U32, size: nat, nameLen: nat,
                      extraLen: nat, offset: nat)
    requires Holds(s, p, CentralFixed(version, time, date, crc, size, nameLen, extraLen, offset))
    ensures p + 46 <= |s| && At32(s, p) == SIG_CENTRAL && At16(s, p + 6) == version % 0x1_0000 && At16(s, p + 10) == 0
    ensures At16(s, p + 12) == time && At16(s, p + 14) == date && At32(s, p + 16) == crc
    ensures At32(s, p + 20) == At32(s, p + 24) == size % 0x1_0000_0000
    ensures At16(s, p + 28) == nameLen % 0x1_0000 && At16(s, p + 30) == extraLen % 0x1_0000 && At16(s, p + 32) == 0
    ensures At32(s, p + 42) == offset % 0x1_0000_0000
  {
    hide Le16, Le32, Le64, At16, At32, At64, CentralFixed;
    var h := CentralFixed(version, time, date, crc, size, nameLen, extraLen, offset);
    CentralLayout(version, time, date, crc, size, nameLen, extraLen, offset);
    Inside32(s, p, h, 0, SIG_CENTRAL);
    Inside16(s, p, h, 6, version);
    Inside16(s, p, h, 10, 0);
    Inside16(s, p, h, 12, time);
    Inside16(s, p, h, 14, date);
    Inside32(s, p, h, 16, crc);
    Inside32(s, p, h, 20, size);
    Inside32(s, p, h, 24, size);
    Inside16(s, p, h, 28, nameLen);
    Inside16(s, p, h, 30, extraLen);
    Inside16(s, p, h, 32, 0);
    Inside32(s, p, h, 42, offset);
  }

  lemma CentralMarksHold(s: seq<Byte>, p: nat, version: nat, time: U16, date: U16, crc: U32, size: nat, nameLen: nat,
                         extraLen: nat, offset: nat)
    requires Holds(s, p, CentralFixed(version, time, date, crc, size, nameLen, extraLen, offset)) && (version == 20 || version == 45)
    ensures p + 46 <= |s| && CentralMarks(s, p)
  {
    hide Le16, Le32, Le64, At16, At32, At64, CentralFixed;
    var h := CentralFixed(version, time, date, crc, size, nameLen, extraLen, offset);
    CentralMarksLayout(version, time, date, crc, size, nameLen, extraLen, offset);
    Inside16(s, p, h, 4, 0x300 + version);
    Inside16(s, p, h, 6, version);
    Inside16(s, p, h, 8, GP_FLAGS);
    Inside16(s, p, h, 34, 0);
    Inside32(s, p, h, 38, 0x81A4_0000);
  }

  lemma Inside16(s: seq<Byte>, p: nat, r: seq<Byte>, k: nat, n: nat)
    requires Holds(s, p, r) && Holds(r, k, Le16(n))
    ensures p + k + 2 <= |s| && At16(s, p + k) == n % 0x1_0000
  {
    HoldsInside(s, p, r, k, Le16(n));
    Field16(s, p + k, n);
  }

  lemma Inside32(s: seq<Byte>, p: nat, r: seq<Byte>, k: nat, n: nat)
    requires Holds(s, p, r) && Holds(r, k, Le32(n))
    ensures p + k + 4 <= |s| && At32(s, p + k) == n % 0x1_0000_0000
  {
    HoldsInside(s, p, r, k, Le32(n));
    Field32(s, p + k, n);
  }

  lemma Inside64(s: seq<Byte>, p: nat, r: seq<Byte>, k: nat, n: nat)
    requires Holds(s, p, r) && Holds(r, k, Le64(n)) && n < U64_LIMIT
    ensures p + k + 8 <= |s| && At64(s, p + k) == n
  {
    HoldsInside(s, p, r, k, Le64(n));
    Field64(s, p + k, n);
  }

  /** The values behind the sentinels of a central record are those written. */
  lemma ResolveReads(e: CentralEntry, limits: Limits)
    requires limits.Supported() && e.size < U64_LIMIT && e.offset < U64_LIMIT && (e.zip64 || e.size < U32_MAX)
    ensures
      var offsetZip64 := e.offset >= limits.bytes;
      var extra := CentralExtra(e.zip64, e.size, offsetZip64, e.offset);
      Resolve(if e.zip64 then U32_MAX else e.size, if offsetZip64 then U32_MAX else e.offset,
              if extra == [] then 20 else 45, extra) == Some((e.size, e.offset))
  {
    var offsetZip64 := e.offset >= limits.bytes;
    var sizes := if e.zip64 then Le64(e.size) + Le64(e.size) else [];
    var body := sizes + (if offsetZip64 then Le64(e.offset) else []);
    var extra := CentralExtra(e.zip64, e.size, offsetZip64, e.offset);
    if e.zip64 || offsetZip64 {
      BlockBody(extra, body);
      if e.zip64 {
        assert Holds(body, 0, Le64(e.size)) && Holds(body, 8, Le64(e.size));
        Field64(body, 0, e.size);
        Field64(body, 8, e.size);
      }
      if offsetZip64 {
        assert Holds(body, |sizes|, Le64(e.offset));
        Field64(body, |sizes|, e.offset);
      }
    }
  }

  /** A central record is read back exactly when its entry is representable. */
  lemma CentralReads(s: seq<Byte>, p: nat, e: CentralEntry, limits: Limits)
    requires limits.Supported() && e.size < U64_LIMIT && e.offset < U64_LIMIT
    requires Holds(s, p, CentralRecord(e, limits))
    requires |e.name| <= U16_MAX && (e.zip64 || e.size < U32_MAX)
    ensures ReadCentral(s, p) == Some((e.ToInfo(), p + |CentralRecord(e, limits)|))
  {
    hide Le16, Le32, Le64, At16, At32, At64, CentralFixed, CentralExtra, Resolve;
    var offsetZip64 := e.offset >= limits.bytes;
    var extra := CentralExtra(e.zip64, e.size, offsetZip64, e.offset);
    var version := if extra == [] then 20 else 45;
    var size32 := if e.zip64 then U32_MAX else e.size;
    var offset32 := if offsetZip64 then U32_MAX else e.offset;
    var fixed := CentralFixed(version, e.time, e.date, e.crc, size32, |e.name|, |extra|, offset32);
    HoldsSplit(s, p, fixed + e.name, extra);
    HoldsSplit(s, p, fixed, e.name);
    CentralFields(s, p, version, e.time, e.date, e.crc, size32, |e.name|, |extra|, offset32);
    CentralMarksHold(s, p, version, e.time, e.date, e.crc, size32, |e.name|, |extra|, offset32);
    hide CentralMarks;
    ResolveReads(e, limits);
  }

  /** An entry that is not representable is never read back as itself. */
  lemma CentralGarbles(s: seq<Byte>, p: nat, e: CentralEntry, limits: Limits)
    requires limits.Supported() && e.offset < U64_LIMIT
    requires Holds(s, p, CentralRecord(e, limits))
    requires !(|e.name| <= U16_MAX && (e.zip64 || e.size < U32_MAX))
    ensures ReadCentral(s, p).Some? ==>
              ReadCentral(s, p).value.0.name != e.name || ReadCentral(s, p).value.0.size != e.size
  {
    hide Le16, Le32, Le64, At16, At32, At64, CentralFixed, CentralExtra, CentralMarks;
    if ReadCentral(s, p).Some? && |e.name| <= U16_MAX {
      var offsetZip64 := e.offset >= limits.bytes;
      var extra := CentralExtra(false, e.size, offsetZip64, e.offset);
      var version := if extra == [] then 20 else 45;
      var offset32 := if offsetZip64 then U32_MAX else e.offset;
      var fixed := CentralFixed(version, e.time, e.date, e.crc, e.size, |e.name|, |extra|, offset32);
      HoldsSplit(s, p, fixed + e.name, extra);
      HoldsSplit(s, p, fixed, e.name);
      CentralFields(s, p, version, e.time, e.date, e.crc, e.size, |e.name|, |extra|, offset32);
      if offsetZip64 {
        OffsetOnlyBody(e.size, e.offset);
      }
    }
  }

  lemma LocalFields(s: seq<Byte>, p: nat, zip64: bool, time: U16, date: U16, nameLen: nat, extraLen: nat)
    requires Holds(s, p, LocalFixed(zip64, time, date, nameLen, extraLen))
    ensures p + 30 <= |s| && At32(s, p) == SIG_LOCAL && At16(s, p + 4) == (if zip64 then 45 else 20)
    ensures At16(s, p + 6) == GP_FLAGS && At16(s, p + 8) == 0 && At16(s, p + 10) == time && At16(s, p + 12) == date
    ensures At16(s, p + 26) == nameLen % 0x1_0000 && At16(s, p + 28) == extraLen % 0x1_0000
    ensures LocalMarks(s, p, zip64)
  {
    hide Le16, Le32, Le64, At16, At32, At64, LocalFixed;
    var h := LocalFixed(zip64, time, date, nameLen, extraLen);
    LocalLayout(zip64, time, date, nameLen, extraLen);
    Inside32(s, p, h, 0, SIG_LOCAL);
    Inside16(s, p, h, 4, if zip64 then 45 else 20);
    Inside16(s, p, h, 6, GP_FLAGS);
    Inside16(s, p, h, 8, 0);
    Inside16(s, p, h, 10, time);
    Inside16(s, p, h, 12, date);
    Inside32(s, p, h, 14, 0);
    Inside32(s, p, h, 18, if zip64 then U32_MAX else 0);
    Inside32(s, p, h, 22, if zip64 then U32_MAX else 0);
    Inside16(s, p, h, 26, nameLen);
    Inside16(s, p, h, 28, extraLen);
  }

  lemma DescriptorLayout(zip64: bool, crc: U32, size: nat)
    ensures
      var d := Descriptor(zip64, crc, size);
      && Holds(d, 0, Le32(SIG_DATA_DESC)) && Holds(d, 4, Le32(crc))
      && (if zip64 then Holds(d, 8, Le64(size)) && Holds(d, 16, Le64(size))
          else Holds(d, 8, Le32(size)) && Holds(d, 12, Le32(size)))
  {
  }

  lemma DescriptorReads(s: seq<Byte>, p: nat, zip64: bool, crc: U32, size: nat)
    requires Holds(s, p, Descriptor(zip64, crc, size))
    requires size < U64_LIMIT && (zip64 || size < U32_MAX)
    ensures DescriptorMatches(s, p, zip64, crc, size)
  {
    hide Le16, Le32, Le64, At16, At32, At64, Descriptor;
    var d := Descriptor(zip64, crc, size);
    DescriptorLayout(zip64, crc, size);
    Inside32(s, p, d, 0, SIG_DATA_DESC);
    Inside32(s, p, d, 4, crc);
    if zip64 {
      Inside64(s, p, d, 8, size);
      Inside64(s, p, d, 16, size);
    } else {
      Inside32(s, p, d, 8, size);
      Inside32(s, p, d, 12, size);
    }
  }

  /** A faithful entry is extracted from the place its central record names. */
  lemma MemberReads(s: seq<Byte>, p: nat, m: Member, limits: Limits, crc: Checksum)
    requires Holds(s, p, EntryBytes(m, limits, crc))
    requires m.Faithful(limits) && |m.data| < U64_LIMIT
    ensures ReadMember(s, CentralOf(m, p, limits, crc).ToInfo(), crc) == Some(m.Extracted())
  {
    hide Le16, Le32, Le64, At16, At32, At64, LocalFixed, LocalExtra, Descriptor, DescriptorMatches, Zip64Body, LocalMarks;
    var zip64 := m.Zip64(limits);
    var extra := LocalExtra(zip64, m.stat);
    var fixed := LocalFixed(zip64, m.time, m.date, |m.name|, |extra|);
    var descriptor := Descriptor(zip64, crc(m.data), |m.data|);
    HoldsSplit(s, p, fixed + m.name + extra + m.data, descriptor);
    HoldsSplit(s, p, fixed + m.name + extra, m.data);
    HoldsSplit(s, p, fixed + m.name, extra);
    HoldsSplit(s, p, fixed, m.name);
    LocalFields(s, p, zip64, m.time, m.date, |m.name|, |extra|);
    DescriptorReads(s, p + 30 + |m.name| + |extra| + |m.data|, zip64, crc(m.data), |m.data|);
    LocalExtraBody(m.stat);
  }

  /** The local header of a marked entry announces the size the file had beforehand, twice. */
  lemma MarkedAnnouncesStat(s: seq<Byte>, p: nat, m: Member, limits: Limits, crc: Checksum)
    requires Holds(s, p, EntryBytes(m, limits, crc)) && m.stat >= limits.bytes && m.stat < U64_LIMIT
    ensures
      var at := p + 30 + |m.name|;
      && at + 20 <= |s| && At16(s, at) == 1 && At16(s, at + 2) == 16
      && At64(s, at + 4) == m.stat && At64(s, at + 12) == m.stat
  {
    hide Le16, Le32, Le64, At16, At32, At64, LocalFixed, Descriptor;
    var extra := LocalExtra(true, m.stat);
    var fixed := LocalFixed(true, m.time, m.date, |m.name|, |extra|);
    HoldsSplit(s, p, fixed + m.name + extra + m.data, Descriptor(true, crc(m.data), |m.data|));
    HoldsSplit(s, p, fixed + m.name + extra, m.data);
    HoldsSplit(s, p, fixed + m.name, extra);
    var at := p + 30 + |m.name|;
    assert Holds(extra, 0, Le16(1)) && Holds(extra, 2, Le16(16)) && Holds(extra, 4, Le64(m.stat)) && Holds(extra, 12, Le64(m.stat));
    Inside16(s, at, extra, 0, 1);
    Inside16(s, at, extra, 2, 16);
    Inside64(s, at, extra, 4, m.stat);
    Inside64(s, at, extra, 12, m.stat);
  }

  lemma TrailerReads(s: seq<Byte>, p: nat, count: nat, size: nat, start: nat, limits: Limits)
    requires limits.Supported() && start + size == p && |s| < U64_LIMIT && count < U64_LIMIT
    requires Holds(s, p, TrailerBytes(count, size, start, limits)) && |s| == p + |TrailerBytes(count, size, start, limits)|
    ensures ReadTrailer(s) == Some(Trailer(count, size, start))
  {
    hide Le16, Le32, Le64, At16, At32, At64, Eocd, Zip64Eocd, Zip64Locator, Zip64EndMarks;
    var e := |s| - 22;
    var tail := Eocd(count, size, start);
    var zip64 := start >= limits.bytes || size >= limits.bytes || count >= limits.entries;
    var record, locator := Zip64Eocd(count, size, start), Zip64Locator(p);
    HoldsSplit(s, p, if zip64 then record + locator else [], tail);
    EocdLayout(count, size, start);
    Inside32(s, e, tail, 0, SIG_EOCD);
    Inside16(s, e, tail, 8, if count >= U16_MAX then U16_MAX else count);
    Inside16(s, e, tail, 10, if count >= U16_MAX then U16_MAX else count);
    Inside32(s, e, tail, 12, if size >= U32_MAX then U32_MAX else size);
    Inside32(s, e, tail, 16, if start >= U32_MAX then U32_MAX else start);
    Inside16(s, e, tail, 20, 0);
    EndMarksLayout(count, size, start);
    Inside16(s, e, tail, 4, 0);
    Inside16(s, e, tail, 6, 0);
    if zip64 {
      HoldsSplit(s, p, record, locator);
      Zip64MarksHold(s, p, e - 20, count, size, start, p);
      LocatorReads(s, e - 20, p);
      Zip64EocdReads(s, p, count, size, start);
    }
  }

  lemma Zip64MarksHold(s: seq<Byte>, z: nat, l: nat, count: nat, size: nat, start: nat, at: nat)
    requires Holds(s, z, Zip64Eocd(count, size, start)) && Holds(s, l, Zip64Locator(at))
    ensures z + 56 <= |s| && l + 20 <= |s| && Zip64EndMarks(s, z, l)
  {
    hide Le16, Le32, Le64, At16, At32, At64, Zip64Eocd, Zip64Locator;
    var r, k := Zip64Eocd(count, size, start), Zip64Locator(at);
    Zip64MarksLayout(count, size, start, at);
    Inside16(s, z, r, 12, 0x32D);
    Inside16(s, z, r, 14, 45);
    Inside32(s, z, r, 16, 0);
    Inside32(s, z, r, 20, 0);
    Inside32(s, l, k, 4, 0);
    Inside32(s, l, k, 16, 1);
  }

  lemma LocatorReads(s: seq<Byte>, p: nat, at: nat)
    requires Holds(s, p, Zip64Locator(at)) && at < U64_LIMIT
    ensures p + 20 <= |s| && At32(s, p) == SIG_ZIP64_LOCATOR && At64(s, p + 8) == at
  {
    var r := Zip64Locator(at);
    assert Holds(r, 0, Le32(SIG_ZIP64_LOCATOR)) && Holds(r, 8, Le64(at));
    Inside32(s, p, r, 0, SIG_ZIP64_LOCATOR);
    Inside64(s, p, r, 8, at);
  }

  lemma Zip64EocdReads(s: seq<Byte>, p: nat, count: nat, size: nat, start: nat)
    requires Holds(s, p, Zip64Eocd(count, size, start)) && count < U64_LIMIT && size < U64_LIMIT && start < U64_LIMIT
    ensures p + 56 <= |s| && At32(s, p) == SIG_ZIP64_EOCD && At64(s, p + 4) == 44
    ensures At64(s, p + 24) == count && At64(s, p + 32) == count && At64(s, p + 40) == size && At64(s, p + 48) == start
  {
    var r := Zip64Eocd(count, size, start);
    Zip64EocdLayout(count, size, start);
    Inside32(s, p, r, 0, SIG_ZIP64_EOCD);
    Inside64(s, p, r, 4, 44);
    Inside64(s, p, r, 24, count);
    Inside64(s, p, r, 32, count);
    Inside64(s, p, r, 40, size);
    Inside64(s, p, r, 48, start);
  }
}
