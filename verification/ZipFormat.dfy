/** The byte records of a streamed, stored ZIP archive, and a strict reader for
    archives of that kind (PKWARE APPNOTE.TXT sections 4.3.7, 4.3.9, 4.3.12,
    4.3.14 to 4.3.16 and 4.5.3). The reader knows nothing of the writer: it
    starts at the end-of-central-directory record, resolves every sentinel from
    a ZIP64 structure, and checks headers, descriptors and checksums. */
module ZipFormat {
  import opened LittleEndian
  import opened Options

  type U16 = n: nat | n < 0x1_0000
  type U32 = n: nat | n < 0x1_0000_0000
  type Checksum = seq<Byte> -> U32

  const SIG_LOCAL: nat := 0x0403_4b50
  const SIG_DATA_DESC: nat := 0x0807_4b50
  const SIG_CENTRAL: nat := 0x0201_4b50
  const SIG_EOCD: nat := 0x0605_4b50
  const SIG_ZIP64_EOCD: nat := 0x0606_4b50
  const SIG_ZIP64_LOCATOR: nat := 0x0706_4b50
  const GP_FLAGS: nat := 0x0808
  const U16_MAX: nat := 0xFFFF
  const U32_MAX: nat := 0xFFFF_FFFF
  const U64_LIMIT: nat := 0x1_0000_0000_0000_0000

  // ---- Records, as the writer lays them out --------------------------------

  function LocalFixed(zip64: bool, time: U16, date: U16, nameLen: nat, extraLen: nat): (h: seq<Byte>)
    ensures |h| == 30
  {
    Le32(SIG_LOCAL) + Le16(if zip64 then 45 else 20) + Le16(GP_FLAGS) + Le16(0) + Le16(time) + Le16(date) + Le32(0)
    + Le32(if zip64 then U32_MAX else 0) + Le32(if zip64 then U32_MAX else 0) + Le16(nameLen) + Le16(extraLen)
  }

  function LocalExtra(zip64: bool, stat: nat): (e: seq<Byte>)
    ensures |e| == if zip64 then 20 else 0
  {
    if zip64 then Le16(1) + Le16(16) + Le64(stat) + Le64(stat) else []
  }

  function Descriptor(zip64: bool, crc: U32, size: nat): (d: seq<Byte>)
    ensures |d| == if zip64 then 24 else 16
  {
    Le32(SIG_DATA_DESC) + Le32(crc) + (if zip64 then Le64(size) + Le64(size) else Le32(size) + Le32(size))
  }

  function CentralExtra(sizeZip64: bool, size: nat, offsetZip64: bool, offset: nat): (e: seq<Byte>)
    ensures |e| == (if sizeZip64 || offsetZip64 then 4 else 0) + (if sizeZip64 then 16 else 0) + (if offsetZip64 then 8 else 0)
  {
    var body := (if sizeZip64 then Le64(size) + Le64(size) else []) + (if offsetZip64 then Le64(offset) else []);
    if sizeZip64 || offsetZip64 then Le16(1) + Le16(|body|) + body else []
  }

  function CentralFixed(version: nat, time: U16, date: U16, crc: U32, size: nat, nameLen: nat, extraLen: nat,
                        offset: nat): (h: seq<Byte>)
    ensures |h| == 46
  {
    Le32(SIG_CENTRAL) + Le16(0x300 + version) + Le16(version) + Le16(GP_FLAGS) + Le16(0) + Le16(time) + Le16(date)
    + Le32(crc) + Le32(size) + Le32(size) + Le16(nameLen) + Le16(extraLen) + Le16(0) + Le16(0) + Le16(0)
    + Le32(0x81A4_0000) + Le32(offset)
  }

  function Zip64Eocd(count: nat, size: nat, start: nat): (r: seq<Byte>)
    ensures |r| == 56
  {
    Le32(SIG_ZIP64_EOCD) + Le64(44) + Le16(0x32D) + Le16(45) + Le32(0) + Le32(0)
    + Le64(count) + Le64(count) + Le64(size) + Le64(start)
  }

  function Zip64Locator(at: nat): (r: seq<Byte>)
    ensures |r| == 20
  {
    Le32(SIG_ZIP64_LOCATOR) + Le32(0) + Le64(at) + Le32(1)
  }

  function Eocd(count: nat, size: nat, start: nat): (r: seq<Byte>)
    ensures |r| == 22
  {
    Le32(SIG_EOCD) + Le16(0) + Le16(0)
    + Le16(if count >= U16_MAX then U16_MAX else count) + Le16(if count >= U16_MAX then U16_MAX else count)
    + Le32(if size >= U32_MAX then U32_MAX else size) + Le32(if start >= U32_MAX then U32_MAX else start) + Le16(0)
  }

  // ---- The reader ----------------------------------------------------------

  /** What a reader extracts for one archive member. */
  datatype Entry = Entry(name: seq<Byte>, date: U16, time: U16, data: seq<Byte>)

  /** One central-directory record with its sentinels resolved. */
  datatype Info = Info(name: seq<Byte>, date: U16, time: U16, crc: nat, size: nat, offset: nat)

  /** Bit 3: sizes and checksum follow the data. Bit 11: the name is UTF-8. */
  predicate StreamFlags(flags: nat) {
    flags / 8 % 2 == 1 && flags / 2048 % 2 == 1
  }

  /** A central record made on Unix, on the only disk, for a readable regular file. */
  predicate CentralMarks(s: seq<Byte>, at: nat)
    requires at + 46 <= |s|
  {
    && At16(s, at + 4) / 256 == 3 && At16(s, at + 6) >= 20 && StreamFlags(At16(s, at + 8))
    && At16(s, at + 34) == 0 && At32(s, at + 38) / 0x1_0000 == 0x81A4
  }

  /** A local header that leaves checksum and sizes to the descriptor, with the
      size fields saturated exactly when a ZIP64 block follows. */
  predicate LocalMarks(s: seq<Byte>, at: nat, zip64: bool)
    requires at + 30 <= |s|
  {
    && At16(s, at + 4) >= (if zip64 then 45 else 20) && StreamFlags(At16(s, at + 6)) && At32(s, at + 14) == 0
    && At32(s, at + 18) == At32(s, at + 22) == (if zip64 then U32_MAX else 0)
  }

  /** End records of a single-disk archive; `z` and `l` are the ZIP64 record and its locator. */
  predicate EndMarks(s: seq<Byte>, e: nat)
    requires e + 22 <= |s|
  {
    At16(s, e + 4) == 0 && At16(s, e + 6) == 0
  }

  predicate Zip64EndMarks(s: seq<Byte>, z: nat, l: nat)
    requires z + 56 <= |s| && l + 20 <= |s|
  {
    && At16(s, z + 12) / 256 == 3 && At16(s, z + 14) >= 45 && At32(s, z + 16) == 0 && At32(s, z + 20) == 0
    && At32(s, l + 4) == 0 && At32(s, l + 16) == 1
  }

  /** Body of the first extra block with the ZIP64 tag 0x0001. */
  function Zip64Body(extra: seq<Byte>): Option<seq<Byte>>
    decreases |extra|
  {
    if |extra| < 4 then None
    else
      var len := At16(extra, 2);
      if 4 + len > |extra| then None
      else if At16(extra, 0) == 1 then Some(extra[4..4 + len])
      else Zip64Body(extra[4 + len..])
  }

  /** Sizes and offset of a central record: a sentinel is only acceptable when
      the ZIP64 block holds the value it stands for, in APPNOTE order. */
  function Resolve(size32: nat, offset32: nat, version: nat, extra: seq<Byte>): Option<(nat, nat)> {
    if size32 != U32_MAX && offset32 != U32_MAX then Some((size32, offset32))
    else
      match Zip64Body(extra)
      case None => None
      case Some(body) =>
        var sizeLen := if size32 == U32_MAX then 16 else 0;
        var need := sizeLen + (if offset32 == U32_MAX then 8 else 0);
        if version < 45 || |body| < need then None
        else if size32 == U32_MAX && At64(body, 0) != At64(body, 8) then None
        else Some((if size32 == U32_MAX then At64(body, 0) else size32,
                   if offset32 == U32_MAX then At64(body, sizeLen) else offset32))
  }

  /** The central record at `at` and the position just after it. */
  function ReadCentral(s: seq<Byte>, at: nat): Option<(Info, nat)> {
    if at + 46 > |s| || At32(s, at) != SIG_CENTRAL || At16(s, at + 10) != 0 || At32(s, at + 20) != At32(s, at + 24)
       || !CentralMarks(s, at) then None
    else
      var nameLen, extraLen, commentLen := At16(s, at + 28), At16(s, at + 30), At16(s, at + 32);
      var next := at + 46 + nameLen + extraLen + commentLen;
      if next > |s| then None
      else
        var name := s[at + 46..at + 46 + nameLen];
        var extra := s[at + 46 + nameLen..at + 46 + nameLen + extraLen];
        match Resolve(At32(s, at + 20), At32(s, at + 42), At16(s, at + 6), extra)
        case None => None
        case Some((size, offset)) =>
          Some((Info(name, At16(s, at + 14), At16(s, at + 12), At32(s, at + 16), size, offset), next))
  }

  function ReadDirectory(s: seq<Byte>, at: nat, count: nat): Option<(seq<Info>, nat)>
    decreases count
  {
    if count == 0 then Some(([], at))
    else
      match ReadCentral(s, at)
      case None => None
      case Some((info, next)) =>
        match ReadDirectory(s, next, count - 1)
        case None => None
        case Some((rest, end)) => Some(([info] + rest, end))
  }

  /** The data descriptor at `at` repeats the checksum and both sizes. */
  predicate DescriptorMatches(s: seq<Byte>, at: nat, zip64: bool, crc: nat, size: nat) {
    && at + (if zip64 then 24 else 16) <= |s|
    && At32(s, at) == SIG_DATA_DESC
    && At32(s, at + 4) == crc
    && (if zip64 then At64(s, at + 8) == size && At64(s, at + 16) == size
        else At32(s, at + 8) == size && At32(s, at + 12) == size)
  }

  /** The member a central record points at: its local header must agree, and the
      descriptor after the data has 64-bit sizes exactly when the local header
      carries a ZIP64 block (APPNOTE 4.3.9.2). */
  function ReadMember(s: seq<Byte>, c: Info, crc: Checksum): Option<Entry> {
    var at := c.offset;
    if at + 30 > |s| || At32(s, at) != SIG_LOCAL || At16(s, at + 8) != 0 then None
    else
      var nameLen, extraLen := At16(s, at + 26), At16(s, at + 28);
      var start := at + 30 + nameLen + extraLen;
      if start + c.size > |s| || s[at + 30..at + 30 + nameLen] != c.name then None
      else
        var zip64 := Zip64Body(s[at + 30 + nameLen..start]).Some?;
        var data := s[start..start + c.size];
        if !LocalMarks(s, at, zip64) || At16(s, at + 10) != c.time || At16(s, at + 12) != c.date
           || !DescriptorMatches(s, start + c.size, zip64, c.crc, c.size) || crc(data) != c.crc
        then None
        else Some(Entry(c.name, c.date, c.time, data))
  }

  function ReadMembers(s: seq<Byte>, infos: seq<Info>, crc: Checksum): Option<seq<Entry>> {
    if infos == [] then Some([])
    else
      match ReadMember(s, infos[0], crc)
      case None => None
      case Some(entry) =>
        match ReadMembers(s, infos[1..], crc)
        case None => None
        case Some(rest) => Some([entry] + rest)
  }

  datatype Trailer = Trailer(count: nat, size: nat, start: nat)

  /** The directory's count, size and position, from the end-of-central-directory
      record and, for the fields it cannot hold, from the ZIP64 record. */
  function ReadTrailer(s: seq<Byte>): Option<Trailer> {
    if |s| < 22 then None
    else
      var e := |s| - 22;
      var count16, size32, start32 := At16(s, e + 10), At32(s, e + 12), At32(s, e + 16);
      if At32(s, e) != SIG_EOCD || At16(s, e + 8) != count16 || At16(s, e + 20) != 0 || !EndMarks(s, e) then None
      else if count16 != U16_MAX && size32 != U32_MAX && start32 != U32_MAX then Some(Trailer(count16, size32, start32))
      else if e < 20 || At32(s, e - 20) != SIG_ZIP64_LOCATOR || At64(s, e - 12) + 76 != e then None
      else
        var z := At64(s, e - 12);
        if At32(s, z) != SIG_ZIP64_EOCD || At64(s, z + 4) != 44 || At64(s, z + 24) != At64(s, z + 32)
           || !Zip64EndMarks(s, z, e - 20) then None
        else Some(Trailer(if count16 == U16_MAX then At64(s, z + 32) else count16,
                          if size32 == U32_MAX then At64(s, z + 40) else size32,
                          if start32 == U32_MAX then At64(s, z + 48) else start32))
  }

  /** Every member of an archive, or None when the archive is not sound. */
  function ReadArchive(s: seq<Byte>, crc: Checksum): Option<seq<Entry>> {
    match ReadTrailer(s)
    case None => None
    case Some(t) =>
      match ReadDirectory(s, t.start, t.count)
      case None => None
      case Some((infos, end)) => if end != t.start + t.size then None else ReadMembers(s, infos, crc)
  }

  // ---- Field layout --------------------------------------------------------

  lemma HoldsInside(s: seq<Byte>, p: nat, r: seq<Byte>, k: nat, f: seq<Byte>)
    requires Holds(s, p, r) && Holds(r, k, f)
    ensures Holds(s, p + k, f)
  {
    forall i | 0 <= i < |f| ensures s[p + k + i] == f[i] {
      assert r[k + i] == r[k..k + |f|][i];
      assert s[p + (k + i)] == s[p..p + |r|][k + i];
    }
    assert s[p + k..p + k + |f|] == f;
  }

  lemma LocalLayout(zip64: bool, time: U16, date: U16, nameLen: nat, extraLen: nat)
    ensures
      var h := LocalFixed(zip64, time, date, nameLen, extraLen);
      && Holds(h, 0, Le32(SIG_LOCAL)) && Holds(h, 4, Le16(if zip64 then 45 else 20)) && Holds(h, 6, Le16(GP_FLAGS))
      && Holds(h, 8, Le16(0)) && Holds(h, 10, Le16(time)) && Holds(h, 12, Le16(date))
      && Holds(h, 14, Le32(0)) && Holds(h, 18, Le32(if zip64 then U32_MAX else 0))
      && Holds(h, 22, Le32(if zip64 then U32_MAX else 0)) && Holds(h, 26, Le16(nameLen)) && Holds(h, 28, Le16(extraLen))
  {
    hide Le16, Le32, Le64;
    var h := LocalFixed(zip64, time, date, nameLen, extraLen);
    assert h == h[..28] + Le16(extraLen);
  }

  lemma CentralLayout(version: nat, time: U16, date: U16, crc: U32, size: nat, nameLen: nat, extraLen: nat, offset: nat)
    ensures
      var h := CentralFixed(version, time, date, crc, size, nameLen, extraLen, offset);
      && Holds(h, 0, Le32(SIG_CENTRAL)) && Holds(h, 6, Le16(version)) && Holds(h, 10, Le16(0))
      && Holds(h, 12, Le16(time)) && Holds(h, 14, Le16(date)) && Holds(h, 16, Le32(crc))
      && Holds(h, 20, Le32(size)) && Holds(h, 24, Le32(size))
      && Holds(h, 28, Le16(nameLen)) && Holds(h, 30, Le16(extraLen)) && Holds(h, 32, Le16(0)) && Holds(h, 42, Le32(offset))
  {
    hide Le16, Le32, Le64;
  }

  lemma CentralMarksLayout(version: nat, time: U16, date: U16, crc: U32, size: nat, nameLen: nat, extraLen: nat, offset: nat)
    ensures
      var h := CentralFixed(version, time, date, crc, size, nameLen, extraLen, offset);
      && Holds(h, 4, Le16(0x300 + version)) && Holds(h, 6, Le16(version)) && Holds(h, 8, Le16(GP_FLAGS))
      && Holds(h, 34, Le16(0)) && Holds(h, 38, Le32(0x81A4_0000))
  {
    hide Le16, Le32, Le64;
  }

  lemma Zip64MarksLayout(count: nat, size: nat, start: nat, at: nat)
    ensures
      var r, l := Zip64Eocd(count, size, start), Zip64Locator(at);
      && Holds(r, 12, Le16(0x32D)) && Holds(r, 14, Le16(45)) && Holds(r, 16, Le32(0)) && Holds(r, 20, Le32(0))
      && Holds(l, 4, Le32(0)) && Holds(l, 16, Le32(1))
  {
    hide Le16, Le32, Le64;
  }

  lemma EndMarksLayout(count: nat, size: nat, start: nat)
    ensures Holds(Eocd(count, size, start), 4, Le16(0)) && Holds(Eocd(count, size, start), 6, Le16(0))
  {
    hide Le16, Le32, Le64;
  }

  lemma Zip64EocdLayout(count: nat, size: nat, start: nat)
    ensures
      var r := Zip64Eocd(count, size, start);
      && Holds(r, 0, Le32(SIG_ZIP64_EOCD)) && Holds(r, 4, Le64(44)) && Holds(r, 24, Le64(count))
      && Holds(r, 32, Le64(count)) && Holds(r, 40, Le64(size)) && Holds(r, 48, Le64(start))
  {
  }

  lemma EocdLayout(count: nat, size: nat, start: nat)
    ensures
      var r := Eocd(count, size, start);
      var count16 := if count >= U16_MAX then U16_MAX else count;
      && Holds(r, 0, Le32(SIG_EOCD)) && Holds(r, 8, Le16(count16)) && Holds(r, 10, Le16(count16))
      && Holds(r, 12, Le32(if size >= U32_MAX then U32_MAX else size))
      && Holds(r, 16, Le32(if start >= U32_MAX then U32_MAX else start)) && Holds(r, 20, Le16(0))
  {
  }
}
