/** The imperative side of the ZIP download: a sink that tracks its offset and
    may lose its client at any send, the per-file read loop, and the central
    directory written from retained metadata. */
module ZipStreaming {
  import opened LittleEndian
  import opened Options
  import opened Sequences
  import opened ZipFormat
  import opened ZipWriter
  import opened ZipRoundTrip

  /** What opening and reading one path yields: nothing, or a name, metadata and
      the blocks successive reads return, possibly ended by a read error. */
  datatype File =
    | Unreadable
    | File(name: seq<Byte>, stat: nat, date: U16, time: U16, blocks: seq<seq<Byte>>, readFails: bool)
  {
    function ToMember(): Member
      requires File?
    {
      Member(name, stat, date, time, Concat(blocks))
    }
  }

  /** The members an archive of these files should hold: unreadable files are skipped. */
  function Members(files: seq<File>): seq<Member> {
    if files == [] then []
    else
      var last := files[|files| - 1];
      Members(files[..|files| - 1]) + (if last.Unreadable? then [] else [last.ToMember()])
  }

  /** Exactly the readable files are members, in the order given. */
  lemma {:induction false} MembersOf(a: seq<File>, f: File, b: seq<File>)
    ensures Members(a + [f] + b) == Members(a) + (if f.File? then [f.ToMember()] else []) + Members(b)
  {
    var all := a + [f] + b;
    if b == [] {
      assert all[..|all| - 1] == a && all == a + [f];
    } else {
      assert all[..|all| - 1] == a + [f] + b[..|b| - 1] && all[|all| - 1] == b[|b| - 1];
      MembersOf(a, f, b[..|b| - 1]);
    }
  }

  class ZipStream {
    const limits: Limits
    const crc: Checksum
    /** Every byte the client has received. */
    var sent: seq<Byte>
    var offset: nat
    /** How many more blocks the client takes before it disconnects. */
    var patience: nat

    ghost predicate Valid()
      reads this
    {
      offset == |sent|
    }

    constructor (limits: Limits, crc: Checksum, patience: nat)
      ensures Valid() && sent == [] && this.limits == limits && this.crc == crc && this.patience == patience
    {
      this.limits, this.crc, this.patience := limits, crc, patience;
      sent, offset := [], 0;
    }

    /** Send a block, or report that the client is gone. */
    method Send(data: seq<Byte>) returns (ok: bool)
      requires Valid()
      modifies this
      ensures Valid()
      ensures ok == (old(patience) > 0)
      ensures sent == if ok then old(sent) + data else old(sent)
      ensures patience == if ok then old(patience) - 1 else old(patience)
    {
      ok := patience > 0;
      if ok {
        sent := sent + data;
        patience := patience - 1;
        offset := offset + |data|;
      }
    }

    /** The read loop of one file: forward, hash and count every block. */
    method SendBlocks(blocks: seq<seq<Byte>>) returns (ok: bool, hashed: seq<Byte>, size: nat)
      requires Valid()
      modifies this
      ensures Valid()
      ensures ok == (old(patience) >= |blocks|) && (ok ==> patience == old(patience) - |blocks|)
      ensures ok ==> sent == old(sent) + Concat(blocks) && hashed == Concat(blocks) && size == |hashed|
      ensures !ok ==> old(sent) <= sent <= old(sent) + Concat(blocks) && patience == 0
    {
      ok, hashed, size := true, [], 0;
      for i := 0 to |blocks|
        invariant Valid() && ok && patience == old(patience) - i
        invariant hashed == Concat(blocks[..i]) && size == |hashed|
        invariant sent == old(sent) + hashed
      {
        assert blocks[..i + 1][..i] == blocks[..i];
        ok := Send(blocks[i]);
        if !ok {
          ConcatPrefix(blocks, i);
          return;
        }
        hashed := hashed + blocks[i];
        size := size + |blocks[i]|;
      }
      assert blocks[..|blocks|] == blocks;
    }

    /** Stream one file. On success the client has exactly the entry's bytes and
        the retained metadata names the offset they started at; on failure it has
        a prefix of them. */
    method WriteStoredEntry(central: seq<CentralEntry>, f: File) returns (ok: bool, retained: seq<CentralEntry>)
      requires Valid()
      modifies this
      ensures Valid()
      ensures f.Unreadable? ==> ok && sent == old(sent) && retained == central
      ensures f.File? ==>
                var entry := EntryBytes(f.ToMember(), limits, crc);
                if ok then
                  sent == old(sent) + entry && retained == central + [CentralOf(f.ToMember(), |old(sent)|, limits, crc)]
                else old(sent) <= sent <= old(sent) + entry && retained == central
      ensures ok == (f.Unreadable? || (!f.readFails && old(patience) >= |f.blocks| + 2))
      ensures !ok ==> f.readFails || patience == 0
    {
      hide LocalFixed, LocalExtra, Descriptor;
      ok, retained := true, central;
      if f.Unreadable? {
        return;
      }
      var zip64 := f.stat >= limits.bytes;
      var start := offset;
      var extra := LocalExtra(zip64, f.stat);
      var header := LocalFixed(zip64, f.time, f.date, |f.name|, |extra|) + f.name + extra;
      ghost var data := Concat(f.blocks);
      ghost var descriptor := Descriptor(zip64, crc(data), |data|);
      assert EntryBytes(f.ToMember(), limits, crc) == header + data + descriptor;
      Prefixes(sent, header, data, descriptor);
      ok := Send(header);
      if !ok {
        return;
      }
      var hashed, size;
      ok, hashed, size := SendBlocks(f.blocks);
      if !ok {
        return;
      }
      if f.readFails {
        ok := false;
        return;
      }
      var checksum := crc(hashed);
      ok := Send(Descriptor(zip64, checksum, size));
      if ok {
        retained := central + [CentralEntry(f.name, checksum, size, start, f.date, f.time, zip64)];
      }
    }

    /** The central records, one send each. */
    method SendDirectory(central: seq<CentralEntry>) returns (ok: bool)
      requires Valid()
      modifies this
      ensures Valid()
      ensures
        var whole := old(sent) + Directory(central, limits);
        if ok then sent == whole else old(sent) <= sent <= whole && patience == 0
    {
      hide CentralRecord;
      ok := true;
      for i := 0 to |central|
        invariant Valid() && ok
        invariant sent == old(sent) + Directory(central[..i], limits)
      {
        assert central[..i + 1][..i] == central[..i];
        ok := SendRecord(central[i]);
        if !ok {
          DirectoryIsPrefix(central, i, limits);
          return;
        }
      }
      assert central[..|central|] == central;
    }

    method SendRecord(e: CentralEntry) returns (ok: bool)
      requires Valid()
      modifies this
      ensures Valid()
      ensures if ok then sent == old(sent) + CentralRecord(e, limits) else sent == old(sent) && patience == 0
    {
      hide CentralExtra, CentralFixed;
      var offsetZip64 := e.offset >= limits.bytes;
      var extra := CentralExtra(e.zip64, e.size, offsetZip64, e.offset);
      var version := if extra == [] then 20 else 45;
      var record := CentralFixed(version, e.time, e.date, e.crc, if e.zip64 then U32_MAX else e.size, |e.name|, |extra|,
                                 if offsetZip64 then U32_MAX else e.offset) + e.name + extra;
      ok := Send(record);
    }

    /** Write the directory and trailer for the retained metadata. */
    method WriteCentralDirectory(central: seq<CentralEntry>) returns (ok: bool)
      requires Valid()
      modifies this
      ensures Valid()
      ensures
        var directory := Directory(central, limits);
        var whole := old(sent) + directory + TrailerBytes(|central|, |directory|, |old(sent)|, limits);
        if ok then sent == whole else old(sent) <= sent <= whole && patience == 0
    {
      hide Directory, Zip64Eocd, Zip64Locator, Eocd;
      var centralStart := offset;
      ok := SendDirectory(central);
      if !ok {
        return;
      }
      var size := offset - centralStart;
      var count := |central|;
      if centralStart >= limits.bytes || size >= limits.bytes || count >= limits.entries {
        var recordAt := offset;
        Prefixes(sent, Zip64Eocd(count, size, centralStart), Zip64Locator(recordAt), Eocd(count, size, centralStart));
        ok := Send(Zip64Eocd(count, size, centralStart));
        if !ok {
          return;
        }
        ok := Send(Zip64Locator(recordAt));
        if !ok {
          return;
        }
      }
      ok := Send(Eocd(count, size, centralStart));
    }

    /** The whole download. It fails only when a file cannot be read to its end or
        the client is gone. A run that completes sends exactly the archive of the
        readable files, which a reader recovers if and only if every member is
        faithful; any other run sends a prefix of it. */
    method StreamArchive(files: seq<File>) returns (ok: bool)
      requires Valid() && sent == []
      modifies this
      ensures
        var archive := Archive(Members(files), limits, crc);
        && (if ok then sent == archive else sent <= archive && (patience == 0 || exists f :: f in files && f.File? && f.readFails))
        && (ok ==> forall f :: f in files && f.File? ==> !f.readFails)
        && (ok && limits.Supported() && |archive| < U64_LIMIT && |Members(files)| < U64_LIMIT ==>
              (ReadArchive(sent, crc) == Some(Extracted(Members(files))) <==> AllFaithful(Members(files), limits)))
    {
      hide EntryBytes, CentralOf, TrailerBytes, Directory, ReadArchive;
      ghost var ms := Members(files);
      var central: seq<CentralEntry> := [];
      ok := true;
      for i := 0 to |files|
        invariant Valid() && ok && forall f :: f in files[..i] && f.File? ==> !f.readFails
        invariant sent == Locals(Members(files[..i]), limits, crc)
        invariant central == Retained(Members(files[..i]), limits, crc)
      {
        MembersStep(files, i, limits, crc);
        ok, central := WriteStoredEntry(central, files[i]);
        if !ok {
          return;
        }
      }
      assert files[..|files|] == files;
      ok := WriteCentralDirectory(central);
      if ok && limits.Supported() && |sent| < U64_LIMIT && |ms| < U64_LIMIT {
        RoundTripIff(ms, limits, crc);
      }
    }
  }

  lemma Prefixes(s: seq<Byte>, a: seq<Byte>, b: seq<Byte>, c: seq<Byte>)
    ensures s + a <= s + (a + b + c) && s + a + b <= s + (a + b + c) && s + a + b + c == s + (a + b + c)
  {
  }

  lemma {:induction false} DirectoryIsPrefix(es: seq<CentralEntry>, i: nat, limits: Limits)
    requires i <= |es|
    ensures Directory(es[..i], limits) <= Directory(es, limits)
    decreases |es|
  {
    hide CentralRecord;
    var n := |es| - 1;
    if i == |es| {
      assert es[..i] == es;
    } else {
      DirectoryIsPrefix(es[..n], i, limits);
      assert es[..n][..i] == es[..i];
    }
  }

  /** One more file extends the local entries and the metadata by one member, or
      by nothing; and what is sent for it stays inside the final archive. */
  lemma MembersStep(files: seq<File>, i: nat, limits: Limits, crc: Checksum)
    requires i < |files|
    ensures
      var ms, next := Members(files[..i]), Members(files[..i + 1]);
      var locals := Locals(ms, limits, crc);
      && (files[i].Unreadable? ==> next == ms)
      && (files[i].File? ==>
            && next == ms + [files[i].ToMember()]
            && Locals(next, limits, crc) == locals + EntryBytes(files[i].ToMember(), limits, crc)
            && Retained(next, limits, crc) ==
               Retained(ms, limits, crc) + [CentralOf(files[i].ToMember(), |locals|, limits, crc)])
      && Locals(next, limits, crc) <= Archive(Members(files), limits, crc)
  {
    hide EntryBytes, CentralOf, TrailerBytes, Directory;
    assert files[..i + 1][..i] == files[..i];
    var ms, next := Members(files[..i]), Members(files[..i + 1]);
    if files[i].File? {
      assert next[..|next| - 1] == ms;
    }
    LocalsGrow(files, i + 1, limits, crc);
  }

  lemma {:induction false} LocalsGrow(files: seq<File>, i: nat, limits: Limits, crc: Checksum)
    requires i <= |files|
    ensures Locals(Members(files[..i]), limits, crc) <= Locals(Members(files), limits, crc)
    decreases |files|
  {
    hide EntryBytes;
    var n := |files| - 1;
    if i == |files| {
      assert files[..i] == files;
    } else {
      LocalsGrow(files[..n], i, limits, crc);
      assert files[..n][..i] == files[..i];
      var ms, all := Members(files[..n]), Members(files);
      if files[n].File? {
        assert all == ms + [files[n].ToMember()] && all[..|all| - 1] == ms;
      } else {
        assert all == ms;
      }
    }
  }
}
