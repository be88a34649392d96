/** Whole archives: what the reader of `ZipFormat` makes of the bytes of
    `ZipWriter.Archive`, for every list of files and every supported threshold. */
module ZipRoundTrip {
  import opened LittleEndian
  import opened Options
  import opened ZipFormat
  import opened ZipWriter

  function Extracted(ms: seq<Member>): seq<Entry> {
    seq(|ms|, i requires 0 <= i < |ms| => ms[i].Extracted())
  }

  lemma {:induction false} LocalsPrefix(ms: seq<Member>, i: nat, limits: Limits, crc: Checksum)
    requires i < |ms|
    ensures Holds(Locals(ms, limits, crc), |Locals(ms[..i], limits, crc)|, EntryBytes(ms[i], limits, crc))
  {
    hide EntryBytes;
    var n := |ms| - 1;
    var head, last := Locals(ms[..n], limits, crc), EntryBytes(ms[n], limits, crc);
    if i < n {
      LocalsPrefix(ms[..n], i, limits, crc);
      assert ms[..n][..i] == ms[..i];
      HoldsExtends(head, |Locals(ms[..i], limits, crc)|, EntryBytes(ms[i], limits, crc), last);
    } else {
      HoldsInConcat(head, last, []);
      assert head + last + [] == head + last;
    }
  }

  lemma HoldsExtends(s: seq<Byte>, p: nat, r: seq<Byte>, t: seq<Byte>)
    requires Holds(s, p, r)
    ensures Holds(s + t, p, r)
  {
  }

  lemma {:induction false} RetainedAt(ms: seq<Member>, i: nat, limits: Limits, crc: Checksum)
    requires i < |ms|
    ensures Retained(ms, limits, crc)[i] == CentralOf(ms[i], |Locals(ms[..i], limits, crc)|, limits, crc)
  {
    hide Locals, CentralOf;
    var n := |ms| - 1;
    if i < n {
      RetainedAt(ms[..n], i, limits, crc);
      assert ms[..n][..i] == ms[..i];
    }
  }

  lemma {:induction false} DirectoryPrefix(es: seq<CentralEntry>, i: nat, limits: Limits)
    requires i < |es|
    ensures Holds(Directory(es, limits), |Directory(es[..i], limits)|, CentralRecord(es[i], limits))
    ensures |Directory(es[..i + 1], limits)| == |Directory(es[..i], limits)| + |CentralRecord(es[i], limits)|
  {
    hide CentralRecord;
    var n := |es| - 1;
    var head, last := Directory(es[..n], limits), CentralRecord(es[n], limits);
    assert es[..i + 1][..i] == es[..i];
    if i < n {
      DirectoryPrefix(es[..n], i, limits);
      assert es[..n][..i] == es[..i];
      HoldsExtends(head, |Directory(es[..i], limits)|, CentralRecord(es[i], limits), last);
    } else {
      HoldsInConcat(head, last, []);
      assert head + last + [] == head + last;
      assert es[..i + 1] == es;
    }
  }

  /** The parts of an archive, each where the trailer and the retained metadata say it is. */
  lemma Parts(ms: seq<Member>, limits: Limits, crc: Checksum)
    ensures
      var s := Archive(ms, limits, crc);
      var locals := Locals(ms, limits, crc);
      var directory := Directory(Retained(ms, limits, crc), limits);
      var tail := TrailerBytes(|ms|, |directory|, |locals|, limits);
      && Holds(s, 0, locals) && Holds(s, |locals|, directory) && Holds(s, |locals| + |directory|, tail)
      && |s| == |locals| + |directory| + |tail|
  {
    hide Locals, Retained, Directory, TrailerBytes;
    var s := Archive(ms, limits, crc);
    var locals := Locals(ms, limits, crc);
    var directory := Directory(Retained(ms, limits, crc), limits);
    var tail := TrailerBytes(|ms|, |directory|, |locals|, limits);
    HoldsSplit(s, 0, locals + directory, tail);
    HoldsSplit(s, 0, locals, directory);
  }

  /** The `i`-th local entry and the `i`-th central record inside the archive. */
  lemma PartAt(ms: seq<Member>, i: nat, limits: Limits, crc: Checksum)
    requires i < |ms|
    ensures
      var s := Archive(ms, limits, crc);
      var es := Retained(ms, limits, crc);
      && es[i] == CentralOf(ms[i], es[i].offset, limits, crc)
      && Holds(s, es[i].offset, EntryBytes(ms[i], limits, crc))
      && Holds(s, |Locals(ms, limits, crc)| + |Directory(es[..i], limits)|, CentralRecord(es[i], limits))
      && |Directory(es[..i + 1], limits)| == |Directory(es[..i], limits)| + |CentralRecord(es[i], limits)|
      && es[i].size <= |s| && es[i].offset <= |s|
  {
    hide *;
    var s := Archive(ms, limits, crc);
    var locals := Locals(ms, limits, crc);
    var es := Retained(ms, limits, crc);
    Parts(ms, limits, crc);
    RetainedAt(ms, i, limits, crc);
    LocalsPrefix(ms, i, limits, crc);
    DirectoryPrefix(es, i, limits);
    var at := |Locals(ms[..i], limits, crc)|;
    CentralOfOffset(ms[i], at, limits, crc);
    HoldsInside(s, 0, locals, at, EntryBytes(ms[i], limits, crc));
    HoldsInside(s, |locals|, Directory(es, limits), |Directory(es[..i], limits)|, CentralRecord(es[i], limits));
    HoldsFits(s, at, EntryBytes(ms[i], limits, crc));
  }

  lemma HoldsFits(s: seq<Byte>, p: nat, r: seq<Byte>)
    requires Holds(s, p, r)
    ensures p + |r| <= |s|
  {
  }

  lemma CentralOfOffset(m: Member, at: nat, limits: Limits, crc: Checksum)
    ensures CentralOf(m, at, limits, crc).offset == at && CentralOf(m, at, limits, crc).size == |m.data|
    ensures |m.data| <= |EntryBytes(m, limits, crc)|
  {
  }

  function Infos(es: seq<CentralEntry>): (r: seq<Info>)
    ensures |r| == |es|
  {
    seq(|es|, i requires 0 <= i < |es| => es[i].ToInfo())
  }

  predicate AllFaithful(ms: seq<Member>, limits: Limits) {
    forall i :: 0 <= i < |ms| ==> ms[i].Faithful(limits)
  }

  /** From the `i`-th central record on, the reader sees the remaining records. */
  lemma {:induction false} DirectoryReads(ms: seq<Member>, i: nat, limits: Limits, crc: Checksum)
    requires i <= |ms| && limits.Supported() && AllFaithful(ms, limits) && |Archive(ms, limits, crc)| < U64_LIMIT
    ensures
      var es := Retained(ms, limits, crc);
      var start := |Locals(ms, limits, crc)|;
      ReadDirectory(Archive(ms, limits, crc), start + |Directory(es[..i], limits)|, |ms| - i)
      == Some((Infos(es)[i..], start + |Directory(es, limits)|))
    decreases |ms| - i
  {
    hide Archive, Locals, Retained, Directory, CentralRecord, ReadCentral, CentralOf;
    var es := Retained(ms, limits, crc);
    if i == |ms| {
      assert es[..i] == es;
    } else {
      PartAt(ms, i, limits, crc);
      CentralOfOffset(ms[i], es[i].offset, limits, crc);
      CentralKeeps(ms[i], es[i].offset, limits, crc);
      CentralReads(Archive(ms, limits, crc), |Locals(ms, limits, crc)| + |Directory(es[..i], limits)|, es[i], limits);
      DirectoryReads(ms, i + 1, limits, crc);
      assert Infos(es)[i..] == [es[i].ToInfo()] + Infos(es)[i + 1..];
    }
  }

  lemma CentralKeeps(m: Member, at: nat, limits: Limits, crc: Checksum)
    ensures CentralOf(m, at, limits, crc).name == m.name && CentralOf(m, at, limits, crc).zip64 == m.Zip64(limits)
  {
  }

  lemma {:induction false} MembersRead(ms: seq<Member>, i: nat, limits: Limits, crc: Checksum)
    requires i <= |ms| && AllFaithful(ms, limits) && |Archive(ms, limits, crc)| < U64_LIMIT
    ensures ReadMembers(Archive(ms, limits, crc), Infos(Retained(ms, limits, crc))[i..], crc) == Some(Extracted(ms)[i..])
    decreases |ms| - i
  {
    hide Archive, Locals, Retained, Directory, CentralRecord, ReadMember, CentralOf, EntryBytes;
    var s, es := Archive(ms, limits, crc), Retained(ms, limits, crc);
    var infos := Infos(es);
    if i < |ms| {
      PartAt(ms, i, limits, crc);
      assert infos[i] == CentralOf(ms[i], infos[i].offset, limits, crc).ToInfo();
      CentralOfOffset(ms[i], infos[i].offset, limits, crc);
      MemberReads(s, infos[i].offset, ms[i], limits, crc);
      MembersRead(ms, i + 1, limits, crc);
      assert infos[i..][0] == infos[i] && infos[i..][1..] == infos[i + 1..];
      assert Extracted(ms)[i..] == [ms[i].Extracted()] + Extracted(ms)[i + 1..];
    } else {
      assert infos[i..] == [] && Extracted(ms)[i..] == [];
    }
  }

  /** A complete stream of faithful entries is read back as exactly those entries. */
  lemma RoundTrip(ms: seq<Member>, limits: Limits, crc: Checksum)
    requires limits.Supported() && AllFaithful(ms, limits) && |Archive(ms, limits, crc)| < U64_LIMIT
    requires |ms| < U64_LIMIT
    ensures ReadArchive(Archive(ms, limits, crc), crc) == Some(Extracted(ms))
  {
    hide Archive, Locals, Retained, Directory, TrailerBytes, ReadTrailer, ReadDirectory, ReadMembers;
    var s, es := Archive(ms, limits, crc), Retained(ms, limits, crc);
    var locals, directory := Locals(ms, limits, crc), Directory(es, limits);
    Parts(ms, limits, crc);
    TrailerReads(s, |locals| + |directory|, |ms|, |directory|, |locals|, limits);
    DirectoryReads(ms, 0, limits, crc);
    DirectoryOfNone(es, limits);
    MembersRead(ms, 0, limits, crc);
    assert Infos(es)[0..] == Infos(es) && Extracted(ms)[0..] == Extracted(ms);
  }

  lemma DirectoryOfNone(es: seq<CentralEntry>, limits: Limits)
    ensures |Directory(es[..0], limits)| == 0
  {
  }

  // ---- The exact condition -------------------------------------------------

  /** If the reader gets past the first unfaithful entry at all, the record it
      reports there is not the one that was written. */
  lemma {:induction false} DirectoryGarbles(ms: seq<Member>, i: nat, bad: nat, limits: Limits, crc: Checksum)
    requires i <= bad < |ms| && limits.Supported() && |Archive(ms, limits, crc)| < U64_LIMIT
    requires forall j :: 0 <= j < bad ==> ms[j].Faithful(limits)
    requires !ms[bad].Faithful(limits)
    ensures
      var es := Retained(ms, limits, crc);
      var r := ReadDirectory(Archive(ms, limits, crc), |Locals(ms, limits, crc)| + |Directory(es[..i], limits)|, |ms| - i);
      r.Some? ==>
        && |r.value.0| == |ms| - i
        && (r.value.0[bad - i].name != ms[bad].name || r.value.0[bad - i].size != |ms[bad].data|)
    decreases bad - i
  {
    hide Archive, Locals, Retained, Directory, CentralRecord, ReadCentral, CentralOf;
    var s, es := Archive(ms, limits, crc), Retained(ms, limits, crc);
    var p := |Locals(ms, limits, crc)| + |Directory(es[..i], limits)|;
    PartAt(ms, i, limits, crc);
    CentralOfOffset(ms[i], es[i].offset, limits, crc);
    CentralKeeps(ms[i], es[i].offset, limits, crc);
    if i < bad {
      CentralReads(s, p, es[i], limits);
      DirectoryGarbles(ms, i + 1, bad, limits, crc);
    } else {
      CentralGarbles(s, p, es[i], limits);
      if ReadCentral(s, p).Some? {
        DirectoryLength(s, ReadCentral(s, p).value.1, |ms| - i - 1);
      }
    }
  }

  lemma {:induction false} DirectoryLength(s: seq<Byte>, at: nat, count: nat)
    ensures ReadDirectory(s, at, count).Some? ==> |ReadDirectory(s, at, count).value.0| == count
    decreases count
  {
    if count > 0 && ReadCentral(s, at).Some? {
      DirectoryLength(s, ReadCentral(s, at).value.1, count - 1);
    }
  }

  /** Whatever is extracted carries the name and the size its central record states. */
  lemma {:induction false} MembersAgree(s: seq<Byte>, infos: seq<Info>, crc: Checksum, i: nat)
    requires i < |infos| && ReadMembers(s, infos, crc).Some?
    ensures
      var es := ReadMembers(s, infos, crc).value;
      |es| == |infos| && es[i].name == infos[i].name && |es[i].data| == infos[i].size
    decreases |infos|
  {
    var entry := ReadMember(s, infos[0], crc).value;
    var rest := ReadMembers(s, infos[1..], crc).value;
    if |infos| > 1 {
      MembersAgree(s, infos[1..], crc, if i > 0 then i - 1 else 0);
    }
  }

  lemma FirstUnfaithful(ms: seq<Member>, limits: Limits) returns (bad: nat)
    requires !AllFaithful(ms, limits)
    ensures bad < |ms| && !ms[bad].Faithful(limits) && forall j :: 0 <= j < bad ==> ms[j].Faithful(limits)
  {
    bad := 0;
    while ms[bad].Faithful(limits)
      invariant bad < |ms| && forall j :: 0 <= j < bad ==> ms[j].Faithful(limits)
      decreases |ms| - bad
    {
      bad := bad + 1;
      if bad == |ms| {
        assert false;
      }
    }
  }

  /** The archive is read back as the files that went in if and only if every
      name fits 16 bits and every file not marked ZIP64 by its stat size is
      really smaller than 0xFFFFFFFF bytes. The condition mentions only the files and the thresholds. */
  lemma RoundTripIff(ms: seq<Member>, limits: Limits, crc: Checksum)
    requires limits.Supported() && |Archive(ms, limits, crc)| < U64_LIMIT && |ms| < U64_LIMIT
    ensures ReadArchive(Archive(ms, limits, crc), crc) == Some(Extracted(ms)) <==>
            forall i :: 0 <= i < |ms| ==> |ms[i].name| <= 0xFFFF && (ms[i].stat >= limits.bytes || |ms[i].data| < 0xFFFF_FFFF)
  {
    if AllFaithful(ms, limits) {
      RoundTrip(ms, limits, crc);
    } else {
      var bad := FirstUnfaithful(ms, limits);
      UnfaithfulLost(ms, bad, limits, crc);
    }
  }

  lemma UnfaithfulLost(ms: seq<Member>, bad: nat, limits: Limits, crc: Checksum)
    requires limits.Supported() && |Archive(ms, limits, crc)| < U64_LIMIT && |ms| < U64_LIMIT
    requires bad < |ms| && !ms[bad].Faithful(limits) && forall j :: 0 <= j < bad ==> ms[j].Faithful(limits)
    ensures ReadArchive(Archive(ms, limits, crc), crc) != Some(Extracted(ms))
  {
    hide Archive, Locals, Retained, Directory, TrailerBytes, ReadTrailer, ReadDirectory, ReadMembers;
    var s, es := Archive(ms, limits, crc), Retained(ms, limits, crc);
    var locals, directory := Locals(ms, limits, crc), Directory(es, limits);
    Parts(ms, limits, crc);
    TrailerReads(s, |locals| + |directory|, |ms|, |directory|, |locals|, limits);
    DirectoryOfNone(es, limits);
    DirectoryGarbles(ms, 0, bad, limits, crc);
    if ReadArchive(s, crc).Some? {
      var infos := ReadDirectory(s, |locals|, |ms|).value.0;
      MembersAgree(s, infos, crc, bad);
      assert Extracted(ms)[bad] == ms[bad].Extracted();
    }
  }

  /** Files whose size did not change while they were read, under names that fit,
      are always recovered, whatever their size. */
  lemma TruthfulSurvive(ms: seq<Member>, limits: Limits, crc: Checksum)
    requires limits.Supported() && |Archive(ms, limits, crc)| < U64_LIMIT && |ms| < U64_LIMIT
    requires forall i :: 0 <= i < |ms| ==> |ms[i].name| <= 0xFFFF && ms[i].stat == |ms[i].data|
    ensures ReadArchive(Archive(ms, limits, crc), crc) == Some(Extracted(ms))
  {
    hide Archive, ReadArchive, Extracted;
    assert AllFaithful(ms, limits);
    RoundTrip(ms, limits, crc);
  }

  // ---- Files that do not survive ---------------------------------------------

  lemma OneEntrySize(m: Member, limits: Limits, crc: Checksum)
    ensures |Archive([m], limits, crc)| <= 2 * |m.name| + |m.data| + 250
  {
    hide LocalFixed, LocalExtra, Descriptor, CentralFixed, CentralExtra, Zip64Eocd, Zip64Locator, Eocd;
    var es := Retained([m], limits, crc);
    assert Locals([m][..0], limits, crc) == [] && Directory(es[..0], limits) == [];
    assert es[0].name == m.name;
  }

  /** A file name one byte too long, under the production thresholds. */
  lemma LongNameLost(crc: Checksum)
    ensures
      var ms := [Member(seq(0x1_0000, _ => 97), 0, 0, 0, [])];
      ReadArchive(Archive(ms, Limits(U32_MAX, U16_MAX), crc), crc) != Some(Extracted(ms))
  {
    hide Archive, ReadArchive, Extracted;
    var m := Member(seq(0x1_0000, _ => 97), 0, 0, 0, []);
    OneEntrySize(m, Limits(U32_MAX, U16_MAX), crc);
    LongUnfaithful(m, Limits(U32_MAX, U16_MAX));
    UnfaithfulLost([m], 0, Limits(U32_MAX, U16_MAX), crc);
  }

  /** A file that was empty when its size was looked up and has grown to 4 GiB when it is read. */
  lemma GrownFileLost(crc: Checksum)
    ensures
      var ms := [Member([], 0, 0, 0, seq(0x1_0000_0000, _ => 0))];
      ReadArchive(Archive(ms, Limits(U32_MAX, U16_MAX), crc), crc) != Some(Extracted(ms))
  {
    hide Archive, ReadArchive, Extracted;
    var m := Member([], 0, 0, 0, seq(0x1_0000_0000, _ => 0));
    OneEntrySize(m, Limits(U32_MAX, U16_MAX), crc);
    LongUnfaithful(m, Limits(U32_MAX, U16_MAX));
    UnfaithfulLost([m], 0, Limits(U32_MAX, U16_MAX), crc);
  }

  lemma LongUnfaithful(m: Member, limits: Limits)
    requires limits == Limits(U32_MAX, U16_MAX) && m.stat == 0 && (|m.name| == 0x1_0000 || |m.data| == 0x1_0000_0000)
    ensures limits.Supported() && !m.Faithful(limits)
  {
  }
}
