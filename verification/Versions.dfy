/** Reading and comparing release versions. */
module Versions {
  import opened Options
  import opened Text

  const U64_LIMIT: nat := 0x1_0000_0000_0000_0000

  /** Three numbers, the most significant first. */
  type Version = v: seq<nat> | |v| == 3 witness [0, 0, 0]

  /** One part of a version: decimal digits whose value fits 64 bits. */
  function PartValue(s: string): Option<nat> {
    if s == "" || !AllDigits(s) || Value(s) >= U64_LIMIT then None else Some(Value(s))
  }

  function SplitDots(s: string): (parts: seq<string>)
    ensures |parts| >= 1
  {
    if s == "" then [""]
    else
      var rest := SplitDots(s[1..]);
      if s[0] == '.' then [""] + rest else [[s[0]] + rest[0]] + rest[1..]
  }

  function StripV(s: string): string {
    if s != "" && s[0] == 'v' then s[1..] else s
  }

  /** `numeric_version`. */
  function NumericVersion(s: string): Option<Version> {
    var parts := SplitDots(StripV(Trim(s)));
    if |parts| != 3 then None
    else
      var a, b, c := PartValue(parts[0]), PartValue(parts[1]), PartValue(parts[2]);
      if a.None? || b.None? || c.None? then None else Some([a.value, b.value, c.value])
  }

  /** The parts are checked and stored one after the other. */
  method ParseVersion(s: string) returns (r: Option<Version>)
    ensures r == NumericVersion(s)
  {
    var parts := SplitDots(StripV(Trim(s)));
    if |parts| != 3 {
      return None;
    }
    var version := new nat[3](_ => 0);
    for i := 0 to 3
      invariant forall j :: 0 <= j < i ==> PartValue(parts[j]) == Some(version[j])
    {
      var part := PartValue(parts[i]);
      if part.None? {
        return None;
      }
      version[i] := part.value;
    }
    assert version[..] == [version[0], version[1], version[2]];
    return Some(version[..]);
  }

  // ---- What is a version -------------------------------------------------------

  function Dotted(x: string, y: string, z: string): string {
    x + "." + y + "." + z
  }

  lemma {:induction false} SplitFirst(x: string, rest: string)
    requires '.' !in x
    ensures SplitDots(x + "." + rest) == [x] + SplitDots(rest)
  {
    var s := x + "." + rest;
    if x == "" {
      assert s[1..] == rest;
    } else {
      assert s[1..] == x[1..] + "." + rest && s[0] == x[0];
      SplitFirst(x[1..], rest);
      assert [x[0]] + x[1..] == x;
    }
  }

  lemma {:induction false} SplitNone(x: string)
    requires '.' !in x
    ensures SplitDots(x) == [x]
  {
    if x != "" {
      SplitNone(x[1..]);
      assert [x[0]] + x[1..] == x;
    }
  }

  function Joined(parts: seq<string>): string
    requires parts != []
  {
    if |parts| == 1 then parts[0] else parts[0] + "." + Joined(parts[1..])
  }

  lemma {:induction false} SplitJoins(s: string)
    ensures Joined(SplitDots(s)) == s
  {
    if s != "" {
      SplitJoins(s[1..]);
      var rest := SplitDots(s[1..]);
      if s[0] == '.' {
        assert ([""] + rest)[1..] == rest;
        assert s == "" + "." + s[1..];
      } else {
        var parts := [[s[0]] + rest[0]] + rest[1..];
        assert parts[1..] == rest[1..];
        assert s == [s[0]] + s[1..];
      }
    }
  }

  lemma SplitDotted(x: string, y: string, z: string)
    requires '.' !in x && '.' !in y && '.' !in z
    ensures SplitDots(Dotted(x, y, z)) == [x, y, z]
  {
    assert Dotted(x, y, z) == x + "." + (y + "." + z);
    SplitFirst(x, y + "." + z);
    SplitFirst(y, z);
    SplitNone(z);
  }

  lemma JoinedThree(x: string, y: string, z: string)
    ensures Joined([x, y, z]) == Dotted(x, y, z)
  {
    assert [x, y, z][1..] == [y, z] && [y, z][1..] == [z];
    assert Joined([y, z]) == y + "." + z;
    assert x + "." + (y + "." + z) == Dotted(x, y, z);
  }

  /** Trimmed text is a version exactly when, after at most one leading `v`, it
      is three dotted decimal numbers that fit 64 bits. */
  ghost predicate Reads(s: string, v: Version) {
    exists x, y, z ::
      && (Trim(s) == Dotted(x, y, z) || Trim(s) == "v" + Dotted(x, y, z))
      && PartValue(x) == Some(v[0]) && PartValue(y) == Some(v[1]) && PartValue(z) == Some(v[2])
  }

  lemma VersionIff(s: string, v: Version)
    ensures NumericVersion(s) == Some(v) <==> Reads(s, v)
  {
    hide Reads, NumericVersion;
    if NumericVersion(s) == Some(v) {
      VersionReads(s, v);
    }
    if Reads(s, v) {
      ReadsVersion(s, v);
    }
  }

  lemma VersionReads(s: string, v: Version)
    requires NumericVersion(s) == Some(v)
    ensures Reads(s, v)
  {
    hide SplitDots, Trim, PartValue;
    var t := Trim(s);
    var parts := SplitDots(StripV(t));
    SplitJoins(StripV(t));
    assert parts == [parts[0], parts[1], parts[2]];
    JoinedThree(parts[0], parts[1], parts[2]);
    assert t == StripV(t) || t == "v" + StripV(t);
  }

  lemma ReadsVersion(s: string, v: Version)
    requires Reads(s, v)
    ensures NumericVersion(s) == Some(v)
  {
    hide SplitDots, Trim;
    var t := Trim(s);
    var x, y, z :| && (t == Dotted(x, y, z) || t == "v" + Dotted(x, y, z))
                   && PartValue(x) == Some(v[0]) && PartValue(y) == Some(v[1]) && PartValue(z) == Some(v[2]);
    assert IsDigit(Dotted(x, y, z)[0]);
    assert StripV(t) == Dotted(x, y, z);
    SplitDotted(x, y, z);
    assert [v[0], v[1], v[2]] == v;
  }

  /** A number written in decimal is read as itself, with any zeros in front, as long as it fits 64 bits. */
  lemma {:induction false} PartReads(n: nat, zeros: nat)
    ensures PartValue(seq(zeros, _ => '0') + Decimal(n)) == if n < U64_LIMIT then Some(n) else None
  {
    DecimalReads(n);
    LeadingZeros(Decimal(n), zeros);
    hide Value, Decimal;
  }

  // ---- Order ---------------------------------------------------------------------

  predicate Less(a: Version, b: Version) {
    a[0] < b[0] || (a[0] == b[0] && (a[1] < b[1] || (a[1] == b[1] && a[2] < b[2])))
  }

  /** `stable_target_is_newer`. */
  predicate Newer(installed: string, candidate: string, draft: bool, prerelease: bool) {
    && !draft && !prerelease
    && NumericVersion(installed).Some? && NumericVersion(candidate).Some?
    && Less(NumericVersion(installed).value, NumericVersion(candidate).value)
  }

  /** Releases that are neither drafts nor prereleases are strictly ordered: no
      chain of updates returns to where it was, and of two different versions
      exactly one is newer. */
  lemma NewerIsStrictOrder(a: string, b: string, c: string)
    ensures !Newer(a, a, false, false)
    ensures Newer(a, b, false, false) && Newer(b, c, false, false) ==> Newer(a, c, false, false)
    ensures NumericVersion(a).Some? && NumericVersion(b).Some? ==>
              (NumericVersion(a) == NumericVersion(b) <==> !Newer(a, b, false, false) && !Newer(b, a, false, false))
  {
  }

  /** Newer means: the first of the three numbers that differs is greater. */
  lemma NewerIff(installed: string, candidate: string, draft: bool, prerelease: bool, a: Version, b: Version)
    requires NumericVersion(installed) == Some(a) && NumericVersion(candidate) == Some(b)
    ensures Newer(installed, candidate, draft, prerelease) <==>
            !draft && !prerelease && exists k: nat :: k < 3 && a[..k] == b[..k] && a[k] < b[k]
  {
    hide NumericVersion;
    assert a[..0] == b[..0] && (a[..1] == b[..1] <==> a[0] == b[0]);
    assert a[..2] == b[..2] <==> a[0] == b[0] && a[1] == b[1] by {
      assert a[..2] == [a[0], a[1]] && b[..2] == [b[0], b[1]];
    }
    if Less(a, b) {
      var k: nat := if a[0] < b[0] then 0 else if a[1] < b[1] then 1 else 2;
      assert a[..k] == b[..k] && a[k] < b[k];
    }
    if k: nat :| k < 3 && a[..k] == b[..k] && a[k] < b[k] {
      assert k == 0 || k == 1 || k == 2;
    }
  }

  /** Nothing is newer than, or older than, text that is no version. */
  lemma NewerNeedsVersions(installed: string, candidate: string, draft: bool, prerelease: bool)
    ensures Newer(installed, candidate, draft, prerelease) ==> NumericVersion(installed).Some? && NumericVersion(candidate).Some?
  {
  }
}
