/** The JSON reply chunker of the BLE daemon: a reply longer than one message is
    cut into slices by a greedy binary search, and every slice is wrapped in an
    envelope that names the request, the chunk count and the chunk index.
    Messages are spelled out as `json.dumps` writes them (ASCII only). */
module JsonChunks {
  import opened Options
  import opened Sequences
  import opened Text

  function HexDigit(d: nat): char
    requires d < 16
  {
    "0123456789abcdef"[d]
  }

  function Hex4(n: nat): (s: string)
    ensures |s| == 4
  {
    [HexDigit(n / 0x1000 % 16), HexDigit(n / 0x100 % 16), HexDigit(n / 0x10 % 16), HexDigit(n % 16)]
  }

  /** One character inside a JSON string, with everything outside ' '..'~' escaped. */
  function EscapeChar(c: char): (s: string)
    ensures |s| >= 1
  {
    var n := c as int;
    if c == '\"' then "\\\"" else if c == '\\' then "\\\\"
    else if n == 8 then "\\b" else if n == 9 then "\\t" else if n == 10 then "\\n"
    else if n == 12 then "\\f" else if n == 13 then "\\r"
    else if ' ' <= c <= '~' then [c]
    else if n < 0x1_0000 then "\\u" + Hex4(n)
    else
      var v := n - 0x1_0000;
      "\\u" + Hex4(0xD800 + v / 0x400) + "\\u" + Hex4(0xDC00 + v % 0x400)
  }

  function Escape(s: string): string {
    if s == "" then "" else EscapeChar(s[0]) + Escape(s[1..])
  }

  /** One chunk message; `id` is the request id as JSON text. */
  function Envelope(id: string, chunks: nat, chunk: nat, data: string): string {
    "{\"id\": " + id + ", \"chunks\": " + Decimal(chunks) + ", \"chunk\": " + Decimal(chunk)
    + ", \"data\": \"" + Escape(data) + "\"}"
  }

  /** The size test the chunker applies: zeros stand in for the count and the index. */
  predicate Fits(id: string, data: string, maxMsg: int) {
    |Envelope(id, 0, 0, data)| <= maxMsg
  }

  // ---- Sizes ---------------------------------------------------------------

  lemma {:induction false} EscapeConcat(a: string, b: string)
    ensures Escape(a + b) == Escape(a) + Escape(b)
  {
    hide EscapeChar;
    if a == "" {
      assert a + b == b;
    } else {
      EscapeConcat(a[1..], b);
      assert (a + b)[1..] == a[1..] + b;
    }
  }

  /** A piece of a fitting string fits. */
  lemma FitsPart(id: string, a: string, b: string, c: string, maxMsg: int)
    requires Fits(id, a + b + c, maxMsg)
    ensures Fits(id, b, maxMsg)
  {
    hide Envelope, Escape, Decimal;
    EscapeConcat(a + b, c);
    EscapeConcat(a, b);
    EnvelopeSize(id, 0, 0, a + b + c);
    EnvelopeSize(id, 0, 0, b);
  }

  lemma EnvelopeSize(id: string, chunks: nat, chunk: nat, data: string)
    ensures |Envelope(id, chunks, chunk, data)| == |id| + |Decimal(chunks)| + |Decimal(chunk)| + |Escape(data)| + 43
  {
  }

  lemma DecimalSize(n: nat)
    ensures n < 10 ==> |Decimal(n)| == 1
    ensures n < 100 ==> |Decimal(n)| <= 2
    ensures n < 1000 ==> |Decimal(n)| <= 3
    ensures n <= 1000 ==> |Decimal(n)| <= 4
  {
  }

  // ---- What a client reads from a message ------------------------------------------

  function HexValue(c: char): Option<nat> {
    if '0' <= c <= '9' then Some((c - '0') as nat)
    else if 'a' <= c <= 'f' then Some((c - 'a') as nat + 10)
    else None
  }

  function ReadHex4(s: string): Option<nat> {
    if |s| < 4 || HexValue(s[0]).None? || HexValue(s[1]).None? || HexValue(s[2]).None? || HexValue(s[3]).None? then None
    else Some(0x1000 * HexValue(s[0]).value + 0x100 * HexValue(s[1]).value + 0x10 * HexValue(s[2]).value + HexValue(s[3]).value)
  }

  function SimpleEscape(c: char): Option<char> {
    match c
    case '\"' => Some('\"')
    case '\\' => Some('\\')
    case 'b' => Some(8 as char)
    case 't' => Some(9 as char)
    case 'n' => Some(10 as char)
    case 'f' => Some(12 as char)
    case 'r' => Some(13 as char)
    case _ => None
  }

  /** A character given by its code unit, or by a pair of surrogates. */
  function ReadUnicode(s: string): Option<(char, string)> {
    match ReadHex4(s)
    case None => None
    case Some(n) =>
      if n < 0xD800 || n >= 0xE000 then Some((n as char, s[4..]))
      else if n >= 0xDC00 || |s| < 10 || s[4..6] != "\\u" || ReadHex4(s[6..]).None? then None
      else
        var low := ReadHex4(s[6..]).value;
        if low < 0xDC00 || low >= 0xE000 then None
        else Some(((0x1_0000 + (n - 0xD800) * 0x400 + (low - 0xDC00)) as char, s[10..]))
  }

  /** The next character of a JSON string. */
  function ReadChar(s: string): Option<(char, string)> {
    if s == "" || s[0] == '\"' then None
    else if s[0] != '\\' then Some((s[0], s[1..]))
    else if |s| < 2 then None
    else if SimpleEscape(s[1]).Some? then Some((SimpleEscape(s[1]).value, s[2..]))
    else if s[1] == 'u' then ReadUnicode(s[2..])
    else None
  }

  /** The characters up to the closing quote, and what follows it. */
  function ReadString(s: string): Option<(string, string)>
    decreases |s|
  {
    if s == "" then None
    else if s[0] == '\"' then Some(("", s[1..]))
    else
      match ReadChar(s)
      case None => None
      case Some((c, rest)) =>
        if |rest| >= |s| then None
        else
          match ReadString(rest)
          case None => None
          case Some((tail, after)) => Some(([c] + tail, after))
  }

  function After(s: string, prefix: string): Option<string> {
    if prefix <= s then Some(s[|prefix|..]) else None
  }

  function ReadNumber(s: string): Option<(nat, string)> {
    var digits := DigitPrefix(s);
    if digits == "" then None else Some((Value(digits), s[|digits|..]))
  }

  /** Chunk count, chunk index and data of a message for the request `id`. */
  function ReadEnvelope(id: string, msg: string): Option<(nat, nat, string)> {
    match After(msg, "{\"id\": " + id + ", \"chunks\": ")
    case None => None
    case Some(a) =>
      match ReadNumber(a)
      case None => None
      case Some((chunks, b)) =>
        match After(b, ", \"chunk\": ")
        case None => None
        case Some(c) =>
          match ReadNumber(c)
          case None => None
          case Some((chunk, d)) =>
            match After(d, ", \"data\": \"")
            case None => None
            case Some(e) =>
              match ReadString(e)
              case None => None
              case Some((data, end)) => if end == "}" then Some((chunks, chunk, data)) else None
  }

  lemma HexDigitReads(d: nat)
    requires d < 16
    ensures HexValue(HexDigit(d)) == Some(d)
  {
  }

  lemma Hex4Reads(n: nat, t: string)
    requires n < 0x1_0000
    ensures ReadHex4(Hex4(n) + t) == Some(n)
  {
    hide HexDigit, HexValue;
    HexDigitReads(n / 0x1000 % 16);
    HexDigitReads(n / 0x100 % 16);
    HexDigitReads(n / 0x10 % 16);
    HexDigitReads(n % 16);
    FourHexDigits(n);
  }

  lemma FourHexDigits(n: nat)
    requires n < 0x1_0000
    ensures 0x1000 * (n / 0x1000 % 16) + 0x100 * (n / 0x100 % 16) + 0x10 * (n / 0x10 % 16) + n % 16 == n
  {
    var a := n / 16;
    var b := a / 16;
    assert n / 0x100 == b && n / 0x1000 == b / 16;
  }

  lemma UnicodeReads(c: char, t: string)
    requires c as int < 0x1_0000
    ensures ReadUnicode(Hex4(c as int) + t) == Some((c, t))
  {
    var n := c as int;
    Hex4Reads(n, t);
    hide Hex4, ReadHex4;
    assert (Hex4(n) + t)[4..] == t;
  }

  lemma SurrogatesRead(c: char, t: string)
    requires c as int >= 0x1_0000
    ensures
      var v := c as int - 0x1_0000;
      ReadUnicode(Hex4(0xD800 + v / 0x400) + "\\u" + Hex4(0xDC00 + v % 0x400) + t) == Some((c, t))
  {
    var v := c as int - 0x1_0000;
    hide Hex4, ReadHex4;
    var hi, lo := 0xD800 + v / 0x400, 0xDC00 + v % 0x400;
    assert hi < 0xDC00 && lo < 0xE000 && (hi - 0xD800) * 0x400 + (lo - 0xDC00) == v;
    PairReads(hi, lo, t);
  }

  lemma PairReads(hi: nat, lo: nat, t: string)
    requires 0xD800 <= hi < 0xDC00 <= lo < 0xE000
    ensures ReadUnicode(Hex4(hi) + "\\u" + Hex4(lo) + t) ==
            Some(((0x1_0000 + (hi - 0xD800) * 0x400 + (lo - 0xDC00)) as char, t))
  {
    hide Hex4, ReadHex4;
    var s := Hex4(hi) + "\\u" + Hex4(lo) + t;
    assert s == Hex4(hi) + ("\\u" + Hex4(lo) + t);
    Hex4Reads(hi, "\\u" + Hex4(lo) + t);
    Hex4Reads(lo, t);
    assert s[4..6] == "\\u" && s[6..] == Hex4(lo) + t && s[10..] == t;
  }

  lemma CodedReads(u: string, c: char, t: string)
    requires ReadUnicode(u + t) == Some((c, t))
    ensures ReadChar("\\u" + u + t) == Some((c, t))
  {
    hide ReadUnicode;
    var s := "\\u" + u + t;
    assert s[0] == '\\' && s[1] == 'u' && s[2..] == u + t;
  }

  lemma HighCharReads(c: char, t: string)
    requires c as int >= 0x1_0000
    ensures ReadChar(EscapeChar(c) + t) == Some((c, t)) && EscapeChar(c)[0] == '\\'
  {
    hide Hex4, ReadUnicode, ReadChar;
    var v := c as int - 0x1_0000;
    var u := Hex4(0xD800 + v / 0x400) + "\\u" + Hex4(0xDC00 + v % 0x400);
    SurrogatesRead(c, t);
    CodedReads(u, c, t);
    assert EscapeChar(c) == "\\u" + Hex4(0xD800 + v / 0x400) + "\\u" + Hex4(0xDC00 + v % 0x400);
    hide EscapeChar;
    assert "\\u" + Hex4(0xD800 + v / 0x400) + "\\u" + Hex4(0xDC00 + v % 0x400) == "\\u" + u;
  }

  /** A character written as itself or with a short escape. */
  predicate Short(c: char) {
    ' ' <= c <= '~' || c as int in [8, 9, 10, 12, 13]
  }

  lemma CodedCharReads(c: char, t: string)
    requires c as int < 0x1_0000 && !Short(c)
    ensures ReadChar(EscapeChar(c) + t) == Some((c, t)) && EscapeChar(c)[0] == '\\'
  {
    hide Hex4, ReadUnicode, ReadChar;
    UnicodeReads(c, t);
    CodedReads(Hex4(c as int), c, t);
    assert EscapeChar(c) == "\\u" + Hex4(c as int);
  }

  lemma ShortCharReads(c: char, t: string)
    requires Short(c)
    ensures ReadChar(EscapeChar(c) + t) == Some((c, t)) && EscapeChar(c)[0] != '\"'
  {
    hide Hex4, ReadUnicode;
    var e := EscapeChar(c);
    assert (e + t)[|e|..] == t;
    assert |e| == 1 || |e| == 2;
  }

  /** Whatever a character is written as is read back as that character. */
  lemma CharReads(c: char, t: string)
    ensures ReadChar(EscapeChar(c) + t) == Some((c, t)) && EscapeChar(c)[0] != '\"'
  {
    hide EscapeChar, ReadChar;
    if c as int >= 0x1_0000 {
      HighCharReads(c, t);
    } else if Short(c) {
      ShortCharReads(c, t);
    } else {
      CodedCharReads(c, t);
    }
  }

  /** An escaped string is read back whole. */
  lemma {:induction false} StringReads(d: string, rest: string)
    ensures ReadString(Escape(d) + "\"" + rest) == Some((d, rest))
  {
    var s := Escape(d) + "\"" + rest;
    if d == "" {
      assert s[1..] == rest;
    } else {
      var t := Escape(d[1..]) + "\"" + rest;
      assert s == EscapeChar(d[0]) + t;
      CharReads(d[0], t);
      StringReads(d[1..], rest);
      hide EscapeChar, ReadChar;
      assert [d[0]] + d[1..] == d;
    }
  }

  lemma NumberReads(n: nat, rest: string)
    requires rest == "" || !IsDigit(rest[0])
    ensures ReadNumber(Decimal(n) + rest) == Some((n, rest))
  {
    DecimalReads(n);
    DigitPrefixIs(Decimal(n), rest);
    hide Decimal, Value, DigitPrefix;
    assert (Decimal(n) + rest)[|Decimal(n)|..] == rest;
  }

  lemma AfterPrefix(prefix: string, rest: string)
    ensures After(prefix + rest, prefix) == Some(rest)
  {
    assert (prefix + rest)[|prefix|..] == rest;
  }

  /** A client that reads an envelope gets count, index and data as they went in. */
  lemma EnvelopeReads(id: string, chunks: nat, chunk: nat, data: string)
    ensures ReadEnvelope(id, Envelope(id, chunks, chunk, data)) == Some((chunks, chunk, data))
  {
    var start := "{\"id\": " + id + ", \"chunks\": ";
    var e := Escape(data) + "\"" + "}";
    var d := ", \"data\": \"" + e;
    var c := Decimal(chunk) + d;
    var b := ", \"chunk\": " + c;
    var a := Decimal(chunks) + b;
    EnvelopeParts(id, chunks, chunk, data);
    AfterPrefix(start, a);
    NumberReads(chunks, b);
    AfterPrefix(", \"chunk\": ", c);
    NumberReads(chunk, d);
    AfterPrefix(", \"data\": \"", e);
    StringReads(data, "}");
    hide After, ReadNumber, ReadString, Decimal, Escape;
  }

  lemma EnvelopeParts(id: string, chunks: nat, chunk: nat, data: string)
    ensures Envelope(id, chunks, chunk, data) ==
            ("{\"id\": " + id + ", \"chunks\": ")
            + (Decimal(chunks) + (", \"chunk\": " + (Decimal(chunk) + (", \"data\": \"" + (Escape(data) + "\"" + "}")))))
  {
    hide Decimal, Escape;
  }

  // ---- What a greedy split is ------------------------------------------------

  /** `k` is the most characters of `rest` that fit, or a single one when not even that fits. */
  predicate Longest(id: string, rest: string, k: nat, maxMsg: int) {
    && 1 <= k <= |rest|
    && (k > 1 ==> Fits(id, rest[..k], maxMsg))
    && (k < |rest| ==> !Fits(id, rest[..k + 1], maxMsg))
  }

  /** Every slice is the longest one possible at the place where it starts. */
  predicate Greedy(id: string, response: string, slices: seq<string>, maxMsg: int) {
    && Concat(slices) <= response
    && forall i :: 0 <= i < |slices| ==> GreedyAt(id, response, slices, i, maxMsg)
  }

  predicate GreedyAt(id: string, response: string, slices: seq<string>, i: nat, maxMsg: int)
    requires i < |slices|
  {
    var start := |Concat(slices[..i])|;
    start <= |response| && Longest(id, response[start..], |slices[i]|, maxMsg)
  }

  /** A split into slices that all pass the size test. */
  predicate FittingSplit(id: string, response: string, slices: seq<string>, maxMsg: int) {
    Concat(slices) == response && forall i :: 0 <= i < |slices| ==> Fits(id, slices[i], maxMsg)
  }

  /** A fitting slice of the reply cannot reach past a greedy one that starts no earlier. */
  lemma CannotOvertake(id: string, response: string, a: nat, end: nat, g: nat, k: nat, maxMsg: int)
    requires a <= g && a <= end <= |response| && g <= |response|
    requires Fits(id, response[a..end], maxMsg) && Longest(id, response[g..], k, maxMsg)
    ensures end <= g + k
  {
    hide Fits;
    if end > g + k {
      // The greedy slice and one more character lie inside a slice that fits.
      var longer := response[g..][..k + 1];
      assert response[a..end] == response[a..g] + longer + response[g + k + 1..end];
      FitsPart(id, response[a..g], longer, response[g + k + 1..end], maxMsg);
    }
  }

  /** After equally many slices the greedy split has covered at least as much. */
  lemma {:induction false} StaysAhead(id: string, response: string, greedy: seq<string>, other: seq<string>, j: nat, maxMsg: int)
    requires Greedy(id, response, greedy, maxMsg) && FittingSplit(id, response, other, maxMsg)
    requires j <= |greedy| && j <= |other|
    ensures |Concat(other[..j])| <= |Concat(greedy[..j])|
  {
    hide Fits, Longest, Concat;
    if j == 0 {
      assert other[..0] == greedy[..0];
    } else {
      var i := j - 1;
      StaysAhead(id, response, greedy, other, i, maxMsg);
      ConcatPrefix(greedy, i);
      ConcatPrefix(other, i);
      ConcatPrefix(other, j);
      var a, g := |Concat(other[..i])|, |Concat(greedy[..i])|;
      var end := a + |other[i]|;
      assert other[i] == response[a..end];
      assert GreedyAt(id, response, greedy, i, maxMsg);
      CannotOvertake(id, response, a, end, g, |greedy[i]|, maxMsg);
    }
  }

  /** No split into fitting slices uses fewer chunks. */
  lemma FewestChunks(id: string, response: string, greedy: seq<string>, other: seq<string>, maxMsg: int)
    requires Greedy(id, response, greedy, maxMsg) && Concat(greedy) == response
    requires FittingSplit(id, response, other, maxMsg)
    ensures |greedy| <= |other|
  {
    hide Fits, Concat;
    if |other| < |greedy| {
      var j := |other|;
      assert GreedyAt(id, response, greedy, j, maxMsg);
      ConcatPrefix(greedy, j);
      ConcatPrefix(greedy, j + 1);
      assert other[..j] == other;
      StaysAhead(id, response, greedy, other, j, maxMsg);
    }
  }

  /** Placeholders cost exactly the missing digits. */
  lemma FrameSize(id: string, total: nat, index: nat, data: string)
    ensures |Envelope(id, total, index, data)| ==
            |Envelope(id, 0, 0, data)| + (|Decimal(total)| - 1) + (|Decimal(index)| - 1)
  {
  }

  /** Up to 1000 chunks, every chunk sized with placeholders stays within the
      MTU - 3 bytes of one notification, the size budget being MTU - 8. */
  lemma WithinMtu(id: string, total: nat, index: nat, data: string, mtu: int)
    requires index < total <= 1000 && Fits(id, data, mtu - 8)
    ensures |Envelope(id, total, index, data)| <= mtu - 3
  {
    FrameSize(id, total, index, data);
    DecimalSize(total);
    DecimalSize(index);
  }

  // ---- The chunker -----------------------------------------------------------

  /** The longest fitting prefix, by bisection. */
  method LongestPrefix(id: string, rest: string, maxMsg: int) returns (k: nat)
    requires rest != "" && !Fits(id, rest, maxMsg)
    ensures Longest(id, rest, k, maxMsg)
  {
    var lo, hi := 1, |rest|;
    assert rest[..|rest|] == rest;
    while lo < hi
      invariant 1 <= lo <= hi <= |rest|
      invariant lo > 1 ==> Fits(id, rest[..lo], maxMsg)
      invariant hi < |rest| ==> !Fits(id, rest[..hi + 1], maxMsg)
    {
      var mid := (lo + hi + 1) / 2;
      if |Envelope(id, 0, 0, rest[..mid])| <= maxMsg {
        lo := mid;
      } else {
        hi := mid - 1;
      }
    }
    k := lo;
  }

  /** Cut the reply into slices. */
  method Slices(id: string, response: string, maxMsg: int) returns (chunks: seq<string>)
    ensures Concat(chunks) == response && Greedy(id, response, chunks, maxMsg)
  {
    chunks := [];
    var remaining := response;
    while remaining != ""
      invariant response == Concat(chunks) + remaining
      invariant Greedy(id, response, chunks, maxMsg)
      decreases |remaining|
    {
      ghost var before, rest := chunks, remaining;
      var k := |remaining|;
      if |Envelope(id, 0, 0, remaining)| > maxMsg {
        k := LongestPrefix(id, remaining, maxMsg);
      } else {
        assert remaining[..k] == remaining;
      }
      chunks := chunks + [remaining[..k]];
      remaining := remaining[k..];
      GreedyExtends(id, response, before, rest, k, maxMsg);
    }
  }

  lemma GreedyExtends(id: string, response: string, slices: seq<string>, rest: string, k: nat, maxMsg: int)
    requires response == Concat(slices) + rest && Greedy(id, response, slices, maxMsg)
    requires Longest(id, rest, k, maxMsg)
    ensures Greedy(id, response, slices + [rest[..k]], maxMsg)
    ensures response == Concat(slices + [rest[..k]]) + rest[k..]
  {
    assert k <= |rest|;
    hide Longest;
    var more := slices + [rest[..k]];
    ConcatMore(slices, rest, k);
    assert response[|Concat(slices)|..] == rest;
    hide Concat;
    forall i | 0 <= i < |more| ensures GreedyAt(id, response, more, i, maxMsg) {
      assert more[..i] == slices[..i];
      if i < |slices| {
        assert GreedyAt(id, response, slices, i, maxMsg);
      } else {
        assert slices[..i] == slices;
      }
    }
  }

  lemma ConcatMore(slices: seq<string>, rest: string, k: nat)
    requires k <= |rest|
    ensures Concat(slices + [rest[..k]]) == Concat(slices) + rest[..k]
    ensures Concat(slices) + rest == Concat(slices + [rest[..k]]) + rest[k..]
  {
    assert (slices + [rest[..k]])[..|slices|] == slices;
    assert rest == rest[..k] + rest[k..];
  }

  /** The frames of one reply: the reply itself when it fits one message, else
      its greedy slices, each under its own index and the true count. */
  method JsonFrames(id: string, response: string, maxMsg: int) returns (frames: seq<string>, ghost slices: seq<string>)
    ensures |response| <= maxMsg ==> frames == [response]
    ensures |response| > maxMsg ==>
              && |slices| == |frames| && Concat(slices) == response && Greedy(id, response, slices, maxMsg)
              && (forall i :: 0 <= i < |frames| ==> frames[i] == Envelope(id, |frames|, i, slices[i]))
              && (forall i :: 0 <= i < |frames| ==> ReadEnvelope(id, frames[i]) == Some((|frames|, i, slices[i])))
              && (forall other :: FittingSplit(id, response, other, maxMsg) ==> |frames| <= |other|)
    ensures |response| > maxMsg && (forall c :: c in response ==> Fits(id, [c], maxMsg)) ==>
              forall i :: 0 <= i < |frames| ==>
                && |frames[i]| <= maxMsg + (|Decimal(|frames|)| - 1) + (|Decimal(i)| - 1)
                && (|frames| <= 1000 ==> |frames[i]| <= maxMsg + 5)
  {
    if |response| <= maxMsg {
      frames, slices := [response], [];
      return;
    }
    hide Envelope, Fits, ReadEnvelope, Greedy, Decimal, Concat;
    var chunks := Slices(id, response, maxMsg);
    slices := chunks;
    var total := |chunks|;
    frames := seq(total, i requires 0 <= i < total => Envelope(id, total, i, chunks[i]));
    forall i | 0 <= i < total ensures ReadEnvelope(id, frames[i]) == Some((total, i, chunks[i])) {
      EnvelopeReads(id, total, i, chunks[i]);
    }
    forall other | FittingSplit(id, response, other, maxMsg) ensures total <= |other| {
      FewestChunks(id, response, chunks, other, maxMsg);
    }
    if forall c :: c in response ==> Fits(id, [c], maxMsg) {
      forall i | 0 <= i < total
        ensures |frames[i]| <= maxMsg + (|Decimal(total)| - 1) + (|Decimal(i)| - 1)
        ensures total <= 1000 ==> |frames[i]| <= maxMsg + 5
      {
        SliceFits(id, response, chunks, i, maxMsg);
        SizedFrame(id, total, i, chunks[i], maxMsg);
      }
    }
  }

  lemma SizedFrame(id: string, total: nat, i: nat, data: string, maxMsg: int)
    requires i < total && Fits(id, data, maxMsg)
    ensures |Envelope(id, total, i, data)| <= maxMsg + (|Decimal(total)| - 1) + (|Decimal(i)| - 1)
    ensures total <= 1000 ==> |Envelope(id, total, i, data)| <= maxMsg + 5
  {
    FrameSize(id, total, i, data);
    hide Envelope;
    if total <= 1000 {
      WithinMtu(id, total, i, data, maxMsg + 8);
    }
  }

  lemma SliceFits(id: string, response: string, slices: seq<string>, i: nat, maxMsg: int)
    requires Greedy(id, response, slices, maxMsg) && i < |slices|
    requires forall c :: c in response ==> Fits(id, [c], maxMsg)
    ensures Fits(id, slices[i], maxMsg)
  {
    assert GreedyAt(id, response, slices, i, maxMsg);
    ConcatPrefix(slices, i);
    ConcatPrefix(slices, i + 1);
    var start, k := |Concat(slices[..i])|, |slices[i]|;
    assert slices[i] == response[start..][..k];
    if k == 1 {
      assert slices[i] == [response[start]];
      assert response[start] in response;
    }
  }
}
