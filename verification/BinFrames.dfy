/** Binary replies of the BLE daemon: a payload (encoding, status, body) split
    into indexed frames, and what a client can rebuild from the frames it hears. */
module BinFrames {
  import opened LittleEndian
  import opened Options
  import opened Sequences

  const BIN_FRAME_MAGIC: Byte := 0xB1
  const HEADER_SIZE: nat := 7
  const BIN_ENC_PLAIN: Byte := 0
  const BIN_ENC_DEFLATE: Byte := 1
  const BIN_ENC_ZDICT: Byte := 2
  const ZDICT_MIN_BODY: nat := 64
  const DEFLATE_MIN_BODY: nat := 256

  /** zlib with and without the preset dictionary, as two pairs of functions. */
  datatype Codec = Codec(deflate: seq<Byte> -> seq<Byte>, inflate: seq<Byte> -> seq<Byte>,
                         zdictDeflate: seq<Byte> -> seq<Byte>, zdictInflate: seq<Byte> -> seq<Byte>)
  {
    ghost predicate Invertible() {
      && (forall raw :: inflate(deflate(raw)) == raw)
      && (forall raw :: zdictInflate(zdictDeflate(raw)) == raw)
    }
  }

  // ---- Payloads ------------------------------------------------------------

  function Be16(n: int): (b: seq<Byte>)
    ensures |b| == 2
  {
    [n / 256 % 256, n % 256]
  }

  lemma NetworkOrder()
    ensures Be16(0x1234) == [0x12, 0x34] && Be16(-1) == [0xFF, 0xFF]
  {
  }

  function ReadBe16(s: seq<Byte>, p: nat): nat
    requires p + 2 <= |s|
  {
    256 * (s[p] as int) + s[p + 1] as int
  }

  function EncodePayload(status: int, raw: seq<Byte>, zdict: bool, codec: Codec): seq<Byte> {
    var candidate :=
      if zdict && |raw| > ZDICT_MIN_BODY then Some((codec.zdictDeflate(raw), BIN_ENC_ZDICT))
      else if !zdict && |raw| > DEFLATE_MIN_BODY then Some((codec.deflate(raw), BIN_ENC_DEFLATE))
      else None;
    var (body, encoding) :=
      if candidate.Some? && |candidate.value.0| < |raw| then candidate.value else (raw, BIN_ENC_PLAIN);
    [encoding] + Be16(status) + body
  }

  function DecodePayload(payload: seq<Byte>, codec: Codec): Option<(nat, seq<Byte>)> {
    if |payload| < 3 then None
    else
      var status, body := ReadBe16(payload, 1), payload[3..];
      if payload[0] == BIN_ENC_PLAIN then Some((status, body))
      else if payload[0] == BIN_ENC_DEFLATE then Some((status, codec.inflate(body)))
      else if payload[0] == BIN_ENC_ZDICT then Some((status, codec.zdictInflate(body)))
      else None
  }

  /** Decoding returns the 16-bit status and the raw body; the body never grows. */
  lemma PayloadRoundTrip(status: int, raw: seq<Byte>, zdict: bool, codec: Codec)
    requires codec.Invertible()
    ensures DecodePayload(EncodePayload(status, raw, zdict, codec), codec) == Some((status % 0x1_0000, raw))
    ensures |EncodePayload(status, raw, zdict, codec)| <= 3 + |raw|
  {
    var payload := EncodePayload(status, raw, zdict, codec);
    assert payload[1] == status / 256 % 256 && payload[2] == status % 256;
    TwoDigits(status);
    assert codec.inflate(codec.deflate(raw)) == raw;
    assert codec.zdictInflate(codec.zdictDeflate(raw)) == raw;
  }

  lemma TwoDigits(n: int)
    ensures 256 * (n / 256 % 256) + n % 256 == n % 0x1_0000
  {
    var q := n / 256;
    assert n == 256 * q + n % 256 && q == 256 * (q / 256) + q % 256;
  }

  // ---- Frames --------------------------------------------------------------

  function SliceLen(maxFrame: int): (n: nat)
    ensures n >= 1
  {
    if maxFrame - HEADER_SIZE > 1 then maxFrame - HEADER_SIZE else 1
  }

  function FrameCount(length: nat, sliceLen: nat): (n: nat)
    requires sliceLen >= 1
    ensures n >= 1
  {
    var n := (length + sliceLen - 1) / sliceLen;
    if n > 1 then n else 1
  }

  /** Python's clamped `payload[idx * n:(idx + 1) * n]`. */
  function Slice(payload: seq<Byte>, idx: nat, n: nat): seq<Byte> {
    var from, to := Min(idx * n, |payload|), Min((idx + 1) * n, |payload|);
    if from <= to then payload[from..to] else []
  }

  function Min(a: int, b: int): int {
    if a < b then a else b
  }

  function Frame(rid: int, payload: seq<Byte>, idx: nat, count: nat, n: nat): seq<Byte> {
    [BIN_FRAME_MAGIC] + Be16(rid) + Be16(idx) + Be16(count) + Slice(payload, idx, n)
  }

  /** All frames of a payload, or None past the 16-bit chunk count. */
  function Frames(rid: int, payload: seq<Byte>, maxFrame: int): Option<seq<seq<Byte>>> {
    var n := SliceLen(maxFrame);
    var count := FrameCount(|payload|, n);
    if count > 0xFFFF then None
    else Some(seq(count, idx requires 0 <= idx < count => Frame(rid, payload, idx, count, n)))
  }

  /** Every frame fits the message size whenever that leaves room for a header. */
  lemma FrameSizes(rid: int, payload: seq<Byte>, maxFrame: int)
    requires maxFrame > HEADER_SIZE && Frames(rid, payload, maxFrame).Some?
    ensures forall f :: f in Frames(rid, payload, maxFrame).value ==> |f| <= maxFrame
  {
    var n := SliceLen(maxFrame);
    var fs := Frames(rid, payload, maxFrame).value;
    forall i | 0 <= i < |fs| ensures |fs[i]| <= maxFrame {
      assert (i + 1) * n == i * n + n;
    }
  }

  /** Splitting fails exactly when the payload does not fit 65535 frames; otherwise
      there are no more frames than it takes. */
  lemma FramesIff(rid: int, payload: seq<Byte>, maxFrame: int)
    ensures
      var room := if maxFrame - 7 > 1 then maxFrame - 7 else 1;
      var frames := Frames(rid, payload, maxFrame);
      && (frames.Some? <==> |payload| <= 0xFFFF * room)
      && (frames.Some? ==> 1 <= |frames.value| <= 0xFFFF && (|frames.value| == 1 || (|frames.value| - 1) * room < |payload|))
  {
    var n := SliceLen(maxFrame);
    CountCovers(|payload|, n);
    CountIsLeast(|payload|, n);
    var count := FrameCount(|payload|, n);
    hide FrameCount;
    if count > 0xFFFF {
      LessEqual(0xFFFF, count - 1, n);
    } else {
      LessEqual(count, 0xFFFF, n);
    }
  }

  lemma CountIsLeast(length: nat, n: nat)
    requires n >= 1
    ensures FrameCount(length, n) == 1 || (FrameCount(length, n) - 1) * n < length
  {
  }

  lemma LessEqual(a: nat, b: nat, n: nat)
    requires a <= b
    ensures a * n <= b * n
  {
  }

  /** A body is compressed exactly when it is long enough and that makes it smaller,
      with the dictionary exactly when one was agreed on. */
  lemma EncodingChosen(status: int, raw: seq<Byte>, zdict: bool, codec: Codec)
    ensures
      var payload := EncodePayload(status, raw, zdict, codec);
      var packed := if zdict then codec.zdictDeflate(raw) else codec.deflate(raw);
      if |raw| > (if zdict then 64 else 256) && |packed| < |raw|
      then payload[0] == (if zdict then 2 else 1) && payload[3..] == packed
      else payload[0] == 0 && payload[3..] == raw
  {
  }

  // ---- The receiving side ----------------------------------------------------

  predicate IsFor(f: seq<Byte>, rid: nat) {
    |f| >= HEADER_SIZE && f[0] == BIN_FRAME_MAGIC && ReadBe16(f, 1) == rid
  }

  /** The slices heard so far for one request id, by index, and the announced count. */
  datatype Assembly = Assembly(count: nat, slices: map<nat, seq<Byte>>) {
    predicate Complete() {
      forall i :: 0 <= i < count ==> i in slices
    }

    function InOrder(): seq<seq<Byte>>
      requires Complete()
    {
      seq(count, i requires 0 <= i < count => slices[i])
    }
  }

  function Hear(a: Assembly, f: seq<Byte>, rid: nat): Assembly {
    if IsFor(f, rid) then Assembly(ReadBe16(f, 5), a.slices[ReadBe16(f, 3) := f[HEADER_SIZE..]]) else a
  }

  function HearAll(received: seq<seq<Byte>>, rid: nat): Assembly {
    if received == [] then Assembly(0, map[])
    else Hear(HearAll(received[..|received| - 1], rid), received[|received| - 1], rid)
  }

  /** The payload once every index up to the announced count has been heard. */
  function Reassemble(received: seq<seq<Byte>>, rid: nat): Option<seq<Byte>> {
    var a := HearAll(received, rid);
    if a.count > 0 && a.Complete() then Some(Concat(a.InOrder())) else None
  }

  lemma FrameFields(rid: int, payload: seq<Byte>, idx: nat, count: nat, n: nat)
    requires idx < 0x1_0000 && count < 0x1_0000
    ensures
      var f := Frame(rid, payload, idx, count, n);
      && IsFor(f, rid % 0x1_0000) && ReadBe16(f, 3) == idx && ReadBe16(f, 5) == count
      && f[HEADER_SIZE..] == Slice(payload, idx, n)
  {
    var f := Frame(rid, payload, idx, count, n);
    TwoDigits(rid);
    TwoDigits(idx);
    TwoDigits(count);
    assert f[1] == rid / 256 % 256 && f[2] == rid % 256;
    assert f[3] == idx / 256 % 256 && f[4] == idx % 256;
    assert f[5] == count / 256 % 256 && f[6] == count % 256;
  }

  /** Frames of this reply, in any order and any number, among frames for others. */
  predicate Drawn(received: seq<seq<Byte>>, rid: nat, frames: seq<seq<Byte>>) {
    forall f :: f in received && IsFor(f, rid) ==> f in frames
  }

  /** What has been heard is exactly the slices whose frames were received. */
  lemma {:induction false} HeardSlices(received: seq<seq<Byte>>, rid: int, payload: seq<Byte>, maxFrame: int)
    requires Frames(rid, payload, maxFrame).Some?
    requires Drawn(received, rid % 0x1_0000, Frames(rid, payload, maxFrame).value)
    ensures
      var frames := Frames(rid, payload, maxFrame).value;
      var a := HearAll(received, rid % 0x1_0000);
      && (forall i :: i in a.slices <==> 0 <= i < |frames| && frames[i] in received)
      && (forall i :: i in a.slices ==> a.slices[i] == Slice(payload, i, SliceLen(maxFrame)))
      && (a.slices != map[] ==> a.count == |frames|) && (a.slices == map[] ==> a.count == 0)
  {
    hide Frame, Slice, ReadBe16;
    var frames := Frames(rid, payload, maxFrame).value;
    if received != [] {
      var last := |received| - 1;
      var f := received[last];
      assert received == received[..last] + [f];
      HeardSlices(received[..last], rid, payload, maxFrame);
      forall i | 0 <= i < |frames|
        ensures IsFor(frames[i], rid % 0x1_0000) && ReadBe16(frames[i], 3) == i && ReadBe16(frames[i], 5) == |frames|
        ensures frames[i][HEADER_SIZE..] == Slice(payload, i, SliceLen(maxFrame))
      {
        FrameFields(rid, payload, i, |frames|, SliceLen(maxFrame));
      }
      if IsFor(f, rid % 0x1_0000) {
        assert f in frames;
      }
    }
  }

  function FirstSlices(payload: seq<Byte>, n: nat, k: nat): seq<seq<Byte>> {
    seq(k, i requires 0 <= i < k => Slice(payload, i, n))
  }

  lemma SliceAt(payload: seq<Byte>, idx: nat, n: nat)
    ensures
      var a := idx * n;
      && 0 <= a && (idx + 1) * n == a + n
      && Slice(payload, idx, n) == payload[Min(a, |payload|)..Min(a + n, |payload|)]
  {
    assert (idx + 1) * n == idx * n + n;
  }

  /** The first `k` slices cover the first `k * n` bytes. */
  lemma {:induction false} SlicesCover(payload: seq<Byte>, n: nat, k: nat)
    requires n >= 1
    ensures Concat(FirstSlices(payload, n, k)) == payload[..Min(k * n, |payload|)]
  {
    if k > 0 {
      SlicesCover(payload, n, k - 1);
      SliceAt(payload, k - 1, n);
      var slices := FirstSlices(payload, n, k);
      assert slices[..k - 1] == FirstSlices(payload, n, k - 1) && slices[k - 1] == Slice(payload, k - 1, n);
      hide FirstSlices, Slice;
      NextPiece(payload, (k - 1) * n, n);
    }
  }

  lemma NextPiece(payload: seq<Byte>, a: nat, n: nat)
    ensures payload[..Min(a, |payload|)] + payload[Min(a, |payload|)..Min(a + n, |payload|)] == payload[..Min(a + n, |payload|)]
  {
  }

  lemma CountCovers(length: nat, n: nat)
    requires n >= 1
    ensures FrameCount(length, n) * n >= length
  {
    var q := (length + n - 1) / n;
    assert q * n + (length + n - 1) % n == length + n - 1;
    if q <= 1 {
      assert q * n <= n;
    }
  }

  lemma AllSlices(payload: seq<Byte>, n: nat, count: nat)
    requires n >= 1 && count == FrameCount(|payload|, n)
    ensures Concat(FirstSlices(payload, n, count)) == payload
  {
    hide Slice, FrameCount, Concat;
    SlicesCover(payload, n, count);
    CountCovers(|payload|, n);
    assert payload[..|payload|] == payload;
  }

  /** Any frames of a reply, in any order, repeated or mixed with those of other
      replies, rebuild its payload if and only if every index is among them. */
  lemma ReassembleIff(received: seq<seq<Byte>>, rid: int, payload: seq<Byte>, maxFrame: int)
    requires Frames(rid, payload, maxFrame).Some?
    requires Drawn(received, rid % 0x1_0000, Frames(rid, payload, maxFrame).value)
    ensures
      var frames := Frames(rid, payload, maxFrame).value;
      Reassemble(received, rid % 0x1_0000) ==
      if forall i :: 0 <= i < |frames| ==> frames[i] in received then Some(payload) else None
  {
    hide Frame, Slice, HearAll, FrameCount, Concat;
    var frames := Frames(rid, payload, maxFrame).value;
    var n := SliceLen(maxFrame);
    var a := HearAll(received, rid % 0x1_0000);
    HeardSlices(received, rid, payload, maxFrame);
    if forall i :: 0 <= i < |frames| ==> frames[i] in received {
      assert 0 in a.slices;
      assert a.InOrder() == FirstSlices(payload, n, a.count);
      AllSlices(payload, n, a.count);
    }
  }

  /** From the API's status and body to the client's, over any such reception. */
  lemma ReplyDecodes(received: seq<seq<Byte>>, rid: int, status: int, raw: seq<Byte>, zdict: bool, codec: Codec, maxFrame: int)
    requires codec.Invertible()
    requires Frames(rid, EncodePayload(status, raw, zdict, codec), maxFrame).Some?
    requires
      var frames := Frames(rid, EncodePayload(status, raw, zdict, codec), maxFrame).value;
      Drawn(received, rid % 0x1_0000, frames) && forall i :: 0 <= i < |frames| ==> frames[i] in received
    ensures
      var payload := Reassemble(received, rid % 0x1_0000);
      payload.Some? && DecodePayload(payload.value, codec) == Some((status % 0x1_0000, raw))
  {
    ReassembleIff(received, rid, EncodePayload(status, raw, zdict, codec), maxFrame);
    PayloadRoundTrip(status, raw, zdict, codec);
  }
}
