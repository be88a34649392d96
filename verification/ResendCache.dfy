/** The resend cache of the BLE API proxy: the last few replies are kept so that
    a client that lost a notification can ask for all frames of one again. */
module ResendCache {
  import opened LittleEndian
  import opened Options
  import opened BinFrames

  const RESEND_CACHE_SIZE: nat := 4
  const RESEND_MAX_PER_ID: nat := 2

  /** A request id as JSON text. */
  type Id = string
  type Reply = seq<seq<Byte>>

  /** A Python dict keeps insertion order, and assigning an existing key keeps its place. */
  datatype Cache = Cache(order: seq<Id>, replies: map<Id, Reply>, counts: map<Id, nat>)

  datatype Event = Finished(id: Id, reply: Reply) | ResendRequest(id: Id) | Disconnected

  /** What was put on the air: a reply for the first time, or a replay of it. */
  datatype Sent = First(id: Id, reply: Reply) | Replay(id: Id, reply: Reply)

  function CountOf(c: Cache, id: Id): nat {
    if id in c.counts then c.counts[id] else 0
  }

  function Elements(s: seq<Id>): set<Id> {
    set x | x in s
  }

  function Surplus(order: seq<Id>): (n: nat)
    ensures n <= |order|
  {
    if |order| > RESEND_CACHE_SIZE then |order| - RESEND_CACHE_SIZE else 0
  }

  function Store(c: Cache, id: Id, reply: Reply): Cache {
    var order := if id in c.replies then c.order else c.order + [id];
    var surplus := Surplus(order);
    var evicted := Elements(order[..surplus]);
    Cache(order[surplus..], c.replies[id := reply] - evicted, c.counts - {id} - evicted)
  }

  /** Whether a resend request is answered. */
  predicate Answers(c: Cache, id: Id) {
    id in c.replies && CountOf(c, id) < RESEND_MAX_PER_ID
  }

  function Step(c: Cache, t: seq<Sent>, e: Event): (Cache, seq<Sent>) {
    match e
    case Finished(id, reply) => (Store(c, id, reply), t + [First(id, reply)])
    case ResendRequest(id) =>
      if Answers(c, id)
      then (c.(counts := c.counts[id := CountOf(c, id) + 1]), t + [Replay(id, c.replies[id])])
      else (c, t)
    case Disconnected => (Cache([], map[], map[]), t)
  }

  /** The cache and the transcript after any sequence of events. */
  function Run(events: seq<Event>): (Cache, seq<Sent>) {
    if events == [] then (Cache([], map[], map[]), [])
    else
      var (c, t) := Run(events[..|events| - 1]);
      Step(c, t, events[|events| - 1])
  }

  // ---- What a transcript says ----------------------------------------------

  /** The reply last sent under `id` for the first time. */
  function Latest(t: seq<Sent>, id: Id): Option<Reply> {
    if t == [] then None
    else
      var last := t[|t| - 1];
      if last.First? && last.id == id then Some(last.reply) else Latest(t[..|t| - 1], id)
  }

  /** How often the latest reply under `id` has been replayed. */
  function Replays(t: seq<Sent>, id: Id): nat {
    if t == [] then 0
    else
      var last := t[|t| - 1];
      if last.id != id then Replays(t[..|t| - 1], id)
      else if last.First? then 0
      else 1 + Replays(t[..|t| - 1], id)
  }

  /** Every replay repeats the latest reply of its id, for at most the second time. */
  predicate WellReplayed(t: seq<Sent>) {
    forall i :: 0 <= i < |t| && t[i].Replay? ==>
      Latest(t[..i], t[i].id) == Some(t[i].reply) && Replays(t[..i], t[i].id) < RESEND_MAX_PER_ID
  }

  predicate Distinct(s: seq<Id>) {
    forall i, j :: 0 <= i < j < |s| ==> s[i] != s[j]
  }

  /** The three parts of a cache describe the same ids, at most four of them. */
  ghost predicate Shape(c: Cache) {
    && |c.order| <= RESEND_CACHE_SIZE && Distinct(c.order)
    && Elements(c.order) == c.replies.Keys && c.counts.Keys <= c.replies.Keys
  }

  ghost predicate Inv(c: Cache, t: seq<Sent>) {
    && Shape(c)
    && (forall id :: id in c.replies ==> Latest(t, id) == Some(c.replies[id]) && Replays(t, id) == CountOf(c, id))
    && WellReplayed(t)
  }

  lemma TranscriptGrows(t: seq<Sent>, s: Sent)
    requires WellReplayed(t)
    requires s.Replay? ==> Latest(t, s.id) == Some(s.reply) && Replays(t, s.id) < RESEND_MAX_PER_ID
    ensures WellReplayed(t + [s])
    ensures forall id :: Latest(t + [s], id) == if s.First? && s.id == id then Some(s.reply) else Latest(t, id)
    ensures forall id :: Replays(t + [s], id) ==
                         if s.id != id then Replays(t, id) else if s.First? then 0 else 1 + Replays(t, id)
  {
    var u := t + [s];
    assert u[..|u| - 1] == t;
    forall i | 0 <= i < |u| && u[i].Replay?
      ensures Latest(u[..i], u[i].id) == Some(u[i].reply) && Replays(u[..i], u[i].id) < RESEND_MAX_PER_ID
    {
      if i < |t| {
        assert u[..i] == t[..i] && u[i] == t[i];
      }
    }
  }

  /** The order after a new reply, before anything is evicted. */
  lemma GrownOrder(c: Cache, id: Id)
    requires Shape(c)
    ensures
      var order := if id in c.replies then c.order else c.order + [id];
      Distinct(order) && Elements(order) == c.replies.Keys + {id} && id !in order[..Surplus(order)]
  {
  }

  lemma KeepSuffix(order: seq<Id>, k: nat)
    requires Distinct(order) && k <= |order|
    ensures Distinct(order[k..]) && Elements(order[k..]) == Elements(order) - Elements(order[..k])
  {
  }

  lemma StoreShape(c: Cache, id: Id, reply: Reply)
    requires Shape(c)
    ensures Shape(Store(c, id, reply)) && id in Store(c, id, reply).replies
  {
    hide Distinct, Elements;
    var order := if id in c.replies then c.order else c.order + [id];
    GrownOrder(c, id);
    KeepSuffix(order, Surplus(order));
    InElements(order[..Surplus(order)], id);
  }

  lemma InElements(s: seq<Id>, x: Id)
    ensures x in Elements(s) <==> x in s
  {
  }

  lemma StoreInv(c: Cache, t: seq<Sent>, id: Id, reply: Reply)
    requires Inv(c, t)
    ensures Inv(Store(c, id, reply), t + [First(id, reply)])
    ensures id in Store(c, id, reply).replies
  {
    hide WellReplayed, Latest, Replays, Shape;
    TranscriptGrows(t, First(id, reply));
    StoreShape(c, id, reply);
  }

  lemma StepInv(c: Cache, t: seq<Sent>, e: Event)
    requires Inv(c, t)
    ensures Inv(Step(c, t, e).0, Step(c, t, e).1)
  {
    match e
    case Finished(id, reply) => StoreInv(c, t, id, reply);
    case ResendRequest(id) =>
      if Answers(c, id) {
        TranscriptGrows(t, Replay(id, c.replies[id]));
      }
    case Disconnected =>
  }

  /** In every run: at most four replies are cached, each being the latest sent
      under its id; a replay repeats that reply, and no reply is replayed more
      than twice. */
  lemma {:induction false} EveryRun(events: seq<Event>)
    ensures Inv(Run(events).0, Run(events).1)
  {
    if events != [] {
      EveryRun(events[..|events| - 1]);
      var (c, t) := Run(events[..|events| - 1]);
      StepInv(c, t, events[|events| - 1]);
    }
  }

  /** The reply that has just been sent is cached, however full the cache was. */
  lemma NewestIsCached(events: seq<Event>, id: Id, reply: Reply)
    ensures
      var (c, _) := Run(events + [Finished(id, reply)]);
      id in c.replies && c.replies[id] == reply && CountOf(c, id) == 0 && |c.order| <= RESEND_CACHE_SIZE
  {
    var all := events + [Finished(id, reply)];
    assert all[..|all| - 1] == events;
    EveryRun(events);
    var (c, t) := Run(events);
    StoreInv(c, t, id, reply);
    TranscriptGrows(t, First(id, reply));
  }

  /** In every run a resend request puts the latest reply of its id on the air again
      exactly when that reply is still cached and was replayed fewer than twice. */
  lemma ResendIff(events: seq<Event>, id: Id)
    ensures
      var (c, t) := Run(events);
      var (after, u) := Run(events + [ResendRequest(id)]);
      && (id in c.replies && Replays(t, id) < 2 ==> Latest(t, id).Some? && u == t + [Replay(id, Latest(t, id).value)])
      && (!(id in c.replies && Replays(t, id) < 2) ==> u == t)
      && after.replies == c.replies && after.order == c.order
  {
    var all := events + [ResendRequest(id)];
    assert all[..|all| - 1] == events;
    EveryRun(events);
    hide Latest, Replays, WellReplayed, Shape;
  }

  /** After a disconnect nothing of the old session is sent again. */
  lemma DisconnectForgets(events: seq<Event>, id: Id)
    ensures
      var (c, t) := Run(events + [Disconnected]);
      c.order == [] && c.replies == map[] && c.counts == map[] && Run(events + [Disconnected] + [ResendRequest(id)]).1 == t
  {
    var all := events + [Disconnected];
    assert all[..|all| - 1] == events;
    ResendIff(all, id);
    hide Run;
  }

  /** A new reply pushes out the oldest id exactly when four others are cached and its
      own is not; every other cached reply stays, with its resend budget. */
  lemma StoreEvicts(c: Cache, id: Id, reply: Reply)
    requires Shape(c)
    ensures
      var after := Store(c, id, reply);
      var out := if id !in c.replies && |c.order| == 4 then {c.order[0]} else {};
      && after.replies.Keys == c.replies.Keys + {id} - out && after.replies[id] == reply && CountOf(after, id) == 0
      && (forall x :: x in c.replies && x != id && x !in out ==>
            x in after.replies && after.replies[x] == c.replies[x] && CountOf(after, x) == CountOf(c, x))
      && after.order == (if id in c.replies then c.order else (if |c.order| == 4 then c.order[1..] else c.order) + [id])
  {
    hide *;
    PushedOut(c, id);
    StoreIs(c, id, reply, if id !in c.replies && |c.order| == 4 then {c.order[0]} else {});
  }

  /** A store in terms of the ids it pushes out. */
  lemma StoreIs(c: Cache, id: Id, reply: Reply, out: set<Id>)
    requires id !in out
    requires var order := if id in c.replies then c.order else c.order + [id]; Elements(order[..Surplus(order)]) == out
    ensures
      var after := Store(c, id, reply);
      var order := if id in c.replies then c.order else c.order + [id];
      && after.order == order[Surplus(order)..]
      && after.replies.Keys == c.replies.Keys + {id} - out && after.replies[id] == reply && CountOf(after, id) == 0
      && (forall x :: x in c.replies && x != id && x !in out ==>
            x in after.replies && after.replies[x] == c.replies[x] && CountOf(after, x) == CountOf(c, x))
  {
    hide Elements, Surplus;
    StoredMaps(c.replies, c.counts, id, reply, out);
  }

  lemma StoredMaps(replies: map<Id, Reply>, counts: map<Id, nat>, id: Id, reply: Reply, out: set<Id>)
    requires id !in out
    ensures
      var r, n := replies[id := reply] - out, counts - {id} - out;
      && r.Keys == replies.Keys + {id} - out && r[id] == reply && id !in n
      && forall x :: x in replies && x != id && x !in out ==>
           x in r && r[x] == replies[x] && (x in n <==> x in counts) && (x in counts ==> n[x] == counts[x])
  {
  }

  lemma PushedOut(c: Cache, id: Id)
    requires Shape(c)
    ensures
      var order := if id in c.replies then c.order else c.order + [id];
      var out := if id !in c.replies && |c.order| == 4 then {c.order[0]} else {};
      && Elements(order[..Surplus(order)]) == out && id !in out && (id !in c.replies ==> id !in c.counts)
      && order[Surplus(order)..] == if id in c.replies then c.order else (if |c.order| == 4 then c.order[1..] else c.order) + [id]
  {
    var order := if id in c.replies then c.order else c.order + [id];
    GrownOrder(c, id);
    InElements(order[..Surplus(order)], id);
    var n := Surplus(order);
    if n == 1 {
      assert order[..1] == [c.order[0]] && Elements([c.order[0]]) == {c.order[0]};
      assert order[1..] == c.order[1..] + [id];
    } else {
      assert order[..n] == [] && Elements([]) == {} && order[n..] == order;
    }
  }

  // ---- Frames on the air ---------------------------------------------------

  /** Every frame sent under `id` since its latest reply, replays included. */
  function OnAir(t: seq<Sent>, id: Id): set<seq<Byte>> {
    if t == [] then {}
    else
      var last := t[|t| - 1];
      if last.id != id then OnAir(t[..|t| - 1], id)
      else if last.First? then set f | f in last.reply
      else (set f | f in last.reply) + OnAir(t[..|t| - 1], id)
  }

  /** Resends put nothing new on the air: only frames of the latest reply. */
  lemma {:induction false} OnAirIsLatest(t: seq<Sent>, id: Id)
    requires WellReplayed(t) && Latest(t, id).Some?
    ensures OnAir(t, id) == set f | f in Latest(t, id).value
  {
    var n := |t| - 1;
    var last := t[n];
    assert WellReplayed(t[..n]) by {
      forall i | 0 <= i < n && t[..n][i].Replay?
        ensures Latest(t[..n][..i], t[i].id) == Some(t[i].reply) && Replays(t[..n][..i], t[i].id) < RESEND_MAX_PER_ID
      {
        assert t[..n][..i] == t[..i];
      }
    }
    if !(last.First? && last.id == id) {
      OnAirIsLatest(t[..n], id);
    }
  }

  /** In every run, whatever mixture of first-send and replayed frames a client
      hears since a binary reply went out, in any order and with repetitions, it
      decodes the original status and body as soon as every index is among them. */
  lemma ResentReplyDecodes(events: seq<Event>, id: Id, received: seq<seq<Byte>>, rid: int, status: int, raw: seq<Byte>,
                           zdict: bool, codec: Codec, maxFrame: int)
    requires codec.Invertible()
    requires Latest(Run(events).1, id) == Frames(rid, EncodePayload(status, raw, zdict, codec), maxFrame)
    requires Latest(Run(events).1, id).Some?
    requires forall f :: f in received && IsFor(f, rid % 0x1_0000) ==> f in OnAir(Run(events).1, id)
    requires forall f :: f in Latest(Run(events).1, id).value ==> f in received
    ensures
      var payload := Reassemble(received, rid % 0x1_0000);
      payload.Some? && DecodePayload(payload.value, codec) == Some((status % 0x1_0000, raw))
  {
    hide EncodePayload, Frames, DecodePayload, Reassemble, IsFor;
    EveryRun(events);
    var t := Run(events).1;
    OnAirIsLatest(t, id);
    var frames := Latest(t, id).value;
    assert forall i :: 0 <= i < |frames| ==> frames[i] in received;
    ReplyDecodes(received, rid, status, raw, zdict, codec, maxFrame);
  }

  // ---- The daemon's object -------------------------------------------------

  class ApiRequestCharacteristic {
    var order: seq<Id>
    var replies: map<Id, Reply>
    var counts: map<Id, nat>
    /** Frames handed to the notifier, in order. */
    var transcript: seq<Sent>

    ghost function View(): Cache
      reads this
    {
      Cache(order, replies, counts)
    }

    ghost predicate Valid()
      reads this
    {
      Inv(View(), transcript)
    }

    constructor ()
      ensures Valid() && View() == Run([]).0 && transcript == []
    {
      order, replies, counts, transcript := [], map[], map[], [];
    }

    method StoreAndSend(id: Id, reply: Reply)
      requires Valid()
      modifies this
      ensures Valid()
      ensures (View(), transcript) == Step(old(View()), old(transcript), Finished(id, reply))
    {
      hide Inv;
      StoreInv(View(), transcript, id, reply);
      if id !in replies {
        order := order + [id];
      }
      replies := replies[id := reply];
      counts := counts - {id};
      Evict();
      transcript := transcript + [First(id, reply)];
    }

    /** Drop the oldest entries until the cache is within its size. */
    method Evict()
      modifies `order, `replies, `counts
      ensures order == old(order)[Surplus(old(order))..]
      ensures replies == old(replies) - Elements(old(order)[..Surplus(old(order))])
      ensures counts == old(counts) - Elements(old(order)[..Surplus(old(order))])
    {
      ghost var full := order;
      ghost var k := 0;
      while |order| > RESEND_CACHE_SIZE
        invariant 0 <= k <= Surplus(full) && order == full[k..]
        invariant replies == old(replies) - Elements(full[..k]) && counts == old(counts) - Elements(full[..k])
      {
        var oldest := order[0];
        assert full[..k + 1] == full[..k] + [oldest];
        assert Elements(full[..k + 1]) == Elements(full[..k]) + {oldest};
        order := order[1..];
        replies := replies - {oldest};
        counts := counts - {oldest};
        k := k + 1;
      }
    }

    method HandleResend(id: Id) returns (resent: Option<Reply>)
      requires Valid()
      modifies this
      ensures Valid()
      ensures (View(), transcript) == Step(old(View()), old(transcript), ResendRequest(id))
      ensures resent == if Answers(old(View()), id) then Latest(old(transcript), id) else None
    {
      StepInv(View(), transcript, ResendRequest(id));
      resent := None;
      if id !in replies {
        return;
      }
      var count := if id in counts then counts[id] else 0;
      if count >= RESEND_MAX_PER_ID {
        return;
      }
      counts := counts[id := count + 1];
      transcript := transcript + [Replay(id, replies[id])];
      resent := Some(replies[id]);
    }

    /** `reset_session_state` on a central disconnect. */
    method ResetSession()
      requires Valid()
      modifies this
      ensures Valid()
      ensures (View(), transcript) == Step(old(View()), old(transcript), Disconnected)
    {
      order, replies, counts := [], map[], map[];
    }
  }
}
