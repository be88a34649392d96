/** Claiming, PIN authentication and the per-peer lockout of the BLE daemon.
    Every handler runs to its end on one main loop; files and the web login may
    be changed from outside between handlers. */
module BleAuth {
  import opened Options
  import opened Text

  const AUTH_MAX_FAILS: nat := 5
  const AUTH_FAIL_WINDOW: real := 300.0

  /** A D-Bus device path; empty when BlueZ did not name the peer. */
  type Peer = string
  /** The keyed hash of the web login; its value is left open. */
  type Mac = (string, string) -> string

  datatype Creds = Creds(username: string, password: string)
  datatype PinFile = NoPin | Garbled | Pin(text: string)
  datatype BindingFile = Unbound | Damaged | Bound(salt: string, stamp: string)

  /** A JSON value sent as PIN: text, or something else with its printed form. */
  datatype PinValue = Typed(shown: string) | NotText(shown: string)
  datatype Request = SetPin(pin: PinValue, login: Option<Creds>) | Authenticate(pin: PinValue) | OtherAction

  datatype Reply =
    | Success | AlreadyClaimed | UnknownPeer | TooManyAttempts | BadPinLength | WebLoginUnavailable
    | WebLoginRequired | WrongWebLogin | SaveFailed | NotClaimed | WrongPin | UnknownAction

  /** What the outside world sees: replies and disconnects, and claim resets. */
  datatype Event = Replied(peer: Peer, reply: Reply, at: real) | Disconnected(peer: Peer) | ClaimReset

  datatype Daemon = Daemon(authenticated: set<Peer>, failures: map<Peer, seq<real>>, pin: PinFile, binding: BindingFile,
                           config: Option<Creds>, adoptTried: bool, log: seq<Event>)

  datatype SaveOutcome = Saved | NothingSaved | OnlyBinding(left: PinFile)

  /** How the file operations of one handler turn out. */
  datatype Disk = Disk(adopted: bool, salt: string, pinRemoved: bool, bindingRemoved: bool, save: SaveOutcome)

  // ---- The web login binding -------------------------------------------------

  predicate LoginRequired(c: Creds) {
    c.username != "" && c.password != ""
  }

  function Fingerprint(mac: Mac, c: Creds, salt: string): string {
    if !LoginRequired(c) then "off" else mac(salt, EncodedLogin(c))
  }

  function Reset(d: Daemon, disk: Disk): Daemon {
    d.(authenticated := {}, log := d.log + [ClaimReset],
       pin := if disk.pinRemoved then NoPin else d.pin, binding := if disk.bindingRemoved then Unbound else d.binding)
  }

  /** The state after a check, and whether it ended in an exception. */
  datatype Checked = Checked(d: Daemon, raised: bool)

  function Enforce(mac: Mac, d: Daemon, disk: Disk): Checked {
    if d.pin.Garbled? then Checked(d, true)
    else if d.pin.NoPin? || d.config.None? then Checked(d, false)
    else
      match d.binding
      case Unbound =>
        Checked(if d.adoptTried then d
                else d.(adoptTried := true,
                        binding := if disk.adopted then Bound(disk.salt, Fingerprint(mac, d.config.value, disk.salt)) else Unbound),
                false)
      case Damaged => Checked(Reset(d, disk), false)
      case Bound(salt, stamp) =>
        if !Ascii(stamp) then Checked(d, true)
        else Checked(if stamp != Fingerprint(mac, d.config.value, salt) then Reset(d, disk) else d, false)
  }

  /** `is_authenticated`: the answer, or none after an exception. */
  function Query(mac: Mac, d: Daemon, p: Peer, disk: Disk): (Daemon, Option<bool>) {
    if p == "" then (d, Some(false))
    else
      var Checked(e, raised) := Enforce(mac, d, disk);
      (e, if raised then None else Some(!e.pin.NoPin? && p in e.authenticated))
  }

  // ---- The lockout -----------------------------------------------------------

  predicate Expired(t: real, now: real) {
    now - t >= AUTH_FAIL_WINDOW
  }

  function Recent(times: seq<real>, now: real): seq<real> {
    if times == [] then []
    else Recent(times[..|times| - 1], now)
         + (if Expired(times[|times| - 1], now) then [] else [times[|times| - 1]])
  }

  function Times(failures: map<Peer, seq<real>>, p: Peer): seq<real> {
    if p in failures then failures[p] else []
  }

  function Pruned(d: Daemon, p: Peer, now: real): Daemon {
    if p == "" then d
    else
      var recent := Recent(Times(d.failures, p), now);
      d.(failures := if recent != [] then d.failures[p := recent] else d.failures - {p})
  }

  predicate Limited(d: Daemon, p: Peer) {
    p != "" && |Times(d.failures, p)| >= AUTH_MAX_FAILS
  }

  function Recorded(d: Daemon, p: Peer, at: real): Daemon {
    if p == "" then d else d.(failures := d.failures[p := Times(d.failures, p) + [at]])
  }

  function Marked(d: Daemon, p: Peer): Daemon {
    if p == "" then d else d.(authenticated := d.authenticated + {p})
  }

  function Drop(d: Daemon, p: Peer, now: real): Daemon {
    if p == "" then d
    else Pruned(d, p, now).(authenticated := d.authenticated - {p}, log := d.log + [Disconnected(p)])
  }

  // ---- The auth characteristic ------------------------------------------------

  function Answer(d: Daemon, p: Peer, reply: Reply, at: real): Daemon {
    d.(log := d.log + [Replied(p, reply, at)])
  }

  /** `check_pin`: the file is read in text mode and stripped; comparing text that is not ASCII raises. */
  function CheckPin(stored: PinFile, shown: string): Option<bool> {
    match stored
    case NoPin => Some(false)
    case Garbled => None
    case Pin(text) => if Ascii(ReadStripped(text)) && Ascii(shown) then Some(ReadStripped(text) == shown) else None
  }

  function Save(mac: Mac, d: Daemon, p: Peer, pin: string, creds: Creds, disk: Disk, at: real): Daemon {
    var bound := d.(binding := Bound(disk.salt, Fingerprint(mac, creds, disk.salt)));
    match disk.save
    case NothingSaved => Answer(d, p, SaveFailed, at)
    case OnlyBinding(left) => Answer(bound.(pin := left), p, SaveFailed, at)
    case Saved => Answer(Marked(bound.(pin := Pin(pin)), p), p, Success, at)
  }

  function Claim(mac: Mac, d: Daemon, p: Peer, pin: string, login: Option<Creds>, disk: Disk, at: real): Daemon {
    if d.config.None? then Answer(d, p, WebLoginUnavailable, at)
    else
      var creds := d.config.value;
      if LoginRequired(creds) && (login.None? || !LoginRequired(login.value)) then Answer(d, p, WebLoginRequired, at)
      else if LoginRequired(creds) && login.value != creds then Answer(Recorded(d, p, at), p, WrongWebLogin, at)
      else Save(mac, d, p, pin, creds, disk, at)
  }

  function HandleSetPin(mac: Mac, d: Daemon, p: Peer, pin: PinValue, login: Option<Creds>, disk: Disk, now: real, at: real): Daemon {
    if !d.pin.NoPin? then Answer(d, p, AlreadyClaimed, at)
    else if p == "" then Answer(d, p, UnknownPeer, at)
    else
      var e := Pruned(d, p, now);
      if Limited(e, p) then Answer(e, p, TooManyAttempts, at)
      else if !pin.Typed? || |pin.shown| < 4 || |pin.shown| > 6 then Answer(e, p, BadPinLength, at)
      else Claim(mac, e, p, pin.shown, login, disk, at)
  }

  function HandleAuthenticate(d: Daemon, p: Peer, pin: PinValue, now: real, at: real): Daemon {
    if d.pin.NoPin? then Answer(d, p, NotClaimed, at)
    else
      var e := Pruned(d, p, now);
      if Limited(e, p) then Answer(e, p, TooManyAttempts, at)
      else
        match CheckPin(e.pin, pin.shown)
        case None => e
        case Some(true) => Answer(Marked(e, p), p, Success, at)
        case Some(false) => Answer(Recorded(e, p, at), p, WrongPin, at)
  }

  /** A complete write to the characteristic: the lockout is consulted at `now`,
      and the reply, with any failure recorded, is made at `at`. */
  function Handle(mac: Mac, d: Daemon, p: Peer, r: Request, disk: Disk, now: real, at: real): Daemon {
    if r.OtherAction? then Answer(d, p, UnknownAction, at)
    else
      var Checked(e, raised) := Enforce(mac, d, disk);
      if raised then e
      else
        match r
        case SetPin(pin, login) => HandleSetPin(mac, e, p, pin, login, disk, now, at)
        case Authenticate(pin) => HandleAuthenticate(e, p, pin, now, at)
  }

  // ---- Runs ---------------------------------------------------------------------

  datatype Action =
    | Edit(pin: PinFile, binding: BindingFile, config: Option<Creds>)
    | Write(peer: Peer, request: Request, disk: Disk, now: real, at: real)
    | Ask(peer: Peer, disk: Disk)
    | Leave(peer: Peer, now: real)

  /** The daemon and the latest time read from the monotonic clock. */
  datatype World = World(d: Daemon, now: real)

  predicate Enabled(w: World, a: Action) {
    match a
    case Write(_, _, _, now, at) => w.now <= now <= at
    case Leave(_, now) => w.now <= now
    case _ => true
  }

  function Next(mac: Mac, w: World, a: Action): World
    requires Enabled(w, a)
  {
    match a
    case Edit(pin, binding, config) => w.(d := w.d.(pin := pin, binding := binding, config := config))
    case Write(p, r, disk, now, at) => World(Handle(mac, w.d, p, r, disk, now, at), at)
    case Ask(p, disk) => w.(d := Query(mac, w.d, p, disk).0)
    case Leave(p, now) => World(Drop(w.d, p, now), now)
  }

  predicate Initial(w: World) {
    w.d.authenticated == {} && w.d.failures == map[] && w.d.log == []
  }

  ghost predicate Step(mac: Mac, w: World, w': World) {
    exists a :: Enabled(w, a) && w' == Next(mac, w, a)
  }

  ghost predicate Run(mac: Mac, run: seq<World>) {
    && |run| > 0 && Initial(run[0])
    && forall i, j :: 0 <= i && j == i + 1 < |run| ==> Step(mac, run[i], run[j])
  }

  // ---- What the log says --------------------------------------------------------

  /** The peer was told of a success that no later disconnect of it and no later claim reset undid. */
  ghost predicate Trusted(log: seq<Event>, p: Peer) {
    exists i: nat :: i < |log| && log[i].Replied? && log[i].peer == p && log[i].reply == Success && Undisturbed(log, i, p)
  }

  predicate Undisturbed(log: seq<Event>, i: nat, p: Peer) {
    forall j :: i < j < |log| ==> log[j] != Disconnected(p) && log[j] != ClaimReset
  }

  predicate IsWrong(e: Event, p: Peer) {
    e.Replied? && e.peer == p && (e.reply == WrongPin || e.reply == WrongWebLogin)
  }

  /** When the peer was told that its PIN or login was wrong. */
  function Wrong(log: seq<Event>, p: Peer): seq<real> {
    if log == [] then []
    else Wrong(log[..|log| - 1], p) + (if IsWrong(log[|log| - 1], p) then [log[|log| - 1].at] else [])
  }

  // ---- Invariant ------------------------------------------------------------------

  ghost predicate TrustOk(d: Daemon) {
    forall p :: p != "" ==> (p in d.authenticated <==> Trusted(d.log, p))
  }

  predicate Ordered(times: seq<real>) {
    forall i, j :: 0 <= i < j < |times| ==> times[i] <= times[j]
  }

  /** Any six consecutive failures take at least the whole window. */
  predicate Spaced(times: seq<real>) {
    forall i, j :: 0 <= i && i + AUTH_MAX_FAILS <= j < |times| ==> times[j] - times[i] >= AUTH_FAIL_WINDOW
  }

  /** The stored failures are the latest ones, and those dropped have expired. */
  predicate Remembers(kept: seq<real>, all: seq<real>, now: real) {
    && |kept| <= |all| && kept == all[|all| - |kept|..] && |kept| <= AUTH_MAX_FAILS
    && (forall i :: 0 <= i < |all| - |kept| ==> Expired(all[i], now))
    && (forall i :: 0 <= i < |all| ==> all[i] <= now)
    && Ordered(all) && Spaced(all)
  }

  ghost predicate LockoutOk(d: Daemon, now: real) {
    forall p :: p != "" ==> Remembers(Times(d.failures, p), Wrong(d.log, p), now)
  }

  ghost predicate Inv(d: Daemon, now: real) {
    TrustOk(d) && LockoutOk(d, now)
  }

  /** One more event: which failures there are, and who becomes, stays or ceases to be trusted. */
  lemma LogGrows(log: seq<Event>, e: Event, p: Peer)
    ensures Wrong(log + [e], p) == if IsWrong(e, p) then Wrong(log, p) + [e.at] else Wrong(log, p)
    ensures Trusted(log + [e], p) <==>
            (e.Replied? && e.peer == p && e.reply == Success) || (Trusted(log, p) && e != Disconnected(p) && e != ClaimReset)
  {
    assert (log + [e])[..|log|] == log;
    TrustGained(log, e, p);
    if Trusted(log + [e], p) {
      TrustKept(log, e, p);
    }
  }

  lemma TrustGained(log: seq<Event>, e: Event, p: Peer)
    ensures e.Replied? && e.peer == p && e.reply == Success ==> Trusted(log + [e], p)
    ensures Trusted(log, p) && e != Disconnected(p) && e != ClaimReset ==> Trusted(log + [e], p)
  {
    var n := log + [e];
    if Trusted(log, p) && e != Disconnected(p) && e != ClaimReset {
      var i: nat :| i < |log| && log[i].Replied? && log[i].peer == p && log[i].reply == Success && Undisturbed(log, i, p);
      assert n[i] == log[i] && Undisturbed(n, i, p);
    }
    if e.Replied? && e.peer == p && e.reply == Success {
      assert n[|log|] == e && Undisturbed(n, |log|, p);
    }
  }

  lemma TrustKept(log: seq<Event>, e: Event, p: Peer)
    requires Trusted(log + [e], p)
    ensures (e.Replied? && e.peer == p && e.reply == Success) || (Trusted(log, p) && e != Disconnected(p) && e != ClaimReset)
  {
    var n := log + [e];
    var i: nat :| i < |n| && n[i].Replied? && n[i].peer == p && n[i].reply == Success && Undisturbed(n, i, p);
    if i < |log| {
      assert n[|log|] == e && log[i] == n[i];
      forall j | i < j < |log| ensures log[j] != Disconnected(p) && log[j] != ClaimReset {
        assert n[j] == log[j];
      }
      assert Undisturbed(log, i, p);
    }
  }

  lemma NothingRecent(times: seq<real>, now: real)
    requires forall i :: 0 <= i < |times| ==> Expired(times[i], now)
    ensures Recent(times, now) == []
  {
  }

  /** On ordered times, what is recent is a suffix. */
  lemma {:induction false} RecentIsSuffix(times: seq<real>, now: real) returns (k: nat)
    requires Ordered(times)
    ensures k <= |times| && Recent(times, now) == times[k..]
    ensures forall i :: 0 <= i < k ==> Expired(times[i], now)
  {
    k := |times|;
    if times != [] {
      var n := |times| - 1;
      if !Expired(times[n], now) {
        hide Expired;
        assert Ordered(times[..n]);
        hide Ordered;
        k := RecentIsSuffix(times[..n], now);
        assert times[k..] == times[..n][k..] + [times[n]];
      } else {
        AllExpired(times, now);
        hide Expired;
        NothingRecent(times, now);
      }
    }
  }

  lemma AllExpired(times: seq<real>, now: real)
    requires Ordered(times) && times != [] && Expired(times[|times| - 1], now)
    ensures forall i :: 0 <= i < |times| ==> Expired(times[i], now)
  {
  }

  lemma LaterKeeps(kept: seq<real>, all: seq<real>, before: real, now: real)
    requires Remembers(kept, all, before) && before <= now
    ensures Remembers(kept, all, now)
  {
    hide Ordered, Spaced;
  }

  /** Forgetting what has expired, at a later time. */
  lemma ForgetKeeps(kept: seq<real>, all: seq<real>, before: real, now: real)
    requires Remembers(kept, all, before) && before <= now
    ensures Remembers(Recent(kept, now), all, now) && Remembers(kept, all, now)
  {
    LaterKeeps(kept, all, before, now);
    OrderedSuffix(all, |all| - |kept|);
    hide Ordered, Spaced, Recent, Expired;
    var k := RecentIsSuffix(kept, now);
    assert kept[k..] == all[|all| - |kept| + k..];
  }

  lemma OrderedSuffix(times: seq<real>, k: nat)
    requires Ordered(times) && k <= |times|
    ensures Ordered(times[k..])
  {
  }

  /** A failure recorded while fewer than five are remembered keeps the spacing. */
  lemma FailureKeeps(kept: seq<real>, all: seq<real>, now: real, at: real)
    requires Remembers(kept, all, now) && |kept| < AUTH_MAX_FAILS && now <= at
    ensures Remembers(kept + [at], all + [at], at)
  {
    var more := all + [at];
    assert more[|more| - |kept + [at]|..] == kept + [at];
    forall i, j | 0 <= i && i + AUTH_MAX_FAILS <= j < |more| ensures more[j] - more[i] >= AUTH_FAIL_WINDOW {
      if j == |all| {
        assert Expired(all[i], now);
      }
    }
  }

  lemma PrunedKeeps(d: Daemon, p: Peer, before: real, now: real)
    requires Inv(d, before) && before <= now
    ensures Inv(Pruned(d, p, now), now) && Inv(d, now)
  {
    hide TrustOk, Remembers, Wrong, Recent;
    forall q | q != ""
      ensures Remembers(Times(Pruned(d, p, now).failures, q), Wrong(d.log, q), now)
      ensures Remembers(Times(d.failures, q), Wrong(d.log, q), now)
    {
      ForgetKeeps(Times(d.failures, q), Wrong(d.log, q), before, now);
    }
    TrustSame(d, Pruned(d, p, now));
  }

  lemma TrustSame(d: Daemon, e: Daemon)
    requires TrustOk(d) && e.authenticated == d.authenticated && e.log == d.log
    ensures TrustOk(e)
  {
  }

  lemma LockoutSame(d: Daemon, e: Daemon, now: real)
    requires LockoutOk(d, now) && e.failures == d.failures && e.log == d.log
    ensures LockoutOk(e, now)
  {
  }

  /** A reply that is neither a success nor a failure to a named peer. */
  lemma AnswerKeeps(d: Daemon, p: Peer, reply: Reply, now: real, at: real)
    requires Inv(d, now) && now <= at
    requires p == "" || (reply != Success && reply != WrongPin && reply != WrongWebLogin)
    ensures Inv(Answer(d, p, reply, at), at)
  {
    hide Remembers, Wrong, Trusted, Recent;
    PrunedKeeps(d, "", now, at);
    forall q | q != "" {
      LogGrows(d.log, Replied(p, reply, at), q);
    }
  }

  lemma MarkKeeps(d: Daemon, p: Peer, now: real, at: real)
    requires Inv(d, now) && now <= at
    ensures Inv(Answer(Marked(d, p), p, Success, at), at)
  {
    hide Remembers, Wrong, Trusted, Recent;
    PrunedKeeps(d, "", now, at);
    forall q | q != "" {
      LogGrows(d.log, Replied(p, Success, at), q);
    }
  }

  lemma RecordKeeps(d: Daemon, p: Peer, reply: Reply, now: real, at: real)
    requires Inv(d, now) && now <= at && !Limited(d, p) && (reply == WrongPin || reply == WrongWebLogin)
    ensures Inv(Answer(Recorded(d, p, at), p, reply, at), at)
  {
    hide Remembers, Wrong, Trusted, Recent;
    PrunedKeeps(d, "", now, at);
    forall q | q != "" {
      LogGrows(d.log, Replied(p, reply, at), q);
    }
    if p != "" {
      FailureKeeps(Times(d.failures, p), Wrong(d.log, p), now, at);
    }
  }

  lemma ResetKeeps(d: Daemon, disk: Disk, now: real)
    requires Inv(d, now)
    ensures Inv(Reset(d, disk), now)
  {
    hide Remembers, Wrong, Trusted, Recent;
    forall q | q != "" {
      LogGrows(d.log, ClaimReset, q);
    }
  }

  lemma EnforceKeeps(mac: Mac, d: Daemon, disk: Disk, now: real)
    requires Inv(d, now)
    ensures Inv(Enforce(mac, d, disk).d, now)
  {
    hide Inv, TrustOk, LockoutOk, Reset;
    ResetKeeps(d, disk, now);
    FilesKeep(d, Enforce(mac, d, disk).d, now);
  }

  /** Neither claim depends on the files. */
  lemma FilesKeep(d: Daemon, e: Daemon, now: real)
    requires Inv(d, now)
    ensures e.authenticated == d.authenticated && e.failures == d.failures && e.log == d.log ==> Inv(e, now)
  {
    hide TrustOk, LockoutOk;
    if e.authenticated == d.authenticated && e.failures == d.failures && e.log == d.log {
      TrustSame(d, e);
      LockoutSame(d, e, now);
    }
  }

  lemma DropKeeps(d: Daemon, p: Peer, before: real, now: real)
    requires Inv(d, before) && before <= now
    ensures Inv(Drop(d, p, now), now)
  {
    hide Remembers, Wrong, Trusted, Recent, Pruned;
    PrunedKeeps(d, p, before, now);
    PrunedFrame(d, p, now);
    forall q | q != "" {
      LogGrows(d.log, Disconnected(p), q);
    }
  }

  lemma PrunedFrame(d: Daemon, p: Peer, now: real)
    ensures Pruned(d, p, now) == d.(failures := Pruned(d, p, now).failures)
  {
  }

  lemma SaveKeeps(mac: Mac, d: Daemon, p: Peer, pin: string, creds: Creds, disk: Disk, now: real, at: real)
    requires Inv(d, now) && now <= at
    ensures Inv(Save(mac, d, p, pin, creds, disk, at), at)
  {
    hide Inv, Fingerprint;
    var bound := d.(binding := Bound(disk.salt, Fingerprint(mac, creds, disk.salt)));
    match disk.save
    case NothingSaved => AnswerKeeps(d, p, SaveFailed, now, at);
    case OnlyBinding(left) =>
      FilesKeep(d, bound.(pin := left), now);
      AnswerKeeps(bound.(pin := left), p, SaveFailed, now, at);
    case Saved =>
      FilesKeep(d, bound.(pin := Pin(pin)), now);
      MarkKeeps(bound.(pin := Pin(pin)), p, now, at);
  }

  lemma ClaimKeeps(mac: Mac, d: Daemon, p: Peer, pin: string, login: Option<Creds>, disk: Disk, now: real, at: real)
    requires Inv(d, now) && now <= at && !Limited(d, p)
    ensures Inv(Claim(mac, d, p, pin, login, disk, at), at)
  {
    hide Inv, Answer, Recorded, Save, Limited;
    AnswerKeeps(d, p, WebLoginUnavailable, now, at);
    AnswerKeeps(d, p, WebLoginRequired, now, at);
    RecordKeeps(d, p, WrongWebLogin, now, at);
    if d.config.Some? {
      SaveKeeps(mac, d, p, pin, d.config.value, disk, now, at);
    }
  }

  lemma SetPinKeeps(mac: Mac, d: Daemon, p: Peer, pin: PinValue, login: Option<Creds>, disk: Disk, before: real, now: real, at: real)
    requires Inv(d, before) && before <= now <= at
    ensures Inv(HandleSetPin(mac, d, p, pin, login, disk, now, at), at)
  {
    hide Inv, Answer, Pruned, Limited, Claim;
    var e := Pruned(d, p, now);
    PrunedKeeps(d, p, before, now);
    AnswerKeeps(d, p, AlreadyClaimed, now, at);
    AnswerKeeps(d, p, UnknownPeer, now, at);
    AnswerKeeps(e, p, TooManyAttempts, now, at);
    AnswerKeeps(e, p, BadPinLength, now, at);
    if !Limited(e, p) {
      ClaimKeeps(mac, e, p, pin.shown, login, disk, now, at);
    }
  }

  lemma AuthenticateKeeps(d: Daemon, p: Peer, pin: PinValue, before: real, now: real, at: real)
    requires Inv(d, before) && before <= now <= at
    ensures Inv(HandleAuthenticate(d, p, pin, now, at), at)
  {
    hide Inv, Answer, Pruned, Limited, Marked, Recorded, CheckPin;
    var e := Pruned(d, p, now);
    PrunedKeeps(d, p, before, now);
    PrunedKeeps(e, p, now, at);
    AnswerKeeps(d, p, NotClaimed, now, at);
    AnswerKeeps(e, p, TooManyAttempts, now, at);
    MarkKeeps(e, p, now, at);
    if !Limited(e, p) {
      RecordKeeps(e, p, WrongPin, now, at);
    }
  }

  lemma NextKeeps(mac: Mac, w: World, a: Action)
    requires Inv(w.d, w.now) && Enabled(w, a)
    ensures Inv(Next(mac, w, a).d, Next(mac, w, a).now)
  {
    hide Inv, Enforce, HandleSetPin, HandleAuthenticate, Answer, Drop;
    match a
    case Edit(pin, binding, config) => FilesKeep(w.d, w.d.(pin := pin, binding := binding, config := config), w.now);
    case Write(p, r, disk, now, at) =>
      AnswerKeeps(w.d, p, UnknownAction, w.now, at);
      var Checked(e, raised) := Enforce(mac, w.d, disk);
      EnforceKeeps(mac, w.d, disk, w.now);
      PrunedKeeps(e, "", w.now, at);
      match r {
        case SetPin(pin, login) => SetPinKeeps(mac, e, p, pin, login, disk, w.now, now, at);
        case Authenticate(pin) => AuthenticateKeeps(e, p, pin, w.now, now, at);
        case OtherAction =>
      }
    case Ask(p, disk) => EnforceKeeps(mac, w.d, disk, w.now);
    case Leave(p, now) => DropKeeps(w.d, p, w.now, now);
  }

  // ---- Main results --------------------------------------------------------------

  /** In every run, across reconnects, prunes, claims and resets, the invariant holds. */
  lemma {:induction false} EveryRun(mac: Mac, run: seq<World>, n: nat)
    requires Run(mac, run) && n < |run|
    ensures Inv(run[n].d, run[n].now)
  {
    if n > 0 {
      EveryRun(mac, run, n - 1);
      hide Inv, Next;
      assert Step(mac, run[n - 1], run[n]);
      var a :| Enabled(run[n - 1], a) && run[n] == Next(mac, run[n - 1], a);
      NextKeeps(mac, run[n - 1], a);
    }
  }

  /** The failures of one half-open window. */
  function Within(times: seq<real>, start: real): seq<real> {
    if times == [] then []
    else Within(times[..|times| - 1], start)
         + (if start <= times[|times| - 1] < start + AUTH_FAIL_WINDOW then [times[|times| - 1]] else [])
  }

  /** The first and last entry of a window are at least its size apart. */
  lemma {:induction false} WithinSpan(times: seq<real>, start: real) returns (i: nat, j: nat)
    requires Within(times, start) != []
    ensures i <= j < |times| && j - i >= |Within(times, start)| - 1
    ensures start <= times[i] && times[j] < start + AUTH_FAIL_WINDOW
  {
    var n := |times| - 1;
    i, j := n, n;
    if Within(times[..n], start) != [] {
      i, j := WithinSpan(times[..n], start);
      if start <= times[n] < start + AUTH_FAIL_WINDOW {
        j := n;
      }
    }
  }

  /** Whatever a named peer does, it is told "wrong" at most five times in any
      window of three hundred seconds. */
  lemma AtMostFiveFailures(mac: Mac, run: seq<World>, n: nat, p: Peer, start: real)
    requires Run(mac, run) && n < |run| && p != ""
    ensures |Within(Wrong(run[n].d.log, p), start)| <= AUTH_MAX_FAILS
  {
    EveryRun(mac, run, n);
    var times := Wrong(run[n].d.log, p);
    assert Spaced(times);
    if Within(times, start) != [] {
      var i, j := WithinSpan(times, start);
      assert j - i < AUTH_MAX_FAILS;
    }
  }

  /** In every run, `is_authenticated` says yes to exactly the named peers that
      were told of a success since their last disconnect and the last reset, the
      reset this very call may make included; and with a readable config the
      binding, when there is one, matches the current web login. */
  lemma YesMeansTrusted(mac: Mac, run: seq<World>, n: nat, p: Peer, disk: Disk)
    requires Run(mac, run) && n < |run|
    ensures var (d, answer) := Query(mac, run[n].d, p, disk); AnswerSound(mac, d, p, answer)
  {
    EveryRun(mac, run, n);
    QuerySound(mac, run[n].d, p, disk, run[n].now);
  }

  /** What an answer of `is_authenticated` says about the state it leaves. */
  ghost predicate AnswerSound(mac: Mac, d: Daemon, p: Peer, answer: Option<bool>) {
    && (answer.None? ==> d.pin.Garbled? || (d.binding.Bound? && !Ascii(d.binding.stamp)))
    && (answer.Some? ==> (answer.value <==> p != "" && !d.pin.NoPin? && Trusted(d.log, p)))
    && (answer == Some(true) && d.config.Some? ==>
          d.binding.Unbound? || (d.binding.Bound? && d.binding.stamp == Fingerprint(mac, d.config.value, d.binding.salt)))
  }

  lemma QuerySound(mac: Mac, d: Daemon, p: Peer, disk: Disk, now: real)
    requires Inv(d, now)
    ensures var (e, answer) := Query(mac, d, p, disk); Inv(e, now) && AnswerSound(mac, e, p, answer)
  {
    EnforceKeeps(mac, d, disk, now);
    hide Trusted, Fingerprint, LockoutOk;
  }

  // ---- Who is locked out ------------------------------------------------------

  /** The fifth latest time a named peer was told "wrong" is less than 300 seconds ago. */
  predicate LockedOut(log: seq<Event>, p: Peer, now: real) {
    var wrong := Wrong(log, p);
    p != "" && |wrong| >= 5 && now - wrong[|wrong| - 5] < 300.0
  }

  lemma FiveRecent(times: seq<real>, now: real)
    requires Ordered(times)
    ensures |Recent(times, now)| >= AUTH_MAX_FAILS <==> |times| >= 5 && now - times[|times| - 5] < 300.0
  {
    var k := RecentIsSuffix(times, now);
    hide Recent;
    if |times| >= 5 && k <= |times| - 5 {
      SuffixRecent(times, now, k);
    }
  }

  /** What is kept as recent has not expired. */
  lemma SuffixRecent(times: seq<real>, now: real, k: nat)
    requires k < |times| && Recent(times, now) == times[k..]
    ensures forall i :: k <= i < |times| ==> now - times[i] < 300.0
  {
    forall i | k <= i < |times| ensures now - times[i] < 300.0 {
      assert times[k..][i - k] == times[i];
      RecentHolds(times, now, i - k);
    }
  }

  lemma {:induction false} RecentHolds(times: seq<real>, now: real, i: nat)
    requires i < |Recent(times, now)|
    ensures !Expired(Recent(times, now)[i], now)
  {
    if times != [] {
      var n := |times| - 1;
      if i < |Recent(times[..n], now)| {
        RecentHolds(times[..n], now, i);
      }
    }
  }

  /** Forgetting expired failures does not change which are recent. */
  lemma {:induction false} RecentConcat(a: seq<real>, b: seq<real>, now: real)
    requires forall i :: 0 <= i < |a| ==> Expired(a[i], now)
    ensures Recent(a + b, now) == Recent(b, now)
  {
    if b == [] {
      assert a + b == a;
      NothingRecent(a, now);
    } else {
      assert (a + b)[..|a + b| - 1] == a + b[..|b| - 1];
      RecentConcat(a, b[..|b| - 1], now);
    }
  }

  /** The lockout can be read off the log: the daemon limits a peer exactly when it
      has been told "wrong" five times within the last 300 seconds. */
  lemma LimitedIff(d: Daemon, p: Peer, before: real, now: real)
    requires Inv(d, before) && before <= now
    ensures Limited(Pruned(d, p, now), p) <==> LockedOut(d.log, p, now)
  {
    if p != "" {
      var kept, all := Times(d.failures, p), Wrong(d.log, p);
      assert Remembers(kept, all, before);
      LaterKeeps(kept, all, before, now);
      hide Wrong, Recent, Ordered, Spaced, Expired;
      var cut := |all| - |kept|;
      assert all == all[..cut] + kept;
      RecentConcat(all[..cut], kept, now);
      FiveRecent(all, now);
    }
  }

  /** A disconnect ends a peer's trust, nobody else's, and changes no lockout. */
  lemma DropMeans(d: Daemon, p: Peer, q: Peer, before: real, now: real)
    requires Inv(d, before) && before <= now && p != ""
    ensures
      var e := Drop(d, p, now);
      && Inv(e, now) && !Trusted(e.log, p) && (q != p ==> (Trusted(e.log, q) <==> Trusted(d.log, q)))
      && Wrong(e.log, q) == Wrong(d.log, q)
  {
    DropKeeps(d, p, before, now);
    LogGrows(d.log, Disconnected(p), p);
    LogGrows(d.log, Disconnected(p), q);
    hide Inv, Wrong, Trusted, Pruned;
  }

  /** A locked-out peer learns nothing: no reply tells it that a PIN or login was right or wrong. */
  predicate TellsNothing(e: Event) {
    e.Replied? ==> e.reply != Success && e.reply != WrongPin && e.reply != WrongWebLogin
  }

  lemma LockedOutLearnsNothing(mac: Mac, d: Daemon, p: Peer, r: Request, disk: Disk, before: real, now: real, at: real)
    requires Inv(d, before) && before <= now && LockedOut(d.log, p, now)
    ensures
      var after := Handle(mac, d, p, r, disk, now, at).log;
      d.log <= after && forall i :: |d.log| <= i < |after| ==> TellsNothing(after[i])
  {
    hide Inv, Wrong, Recent, Limited, Pruned, Enforce, HandleSetPin, HandleAuthenticate;
    var e := Enforce(mac, d, disk).d;
    EnforceKeeps(mac, d, disk, before);
    EnforceLog(mac, d, disk, p);
    LimitedIff(e, p, before, now);
    match r
    case OtherAction =>
    case SetPin(pin, login) => LimitedSetPin(mac, e, p, pin, login, disk, now, at);
    case Authenticate(pin) => LimitedAuthenticate(e, p, pin, now, at);
  }

  lemma EnforceLog(mac: Mac, d: Daemon, disk: Disk, p: Peer)
    ensures var log := Enforce(mac, d, disk).d.log; (log == d.log || log == d.log + [ClaimReset]) && Wrong(log, p) == Wrong(d.log, p)
  {
    LogGrows(d.log, ClaimReset, p);
    hide Wrong, Fingerprint;
  }

  lemma LimitedSetPin(mac: Mac, d: Daemon, p: Peer, pin: PinValue, login: Option<Creds>, disk: Disk, now: real, at: real)
    requires Limited(Pruned(d, p, now), p)
    ensures exists e :: TellsNothing(e) && HandleSetPin(mac, d, p, pin, login, disk, now, at).log == d.log + [e]
  {
    PrunedFrame(d, p, now);
    assert TellsNothing(Replied(p, TooManyAttempts, at)) && TellsNothing(Replied(p, AlreadyClaimed, at));
    assert TellsNothing(Replied(p, UnknownPeer, at));
    hide Limited, Pruned, Claim;
  }

  lemma LimitedAuthenticate(d: Daemon, p: Peer, pin: PinValue, now: real, at: real)
    requires Limited(Pruned(d, p, now), p)
    ensures exists e :: TellsNothing(e) && HandleAuthenticate(d, p, pin, now, at).log == d.log + [e]
  {
    PrunedFrame(d, p, now);
    assert TellsNothing(Replied(p, TooManyAttempts, at)) && TellsNothing(Replied(p, NotClaimed, at));
    hide Limited, Pruned, CheckPin;
  }

  function EncodedLogin(c: Creds): string {
    c.username + ['\0'] + c.password
  }

  /** Unless the hashes of these two logins happen to collide, or one of them is the
      word "off", a fingerprint survives exactly an unchanged login; turning the
      login on or off always changes it. */
  lemma FingerprintIffSameLogin(mac: Mac, a: Creds, b: Creds, salt: string)
    requires mac(salt, EncodedLogin(a)) == mac(salt, EncodedLogin(b)) ==> EncodedLogin(a) == EncodedLogin(b)
    requires mac(salt, EncodedLogin(a)) != "off" && mac(salt, EncodedLogin(b)) != "off"
    requires '\0' !in a.username && '\0' !in b.username
    ensures Fingerprint(mac, a, salt) == Fingerprint(mac, b, salt) <==>
            (a == b || (!LoginRequired(a) && !LoginRequired(b)))
  {
    if LoginRequired(a) && LoginRequired(b) && Fingerprint(mac, a, salt) == Fingerprint(mac, b, salt) {
      var x, y := EncodedLogin(a), EncodedLogin(b);
      FirstNul(a.username, a.password, b.username, b.password);
      FirstNul(b.username, b.password, a.username, a.password);
      assert a.username == x[..|a.username|] && b.username == y[..|b.username|];
      assert a.password == x[|a.username| + 1..] && b.password == y[|b.username| + 1..];
    }
  }

  lemma FirstNul(u: string, p: string, v: string, q: string)
    requires u + ['\0'] + p == v + ['\0'] + q && '\0' !in v
    ensures |v| <= |u|
  {
    assert (u + ['\0'] + p)[|u|] == '\0';
    assert forall i :: 0 <= i < |v| ==> (v + ['\0'] + q)[i] == v[i];
  }

  // ---- The PIN that was set ---------------------------------------------------

  /** The PIN is written as typed but read back in text mode and stripped, so the
      PIN that opens the claim is what that reading yields: the very PIN that was
      set works again exactly when it is ASCII, has no carriage return, and has no
      white space (as Python sees it) at its ends. */
  lemma ClaimedPinOpens(mac: Mac, d: Daemon, p: Peer, pin: string, login: Option<Creds>, disk: Disk, now: real, at: real,
                        q: Peer, given: string, disk': Disk, now': real, at': real)
    requires forall salt, x :: Ascii(mac(salt, x))
    requires Handle(mac, d, p, SetPin(Typed(pin), login), disk, now, at).log == Enforce(mac, d, disk).d.log + [Replied(p, Success, at)]
    requires !Limited(Pruned(Handle(mac, d, p, SetPin(Typed(pin), login), disk, now, at), q, now'), q)
    ensures
      var claimed := Handle(mac, d, p, SetPin(Typed(pin), login), disk, now, at);
      var after := Handle(mac, claimed, q, Authenticate(Typed(given)), disk', now', at');
      && (after.log == claimed.log + [Replied(q, Success, at')] <==> Ascii(ReadStripped(pin)) && given == ReadStripped(pin))
      && (given == pin ==> (after.log == claimed.log + [Replied(q, Success, at')] <==>
                            Ascii(pin) && '\r' !in pin && Tight(pin, PythonSpace)))
  {
    var claimed := Handle(mac, d, p, SetPin(Typed(pin), login), disk, now, at);
    SuccessfulClaim(mac, d, p, pin, login, disk, now, at);
    assert Ascii("off");
    assert Enforce(mac, claimed, disk') == Checked(claimed, false);
    hide Enforce, HandleSetPin, Limited, ReadStripped;
    var e := Pruned(claimed, q, now');
    assert e.log == claimed.log && e.pin == claimed.pin;
    hide Pruned;
    var after := Handle(mac, claimed, q, Authenticate(Typed(given)), disk', now', at');
    assert after == HandleAuthenticate(claimed, q, Typed(given), now', at');
    assert |after.log| > |claimed.log| ==> after.log[|claimed.log|].Replied?;
  }

  /** What a successful `set_pin` requires and what it leaves in the files: the device
      was unclaimed, the PIN has four to six characters, and the web login was given
      when one is required. */
  lemma SuccessfulClaim(mac: Mac, d: Daemon, p: Peer, pin: string, login: Option<Creds>, disk: Disk, now: real, at: real)
    requires Handle(mac, d, p, SetPin(Typed(pin), login), disk, now, at).log == Enforce(mac, d, disk).d.log + [Replied(p, Success, at)]
    ensures
      var claimed := Handle(mac, d, p, SetPin(Typed(pin), login), disk, now, at);
      && Enforce(mac, d, disk).d.pin.NoPin? && 4 <= |pin| <= 6
      && claimed.pin == Pin(pin) && claimed.config.Some? && p in claimed.authenticated
      && claimed.binding == Bound(disk.salt, Fingerprint(mac, claimed.config.value, disk.salt))
      && (LoginRequired(claimed.config.value) ==> login == claimed.config)
  {
    hide Enforce, Fingerprint, Pruned, Limited;
    var e := Enforce(mac, d, disk).d;
    var claimed := Handle(mac, d, p, SetPin(Typed(pin), login), disk, now, at);
    PrunedFrame(e, p, now);
    assert claimed.log[|e.log|] == Replied(p, Success, at);
  }

  // ---- Exactly when ------------------------------------------------------------

  /** The reply a write adds to what the binding check left. */
  predicate Replies(mac: Mac, d: Daemon, p: Peer, r: Request, disk: Disk, now: real, at: real, reply: Reply) {
    Handle(mac, d, p, r, disk, now, at).log == Enforce(mac, d, disk).d.log + [Replied(p, reply, at)]
  }

  lemma NewReply(log: seq<Event>, p: Peer, a: Reply, b: Reply, at: real)
    requires log + [Replied(p, a, at)] == log + [Replied(p, b, at)]
    ensures a == b
  {
    assert (log + [Replied(p, a, at)])[|log|] == Replied(p, a, at);
    assert (log + [Replied(p, b, at)])[|log|] == Replied(p, b, at);
  }

  lemma OneReply(mac: Mac, d: Daemon, p: Peer, r: Request, disk: Disk, now: real, at: real, a: Reply)
    requires Replies(mac, d, p, r, disk, now, at, a)
    ensures forall b :: Replies(mac, d, p, r, disk, now, at, b) ==> b == a
  {
    hide Handle, Enforce;
    forall b | Replies(mac, d, p, r, disk, now, at, b) ensures b == a {
      NewReply(Enforce(mac, d, disk).d.log, p, a, b, at);
    }
  }

  /** In every run a claim succeeds exactly on an unclaimed device, for a named peer
      that is not locked out, with a PIN of four to six characters, a readable config,
      the web login if there is one, and files that can be written. A wrong web login
      is reported exactly when one was given and everything before it was in order. */
  lemma ClaimIff(mac: Mac, d: Daemon, p: Peer, pin: PinValue, login: Option<Creds>, disk: Disk, before: real, now: real, at: real)
    requires Inv(d, before) && before <= now && !Enforce(mac, d, disk).raised
    ensures
      var e := Enforce(mac, d, disk).d;
      var admitted := e.pin.NoPin? && p != "" && !LockedOut(d.log, p, now) && pin.Typed? && 4 <= |pin.shown| <= 6 && e.config.Some?;
      && (Replies(mac, d, p, SetPin(pin, login), disk, now, at, Success) <==>
            admitted && (LoginRequired(e.config.value) ==> login == e.config) && disk.save.Saved?)
      && (Replies(mac, d, p, SetPin(pin, login), disk, now, at, WrongWebLogin) <==>
            admitted && LoginRequired(e.config.value) && login.Some? && LoginRequired(login.value) && login != e.config)
      && (Replies(mac, d, p, SetPin(pin, login), disk, now, at, AlreadyClaimed) <==> !e.pin.NoPin?)
  {
    var e := Enforce(mac, d, disk).d;
    EnforceKeeps(mac, d, disk, before);
    EnforceLog(mac, d, disk, p);
    LimitedIff(e, p, before, now);
    PrunedFrame(e, p, now);
    hide Inv, Enforce, Pruned, Limited, Fingerprint, Recent, Wrong;
    var reply := SetPinReply(e, p, pin, login, disk, now);
    SetPinReplies(mac, e, p, pin, login, disk, now, at);
    assert Replies(mac, d, p, SetPin(pin, login), disk, now, at, reply);
    OneReply(mac, d, p, SetPin(pin, login), disk, now, at, reply);
  }

  function SetPinReply(e: Daemon, p: Peer, pin: PinValue, login: Option<Creds>, disk: Disk, now: real): Reply {
    if !e.pin.NoPin? then AlreadyClaimed
    else if p == "" then UnknownPeer
    else if Limited(Pruned(e, p, now), p) then TooManyAttempts
    else if !pin.Typed? || |pin.shown| < 4 || |pin.shown| > 6 then BadPinLength
    else if e.config.None? then WebLoginUnavailable
    else if LoginRequired(e.config.value) && (login.None? || !LoginRequired(login.value)) then WebLoginRequired
    else if LoginRequired(e.config.value) && login != e.config then WrongWebLogin
    else if disk.save.Saved? then Success else SaveFailed
  }

  lemma SetPinReplies(mac: Mac, e: Daemon, p: Peer, pin: PinValue, login: Option<Creds>, disk: Disk, now: real, at: real)
    ensures HandleSetPin(mac, e, p, pin, login, disk, now, at).log == e.log + [Replied(p, SetPinReply(e, p, pin, login, disk, now), at)]
  {
    PrunedFrame(e, p, now);
    hide Pruned, Limited, Fingerprint;
  }

  /** A claim, once made, is out of reach of `set_pin`: while a PIN file is there nothing it answers to changes. */
  lemma ClaimIsGuarded(mac: Mac, d: Daemon, p: Peer, pin: PinValue, login: Option<Creds>, disk: Disk, now: real, at: real)
    requires !Enforce(mac, d, disk).d.pin.NoPin?
    ensures
      var e, r := Enforce(mac, d, disk).d, Handle(mac, d, p, SetPin(pin, login), disk, now, at);
      r == e.(log := r.log) && forall i :: |e.log| <= i < |r.log| ==> TellsNothing(r.log[i])
  {
    hide Enforce;
  }

  /** In every run `authenticate` on a claimed device succeeds, refuses or turns away
      exactly by the PIN that reading the file yields and the lockout the log shows. */
  lemma AuthenticateIff(mac: Mac, d: Daemon, p: Peer, pin: PinValue, disk: Disk, before: real, now: real, at: real)
    requires Inv(d, before) && before <= now && !Enforce(mac, d, disk).raised
    ensures
      var e := Enforce(mac, d, disk).d;
      var comparable := e.pin.Pin? && Ascii(ReadStripped(e.pin.text)) && Ascii(pin.shown);
      && (Replies(mac, d, p, Authenticate(pin), disk, now, at, Success) <==>
            comparable && !LockedOut(d.log, p, now) && pin.shown == ReadStripped(e.pin.text))
      && (Replies(mac, d, p, Authenticate(pin), disk, now, at, WrongPin) <==>
            comparable && !LockedOut(d.log, p, now) && pin.shown != ReadStripped(e.pin.text))
      && (Replies(mac, d, p, Authenticate(pin), disk, now, at, TooManyAttempts) <==> e.pin.Pin? && LockedOut(d.log, p, now))
      && (Replies(mac, d, p, Authenticate(pin), disk, now, at, NotClaimed) <==> e.pin.NoPin?)
  {
    var e := Enforce(mac, d, disk).d;
    EnforceKeeps(mac, d, disk, before);
    EnforceLog(mac, d, disk, p);
    EnforceReadable(mac, d, disk);
    LimitedIff(e, p, before, now);
    PrunedFrame(e, p, now);
    hide Inv, Enforce, Pruned, Limited, Recent, Wrong, ReadStripped, Ascii, HandleAuthenticate;
    AuthenticateReplies(e, p, pin, now, at);
    var reply := AuthenticateReply(e, p, pin, now);
    if reply.Some? {
      assert Replies(mac, d, p, Authenticate(pin), disk, now, at, reply.value);
      OneReply(mac, d, p, Authenticate(pin), disk, now, at, reply.value);
    }
  }

  function AuthenticateReply(e: Daemon, p: Peer, pin: PinValue, now: real): Option<Reply> {
    if e.pin.NoPin? then Some(NotClaimed)
    else if Limited(Pruned(e, p, now), p) then Some(TooManyAttempts)
    else
      match CheckPin(e.pin, pin.shown)
      case None => None
      case Some(right) => Some(if right then Success else WrongPin)
  }

  lemma AuthenticateReplies(e: Daemon, p: Peer, pin: PinValue, now: real, at: real)
    ensures
      var reply := AuthenticateReply(e, p, pin, now);
      HandleAuthenticate(e, p, pin, now, at).log == if reply.Some? then e.log + [Replied(p, reply.value, at)] else e.log
  {
    PrunedFrame(e, p, now);
    hide Pruned, Limited, CheckPin;
  }

  /** A check that does not raise has found the PIN file missing or readable. */
  lemma EnforceReadable(mac: Mac, d: Daemon, disk: Disk)
    requires !Enforce(mac, d, disk).raised
    ensures !Enforce(mac, d, disk).d.pin.Garbled?
  {
  }

  /** The binding check resets a claim exactly when the config is readable and the
      binding is damaged or was made under another login; it raises exactly on an
      unreadable PIN file or a binding that is not ASCII; it writes a binding exactly
      when a claim without one is adopted, once; and a check that resets nothing
      leaves PIN and peers alone. */
  lemma EnforceIff(mac: Mac, d: Daemon, disk: Disk)
    ensures
      var Checked(e, raised) := Enforce(mac, d, disk);
      var claimed := d.pin.Pin? && d.config.Some?;
      var garbled := d.binding.Bound? && !Ascii(d.binding.stamp);
      var changed :=
        d.config.Some? &&
        (d.binding.Damaged?
         || (d.binding.Bound? && !garbled && d.binding.stamp != Fingerprint(mac, d.config.value, d.binding.salt)));
      && (raised <==> d.pin.Garbled? || (claimed && garbled))
      && (e.log == d.log + [ClaimReset] <==> claimed && changed) && (e.log == d.log <==> !(claimed && changed))
      && (claimed && changed ==> e.authenticated == {} && (disk.pinRemoved ==> e.pin.NoPin?) && (disk.bindingRemoved ==> e.binding.Unbound?))
      && (!(claimed && changed) ==> e.authenticated == d.authenticated && e.pin == d.pin && (!d.binding.Unbound? ==> e.binding == d.binding))
      && (d.binding.Unbound? && e.binding != d.binding <==> claimed && d.binding.Unbound? && !d.adoptTried && disk.adopted)
      && (d.binding.Unbound? && e.binding != d.binding ==>
            e.binding.Bound? && e.binding.stamp == Fingerprint(mac, d.config.value, e.binding.salt))
      && (claimed && d.binding.Unbound? ==> e.adoptTried) && e.failures == d.failures && e.config == d.config
  {
    hide Fingerprint, Ascii;
    assert d.log + [ClaimReset] != d.log;
  }

  /** While nobody edits the files and no reset happens, a claim lasts: the PIN stays
      the one that was set, whatever any peer sends. */
  lemma {:induction false} ClaimLasts(mac: Mac, run: seq<World>, i: nat, j: nat)
    requires i <= j < |run| && run[i].d.pin.Pin?
    requires forall k, l :: i <= k < j && l == k + 1 ==> Undisturbing(mac, run[k], run[l])
    ensures run[j].d.pin == run[i].d.pin
  {
    hide Undisturbing;
    if i < j {
      ClaimLasts(mac, run, i, j - 1);
      StepKeepsClaim(mac, run[j - 1], run[j]);
    }
  }

  /** A step that is not an edit of the files and resets nothing. */
  ghost predicate Undisturbing(mac: Mac, w: World, w': World) {
    && (exists a :: Enabled(w, a) && !a.Edit? && w' == Next(mac, w, a))
    && forall k :: |w.d.log| <= k < |w'.d.log| ==> w'.d.log[k] != ClaimReset
  }

  lemma StepKeepsClaim(mac: Mac, w: World, w': World)
    requires Undisturbing(mac, w, w') && w.d.pin.Pin?
    ensures w'.d.pin == w.d.pin
  {
    var a :| Enabled(w, a) && !a.Edit? && w' == Next(mac, w, a);
    hide Enforce, Handle, Pruned;
    match a
    case Ask(p, disk) => CheckKeepsClaim(mac, w.d, disk);
    case Leave(p, now) => PrunedFrame(w.d, p, now);
    case Write(p, r, disk, now, at) =>
      WriteKeepsClaim(mac, w.d, p, r, disk, now, at);
  }

  lemma CheckKeepsClaim(mac: Mac, d: Daemon, disk: Disk)
    requires d.pin.Pin?
    ensures var e := Enforce(mac, d, disk).d; e.pin == d.pin || (|e.log| > |d.log| && e.log[|d.log|] == ClaimReset)
  {
    EnforceIff(mac, d, disk);
    hide Enforce;
  }

  lemma WriteKeepsClaim(mac: Mac, d: Daemon, p: Peer, r: Request, disk: Disk, now: real, at: real)
    requires d.pin.Pin?
    ensures var after := Handle(mac, d, p, r, disk, now, at); after.pin == d.pin || (|after.log| > |d.log| && after.log[|d.log|] == ClaimReset)
  {
    EnforceIff(mac, d, disk);
    hide Enforce, Pruned, Limited, Fingerprint, HandleSetPin, HandleAuthenticate;
    var e := Enforce(mac, d, disk).d;
    match r {
      case SetPin(pin, login) =>
        SetPinReplies(mac, e, p, pin, login, disk, now, at);
        if !e.pin.NoPin? {
          ClaimIsGuarded(mac, d, p, pin, login, disk, now, at);
        }
      case Authenticate(pin) =>
        AuthenticateReplies(e, p, pin, now, at);
        AuthenticateKeepsPin(e, p, pin, now, at);
      case OtherAction =>
    }
  }

  lemma AuthenticateKeepsPin(e: Daemon, p: Peer, pin: PinValue, now: real, at: real)
    ensures HandleAuthenticate(e, p, pin, now, at).pin == e.pin && HandleAuthenticate(e, p, pin, now, at).binding == e.binding
  {
    PrunedFrame(e, p, now);
    hide Pruned, Limited, CheckPin;
  }

  /** A PIN is accepted by `set_pin` and then refused by `authenticate`. */
  predicate LocksOut(pin: string) {
    var mac := (salt, x) => "";
    var disk := Disk(false, "", true, true, Saved);
    var unclaimed := Daemon({}, map[], NoPin, Unbound, Some(Creds("", "")), false, []);
    var claimed := Handle(mac, unclaimed, "phone", SetPin(Typed(pin), None), disk, 0.0, 0.0);
    && claimed.log == [Replied("phone", Success, 0.0)]
    && Handle(mac, claimed, "phone", Authenticate(Typed(pin)), disk, 1.0, 1.0).log
       == [Replied("phone", Success, 0.0), Replied("phone", WrongPin, 1.0)]
  }

  /** A leading blank is stripped, a separator too, and a carriage return comes back as a line feed. */
  lemma BlankPinLocksOut()
    ensures LocksOut(" 1234") && LocksOut("\U{1C}1234") && LocksOut("12\r34")
  {
    hide LocksOut;
    assert "12\r34"[2] == '\r';
    RefusedAgain(" 1234");
    RefusedAgain("\U{1C}1234");
    RefusedAgain("12\r34");
  }

  lemma RefusedAgain(pin: string)
    requires 4 <= |pin| <= 6 && Ascii(pin) && !('\r' !in pin && Tight(pin, PythonSpace))
    ensures LocksOut(pin)
  {
    hide ReadStripped, Ascii;
    assert Ascii("off") by {
      OffIsAscii();
    }
  }

  lemma OffIsAscii()
    ensures Ascii("off")
  {
  }
}
