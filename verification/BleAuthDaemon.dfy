/** The daemon's authentication state, updated in place by its handlers. Each
    handler takes a valid state to a valid state by the corresponding function of
    `BleAuth`, and says what its answer means. */
module BleAuthDaemon {
  import opened Options
  import opened Text
  import opened BleAuth

  class AuthState {
    const mac: Mac
    var authenticated: set<Peer>
    var failures: map<Peer, seq<real>>
    var pin: PinFile
    var binding: BindingFile
    var config: Option<Creds>
    var adoptTried: bool
    /** Replies, disconnects and resets so far. */
    var log: seq<Event>

    /** The latest time read from the monotonic clock. */
    ghost var clock: real

    /** What every run keeps. */
    ghost predicate Valid()
      reads this
    {
      Inv(View(), clock)
    }

    ghost function View(): Daemon
      reads this
    {
      Daemon(authenticated, failures, pin, binding, config, adoptTried, log)
    }

    constructor (mac: Mac, pin: PinFile, binding: BindingFile, config: Option<Creds>, now: real)
      ensures this.mac == mac && Initial(World(View(), now)) && clock == now && Valid()
    {
      clock := now;
      this.mac, this.pin, this.binding, this.config := mac, pin, binding, config;
      authenticated, failures, adoptTried, log := {}, map[], false, [];
    }

    method ResetClaim(disk: Disk)
      modifies this`authenticated, this`pin, this`binding, this`log
      ensures View() == Reset(old(View()), disk)
    {
      authenticated := {};
      if disk.pinRemoved {
        pin := NoPin;
      }
      if disk.bindingRemoved {
        binding := Unbound;
      }
      log := log + [ClaimReset];
    }

    method EnforceWebAuthBinding(disk: Disk) returns (raised: bool)
      modifies this`authenticated, this`pin, this`binding, this`adoptTried, this`log
      ensures Checked(View(), raised) == Enforce(mac, old(View()), disk)
    {
      hide Fingerprint;
      if pin.Garbled? {
        return true;
      }
      if pin.NoPin? || config.None? {
        return false;
      }
      match binding
      case Unbound =>
        if !adoptTried {
          adoptTried := true;
          if disk.adopted {
            binding := Bound(disk.salt, Fingerprint(mac, config.value, disk.salt));
          }
        }
        return false;
      case Damaged =>
        ResetClaim(disk);
        return false;
      case Bound(salt, stamp) =>
        if !Ascii(stamp) {
          return true;
        }
        if stamp != Fingerprint(mac, config.value, salt) {
          ResetClaim(disk);
        }
        return false;
    }

    /** A yes means: told of a success since the last disconnect and the last reset,
        under a binding that matches the current web login. */
    method IsAuthenticated(p: Peer, disk: Disk) returns (answer: Option<bool>)
      requires Valid()
      modifies this`authenticated, this`pin, this`binding, this`adoptTried, this`log
      ensures Valid() && (View(), answer) == Query(mac, old(View()), p, disk)
      ensures AnswerSound(mac, View(), p, answer)
    {
      QuerySound(mac, View(), p, disk, clock);
      hide Enforce, Inv, AnswerSound;
      if p == "" {
        return Some(false);
      }
      var raised := EnforceWebAuthBinding(disk);
      if raised {
        return None;
      }
      return Some(!pin.NoPin? && p in authenticated);
    }

    /** Drop expired failures of the peer, and its entry when none is left. */
    method Prune(p: Peer, now: real)
      modifies this`failures
      ensures View() == Pruned(old(View()), p, now)
    {
      if p == "" {
        return;
      }
      var recent := Recent(if p in failures then failures[p] else [], now);
      if recent != [] {
        failures := failures[p := recent];
      } else {
        failures := failures - {p};
      }
    }

    /** Limited exactly when the log shows five wrong answers within the window; what
        stays on record is bounded. */
    method AuthRateLimited(p: Peer, now: real) returns (limited: bool)
      requires Valid() && clock <= now
      modifies this`failures, this`clock
      ensures Valid() && clock == now && View() == Pruned(old(View()), p, now) && limited == Limited(View(), p)
      ensures limited <==> LockedOut(log, p, now)
      ensures p != "" ==> |Times(failures, p)| <= AUTH_MAX_FAILS
    {
      LimitedIff(View(), p, clock, now);
      PrunedKeeps(View(), p, clock, now);
      if p != "" {
        OnRecord(Pruned(View(), p, now), p, now);
      }
      hide Inv, Pruned, LockedOut;
      Prune(p, now);
      clock := now;
      limited := p != "" && p in failures && |failures[p]| >= AUTH_MAX_FAILS;
    }

    method RecordAuthFailure(p: Peer, at: real)
      modifies this`failures
      ensures View() == Recorded(old(View()), p, at)
    {
      if p != "" {
        if p !in failures {
          failures := failures[p := []];
        }
        failures := failures[p := failures[p] + [at]];
      }
    }

    /** The peer is no longer trusted, and is as locked out as before. */
    method ClearPeerAuth(p: Peer, now: real)
      requires Valid() && clock <= now
      modifies this`authenticated, this`failures, this`log, this`clock
      ensures Valid() && clock == now && View() == Drop(old(View()), p, now)
      ensures p != "" ==> !Trusted(log, p)
      ensures forall t :: LockedOut(log, p, t) <==> LockedOut(old(log), p, t)
    {
      hide Recent, Inv, Wrong, Trusted;
      if p == "" {
        PrunedKeeps(View(), p, clock, now);
        clock := now;
        return;
      }
      DropMeans(View(), p, p, clock, now);
      clock := now;
      authenticated := authenticated - {p};
      Prune(p, now);
      log := log + [Disconnected(p)];
    }

    method MarkAuthenticated(p: Peer)
      modifies this`authenticated
      ensures View() == Marked(old(View()), p)
    {
      if p != "" {
        authenticated := authenticated + {p};
      }
    }

    method Reply(p: Peer, reply: Reply, at: real)
      modifies this`log
      ensures View() == Answer(old(View()), p, reply, at)
    {
      log := log + [Replied(p, reply, at)];
    }

    method SavePin(p: Peer, text: string, creds: Creds, disk: Disk, at: real)
      modifies this`authenticated, this`pin, this`binding, this`log
      ensures View() == Save(mac, old(View()), p, text, creds, disk, at)
    {
      hide Fingerprint;
      if disk.save.NothingSaved? {
        Reply(p, SaveFailed, at);
        return;
      }
      binding := Bound(disk.salt, Fingerprint(mac, creds, disk.salt));
      if disk.save.OnlyBinding? {
        pin := disk.save.left;
        Reply(p, SaveFailed, at);
        return;
      }
      pin := Pin(text);
      MarkAuthenticated(p);
      Reply(p, Success, at);
    }

    method ClaimPi(p: Peer, text: string, login: Option<Creds>, disk: Disk, at: real)
      modifies this`authenticated, this`failures, this`pin, this`binding, this`log
      ensures View() == Claim(mac, old(View()), p, text, login, disk, at)
    {
      hide Save;
      if config.None? {
        Reply(p, WebLoginUnavailable, at);
        return;
      }
      var creds := config.value;
      if LoginRequired(creds) {
        if login.None? || !LoginRequired(login.value) {
          Reply(p, WebLoginRequired, at);
          return;
        }
        if login.value != creds {
          RecordAuthFailure(p, at);
          Reply(p, WrongWebLogin, at);
          return;
        }
      }
      SavePin(p, text, creds, disk, at);
    }

    method DoSetPin(p: Peer, value: PinValue, login: Option<Creds>, disk: Disk, now: real, at: real)
      requires Valid() && clock <= now
      modifies this`authenticated, this`failures, this`pin, this`binding, this`log, this`clock
      ensures View() == HandleSetPin(mac, old(View()), p, value, login, disk, now, at)
    {
      hide Claim, Recent, Inv;
      if !pin.NoPin? {
        Reply(p, AlreadyClaimed, at);
        return;
      }
      if p == "" {
        Reply(p, UnknownPeer, at);
        return;
      }
      var limited := AuthRateLimited(p, now);
      if limited {
        Reply(p, TooManyAttempts, at);
      } else if !value.Typed? || |value.shown| < 4 || |value.shown| > 6 {
        Reply(p, BadPinLength, at);
      } else {
        ClaimPi(p, value.shown, login, disk, at);
      }
    }

    method DoAuthenticate(p: Peer, value: PinValue, now: real, at: real)
      requires Valid() && clock <= now
      modifies this`authenticated, this`failures, this`log, this`clock
      ensures View() == HandleAuthenticate(old(View()), p, value, now, at)
    {
      hide CheckPin, Recent, Inv;
      if pin.NoPin? {
        Reply(p, NotClaimed, at);
        return;
      }
      var limited := AuthRateLimited(p, now);
      if limited {
        Reply(p, TooManyAttempts, at);
        return;
      }
      match CheckPin(pin, value.shown)
      case None =>
      case Some(true) =>
        MarkAuthenticated(p);
        Reply(p, Success, at);
      case Some(false) =>
        RecordAuthFailure(p, at);
        Reply(p, WrongPin, at);
    }

    /** A complete write. It leaves an existing claim's PIN alone unless it resets the
        claim, and a peer that is locked out learns nothing from it. */
    method WriteValue(p: Peer, r: Request, disk: Disk, now: real, at: real)
      requires Valid() && clock <= now <= at
      modifies this`authenticated, this`failures, this`pin, this`binding, this`adoptTried, this`log, this`clock
      ensures Valid() && clock == at && View() == Handle(mac, old(View()), p, r, disk, now, at)
      ensures old(pin.Pin?) ==> pin == old(pin) || (|log| > |old(log)| && log[|old(log)|] == ClaimReset)
      ensures LockedOut(old(log), p, now) ==>
                old(log) <= log && forall i :: |old(log)| <= i < |log| ==> TellsNothing(log[i])
    {
      NextKeeps(mac, World(View(), clock), Write(p, r, disk, now, at));
      if pin.Pin? {
        WriteKeepsClaim(mac, View(), p, r, disk, now, at);
      }
      if LockedOut(log, p, now) {
        LockedOutLearnsNothing(mac, View(), p, r, disk, clock, now, at);
      }
      hide Enforce, HandleSetPin, HandleAuthenticate, Answer, Inv, LockedOut, TellsNothing;
      Dispatch(p, r, disk, now, at);
      clock := at;
    }

    method Dispatch(p: Peer, r: Request, disk: Disk, now: real, at: real)
      requires Valid() && clock <= now
      modifies this`authenticated, this`failures, this`pin, this`binding, this`adoptTried, this`log, this`clock
      ensures View() == Handle(mac, old(View()), p, r, disk, now, at)
    {
      EnforceKeeps(mac, View(), disk, clock);
      hide Enforce, HandleSetPin, HandleAuthenticate, Answer, Inv;
      if r.OtherAction? {
        Reply(p, UnknownAction, at);
        return;
      }
      var raised := EnforceWebAuthBinding(disk);
      if raised {
        return;
      }
      match r
      case SetPin(value, login) => DoSetPin(p, value, login, disk, now, at);
      case Authenticate(value) => DoAuthenticate(p, value, now, at);
    }
  }

  lemma OnRecord(d: Daemon, p: Peer, now: real)
    requires Inv(d, now) && p != ""
    ensures |Times(d.failures, p)| <= AUTH_MAX_FAILS
  {
  }
}
