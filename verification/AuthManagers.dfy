/** The manager object of auth.go and the message gate of ws.go, proved against the state machine of Auth. */
module AuthManagers {
  import opened Types
  import opened Auth

  class AuthManager {
    var challenges: map<Uuid, Challenge>
    var authSessions: map<Address, Time>
    const cfg: Config

    constructor (cfg: Config)
      ensures View() == EMPTY && this.cfg == cfg
    {
      challenges, authSessions := map[], map[];
      this.cfg := cfg;
    }

    constructor NewAuthManager()
      ensures View() == EMPTY && cfg == DEFAULTS
      ensures cfg.challengeTTL == 300_000_000_000 && cfg.maxChallenges == 1000 && cfg.sessionTTL == 86_400_000_000_000
    {
      challenges, authSessions := map[], map[];
      cfg := DEFAULTS;
    }

    function View(): Manager
      reads this
    {
      Manager(challenges, authSessions)
    }

    method GenerateChallenge(address: Address, token: Uuid, now: Time) returns (ok: bool)
      modifies this`challenges
      ensures ok == Accepts(cfg, old(View()), Generate(token, address, now))
      ensures View() == Next(cfg, old(View()), Generate(token, address, now))
    {
      var normalized := if "0x" <= address then address else "0x" + address;
      var challenge := Challenge(normalized, now, now + cfg.challengeTTL, false);
      if |challenges| >= cfg.maxChallenges {
        return false;
      }
      challenges := challenges[token := challenge];
      ok := true;
    }

    method ValidateChallenge(token: Uuid, address: Address, now: Time, marked: Time, registered: Time)
      returns (outcome: Outcome)
      modifies this
      ensures outcome == Answer(old(View()), token, address, now)
      ensures View() == Next(cfg, old(View()), Verify(token, address, now, marked, registered))
    {
      var normalized := if "0x" <= address then address else "0x" + address;
      if token !in challenges {
        return NotFound;
      }
      var challenge := challenges[token];
      if challenge.address != normalized {
        return WrongAddress;
      }
      if now > challenge.expiresAt {
        challenges := challenges - {token};
        return ChallengeExpired;
      }
      if challenge.completed {
        challenges := challenges - {token};
        return AlreadyUsed;
      }
      challenge := challenge.(completed := true);
      challenge := challenge.(expiresAt := marked + KEEP_COMPLETED);
      challenges := challenges[token := challenge];
      RegisterAuthSession(normalized, registered);
      outcome := Granted;
    }

    method RegisterAuthSession(address: Address, now: Time)
      modifies this`authSessions
      ensures authSessions == old(authSessions)[address := now]
    {
      authSessions := authSessions[address := now];
    }

    method ValidateSession(address: Address, now: Time) returns (valid: bool)
      ensures valid <==> SessionValid(cfg, View(), address, now)
      ensures valid <==> address in authSessions && now <= authSessions[address] + cfg.sessionTTL
    {
      if address !in authSessions {
        return false;
      }
      if now > authSessions[address] + cfg.sessionTTL {
        return false;
      }
      valid := true;
    }

    method UpdateSession(address: Address, now: Time) returns (known: bool)
      modifies this`authSessions
      ensures known == Accepts(cfg, old(View()), Touch(address, now))
      ensures View() == Next(cfg, old(View()), Touch(address, now))
    {
      if address !in authSessions {
        return false;
      }
      authSessions := authSessions[address := now];
      known := true;
    }

    /** The first half of a cleanup tick; the order in which a map is walked is unspecified. */
    method CleanupChallenges(now: Time)
      modifies this`challenges
      ensures View() == Next(cfg, old(View()), SweepChallenges(now))
      ensures forall t :: t in challenges <==> t in old(challenges) && now <= old(challenges)[t].expiresAt
    {
      var todo := challenges.Keys;
      while todo != {}
        invariant forall t :: t in todo ==> t in challenges
        invariant forall t :: t in challenges <==>
          t in old(challenges) && (t in todo || now <= old(challenges)[t].expiresAt)
        invariant forall t :: t in challenges ==> challenges[t] == old(challenges)[t]
        decreases |todo|
      {
        var token :| token in todo;
        if now > challenges[token].expiresAt {
          challenges := challenges - {token};
        }
        todo := todo - {token};
      }
    }

    /** The second half, under the other lock and with the same reading of the clock. */
    method CleanupSessions(now: Time)
      modifies this`authSessions
      ensures View() == Next(cfg, old(View()), SweepSessions(now))
      ensures forall a :: a in authSessions <==> a in old(authSessions) && now <= old(authSessions)[a] + cfg.sessionTTL
    {
      var todo := authSessions.Keys;
      while todo != {}
        invariant forall a :: a in todo ==> a in authSessions
        invariant forall a :: a in authSessions <==>
          a in old(authSessions) && (a in todo || now <= old(authSessions)[a] + cfg.sessionTTL)
        invariant forall a :: a in authSessions ==> authSessions[a] == old(authSessions)[a]
        decreases |todo|
      {
        var addr :| addr in todo;
        if now > authSessions[addr] + cfg.sessionTTL {
          authSessions := authSessions - {addr};
        }
        todo := todo - {addr};
      }
    }
  }

  /** What a connection does with each message before it looks inside. */
  method AdmitMessage(am: AuthManager, address: Address, now: Time, touched: Time) returns (admitted: bool)
    modifies am`authSessions
    ensures admitted == Accepts(am.cfg, old(am.View()), Gate(address, now, touched))
    ensures am.View() == Next(am.cfg, old(am.View()), Gate(address, now, touched))
  {
    admitted := am.ValidateSession(address, now);
    if !admitted {
      return;
    }
    var known := am.UpdateSession(address, touched);
  }

  /** One step of the state machine, carried out on the object. */
  method Serve(am: AuthManager, s: Step) returns (ok: bool)
    modifies am
    ensures ok == Accepts(am.cfg, old(am.View()), s)
    ensures am.View() == Next(am.cfg, old(am.View()), s)
  {
    ok := true;
    match s
    case Generate(token, address, created) => ok := am.GenerateChallenge(address, token, created);
    case Verify(token, address, now, marked, registered) =>
      var outcome := am.ValidateChallenge(token, address, now, marked, registered);
      ok := outcome == Granted;
    case Check(address, now) => ok := am.ValidateSession(address, now);
    case Gate(address, now, touched) => ok := AdmitMessage(am, address, now, touched);
    case Touch(address, now) => ok := am.UpdateSession(address, now);
    case SweepChallenges(now) => am.CleanupChallenges(now);
    case SweepSessions(now) => am.CleanupSessions(now);
  }

  method ServeAll(am: AuthManager, steps: seq<Step>) returns (answers: seq<bool>)
    requires am.View() == EMPTY
    modifies am
    ensures am.View() == Run(am.cfg, steps) && answers == Answers(am.cfg, steps)
  {
    answers := [];
    for i := 0 to |steps|
      invariant am.View() == Run(am.cfg, steps[..i]) && answers == Answers(am.cfg, steps[..i])
    {
      assert steps[..i + 1][..i] == steps[..i];
      var ok := Serve(am, steps[i]);
      answers := answers + [ok];
    }
    assert steps[..|steps|] == steps;
  }

  /** A manager as the server makes it, through any sequence of calls: its state and every answer are the run's. */
  method Replay(steps: seq<Step>) returns (am: AuthManager, answers: seq<bool>)
    ensures fresh(am) && am.cfg == DEFAULTS && am.View() == Run(DEFAULTS, steps) && answers == Answers(DEFAULTS, steps)
    ensures |am.challenges| <= 1000
    ensures forall a, now :: SessionValid(am.cfg, am.View(), a, now) <==>
              a in am.authSessions && now <= am.authSessions[a] + 86_400_000_000_000
    ensures forall t :: t in am.challenges && !am.challenges[t].completed ==>
              am.challenges[t].expiresAt == am.challenges[t].createdAt + 300_000_000_000
  {
    am := new AuthManager.NewAuthManager();
    answers := ServeAll(am, steps);
    ChallengesBounded(DEFAULTS, steps);
    forall t | t in am.challenges && !am.challenges[t].completed { UnusedLifetime(DEFAULTS, steps, t); }
  }
}
