/** auth.go: challenges, sessions and their expiry as a state machine over the critical sections of the locks. */
module Auth {
  import opened Types

  type Uuid = nat
  /** Nanoseconds, for instants and durations alike. */
  type Time = int

  const KEEP_COMPLETED: Time := 30_000_000_000

  datatype Config = Config(challengeTTL: Time, maxChallenges: nat, sessionTTL: Time)

  /** NewAuthManager: five minutes, a thousand pending challenges, a day. */
  const DEFAULTS := Config(300_000_000_000, 1000, 86_400_000_000_000)

  datatype Challenge = Challenge(address: Address, createdAt: Time, expiresAt: Time, completed: bool)

  /** The two maps of the manager: pending challenges, and the last active time of each address. */
  datatype Manager = Manager(challenges: map<Uuid, Challenge>, sessions: map<Address, Time>)

  const EMPTY := Manager(map[], map[])

  function WithPrefix(address: Address): Address {
    if "0x" <= address then address else "0x" + address
  }

  predicate Expired(c: Challenge, now: Time) {
    now > c.expiresAt
  }

  predicate Lapsed(cfg: Config, lastActive: Time, now: Time) {
    now > lastActive + cfg.sessionTTL
  }

  predicate HasRoom(cfg: Config, m: Manager) {
    |m.challenges| < cfg.maxChallenges
  }

  function Issue(cfg: Config, m: Manager, token: Uuid, address: Address, now: Time): Manager {
    m.(challenges := m.challenges[token := Challenge(WithPrefix(address), now, now + cfg.challengeTTL, false)])
  }

  datatype Outcome = NotFound | WrongAddress | ChallengeExpired | AlreadyUsed | Granted

  /** What ValidateChallenge answers when its expiry check reads the clock at `now`. */
  function Answer(m: Manager, token: Uuid, address: Address, now: Time): Outcome {
    if token !in m.challenges then NotFound
    else
      var c := m.challenges[token];
      if c.address != WithPrefix(address) then WrongAddress
      else if Expired(c, now) then ChallengeExpired
      else if c.completed then AlreadyUsed
      else Granted
  }

  /** The maps after that answer: used up and expired challenges go, a granted one opens a session. */
  function AfterAnswer(m: Manager, token: Uuid, address: Address, now: Time, marked: Time, registered: Time): Manager {
    match Answer(m, token, address, now)
    case NotFound => m
    case WrongAddress => m
    case ChallengeExpired => m.(challenges := m.challenges - {token})
    case AlreadyUsed => m.(challenges := m.challenges - {token})
    case Granted =>
      var c := m.challenges[token].(completed := true, expiresAt := marked + KEEP_COMPLETED);
      Manager(m.challenges[token := c], m.sessions[WithPrefix(address) := registered])
  }

  predicate SessionValid(cfg: Config, m: Manager, address: Address, now: Time) {
    address in m.sessions && !Lapsed(cfg, m.sessions[address], now)
  }

  function Touched(m: Manager, address: Address, now: Time): Manager {
    if address in m.sessions then m.(sessions := m.sessions[address := now]) else m
  }

  function SweptChallenges(m: Manager, now: Time): Manager {
    m.(challenges := map t | t in m.challenges && !Expired(m.challenges[t], now) :: m.challenges[t])
  }

  function SweptSessions(cfg: Config, m: Manager, now: Time): Manager {
    m.(sessions := map a | a in m.sessions && !Lapsed(cfg, m.sessions[a], now) :: m.sessions[a])
  }

  // ----- Steps -----

  /**
   * One critical section each, with every instant it reads. Verify reads the clock three times.
   * Gate is ws.go's check of a message followed by the refresh; Touch is a refresh on its own.
   * `created` and the `now` of the sweeps are read before the lock is taken and may be old by then.
   */
  datatype Step =
    | Generate(token: Uuid, address: Address, created: Time)
    | Verify(token: Uuid, address: Address, now: Time, marked: Time, registered: Time)
    | Check(address: Address, now: Time)
    | Gate(address: Address, now: Time, touched: Time)
    | Touch(address: Address, now: Time)
    | SweepChallenges(now: Time)
    | SweepSessions(now: Time)

  /** The answer of a step; sweeps have none to give. */
  function Accepts(cfg: Config, m: Manager, s: Step): bool {
    match s
    case Generate(_, _, _) => HasRoom(cfg, m)
    case Verify(token, address, now, _, _) => Answer(m, token, address, now) == Granted
    case Check(address, now) => SessionValid(cfg, m, address, now)
    case Gate(address, now, _) => SessionValid(cfg, m, address, now)
    case Touch(address, _) => address in m.sessions
    case SweepChallenges(_) => true
    case SweepSessions(_) => true
  }

  function Next(cfg: Config, m: Manager, s: Step): Manager {
    match s
    case Generate(token, address, created) => if HasRoom(cfg, m) then Issue(cfg, m, token, address, created) else m
    case Verify(token, address, now, marked, registered) => AfterAnswer(m, token, address, now, marked, registered)
    case Check(_, _) => m
    case Gate(address, now, touched) => if SessionValid(cfg, m, address, now) then Touched(m, address, touched) else m
    case Touch(address, now) => Touched(m, address, now)
    case SweepChallenges(now) => SweptChallenges(m, now)
    case SweepSessions(now) => SweptSessions(cfg, m, now)
  }

  function Max(x: Time, y: Time): Time {
    if x < y then y else x
  }

  /** The latest instant that the sections of each lock have seen. */
  datatype Clocks = Clocks(challenge: Time, session: Time)

  /** The clock never runs backwards within the sections of one lock. */
  predicate InTime(at: Clocks, s: Step) {
    match s
    case Generate(_, _, _) => true
    case Verify(_, _, now, marked, registered) =>
      at.challenge <= now <= marked <= registered && at.session <= registered
    case Check(_, now) => at.session <= now
    case Gate(_, now, touched) => at.session <= now <= touched
    case Touch(_, now) => at.session <= now
    case SweepChallenges(_) => true
    case SweepSessions(_) => true
  }

  function Tick(at: Clocks, s: Step): Clocks {
    match s
    case Generate(_, _, created) => at.(challenge := Max(at.challenge, created))
    case Verify(_, _, _, marked, registered) => Clocks(marked, registered)
    case Check(_, now) => at.(session := now)
    case Gate(_, _, touched) => at.(session := touched)
    case Touch(_, now) => at.(session := now)
    case SweepChallenges(now) => at.(challenge := Max(at.challenge, now))
    case SweepSessions(now) => at.(session := Max(at.session, now))
  }

  // ----- Runs -----

  function Run(cfg: Config, steps: seq<Step>): Manager {
    if steps == [] then EMPTY else Next(cfg, Run(cfg, steps[..|steps| - 1]), steps[|steps| - 1])
  }

  /** What the manager answers along the run. */
  function Answers(cfg: Config, steps: seq<Step>): (r: seq<bool>)
    ensures |r| == |steps|
  {
    if steps == [] then []
    else
      var before, last := steps[..|steps| - 1], steps[|steps| - 1];
      Answers(cfg, before) + [Accepts(cfg, Run(cfg, before), last)]
  }

  function ClockAfter(start: Clocks, steps: seq<Step>): Clocks {
    if steps == [] then start else Tick(ClockAfter(start, steps[..|steps| - 1]), steps[|steps| - 1])
  }

  predicate AllInTime(start: Clocks, steps: seq<Step>) {
    steps == [] ||
      var before, last := steps[..|steps| - 1], steps[|steps| - 1];
      AllInTime(start, before) && InTime(ClockAfter(start, before), last)
  }

  // ----- The manager beside one that never sweeps -----

  /** The reference makes every step but the sweeps, and stores a challenge exactly when the real manager does. */
  function NextReference(cfg: Config, m: Manager, actual: Manager, s: Step): Manager {
    match s
    case Generate(token, address, created) => if HasRoom(cfg, actual) then Issue(cfg, m, token, address, created) else m
    case SweepChallenges(_) => m
    case SweepSessions(_) => m
    case _ => Next(cfg, m, s)
  }

  datatype Pair = Pair(actual: Manager, reference: Manager, at: Clocks)

  function NextPair(cfg: Config, p: Pair, s: Step): Pair {
    Pair(Next(cfg, p.actual, s), NextReference(cfg, p.reference, p.actual, s), Tick(p.at, s))
  }

  function RunPair(cfg: Config, start: Clocks, steps: seq<Step>): Pair {
    if steps == [] then Pair(EMPTY, EMPTY, start)
    else NextPair(cfg, RunPair(cfg, start, steps[..|steps| - 1]), steps[|steps| - 1])
  }

  /** The step records an activity of the address: an accepted challenge, message or refresh. */
  predicate Records(cfg: Config, m: Manager, s: Step, address: Address) {
    && Accepts(cfg, m, s)
    && match s
       case Verify(_, claimed, _, _, _) => WithPrefix(claimed) == address
       case Gate(sender, _, _) => sender == address
       case Touch(refreshed, _) => refreshed == address
       case _ => false
  }

  function RecordedAt(s: Step): Time {
    match s
    case Verify(_, _, _, _, registered) => registered
    case Gate(_, _, touched) => touched
    case Touch(_, now) => now
    case _ => 0
  }

  /** When the address was last active, as the run itself shows it. */
  function LastActivity(cfg: Config, steps: seq<Step>, address: Address): Option<Time> {
    if steps == [] then None
    else
      var before, last := steps[..|steps| - 1], steps[|steps| - 1];
      if Records(cfg, Run(cfg, before), last, address) then Some(RecordedAt(last))
      else LastActivity(cfg, before, address)
  }

  /** A refresh at `now` comes within the time limit of the last activity, if there was any. */
  predicate Timely(cfg: Config, steps: seq<Step>, address: Address, now: Time) {
    match LastActivity(cfg, steps, address)
    case None => true
    case Some(lastActive) => now <= lastActive + cfg.sessionTTL
  }

  /** Every refresh that is a section of its own comes in time, as it does right after a check. */
  predicate TimelyTouches(cfg: Config, steps: seq<Step>) {
    steps == [] ||
      var before, last := steps[..|steps| - 1], steps[|steps| - 1];
      TimelyTouches(cfg, before) && (last.Touch? ==> Timely(cfg, before, last.address, last.now))
  }

  /** The first of the pair is the manager's own run, and its clocks are the run's. */
  lemma {:induction false} RunPairActual(cfg: Config, start: Clocks, steps: seq<Step>)
    ensures RunPair(cfg, start, steps).actual == Run(cfg, steps)
    ensures RunPair(cfg, start, steps).at == ClockAfter(start, steps)
  {
    if steps != [] {
      RunPairActual(cfg, start, steps[..|steps| - 1]);
    }
  }

  predicate ChallengesAgree(actual: map<Uuid, Challenge>, reference: map<Uuid, Challenge>, now: Time) {
    && (forall t :: t in actual ==> t in reference && reference[t] == actual[t])
    && (forall t :: t in reference && t !in actual ==> now > reference[t].expiresAt)
  }

  predicate SessionsAgree(cfg: Config, actual: map<Address, Time>, reference: map<Address, Time>, now: Time) {
    && (forall a :: a in actual ==> a in reference && reference[a] == actual[a])
    && (forall a :: a in reference && a !in actual ==> now > reference[a] + cfg.sessionTTL)
  }

  /** What only the reference still holds has expired for good. */
  predicate Agree(cfg: Config, p: Pair) {
    && ChallengesAgree(p.actual.challenges, p.reference.challenges, p.at.challenge)
    && SessionsAgree(cfg, p.actual.sessions, p.reference.sessions, p.at.session)
  }

  lemma ChallengesStep(cfg: Config, p: Pair, s: Step)
    requires Agree(cfg, p) && InTime(p.at, s)
    ensures var after := NextPair(cfg, p, s);
            ChallengesAgree(after.actual.challenges, after.reference.challenges, after.at.challenge)
  {
    match s
    case Generate(_, _, _) =>
    case Verify(token, address, now, _, _) =>
      assert Answer(p.actual, token, address, now) != Granted ==> Answer(p.reference, token, address, now) != Granted;
    case Check(_, _) =>
    case Gate(_, _, _) =>
    case Touch(_, _) =>
    case SweepChallenges(_) =>
    case SweepSessions(_) =>
  }

  /** What the reference knows of an address is its last activity. */
  predicate ReferenceRecords(cfg: Config, steps: seq<Step>, reference: map<Address, Time>, address: Address) {
    LastActivity(cfg, steps, address) == if address in reference then Some(reference[address]) else None
  }

  lemma TimelyTouchKnown(cfg: Config, steps: seq<Step>, p: Pair, address: Address, now: Time)
    requires Agree(cfg, p) && p.at.session <= now && Timely(cfg, steps, address, now)
    requires ReferenceRecords(cfg, steps, p.reference.sessions, address)
    ensures address in p.actual.sessions <==> address in p.reference.sessions
  {
  }

  lemma SessionsStep(cfg: Config, p: Pair, s: Step)
    requires Agree(cfg, p) && InTime(p.at, s)
    requires s.Touch? ==> (s.address in p.actual.sessions <==> s.address in p.reference.sessions)
    ensures var after := NextPair(cfg, p, s);
            SessionsAgree(cfg, after.actual.sessions, after.reference.sessions, after.at.session)
  {
    match s
    case Generate(_, _, _) =>
    case Verify(token, address, now, _, _) =>
      assert Answer(p.actual, token, address, now) == Granted <==> Answer(p.reference, token, address, now) == Granted;
    case Check(_, _) =>
    case Gate(address, now, _) =>
      assert SessionValid(cfg, p.actual, address, now) <==> SessionValid(cfg, p.reference, address, now);
    case Touch(_, _) =>
    case SweepChallenges(_) =>
    case SweepSessions(_) =>
  }

  lemma ReferenceStep(cfg: Config, p: Pair, s: Step, address: Address)
    requires Agree(cfg, p) && InTime(p.at, s)
    requires s.Touch? ==> (s.address in p.actual.sessions <==> s.address in p.reference.sessions)
    ensures var was, now := p.reference.sessions, NextReference(cfg, p.reference, p.actual, s).sessions;
            if Records(cfg, p.actual, s, address) then address in now && now[address] == RecordedAt(s)
            else (address in now <==> address in was) && (address in now ==> now[address] == was[address])
  {
    if s.Verify? || s.Check? || s.Gate? {
      SameAnswers(cfg, p, s);
    }
  }

  lemma SameAnswers(cfg: Config, p: Pair, s: Step)
    requires Agree(cfg, p) && InTime(p.at, s) && (s.Verify? || s.Check? || s.Gate?)
    ensures Accepts(cfg, p.actual, s) == Accepts(cfg, p.reference, s)
  {
  }

  lemma {:induction false} AgreeAlways(cfg: Config, start: Clocks, steps: seq<Step>)
    requires AllInTime(start, steps) && TimelyTouches(cfg, steps)
    ensures Agree(cfg, RunPair(cfg, start, steps))
    ensures forall a :: ReferenceRecords(cfg, steps, RunPair(cfg, start, steps).reference.sessions, a)
  {
    if steps != [] {
      var before, last := steps[..|steps| - 1], steps[|steps| - 1];
      var p := RunPair(cfg, start, before);
      AgreeAlways(cfg, start, before);
      RunPairActual(cfg, start, before);
      if last.Touch? {
        TimelyTouchKnown(cfg, before, p, last.address, last.now);
      }
      ChallengesStep(cfg, p, last);
      SessionsStep(cfg, p, last);
      forall a ensures ReferenceRecords(cfg, steps, RunPair(cfg, start, steps).reference.sessions, a) {
        assert ReferenceRecords(cfg, before, p.reference.sessions, a);
        ReferenceStep(cfg, p, last, a);
      }
    }
  }

  /**
   * Cleanup is unobservable: at every point of every run, with sweeps anywhere and with old clock
   * readings, challenges, sessions, messages and timely refreshes are accepted exactly as if nothing
   * were ever swept. A refresh may be a section of its own as long as it comes in time.
   */
  lemma CleanupUnobservable(cfg: Config, start: Clocks, steps: seq<Step>, query: Step)
    requires AllInTime(start, steps) && TimelyTouches(cfg, steps) && InTime(ClockAfter(start, steps), query)
    requires query.Verify? || query.Check? || query.Gate?
             || (query.Touch? && Timely(cfg, steps, query.address, query.now))
    ensures Accepts(cfg, Run(cfg, steps), query) <==> Accepts(cfg, RunPair(cfg, start, steps).reference, query)
  {
    var p := RunPair(cfg, start, steps);
    AgreeAlways(cfg, start, steps);
    RunPairActual(cfg, start, steps);
    if query.Touch? {
      assert ReferenceRecords(cfg, steps, p.reference.sessions, query.address);
      TimelyTouchKnown(cfg, steps, p, query.address, query.now);
    } else {
      SameAnswers(cfg, p, query);
    }
  }

  /** A sweep at `swept` just before a refresh cannot be told from none by a check just after it. */
  predicate SweepUnseen(cfg: Config, start: Clocks, steps: seq<Step>, address: Address, swept: Time, now: Time) {
    var p := RunPair(cfg, start, steps + [SweepSessions(swept), Touch(address, now)]);
    SessionValid(cfg, p.actual, address, now) <==> SessionValid(cfg, p.reference, address, now)
  }

  /**
   * And not otherwise: a refresh hides every possible sweep before it exactly when it reads the clock
   * no later than the time limit after the last activity of its address.
   */
  lemma TouchUnobservableIff(cfg: Config, start: Clocks, steps: seq<Step>, address: Address, now: Time)
    requires AllInTime(start, steps) && TimelyTouches(cfg, steps)
    requires ClockAfter(start, steps).session <= now && cfg.sessionTTL >= 0
    ensures (forall swept :: swept <= now ==> SweepUnseen(cfg, start, steps, address, swept, now)) <==>
            Timely(cfg, steps, address, now)
  {
    if Timely(cfg, steps, address, now) {
      forall swept | swept <= now ensures SweepUnseen(cfg, start, steps, address, swept, now) {
        TimelyTouchHides(cfg, start, steps, address, swept, now);
      }
    } else {
      LateTouchShows(cfg, start, steps, address, now);
    }
  }

  /** The two steps one by one. */
  lemma SweepThenTouch(cfg: Config, start: Clocks, steps: seq<Step>, address: Address, swept: Time, now: Time)
    returns (p: Pair)
    ensures p == RunPair(cfg, start, steps + [SweepSessions(swept), Touch(address, now)])
    ensures p == NextPair(cfg, NextPair(cfg, RunPair(cfg, start, steps), SweepSessions(swept)), Touch(address, now))
    ensures AllInTime(start, steps) && ClockAfter(start, steps).session <= now && swept <= now ==>
              AllInTime(start, steps + [SweepSessions(swept), Touch(address, now)])
              && ClockAfter(start, steps + [SweepSessions(swept), Touch(address, now)]).session == now
    ensures TimelyTouches(cfg, steps) && Timely(cfg, steps, address, now) ==>
              TimelyTouches(cfg, steps + [SweepSessions(swept), Touch(address, now)])
  {
    var mid := steps + [SweepSessions(swept)];
    var end := mid + [Touch(address, now)];
    assert steps + [SweepSessions(swept), Touch(address, now)] == end;
    assert mid[..|steps|] == steps && end[..|mid|] == mid;
    p := RunPair(cfg, start, end);
    assert LastActivity(cfg, mid, address) == LastActivity(cfg, steps, address);
    assert ClockAfter(start, end) == Tick(ClockAfter(start, mid), Touch(address, now));
    assert AllInTime(start, mid) <==> AllInTime(start, steps);
    assert TimelyTouches(cfg, mid) <==> TimelyTouches(cfg, steps);
    assert TimelyTouches(cfg, end) <==> TimelyTouches(cfg, mid) && Timely(cfg, mid, address, now);
  }

  lemma TimelyTouchHides(cfg: Config, start: Clocks, steps: seq<Step>, address: Address, swept: Time, now: Time)
    requires AllInTime(start, steps) && TimelyTouches(cfg, steps) && Timely(cfg, steps, address, now)
    requires ClockAfter(start, steps).session <= now && swept <= now
    ensures SweepUnseen(cfg, start, steps, address, swept, now)
  {
    var p := SweepThenTouch(cfg, start, steps, address, swept, now);
    var end := steps + [SweepSessions(swept), Touch(address, now)];
    CleanupUnobservable(cfg, start, end, Check(address, now));
    RunPairActual(cfg, start, end);
  }

  lemma LateTouchShows(cfg: Config, start: Clocks, steps: seq<Step>, address: Address, now: Time)
    requires AllInTime(start, steps) && TimelyTouches(cfg, steps) && !Timely(cfg, steps, address, now)
    requires ClockAfter(start, steps).session <= now && cfg.sessionTTL >= 0
    ensures !SweepUnseen(cfg, start, steps, address, now, now)
  {
    var before := RunPair(cfg, start, steps);
    AgreeAlways(cfg, start, steps);
    assert ReferenceRecords(cfg, steps, before.reference.sessions, address);
    var p := SweepThenTouch(cfg, start, steps, address, now, now);
    assert address !in p.actual.sessions && address in p.reference.sessions && p.reference.sessions[address] == now;
  }

  /**
   * With check and refresh as two sections, a sweep between them shows: here the session is checked at
   * its last valid instant, swept and refreshed; the real manager has lost it, the reference has not.
   */
  lemma SplitGateObservable()
    ensures var cfg := Config(10, 1, 10);
            var steps := [Generate(7, "0xA", 0), Verify(7, "0xA", 1, 1, 1), Check("0xA", 11),
                          SweepSessions(12), Touch("0xA", 13)];
            var p := RunPair(cfg, Clocks(0, 0), steps);
            && AllInTime(Clocks(0, 0), steps)
            && !SessionValid(cfg, p.actual, "0xA", 14) && SessionValid(cfg, p.reference, "0xA", 14)
  {
    var cfg, at := Config(10, 1, 10), Clocks(0, 0);
    var s1 := [] + [Generate(7, "0xA", 0)];
    var s2 := s1 + [Verify(7, "0xA", 1, 1, 1)];
    var s3 := s2 + [Check("0xA", 11)];
    var s4 := s3 + [SweepSessions(12)];
    var s5 := s4 + [Touch("0xA", 13)];
    var p1 := RunPush(cfg, at, [], Generate(7, "0xA", 0));
    assert p1.actual == p1.reference == Manager(map[7 := Challenge("0xA", 0, 10, false)], map[]);
    var p2 := RunPush(cfg, at, s1, Verify(7, "0xA", 1, 1, 1));
    assert p2.actual.sessions == map["0xA" := 1] && p2.reference.sessions == map["0xA" := 1];
    var p3 := RunPush(cfg, at, s2, Check("0xA", 11));
    var p4 := RunPush(cfg, at, s3, SweepSessions(12));
    assert "0xA" !in p4.actual.sessions && p4.reference.sessions == map["0xA" := 1];
    var p5 := RunPush(cfg, at, s4, Touch("0xA", 13));
    assert s5 == [Generate(7, "0xA", 0), Verify(7, "0xA", 1, 1, 1), Check("0xA", 11),
                  SweepSessions(12), Touch("0xA", 13)];
  }

  lemma RunPush(cfg: Config, start: Clocks, steps: seq<Step>, s: Step) returns (p: Pair)
    ensures p == RunPair(cfg, start, steps + [s]) == NextPair(cfg, RunPair(cfg, start, steps), s)
    ensures AllInTime(start, steps + [s]) <==>
              AllInTime(start, steps) && InTime(ClockAfter(start, steps), s)
  {
    assert (steps + [s])[..|steps|] == steps;
    p := RunPair(cfg, start, steps + [s]);
  }

  // ----- Challenges are used once, by the address they were issued to -----

  predicate AcceptedAt(cfg: Config, steps: seq<Step>, i: nat)
    requires i < |steps|
  {
    Accepts(cfg, Run(cfg, steps[..i]), steps[i])
  }

  predicate Mentions(steps: seq<Step>, token: Uuid) {
    exists i :: 0 <= i < |steps| && steps[i].Generate? && steps[i].token == token
  }

  /** uuid.New never repeats a token. */
  predicate FreshTokens(steps: seq<Step>) {
    forall i, j :: 0 <= i < j < |steps| && steps[i].Generate? && steps[j].Generate? ==> steps[i].token != steps[j].token
  }

  /** How often a token has been accepted. */
  function Grants(cfg: Config, steps: seq<Step>, token: Uuid): nat {
    if steps == [] then 0
    else
      var before, last := steps[..|steps| - 1], steps[|steps| - 1];
      Grants(cfg, before, token)
      + if last.Verify? && last.token == token && Accepts(cfg, Run(cfg, before), last) then 1 else 0
  }

  /** The accepted request at `i` issued this token to this address. */
  predicate Issues(cfg: Config, steps: seq<Step>, i: nat, token: Uuid, address: Address) {
    && i < |steps| && steps[i].Generate? && steps[i].token == token
    && WithPrefix(steps[i].address) == address && AcceptedAt(cfg, steps, i)
  }

  /** Where a stored challenge comes from, and how long it lasts while it is unused. */
  ghost predicate HasOrigin(cfg: Config, steps: seq<Step>, token: Uuid, c: Challenge) {
    exists i: nat ::
      Issues(cfg, steps, i, token, c.address)
      && (!c.completed ==> c.expiresAt == steps[i].created + cfg.challengeTTL)
  }

  /** A stored challenge was issued to its address, and is marked completed exactly when it has been granted. */
  ghost predicate Tracked(cfg: Config, steps: seq<Step>, token: Uuid) {
    var m := Run(cfg, steps);
    && Grants(cfg, steps, token) <= 1
    && (Grants(cfg, steps, token) == 1 ==> Mentions(steps, token))
    && (token in m.challenges ==>
          HasOrigin(cfg, steps, token, m.challenges[token])
          && (m.challenges[token].completed <==> Grants(cfg, steps, token) == 1))
  }

  lemma MentionsPush(steps: seq<Step>, s: Step, token: Uuid)
    ensures Mentions(steps + [s], token) <==> Mentions(steps, token) || (s.Generate? && s.token == token)
  {
    assert (steps + [s])[|steps|] == s;
    if Mentions(steps, token) {
      var i :| 0 <= i < |steps| && steps[i].Generate? && steps[i].token == token;
      assert (steps + [s])[i] == steps[i];
    }
  }

  lemma IssuesPush(cfg: Config, steps: seq<Step>, s: Step, i: nat, token: Uuid, address: Address)
    requires i < |steps|
    ensures (steps + [s])[i] == steps[i]
    ensures Issues(cfg, steps + [s], i, token, address) <==> Issues(cfg, steps, i, token, address)
  {
    assert (steps + [s])[..i] == steps[..i];
  }

  /** An origin stays one when the challenge is completed, and when the run goes on. */
  lemma OriginPush(cfg: Config, steps: seq<Step>, s: Step, token: Uuid, c: Challenge, now: Challenge)
    requires HasOrigin(cfg, steps, token, c) && now.address == c.address && (now == c || now.completed)
    ensures HasOrigin(cfg, steps + [s], token, now)
  {
    var i: nat :| Issues(cfg, steps, i, token, c.address)
                  && (!c.completed ==> c.expiresAt == steps[i].created + cfg.challengeTTL);
    IssuesPush(cfg, steps, s, i, token, c.address);
  }

  lemma OriginNew(cfg: Config, steps: seq<Step>, s: Step, c: Challenge)
    requires s.Generate? && HasRoom(cfg, Run(cfg, steps)) && !c.completed
    requires c.address == WithPrefix(s.address) && c.expiresAt == s.created + cfg.challengeTTL
    ensures HasOrigin(cfg, steps + [s], s.token, c)
  {
    assert (steps + [s])[..|steps|] == steps && (steps + [s])[|steps|] == s;
    assert Issues(cfg, steps + [s], |steps|, s.token, c.address);
  }

  lemma TrackedStep(cfg: Config, steps: seq<Step>, s: Step, token: Uuid)
    requires Tracked(cfg, steps, token)
    requires s.Generate? && s.token == token ==> !Mentions(steps, token)
    ensures Tracked(cfg, steps + [s], token)
  {
    var m, after := Run(cfg, steps), Run(cfg, steps + [s]);
    assert (steps + [s])[..|steps|] == steps && (steps + [s])[|steps|] == s;
    assert after == Next(cfg, m, s);
    MentionsPush(steps, s, token);
    if token in m.challenges {
      var i: nat :| Issues(cfg, steps, i, token, m.challenges[token].address);
      assert Mentions(steps, token);
    }
    if token in after.challenges {
      if s.Generate? && s.token == token && HasRoom(cfg, m) {
        OriginNew(cfg, steps, s, after.challenges[token]);
      } else {
        OriginPush(cfg, steps, s, token, m.challenges[token], after.challenges[token]);
      }
    }
  }

  lemma {:induction false} TrackedAlways(cfg: Config, steps: seq<Step>, token: Uuid)
    requires FreshTokens(steps)
    ensures Tracked(cfg, steps, token)
  {
    if steps != [] {
      var n := |steps| - 1;
      TrackedAlways(cfg, steps[..n], token);
      assert steps == steps[..n] + [steps[n]];
      assert forall i :: 0 <= i < n ==> steps[..n][i] == steps[i];
      TrackedStep(cfg, steps[..n], steps[n], token);
    }
  }

  /** Once issued, a challenge is stored as it was issued until it is granted or its time is over. */
  predicate Waiting(cfg: Config, start: Clocks, steps: seq<Step>, i: nat)
    requires i < |steps| && steps[i].Generate?
  {
    var s, m := steps[i], Run(cfg, steps);
    || ClockAfter(start, steps).challenge > s.created + cfg.challengeTTL
    || Grants(cfg, steps, s.token) > 0
    || (s.token in m.challenges
        && m.challenges[s.token] == Challenge(WithPrefix(s.address), s.created, s.created + cfg.challengeTTL, false))
  }

  lemma {:induction false} WaitingAlways(cfg: Config, start: Clocks, steps: seq<Step>, i: nat)
    requires AllInTime(start, steps) && FreshTokens(steps)
    requires i < |steps| && steps[i].Generate? && AcceptedAt(cfg, steps, i)
    ensures Waiting(cfg, start, steps, i)
  {
    var n := |steps| - 1;
    if i < n {
      assert steps[..n][..i] == steps[..i] && steps[..n][i] == steps[i];
      assert forall j :: 0 <= j < n ==> steps[..n][j] == steps[j];
      WaitingAlways(cfg, start, steps[..n], i);
      assert Run(cfg, steps) == Next(cfg, Run(cfg, steps[..n]), steps[n]);
      assert steps[n].Generate? ==> steps[n].token != steps[i].token;
    }
  }

  predicate Prefixed(address: Address) {
    |address| >= 2 && address[0] == '0' && address[1] == 'x'
  }

  /** Two spellings of one address: the same, or one of them without the leading 0x of the other. */
  predicate SameAddress(x: Address, y: Address) {
    x == y || (!Prefixed(x) && y == "0x" + x) || (!Prefixed(y) && x == "0x" + y)
  }

  lemma SameAddressIff(x: Address, y: Address)
    ensures SameAddress(x, y) <==> WithPrefix(x) == WithPrefix(y)
  {
    assert Prefixed(x) <==> "0x" <= x;
    assert Prefixed(y) <==> "0x" <= y;
    assert ("0x" + x)[2..] == x && ("0x" + y)[2..] == y;
  }

  /** The request at `i` was given this token for this address, while there was room for a challenge. */
  predicate IssuedAt(cfg: Config, steps: seq<Step>, i: nat, token: Uuid, address: Address) {
    && i < |steps| && steps[i].Generate? && steps[i].token == token && SameAddress(steps[i].address, address)
    && |Run(cfg, steps[..i]).challenges| < cfg.maxChallenges
  }

  /**
   * Exactly when a challenge is granted: it was issued to this address, its time is not over,
   * and it has not been granted before. So each token is granted at most once.
   */
  lemma ChallengeGrantedIff(cfg: Config, start: Clocks, steps: seq<Step>, query: Step)
    requires AllInTime(start, steps) && FreshTokens(steps) && query.Verify? && InTime(ClockAfter(start, steps), query)
    ensures Accepts(cfg, Run(cfg, steps), query) <==>
            Grants(cfg, steps, query.token) == 0
            && exists i: nat :: IssuedAt(cfg, steps, i, query.token, query.address)
                           && query.now <= steps[i].created + cfg.challengeTTL
  {
    TrackedAlways(cfg, steps, query.token);
    forall i: nat
      ensures IssuedAt(cfg, steps, i, query.token, query.address)
              <==> Issues(cfg, steps, i, query.token, WithPrefix(query.address))
    {
      if i < |steps| && steps[i].Generate? {
        SameAddressIff(steps[i].address, query.address);
      }
    }
    if Grants(cfg, steps, query.token) == 0 {
      if i: nat :| IssuedAt(cfg, steps, i, query.token, query.address)
                   && query.now <= steps[i].created + cfg.challengeTTL {
        WaitingAlways(cfg, start, steps, i);
      }
    }
  }

  /** A challenge is issued exactly while fewer than the limit are stored, and is then stored beside the others. */
  lemma IssuedIff(cfg: Config, steps: seq<Step>, token: Uuid, address: Address, created: Time)
    ensures var s, m := Generate(token, address, created), Run(cfg, steps);
            var after := Run(cfg, steps + [s]);
            && (Accepts(cfg, m, s) <==> |m.challenges| < cfg.maxChallenges)
            && after.sessions == m.sessions
            && (forall t :: t in after.challenges <==> t in m.challenges || (t == token && Accepts(cfg, m, s)))
            && (forall t :: t in after.challenges && (t != token || !Accepts(cfg, m, s)) ==>
                  after.challenges[t] == m.challenges[t])
            && (Accepts(cfg, m, s) ==>
                  && SameAddress(after.challenges[token].address, address) && Prefixed(after.challenges[token].address)
                  && after.challenges[token].createdAt == created && !after.challenges[token].completed
                  && after.challenges[token].expiresAt == created + cfg.challengeTTL)
  {
    var s := Generate(token, address, created);
    assert (steps + [s])[..|steps|] == steps;
    SameAddressIff(WithPrefix(address), address);
  }

  /** Verifying takes a challenge away exactly when it is the address's own and is over or used up. */
  lemma VerifyRemovesIff(cfg: Config, m: Manager, s: Step, t: Uuid)
    requires s.Verify? && t in m.challenges && Prefixed(m.challenges[t].address)
    ensures t !in Next(cfg, m, s).challenges <==>
              && t == s.token && SameAddress(m.challenges[t].address, s.address)
              && (s.now > m.challenges[t].expiresAt || m.challenges[t].completed)
    ensures t in Next(cfg, m, s).challenges && Next(cfg, m, s).challenges[t] != m.challenges[t] ==>
              t == s.token && Accepts(cfg, m, s)
  {
    SameAddressIff(m.challenges[t].address, s.address);
  }

  /** For thirty seconds after the grant a replay is answered as used, later as expired, and never granted. */
  lemma ReplayAnswered(cfg: Config, m: Manager, s: Step, again: Time)
    requires s.Verify? && Accepts(cfg, m, s)
    ensures Answer(Next(cfg, m, s), s.token, s.address, again)
              == if again <= s.marked + 30_000_000_000 then AlreadyUsed else ChallengeExpired
  {
  }

  /** An unused challenge lasts from its creation for the configured time. */
  lemma {:induction false} UnusedLifetime(cfg: Config, steps: seq<Step>, t: Uuid)
    requires t in Run(cfg, steps).challenges && !Run(cfg, steps).challenges[t].completed
    ensures var c := Run(cfg, steps).challenges[t]; c.expiresAt == c.createdAt + cfg.challengeTTL
  {
    var before, last := steps[..|steps| - 1], steps[|steps| - 1];
    if !(last.Generate? && last.token == t && Accepts(cfg, Run(cfg, before), last)) {
      UnusedLifetime(cfg, before, t);
    }
  }

  /**
   * What each step leaves as last activity of an address: the clock reading at registration, at the refresh
   * after a message, or at a refresh of its own; all other steps but the sweep of sessions leave it alone.
   */
  lemma ActivityStored(cfg: Config, m: Manager, s: Step, a: Address)
    requires !s.SweepSessions?
    ensures s.Check? || s.Gate? ==>
              (Accepts(cfg, m, s) <==> s.address in m.sessions && s.now <= m.sessions[s.address] + cfg.sessionTTL)
    ensures var after := Next(cfg, m, s).sessions;
            if s.Verify? && Prefixed(a) && SameAddress(a, s.address) && Accepts(cfg, m, s) then
              a in after && after[a] == s.registered
            else if s.Gate? && a == s.address && Accepts(cfg, m, s) then a in after && after[a] == s.touched
            else if s.Touch? && a == s.address && a in m.sessions then a in after && after[a] == s.now
            else (a in after <==> a in m.sessions) && (a in after ==> after[a] == m.sessions[a])
  {
    if s.Verify? {
      SameAddressIff(a, s.address);
      assert Prefixed(a) <==> "0x" <= a;
      assert "0x" <= WithPrefix(s.address);
    }
  }

  /** A sweep keeps exactly the challenges whose time is not over, as they were. */
  lemma SweptChallengesExact(cfg: Config, m: Manager, now: Time, t: Uuid)
    ensures var after := Next(cfg, m, SweepChallenges(now));
            && after.sessions == m.sessions
            && (t in after.challenges <==> t in m.challenges && now <= m.challenges[t].expiresAt)
            && (t in after.challenges ==> after.challenges[t] == m.challenges[t])
  {
  }

  /** And exactly the sessions whose last activity is within the limit. */
  lemma SweptSessionsExact(cfg: Config, m: Manager, now: Time, a: Address)
    ensures var after := Next(cfg, m, SweepSessions(now));
            && after.challenges == m.challenges
            && (a in after.sessions <==> a in m.sessions && now <= m.sessions[a] + cfg.sessionTTL)
            && (a in after.sessions ==> after.sessions[a] == m.sessions[a])
  {
  }

  /** The map of pending challenges never outgrows its limit, whatever the run. */
  lemma {:induction false} ChallengesBounded(cfg: Config, steps: seq<Step>)
    ensures |Run(cfg, steps).challenges| <= cfg.maxChallenges
  {
    if steps != [] {
      var before, last := steps[..|steps| - 1], steps[|steps| - 1];
      var m, after := Run(cfg, before), Run(cfg, steps);
      ChallengesBounded(cfg, before);
      if last.Generate? && HasRoom(cfg, m) {
        assert after.challenges.Keys == m.challenges.Keys + {last.token};
      } else {
        assert after.challenges.Keys <= m.challenges.Keys;
        KeysBound(after.challenges, m.challenges);
      }
    }
  }

  lemma KeysBound<K, V>(a: map<K, V>, b: map<K, V>)
    requires a.Keys <= b.Keys
    ensures |a| <= |b|
  {
    assert b.Keys == a.Keys + (b.Keys - a.Keys);
  }

  // ----- Where a valid session comes from -----

  /** `at` is an accepted challenge of the address, or a message or refresh within the time limit of `previous`. */
  predicate Opens(cfg: Config, steps: seq<Step>, address: Address, at: nat) {
    at < |steps| && steps[at].Verify? && WithPrefix(steps[at].address) == address && AcceptedAt(cfg, steps, at)
  }

  predicate Extends(cfg: Config, steps: seq<Step>, address: Address, previous: nat, at: nat) {
    && previous < at < |steps| && (steps[at].Gate? || steps[at].Touch?) && steps[at].address == address
    && steps[at].now <= RecordedAt(steps[previous]) + cfg.sessionTTL
  }

  function LastOf(chain: seq<nat>): nat
    requires chain != []
  {
    chain[|chain| - 1]
  }

  /** Positions in the run: an accepted challenge, then messages and refreshes, no gap longer than the time limit. */
  predicate Chain(cfg: Config, steps: seq<Step>, address: Address, chain: seq<nat>) {
    && chain != [] && LastOf(chain) < |steps|
    && if |chain| == 1 then Opens(cfg, steps, address, chain[0])
       else Chain(cfg, steps, address, chain[..|chain| - 1])
            && Extends(cfg, steps, address, LastOf(chain[..|chain| - 1]), LastOf(chain))
  }

  lemma PrefixStays(cfg: Config, steps: seq<Step>, s: Step, i: nat)
    requires i < |steps|
    ensures (steps + [s])[i] == steps[i] && (AcceptedAt(cfg, steps + [s], i) <==> AcceptedAt(cfg, steps, i))
  {
    assert (steps + [s])[..i] == steps[..i];
  }

  lemma {:induction false} ChainPrefix(cfg: Config, steps: seq<Step>, s: Step, address: Address, chain: seq<nat>)
    requires Chain(cfg, steps, address, chain)
    ensures Chain(cfg, steps + [s], address, chain)
  {
    PrefixStays(cfg, steps, s, LastOf(chain));
    if |chain| > 1 {
      var front := chain[..|chain| - 1];
      ChainPrefix(cfg, steps, s, address, front);
      PrefixStays(cfg, steps, s, LastOf(front));
    }
  }

  lemma ChainStart(cfg: Config, steps: seq<Step>, s: Step, address: Address)
    requires s.Verify? && WithPrefix(s.address) == address && Accepts(cfg, Run(cfg, steps), s)
    ensures Chain(cfg, steps + [s], address, [|steps|])
  {
  }

  lemma ChainGrow(cfg: Config, steps: seq<Step>, s: Step, address: Address, chain: seq<nat>)
    requires Chain(cfg, steps, address, chain)
    requires (s.Gate? || s.Touch?) && s.address == address
    requires s.now <= RecordedAt(steps[LastOf(chain)]) + cfg.sessionTTL
    ensures Chain(cfg, steps + [s], address, chain + [|steps|])
  {
    ChainPrefix(cfg, steps, s, address, chain);
    assert (steps + [s])[..|steps|] == steps && (steps + [s])[|steps|] == s;
    assert (chain + [|steps|])[..|chain|] == chain;
  }

  predicate OpensNow(cfg: Config, m: Manager, s: Step, address: Address) {
    s.Verify? && WithPrefix(s.address) == address && Accepts(cfg, m, s)
  }

  predicate RenewsNow(cfg: Config, m: Manager, s: Step, address: Address) {
    (s.Gate? || s.Touch?) && s.address == address && Accepts(cfg, m, s)
  }

  /** An entry of the session map is new, renewed, or as it was. */
  lemma SessionEntryStep(cfg: Config, m: Manager, s: Step, address: Address)
    requires address in Next(cfg, m, s).sessions
    ensures OpensNow(cfg, m, s, address) || RenewsNow(cfg, m, s, address) ==>
              Next(cfg, m, s).sessions[address] == RecordedAt(s)
    ensures RenewsNow(cfg, m, s, address) ==>
              address in m.sessions && (s.Gate? ==> s.now <= m.sessions[address] + cfg.sessionTTL)
    ensures !OpensNow(cfg, m, s, address) && !RenewsNow(cfg, m, s, address) ==>
              address in m.sessions && Next(cfg, m, s).sessions[address] == m.sessions[address]
  {
  }

  /** What the manager still knows of an address is its last activity. */
  lemma {:induction false} KnownIsLastActivity(cfg: Config, steps: seq<Step>, address: Address)
    requires address in Run(cfg, steps).sessions
    ensures LastActivity(cfg, steps, address) == Some(Run(cfg, steps).sessions[address])
  {
    var before, last := steps[..|steps| - 1], steps[|steps| - 1];
    SessionEntryStep(cfg, Run(cfg, before), last, address);
    if !Records(cfg, Run(cfg, before), last, address) {
      KnownIsLastActivity(cfg, before, address);
    }
  }

  lemma {:induction false} ChainOf(cfg: Config, steps: seq<Step>, address: Address) returns (chain: seq<nat>)
    requires TimelyTouches(cfg, steps) && address in Run(cfg, steps).sessions
    ensures Chain(cfg, steps, address, chain)
    ensures RecordedAt(steps[LastOf(chain)]) == Run(cfg, steps).sessions[address]
  {
    var n := |steps| - 1;
    var before, last := steps[..n], steps[n];
    assert steps == before + [last];
    SessionEntryStep(cfg, Run(cfg, before), last, address);
    if OpensNow(cfg, Run(cfg, before), last, address) {
      chain := [n];
      ChainStart(cfg, before, last, address);
    } else {
      var earlier := ChainOf(cfg, before, address);
      if RenewsNow(cfg, Run(cfg, before), last, address) {
        KnownIsLastActivity(cfg, before, address);
        ChainGrow(cfg, before, last, address, earlier);
        chain := earlier + [n];
      } else {
        ChainPrefix(cfg, before, last, address, earlier);
        chain := earlier;
      }
    }
  }

  /** An activity at `recorded` is past its limit, or the session is stored with one at least as late. */
  predicate Alive(cfg: Config, m: Manager, at: Clocks, address: Address, recorded: Time) {
    && recorded <= at.session
    && (at.session > recorded + cfg.sessionTTL
        || (address in m.sessions && recorded <= m.sessions[address] <= at.session))
  }

  lemma AliveStart(cfg: Config, m: Manager, at: Clocks, s: Step, address: Address)
    requires Records(cfg, m, s, address) && InTime(at, s)
    ensures Alive(cfg, Next(cfg, m, s), Tick(at, s), address, RecordedAt(s))
  {
  }

  lemma AliveStep(cfg: Config, m: Manager, at: Clocks, s: Step, address: Address, recorded: Time)
    requires Alive(cfg, m, at, address, recorded) && InTime(at, s)
    ensures Alive(cfg, Next(cfg, m, s), Tick(at, s), address, recorded)
  {
  }

  /** A recorded activity keeps its session alive until the time limit after it has passed. */
  lemma {:induction false} RecordKeepsSession(cfg: Config, start: Clocks, steps: seq<Step>, address: Address, i: nat)
    requires AllInTime(start, steps) && i < |steps|
    requires Records(cfg, Run(cfg, steps[..i]), steps[i], address)
    ensures Alive(cfg, Run(cfg, steps), ClockAfter(start, steps), address, RecordedAt(steps[i]))
  {
    var n := |steps| - 1;
    var before, last := steps[..n], steps[n];
    assert Run(cfg, steps) == Next(cfg, Run(cfg, before), last);
    assert ClockAfter(start, steps) == Tick(ClockAfter(start, before), last);
    if i < n {
      assert before[..i] == steps[..i] && before[i] == steps[i];
      RecordKeepsSession(cfg, start, before, address, i);
      AliveStep(cfg, Run(cfg, before), ClockAfter(start, before), last, address, RecordedAt(steps[i]));
    } else {
      AliveStart(cfg, Run(cfg, before), ClockAfter(start, before), last, address);
    }
  }

  lemma {:induction false} AllInTimeAt(start: Clocks, steps: seq<Step>, i: nat)
    requires AllInTime(start, steps) && i < |steps|
    ensures AllInTime(start, steps[..i]) && InTime(ClockAfter(start, steps[..i]), steps[i])
  {
    var n := |steps| - 1;
    if i < n {
      AllInTimeAt(start, steps[..n], i);
      assert steps[..n][..i] == steps[..i];
    }
  }

  /** Each link of a chain finds the session still stored and valid, and is recorded itself. */
  lemma {:induction false} ChainRecords(cfg: Config, start: Clocks, steps: seq<Step>, address: Address, chain: seq<nat>)
    requires AllInTime(start, steps) && Chain(cfg, steps, address, chain)
    ensures Records(cfg, Run(cfg, steps[..LastOf(chain)]), steps[LastOf(chain)], address)
  {
    if |chain| > 1 {
      var front := chain[..|chain| - 1];
      var i, j := LastOf(front), LastOf(chain);
      ChainRecords(cfg, start, steps, address, front);
      AllInTimeAt(start, steps, j);
      assert steps[..j][..i] == steps[..i] && steps[..j][i] == steps[i];
      RecordKeepsSession(cfg, start, steps[..j], address, i);
    }
  }

  /** The chain ends in an activity that is not older than the time limit. */
  predicate Sustains(cfg: Config, steps: seq<Step>, address: Address, chain: seq<nat>, now: Time) {
    Chain(cfg, steps, address, chain) && now <= RecordedAt(steps[LastOf(chain)]) + cfg.sessionTTL
  }

  /**
   * A session is valid exactly when a chain of gaps within the limit leads from a granted challenge
   * of the address, through messages and refreshes, up to now. That these were admitted follows.
   */
  lemma SessionValidIff(cfg: Config, start: Clocks, steps: seq<Step>, address: Address, now: Time)
    requires AllInTime(start, steps) && TimelyTouches(cfg, steps) && ClockAfter(start, steps).session <= now
    ensures SessionValid(cfg, Run(cfg, steps), address, now) <==>
            exists chain :: Sustains(cfg, steps, address, chain, now)
  {
    if SessionValid(cfg, Run(cfg, steps), address, now) {
      var chain := ChainOf(cfg, steps, address);
      assert Sustains(cfg, steps, address, chain, now);
    }
    if chain :| Sustains(cfg, steps, address, chain, now) {
      ChainRecords(cfg, start, steps, address, chain);
      RecordKeepsSession(cfg, start, steps, address, LastOf(chain));
    }
  }
}
