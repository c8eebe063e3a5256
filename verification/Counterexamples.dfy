/**
 * Runs from the empty database on which the code does not keep what one might expect of it. Each is
 * one of a family whose exact condition is stated where the law is.
 */
module Counterexamples {
  import opened Types
  import opened Sums
  import opened Ledger
  import opened Tables
  import opened AppSessions
  import opened Custody
  import opened SignedStates
  import opened Runs
  import opened SessionRuns

  /** Two participants, of whom nothing checks that the second is an address, the broker, and what they deal in. */
  datatype Cast = Cast(
    a: HexAddress, b: Address, broker: HexAddress,
    id: SessionId, cid: ChannelId, token: Token, usd: Symbol, eur: Symbol)

  /** Participants and session have different names, and the first is not printed in lower case. */
  predicate Distinct(who: Cast) {
    && who.b != "" && Lower(who.a) != Lower(who.b) && Lower(who.b) != Lower(who.id)
    && Lower(who.a) != who.a && who.usd != who.eur && who.usd != "" && who.eur != ""
  }

  function Repeat(c: char, n: nat): (s: string)
    ensures |s| == n && forall i :: 0 <= i < n ==> s[i] == c
  {
    if n == 0 then "" else Repeat(c, n - 1) + [c]
  }

  const EXAMPLE := Cast("0x" + Repeat('A', 40), "0x" + Repeat('B', 40), "0x" + Repeat('0', 40), Repeat('1', 66),
                        "c", "t", "usd", "eur")

  /** Every run below is for any such two participants, for instance these. */
  lemma ExampleIsDistinct()
    ensures Distinct(EXAMPLE)
  {
    assert Lower(EXAMPLE.a)[2] == 'a' && EXAMPLE.a[2] == 'A' && Lower(EXAMPLE.b)[2] == 'b';
    assert |Lower(EXAMPLE.id)| == 66;
  }

  function Usd(who: Cast, decimals: Decimals): AssetTable {
    map[(who.token, 1) := Asset(who.usd, decimals)]
  }

  lemma UsdScales(who: Cast)
    ensures Scale(Asset(who.usd, 18)) == 1 && Scale(Asset(who.usd, 17)) == 10
  {
  }

  function Emit(who: Cast, ev: Event): Step {
    Chain(Contract(1, who.broker), ev)
  }

  function Creation(who: Cast, amount: nat): Step {
    Emit(who, ChannelCreated(who.cid, [who.a, who.broker], 0, who.token, amount, who.broker))
  }

  /** The first participant opens a channel, and the broker joins it. */
  function Deposit(who: Cast, amount: nat): seq<Step> {
    [Creation(who, amount), Emit(who, ChannelJoined(who.cid))]
  }

  /** A session of the two, the first listed as `p`, who signs in some usd and makes the quorum alone. */
  function Session(who: Cast, p: Address, amount: nat): CreateRequest {
    CreateRequest(who.id, Definition("", [p, who.b], [1, 1], 1, 0, 1),
                  [Allocation(who.a, who.usd, amount), Allocation(who.b, who.usd, 0)], [Some(who.a)], 1)
  }

  function ClosedBy(who: Cast, x: Allocation, y: Allocation): CloseRequest {
    CloseRequest(who.id, [x, y], [Some(who.a)])
  }

  function Opening(who: Cast, deposit: nat, p: Address, amount: nat): seq<Step> {
    Deposit(who, deposit) + [Create(Session(who, p, amount))]
  }

  // ----- Computing with them -----

  lemma SumOfTwo<T>(x: T, y: T, f: T -> int)
    ensures Sum([x, y], f) == f(x) + f(y)
  {
    assert [x, y][..1] == [x];
    SumOne(x, f);
  }

  function NewDeposit(who: Cast, amount: nat, status: Status): Channel {
    Channel(1, who.token, who.a, amount, status, 0, 0, who.broker)
  }

  lemma Push(assets: AssetTable, steps: seq<Step>, s: Step)
    ensures Exec(Start(assets), steps + [s]) == Apply(Exec(Start(assets), steps), s)
    ensures WellOrdered(assets, steps + [s]) <==>
            WellOrdered(assets, steps)
            && (s.Chain? ==> Follows(LifeOf(steps, s.ev.cid), s.on.chain, s.ev)
                             && AmountFits(Exec(Start(assets), steps), s.ev))
    ensures forall cid :: LifeOf(steps + [s], cid)
              == if s.Chain? && s.ev.cid == cid then LifeAfter(LifeOf(steps, cid), s.on.chain, s.ev)
                 else LifeOf(steps, cid)
    ensures forall a :: Drifted(Start(assets), steps + [s], a)
              == Drifted(Start(assets), steps, a)
                 + if s.Close? then CloseDrift(Exec(Start(assets), steps), s.closing, a) else 0
  {
    assert (steps + [s])[..|steps|] == steps;
  }

  lemma CreatedApplies(who: Cast, assets: AssetTable, amount: nat)
    requires FitsBigint(amount)
    ensures Apply(Start(assets), Creation(who, amount))
            == Start(assets).(channels := map[who.cid := NewDeposit(who, amount, Joining)])
  {
    var created := Creation(who, amount);
    assert NewChannel(created.on, created.ev) == NewDeposit(who, amount, Joining);
    assert CreatedAccepted(Start(assets), created.on, created.ev);
  }

  lemma Created(who: Cast, assets: AssetTable, amount: nat)
    requires FitsBigint(amount)
    ensures var steps := [Creation(who, amount)];
            && Exec(Start(assets), steps) == Apply(Start(assets), Creation(who, amount))
            && WellOrdered(assets, steps) && LifeOf(steps, who.cid) == Pending(1)
            && forall a :: Drifted(Start(assets), steps, a) == 0
  {
    Push(assets, [], Creation(who, amount));
    assert [] + [Creation(who, amount)] == [Creation(who, amount)];
  }

  /** The database once a deposit is joined. */
  lemma Deposited(who: Cast, assets: AssetTable, amount: nat)
    requires FitsBigint(amount)
    ensures var asset := GetAssetByToken(assets, who.token, 1);
            var st := Exec(Start(assets), Deposit(who, amount));
            && st.sessions == map[] && st.assets == assets
            && st.channels == map[who.cid := NewDeposit(who, amount, if asset.Some? then Open else Joining)]
            && st.rows == match asset
                 case None => []
                 case Some(registered) => RecordRows(UnifiedKey(who.a, registered.symbol), amount * Scale(registered))
    ensures WellOrdered(assets, Deposit(who, amount)) && LifeOf(Deposit(who, amount), who.cid) == Live(1)
    ensures forall a :: Drifted(Start(assets), Deposit(who, amount), a) == 0
  {
    var created, joined := Creation(who, amount), Emit(who, ChannelJoined(who.cid));
    CreatedApplies(who, assets, amount);
    Created(who, assets, amount);
    Push(assets, [created], joined);
    assert [created] + [joined] == Deposit(who, amount);
    assert forall more: seq<Entry> :: [] + more == more;
  }

  lemma DepositHeld(who: Cast, d: Decimals, deposit: nat)
    requires FitsBigint(deposit) && who.a != who.b
    ensures var rows := Exec(Start(Usd(who, d)), Deposit(who, deposit)).rows;
            && Balance(rows, UnifiedKey(who.a, who.usd)) == deposit * Scale(Asset(who.usd, d)) == Total(rows, who.usd)
            && Balance(rows, UnifiedKey(who.b, who.usd)) == 0
  {
    var held := deposit * Scale(Asset(who.usd, d));
    Deposited(who, Usd(who, d), deposit);
    BalanceOfRecord(UnifiedKey(who.a, who.usd), held, UnifiedKey(who.a, who.usd));
    BalanceOfRecord(UnifiedKey(who.a, who.usd), held, UnifiedKey(who.b, who.usd));
    TotalOfRecord(UnifiedKey(who.a, who.usd), held, who.usd);
  }

  lemma RequestedOfSession(who: Cast, p: Address, amount: nat, q: Address, a: Symbol)
    ensures Requested(Session(who, p, amount).allocs, q, a) == if q == who.a && a == who.usd then amount else 0
  {
    SumOfTwo(Allocation(who.a, who.usd, amount), Allocation(who.b, who.usd, 0), AmountFor(q, a));
  }

  lemma SessionAccepted(who: Cast, st: State, p: Address, amount: nat)
    requires who.a != who.b && who.id !in st.sessions
    requires amount <= Balance(st.rows, UnifiedKey(who.a, who.usd)) && 0 <= Balance(st.rows, UnifiedKey(who.b, who.usd))
    ensures CreateVerdict(st, Session(who, p, amount)) == Accepted
  {
    var req := Session(who, p, amount);
    forall q { RequestedOfSession(who, p, amount, q, who.usd); }
    assert HasSigned(req.signers, who.a) by {
      assert req.signers[0] == Some(who.a);
    }
    assert Funded(st.rows, req.allocs);
    assert NewSession(req).weights == [1, 1];
  }

  lemma SessionMoves(who: Cast, st: State, p: Address, amount: nat)
    requires CreateVerdict(st, Session(who, p, amount)) == Accepted
    ensures var rows := AfterCreate(st, Session(who, p, amount)).rows;
            && Balance(rows, UnifiedKey(who.a, who.usd)) == Balance(st.rows, UnifiedKey(who.a, who.usd)) - amount
            && Total(rows, who.usd) == Total(st.rows, who.usd)
  {
    var req := Session(who, p, amount);
    var created := CreateRows(who.id, req.allocs);
    BalanceAppend(st.rows, created, UnifiedKey(who.a, who.usd));
    AuthorizedNoneForItself(who.id, req.allocs, req.signers);
    BalanceAfterCreateRows(who.id, req.allocs, who.a, who.usd);
    RequestedOfSession(who, p, amount, who.a, who.usd);
    TotalAppend(st.rows, created, who.usd);
    CreateConserves(who.id, req.allocs, who.usd);
  }

  /** A session is accepted as long as the deposit covers it, and leaves the depositor the rest. */
  lemma SessionOpens(who: Cast, d: Decimals, deposit: nat, p: Address, amount: nat)
    requires who.a != who.b && FitsBigint(deposit) && amount <= deposit * Scale(Asset(who.usd, d))
    ensures var before := Exec(Start(Usd(who, d)), Deposit(who, deposit));
            var st := Exec(Start(Usd(who, d)), Opening(who, deposit, p, amount));
            && CreateVerdict(before, Session(who, p, amount)) == Accepted
            && st == AfterCreate(before, Session(who, p, amount))
            && Total(st.rows, who.usd) == deposit * Scale(Asset(who.usd, d))
            && Balance(st.rows, UnifiedKey(who.a, who.usd)) == deposit * Scale(Asset(who.usd, d)) - amount
    ensures WellOrdered(Usd(who, d), Opening(who, deposit, p, amount))
    ensures LifeOf(Opening(who, deposit, p, amount), who.cid) == Live(1)
    ensures forall a :: Drifted(Start(Usd(who, d)), Opening(who, deposit, p, amount), a) == 0
  {
    var before := Exec(Start(Usd(who, d)), Deposit(who, deposit));
    Deposited(who, Usd(who, d), deposit);
    DepositHeld(who, d, deposit);
    SessionAccepted(who, before, p, amount);
    SessionMoves(who, before, p, amount);
    Push(Usd(who, d), Deposit(who, deposit), Create(Session(who, p, amount)));
  }

  // ----- Closes that make or burn funds -----

  /** The session is open, and its first participant alone holds anything in it, some usd. */
  ghost predicate Holds(who: Cast, st: State, p: Address, amount: nat) {
    && who.id in st.sessions && st.sessions[who.id] == NewSession(Session(who, p, amount))
    && forall q, a :: q != who.id ==>
         Balance(st.rows, SessionKey(who.id, q, a)) == if q == who.a && a == who.usd then amount else 0
  }

  lemma OpeningHolds(who: Cast, d: Decimals, deposit: nat, p: Address, amount: nat)
    requires who.a != who.b && FitsBigint(deposit) && amount <= deposit * Scale(Asset(who.usd, d))
    ensures Holds(who, Exec(Start(Usd(who, d)), Opening(who, deposit, p, amount)), p, amount)
  {
    var before, req := Exec(Start(Usd(who, d)), Deposit(who, deposit)), Session(who, p, amount);
    SessionOpens(who, d, deposit, p, amount);
    forall q, a | q != who.id
      ensures Balance(AfterCreate(before, req).rows, SessionKey(who.id, q, a))
              == if q == who.a && a == who.usd then amount else 0
    {
      OpenSessionHolds(Usd(who, d), Deposit(who, deposit), req, [], q, a);
      RequestedOfSession(who, p, amount, q, a);
    }
  }

  lemma QuorumAlone(who: Cast, p: Address, amount: nat)
    requires Distinct(who) && Lower(p) == Lower(who.a)
    ensures var s := NewSession(Session(who, p, amount));
            && s.weights == [1, 1] && WeightMap(s.participants, s.weights) == map[Lower(who.a) := 1, Lower(who.b) := 1]
            && QuorumVerdict(s, [Some(who.a)]) == Accepted
  {
    var s := NewSession(Session(who, p, amount));
    var m := map[Lower(who.a) := 1, Lower(who.b) := 1];
    assert s.weights == [1, 1];
    assert s.participants[..1] == [p] && s.weights[..1] == [1] && [p][..0] == [] && [1][..0] == [];
    assert WeightMap([p], [1]) == map[Lower(p) := 1];
    assert WeightMap(s.participants, s.weights) == m;
    assert Map<Option<Address>, Address>([Some(who.a)], SignerName) == [Lower(who.a)];
    SumOne(Lower(who.a), WeightOf(m));
  }

  predicate PayableRow(al: Allocation, p: Address) {
    RowName(al) == Lower(p) && al.asset != "" && al.amount >= 0
  }

  /** What the two rows pay of an asset is what the listed participants hold of it. */
  predicate PaysHeld(who: Cast, x: Allocation, y: Allocation, held: nat) {
    forall a :: a in {x.asset, y.asset} ==> AmountIn(a)(x) + AmountIn(a)(y) == if a == who.usd then held else 0
  }

  lemma HeldListed(who: Cast, st: State, p: Address, amount: nat, a: Symbol)
    requires Distinct(who) && Lower(p) == Lower(who.a) && Holds(who, st, p, amount)
    ensures SessionTotal(st.rows, who.id, [p, who.b], a) == if p == who.a && a == who.usd then amount else 0
  {
    SumOfTwo(p, who.b, HeldBy(st.rows, who.id, a));
    assert |p| == |Lower(p)| == 42 && who.b != who.id;
  }

  lemma TwoRowClose(who: Cast, st: State, p: Address, amount: nat, x: Allocation, y: Allocation)
    requires Distinct(who) && Lower(p) == Lower(who.a) && Holds(who, st, p, amount)
    requires PayableRow(x, who.a) && PayableRow(y, who.b)
    requires PaysHeld(who, x, y, if p == who.a then amount else 0)
    ensures CloseVerdict(st, ClosedBy(who, x, y)) == Accepted
  {
    var s := st.sessions[who.id];
    assert |x.participant| == |RowName(x)| == 42 && |y.participant| == |RowName(y)| == |who.b|;
    QuorumAlone(who, p, amount);
    assert Map([x, y], RowName) == [Lower(who.a), Lower(who.b)];
    forall a | a in Named([x, y]) ensures SessionTotal(st.rows, who.id, s.participants, a) == Sum([x, y], AmountIn(a)) {
      HeldListed(who, st, p, amount, a);
      SumOfTwo(x, y, AmountIn(a));
    }
  }

  /** When the rows take nothing out of what the participant holds, or take it under an unlisted spelling. */
  lemma TwoRowDrift(who: Cast, st: State, p: Address, amount: nat, x: Allocation, y: Allocation)
    requires Distinct(who) && Lower(p) == Lower(who.a) && Holds(who, st, p, amount)
    requires PayableRow(x, who.a) && PayableRow(y, who.b) && (x.asset == who.usd || y.asset == who.usd)
    requires CloseVerdict(st, ClosedBy(who, x, y)) == Accepted
    ensures CloseDrift(st, ClosedBy(who, x, y), who.usd)
            == (if p == who.a then amount else 0) - (if x.participant == who.a && x.asset == who.usd then amount else 0)
  {
    HeldListed(who, st, p, amount, who.usd);
    SumOfTwo(x, y, TakenIn(st.rows, who.id, who.usd));
    assert who.usd in Named([x, y]) by {
      assert x in [x, y] && y in [x, y];
    }
    assert |x.participant| == |RowName(x)| == 42 && y.participant != who.id;
  }

  function Closing(who: Cast, p: Address, x: Allocation, y: Allocation): seq<Step> {
    Opening(who, 5, p, 5) + [Close(ClosedBy(who, x, y))]
  }

  /** The first close of a run to drift leaves the books out of balance by what it drifts. */
  lemma DriftShows(assets: AssetTable, steps: seq<Step>, req: CloseRequest, a: Symbol)
    requires WellOrdered(assets, steps) && Drifted(Start(assets), steps, a) == 0
    ensures var st := Exec(Start(assets), steps);
            && WellOrdered(assets, steps + [Close(req)])
            && Total(Exec(Start(assets), steps + [Close(req)]).rows, a) == Total(st.rows, a) + CloseDrift(st, req, a)
            && (Solvent(assets, steps + [Close(req)], a) <==> CloseDrift(st, req, a) == 0)
  {
    Push(assets, steps, Close(req));
    CloseDriftExact(Exec(Start(assets), steps), req, a);
    Accounting(assets, steps + [Close(req)], a);
  }

  lemma ClosesWithDrift(
      who: Cast, assets: AssetTable, opening: seq<Step>, p: Address, amount: nat, x: Allocation, y: Allocation)
    requires Distinct(who) && Lower(p) == Lower(who.a) && Holds(who, Exec(Start(assets), opening), p, amount)
    requires PayableRow(x, who.a) && PayableRow(y, who.b)
    requires PaysHeld(who, x, y, if p == who.a then amount else 0) && (x.asset == who.usd || y.asset == who.usd)
    requires WellOrdered(assets, opening) && Drifted(Start(assets), opening, who.usd) == 0
    ensures var st, req := Exec(Start(assets), opening), ClosedBy(who, x, y);
            var steps := opening + [Close(req)];
            var drift := (if p == who.a then amount else 0)
                         - (if x.participant == who.a && x.asset == who.usd then amount else 0);
            && WellOrdered(assets, steps) && CloseVerdict(st, req) == Accepted
            && Total(Exec(Start(assets), steps).rows, who.usd) == Total(st.rows, who.usd) + drift
            && (Solvent(assets, steps, who.usd) <==> drift == 0)
  {
    var st, req := Exec(Start(assets), opening), ClosedBy(who, x, y);
    TwoRowClose(who, st, p, amount, x, y);
    TwoRowDrift(who, st, p, amount, x, y);
    DriftShows(assets, opening, req, who.usd);
  }

  lemma OpeningReady(who: Cast, p: Address)
    requires Distinct(who)
    ensures var opening := Opening(who, 5, p, 5);
            var st := Exec(Start(Usd(who, 18)), opening);
            && WellOrdered(Usd(who, 18), opening) && Drifted(Start(Usd(who, 18)), opening, who.usd) == 0
            && Holds(who, st, p, 5) && Total(st.rows, who.usd) == 5
            && forall id :: id in st.sessions <==> id == who.id
  {
    UsdScales(who);
    Deposited(who, Usd(who, 18), 5);
    SessionOpens(who, 18, 5, p, 5);
    OpeningHolds(who, 18, 5, p, 5);
  }

  /** Five usd were deposited and are all in the session; after the close the ledger holds `total`. */
  ghost predicate FiveBecome(who: Cast, p: Address, x: Allocation, y: Allocation, total: int) {
    var assets, opening := Usd(who, 18), Opening(who, 5, p, 5);
    && WellOrdered(assets, Closing(who, p, x, y))
    && CloseVerdict(Exec(Start(assets), opening), ClosedBy(who, x, y)) == Accepted
    && Total(Exec(Start(assets), opening).rows, who.usd) == 5
    && Total(Exec(Start(assets), Closing(who, p, x, y)).rows, who.usd) == total
    && (Solvent(assets, Closing(who, p, x, y), who.usd) <==> total == 5)
  }

  lemma ClosingDrifts(who: Cast, p: Address, x: Allocation, y: Allocation)
    requires Distinct(who) && Lower(p) == Lower(who.a)
    requires PayableRow(x, who.a) && PayableRow(y, who.b)
    requires PaysHeld(who, x, y, if p == who.a then 5 else 0) && (x.asset == who.usd || y.asset == who.usd)
    ensures FiveBecome(who, p, x, y, (if p == who.a then 10 else 5)
                                     - (if x.participant == who.a && x.asset == who.usd then 5 else 0))
  {
    OpeningReady(who, p);
    ClosesWithDrift(who, Usd(who, 18), Opening(who, 5, p, 5), p, 5, x, y);
  }

  /** The first row names eur, the second the usd that the first participant holds: five usd become ten. */
  lemma MultiAssetCloseDoesNotConserve(who: Cast)
    requires Distinct(who)
    ensures FiveBecome(who, who.a, Allocation(who.a, who.eur, 0), Allocation(who.b, who.usd, 5), 10)
  {
    ClosingDrifts(who, who.a, Allocation(who.a, who.eur, 0), Allocation(who.b, who.usd, 5));
  }

  /** Both rows name usd, the first in a lower-case spelling: again five usd become ten. */
  lemma RespelledCloseDoesNotConserve(who: Cast)
    requires Distinct(who)
    ensures FiveBecome(who, who.a, Allocation(Lower(who.a), who.usd, 5), Allocation(who.b, who.usd, 0), 10)
  {
    LowerTwice(who.a);
    ClosingDrifts(who, who.a, Allocation(Lower(who.a), who.usd, 5), Allocation(who.b, who.usd, 0));
  }

  lemma LowerTwice(s: string)
    ensures Lower(Lower(s)) == Lower(s)
  {
  }

  /** Listed in lower case, funded and closed in the printed spelling with nothing paid: five usd are burnt. */
  lemma RespelledCloseBurns(who: Cast)
    requires Distinct(who)
    ensures FiveBecome(who, Lower(who.a), Allocation(who.a, who.usd, 0), Allocation(who.b, who.usd, 0), 0)
  {
    LowerTwice(who.a);
    ClosingDrifts(who, Lower(who.a), Allocation(who.a, who.usd, 0), Allocation(who.b, who.usd, 0));
  }

  lemma PaidWithoutSession(assets: AssetTable, steps: seq<Step>, close: Step, id: SessionId)
    requires id !in Exec(Start(assets), steps).sessions && PaysAccount(Exec(Start(assets), steps), close, id)
    ensures var st := Exec(Start(assets), steps + [close]);
            id !in st.sessions && SessionRows(st, id) == [] && AccountRows(st, id) != []
  {
    Push(assets, steps, close);
    RecordStays(Exec(Start(assets), steps), close, id);
    assert (steps + [close])[..|steps|] == steps;
    NoRowsWithoutSession(assets, steps + [close], id);
  }

  /** A participant spelled like the id of a session that does not exist yet: its account already has rows. */
  lemma AccountPaidBeforeItsSession(who: Cast, id: SessionId)
    requires Distinct(who) && who.b == id
    ensures var steps := Closing(who, who.a, Allocation(who.a, who.usd, 0), Allocation(id, who.usd, 5));
            var st := Exec(Start(Usd(who, 18)), steps);
            && WellOrdered(Usd(who, 18), steps) && Solvent(Usd(who, 18), steps, who.usd)
            && id !in st.sessions && SessionRows(st, id) == [] && AccountRows(st, id) != []
  {
    var x, y := Allocation(who.a, who.usd, 0), Allocation(id, who.usd, 5);
    OpeningReady(who, who.a);
    ClosingDrifts(who, who.a, x, y);
    assert y in ClosedBy(who, x, y).allocs;
    PaidWithoutSession(Usd(who, 18), Opening(who, 5, who.a, 5), Close(ClosedBy(who, x, y)), id);
  }

  // ----- Balances below zero -----

  lemma CloseDebits(who: Cast, st: State)
    requires st.channels == map[who.cid := NewDeposit(who, 5, Open)]
    requires st.assets == Usd(who, 18) && Balance(st.rows, UnifiedKey(who.a, who.usd)) == 0
    ensures !Covered(st, Emit(who, ChannelClosed(who.cid)))
    ensures Balance(Apply(st, Emit(who, ChannelClosed(who.cid))).rows, UnifiedKey(who.a, who.usd)) == -5
  {
    var closing := Emit(who, ChannelClosed(who.cid));
    UsdScales(who);
    EventMoves(st, closing.on, closing.ev, UnifiedKey(who.a, who.usd));
  }

  /** The deposit is locked in a session when its channel closes: closing debits it again. */
  lemma ClosingGoesNegative(who: Cast)
    requires Distinct(who)
    ensures var opening := Opening(who, 5, who.a, 5);
            var steps := opening + [Emit(who, ChannelClosed(who.cid))];
            && WellOrdered(Usd(who, 18), steps) && !AllCovered(Start(Usd(who, 18)), steps)
            && Balance(Exec(Start(Usd(who, 18)), opening).rows, UnifiedKey(who.a, who.usd)) == 0
            && Balance(Exec(Start(Usd(who, 18)), steps).rows, UnifiedKey(who.a, who.usd)) == -5
  {
    var opening, closing := Opening(who, 5, who.a, 5), Emit(who, ChannelClosed(who.cid));
    UsdScales(who);
    SessionOpens(who, 18, 5, who.a, 5);
    Deposited(who, Usd(who, 18), 5);
    Push(Usd(who, 18), opening, closing);
    CloseDebits(who, Exec(Start(Usd(who, 18)), opening));
    assert (opening + [closing])[..|opening|] == opening;
  }

  /** The run for the rounding case: thirty units in the channel, one in a session, then the channel withdrawn. */
  function Withdrawn(who: Cast): seq<Step> {
    Opening(who, 3, who.a, 1) + [Emit(who, ChannelResized(who.cid, [-3, 0]))]
  }

  lemma WithdrawAll(who: Cast, st: State)
    requires st.channels == map[who.cid := NewDeposit(who, 3, Open)]
    requires st.assets == Usd(who, 17)
    ensures var resize := Emit(who, ChannelResized(who.cid, [-3, 0]));
            var after := Apply(st, resize);
            && AmountFits(st, resize.ev) && after.assets == st.assets
            && after.channels == map[who.cid := NewDeposit(who, 0, Open).(version := 1)]
            && Balance(after.rows, UnifiedKey(who.a, who.usd)) == Balance(st.rows, UnifiedKey(who.a, who.usd)) - 30
  {
    var resize := Emit(who, ChannelResized(who.cid, [-3, 0]));
    UsdScales(who);
    SumOfTwo(-3, 0, Identity);
    EventMoves(st, resize.on, resize.ev, UnifiedKey(who.a, who.usd));
  }

  lemma Withdraw(who: Cast)
    requires who.a != who.b
    ensures var st := Exec(Start(Usd(who, 17)), Withdrawn(who));
            && WellOrdered(Usd(who, 17), Withdrawn(who)) && st.assets == Usd(who, 17)
            && LifeOf(Withdrawn(who), who.cid) == Live(1)
            && st.channels == map[who.cid := NewDeposit(who, 0, Open).(version := 1)]
            && Balance(st.rows, UnifiedKey(who.a, who.usd)) == -1
  {
    UsdScales(who);
    SessionOpens(who, 17, 3, who.a, 1);
    Deposited(who, Usd(who, 17), 3);
    WithdrawAll(who, Exec(Start(Usd(who, 17)), Opening(who, 3, who.a, 1)));
    Push(Usd(who, 17), Opening(who, 3, who.a, 1), Emit(who, ChannelResized(who.cid, [-3, 0])));
  }

  /** An emptied channel and a balance a tenth of a raw unit below zero: a deposit of one raw unit is signed. */
  lemma OverdrawnSigns(who: Cast, st: State)
    requires st.channels == map[who.cid := NewDeposit(who, 0, Open).(version := 1)]
    requires st.assets == Usd(who, 17) && Balance(st.rows, UnifiedKey(who.a, who.usd)) == -1
    ensures var signing := SignResize(st, who.cid, Some(1), Some(0), Some(who.a));
            signing.Signed? && signing.state.user == 1
  {
    UsdScales(who);
  }

  lemma OverdrawnDeposits(who: Cast, st: State)
    requires st.channels == map[who.cid := NewDeposit(who, 0, Open).(version := 1)]
    requires st.assets == Usd(who, 17) && Balance(st.rows, UnifiedKey(who.a, who.usd)) == -1
    ensures var resize := Emit(who, ChannelResized(who.cid, [1, 0]));
            var after := Apply(st, resize);
            && AmountFits(st, resize.ev) && who.cid in after.channels && after.channels[who.cid].amount == 1
            && Balance(after.rows, UnifiedKey(who.a, who.usd)) == 9
  {
    var resize := Emit(who, ChannelResized(who.cid, [1, 0]));
    UsdScales(who);
    SumOfTwo(1, 0, Identity);
    EventMoves(st, resize.on, resize.ev, UnifiedKey(who.a, who.usd));
  }

  /** A balance of minus a tenth of a raw unit is truncated to zero and so covers a channel emptied to zero. */
  lemma RoundedIntoCoverHappens(who: Cast)
    requires Distinct(who)
    ensures var st := Exec(Start(Usd(who, 17)), Withdrawn(who));
            var signing := SignResize(st, who.cid, Some(1), Some(0), Some(who.a));
            var steps := Withdrawn(who) + [Emit(who, ChannelResized(who.cid, [1, 0]))];
            var after := Exec(Start(Usd(who, 17)), steps);
            && signing.Signed? && signing.state.user == 1 && WellOrdered(Usd(who, 17), steps)
            && who.cid in after.channels && after.channels[who.cid].amount == 1
            && RawUnits(Balance(after.rows, UnifiedKey(who.a, who.usd)), 10) == 0
  {
    var st := Exec(Start(Usd(who, 17)), Withdrawn(who));
    Withdraw(who);
    OverdrawnSigns(who, st);
    OverdrawnDeposits(who, st);
    Push(Usd(who, 17), Withdrawn(who), Emit(who, ChannelResized(who.cid, [1, 0])));
  }

  // ----- A resize that is not all or nothing -----

  /** A resize in a token without an asset fails after the channel is saved: the amount moves, the ledger does not. */
  lemma UnregisteredResizeHalfApplies(who: Cast)
    ensures var resize := Emit(who, ChannelResized(who.cid, [4, 0]));
            var steps := Deposit(who, 1) + [resize];
            var after := Exec(Start(map[]), steps);
            && WellOrdered(map[], steps) && HalfApplied(Exec(Start(map[]), Deposit(who, 1)), resize.on, resize.ev)
            && who.cid in after.channels && after.channels[who.cid].amount == 5 && after.rows == []
  {
    var resize := Emit(who, ChannelResized(who.cid, [4, 0]));
    Deposited(who, map[], 1);
    SumOfTwo(4, 0, Identity);
    Push(map[], Deposit(who, 1), resize);
    ResizeHalfAppliesIff(Exec(Start(map[]), Deposit(who, 1)), resize.on, resize.ev);
  }
}
