/**
 * The handlers as the source runs them: loops and table writes inside a transaction, proved against
 * the loop-free statements of AppSessions and Custody.
 */
module Broker {
  import opened Types
  import opened Sums
  import opened Ledger
  import opened Tables
  import opened AppSessions
  import opened Custody
  import opened Verdicts

  class Database {
    var rows: seq<Entry>
    var sessions: map<SessionId, StoredSession>
    var channels: map<ChannelId, StoredChannel>
    const assets: AssetTable

    constructor (assets: AssetTable)
      ensures View() == State([], map[], map[], assets)
    {
      rows, sessions, channels := [], map[], map[];
      this.assets := assets;
    }

    function View(): State
      reads this
    {
      State(rows, sessions, channels, assets)
    }

    /** Append one entry, a credit or a debit, or none for a zero amount. */
    method Record(k: Key, amount: int)
      modifies this`rows
      ensures rows == old(rows) + RecordRows(k, amount)
    {
      var credit, debit := 0, 0;
      if amount > 0 {
        credit := amount;
      } else if amount < 0 {
        debit := -amount;
      } else {
        assert rows + [] == rows;
        return;
      }
      rows := rows + [Entry(k, credit, debit)];
    }
  }

  // ----- HandleCreateApplication -----

  lemma AuthorizedPrefix(allocs: seq<Allocation>, signers: seq<Option<Address>>, n: nat)
    requires n <= |allocs|
    ensures RowsAuthorized(allocs, signers) ==> RowsAuthorized(allocs[..n], signers)
  {
  }

  lemma {:induction false} RequestedGrows(allocs: seq<Allocation>, n: nat, p: Address, a: Symbol)
    requires n <= |allocs| && forall al :: al in allocs ==> al.amount >= 0
    ensures Requested(allocs[..n], p, a) <= Requested(allocs, p, a)
  {
    SumAppend(allocs[..n], allocs[n..], AmountFor(p, a));
    assert allocs == allocs[..n] + allocs[n..];
    SumNonNegative(allocs[n..], AmountFor(p, a));
  }

  lemma FundedPrefix(rows: seq<Entry>, allocs: seq<Allocation>, signers: seq<Option<Address>>, n: nat)
    requires n <= |allocs|
    ensures RowsAuthorized(allocs, signers) && Funded(rows, allocs) ==> Funded(rows, allocs[..n])
  {
    if RowsAuthorized(allocs, signers) && Funded(rows, allocs) {
      forall al | al in allocs[..n]
        ensures Requested(allocs[..n], al.participant, al.asset) <= Balance(rows, UnifiedKey(al.participant, al.asset))
      {
        RequestedGrows(allocs, n, al.participant, al.asset);
      }
    }
  }

  /** Checking a row against the balance left by the rows before it is checking all of them together. */
  lemma FundedStep(rows: seq<Entry>, id: Account, allocs: seq<Allocation>, i: nat)
    requires i < |allocs| && Funded(rows, allocs[..i]) && NoneForItself(id, allocs[..i])
    ensures var k := UnifiedKey(allocs[i].participant, allocs[i].asset);
            Funded(rows, allocs[..i + 1]) <==> allocs[i].amount <= Balance(rows + CreateRows(id, allocs[..i]), k)
  {
    var al := allocs[i];
    BalanceAppend(rows, CreateRows(id, allocs[..i]), UnifiedKey(al.participant, al.asset));
    BalanceAfterCreateRows(id, allocs[..i], al.participant, al.asset);
    assert allocs[..i + 1] == allocs[..i] + [al];
    forall x | x in allocs[..i + 1]
      ensures Requested(allocs[..i + 1], x.participant, x.asset)
              == Requested(allocs[..i], x.participant, x.asset) + AmountFor(x.participant, x.asset)(al)
    {
      SumPush(allocs, i, AmountFor(x.participant, x.asset));
    }
    assert al in allocs[..i + 1];
  }

  method RecoverSigners(signers: seq<Option<Address>>) returns (ok: bool, recovered: set<Address>)
    ensures ok <==> None !in signers
    ensures ok ==> forall a :: a in recovered <==> HasSigned(signers, a)
  {
    recovered := {};
    for i := 0 to |signers|
      invariant None !in signers[..i]
      invariant forall a :: a in recovered <==> HasSigned(signers[..i], a)
    {
      match signers[i]
      case None => return false, {};
      case Some(addr) => recovered := recovered + {addr};
    }
    assert signers[..|signers|] == signers;
    ok := true;
  }

  lemma CreateRowsStep(rows: seq<Entry>, id: Account, allocs: seq<Allocation>, i: nat)
    requires i < |allocs|
    ensures rows + CreateRows(id, allocs[..i + 1])
            == rows + CreateRows(id, allocs[..i])
               + RecordRows(UnifiedKey(allocs[i].participant, allocs[i].asset), -allocs[i].amount)
               + RecordRows(SessionKey(id, allocs[i].participant, allocs[i].asset), allocs[i].amount)
  {
    assert allocs[..i + 1][..i] == allocs[..i];
    AppendThree(rows, CreateRows(id, allocs[..i]),
                RecordRows(UnifiedKey(allocs[i].participant, allocs[i].asset), -allocs[i].amount),
                RecordRows(SessionKey(id, allocs[i].participant, allocs[i].asset), allocs[i].amount));
  }

  lemma AuthorizedStep(allocs: seq<Allocation>, signers: seq<Option<Address>>, i: nat)
    requires i < |allocs| && RowsAuthorized(allocs[..i], signers)
    ensures RowsAuthorized(allocs[..i + 1], signers) <==>
              allocs[i].amount >= 0 && (allocs[i].amount > 0 ==> HasSigned(signers, allocs[i].participant))
  {
    assert allocs[..i + 1] == allocs[..i] + [allocs[i]];
    assert allocs[i] in allocs[..i + 1];
  }

  /** The row passes the loop's checks exactly when the rows up to it satisfy the loop-free ones. */
  lemma MoveStep(
      rows: seq<Entry>, id: SessionId, allocs: seq<Allocation>, signers: seq<Option<HexAddress>>, i: nat)
    requires i < |allocs| && RowsAuthorized(allocs[..i], signers) && Funded(rows, allocs[..i])
    ensures var al := allocs[i];
            RowsAuthorized(allocs[..i + 1], signers) && Funded(rows, allocs[..i + 1]) <==>
              && al.amount >= 0 && (al.amount > 0 ==> HasSigned(signers, al.participant))
              && al.amount <= Balance(rows + CreateRows(id, allocs[..i]), UnifiedKey(al.participant, al.asset))
  {
    AuthorizedNoneForItself(id, allocs[..i], signers);
    FundedStep(rows, id, allocs, i);
    AuthorizedStep(allocs, signers, i);
  }

  /** The transfer loop: each row is checked against the balance that the rows before it have left. */
  method MoveFunds(
      db: Database, id: SessionId, allocs: seq<Allocation>, signers: seq<Option<HexAddress>>, recovered: set<Address>)
    returns (ok: bool)
    requires forall a :: a in recovered <==> HasSigned(signers, a)
    modifies db`rows
    ensures ok <==> RowsAuthorized(allocs, signers) && Funded(old(db.rows), allocs)
    ensures ok ==> db.rows == old(db.rows) + CreateRows(id, allocs)
  {
    ghost var saved := db.rows;
    assert saved + [] == saved;
    for i := 0 to |allocs|
      invariant db.rows == saved + CreateRows(id, allocs[..i])
      invariant RowsAuthorized(allocs[..i], signers) && Funded(saved, allocs[..i])
    {
      var al := allocs[i];
      MoveStep(saved, id, allocs, signers, i);
      AuthorizedPrefix(allocs, signers, i + 1);
      FundedPrefix(saved, allocs, signers, i + 1);
      CreateRowsStep(saved, id, allocs, i);
      if al.amount < 0 {
        return false;
      }
      if al.amount > 0 && al.participant !in recovered {
        return false;
      }
      var balance := Balance(db.rows, UnifiedKey(al.participant, al.asset));
      if al.amount > balance {
        return false;
      }
      db.Record(UnifiedKey(al.participant, al.asset), -al.amount);
      db.Record(SessionKey(id, al.participant, al.asset), al.amount);
    }
    assert allocs[..|allocs|] == allocs;
    ok := true;
  }

  method ConvertWeights(weights: seq<int>) returns (converted: seq<int>)
    ensures converted == Map(weights, Wrap64)
  {
    converted := [];
    for i := 0 to |weights|
      invariant |converted| == i && forall j :: 0 <= j < i ==> converted[j] == Wrap64(weights[j])
    {
      converted := converted + [Wrap64(weights[i])];
    }
  }

  method BuildSession(req: CreateRequest) returns (session: AppSession)
    ensures session == NewSession(req)
  {
    var def := req.def;
    var nonce := if def.nonce == 0 then req.timestamp else def.nonce;
    var weights := ConvertWeights(def.weights);
    session := AppSession(
      if def.protocol == "" then "NitroRPC/0.2" else def.protocol, def.participants, weights,
      if def.quorum == 0 then 100 else def.quorum, def.challenge, nonce,
      if req.timestamp == 0 then 1 else req.timestamp, Open);
  }

  method HandleCreateApplication(db: Database, req: CreateRequest) returns (v: Verdict)
    modifies db
    ensures v == CreateVerdict(old(db.View()), req)
    ensures db.View() == AfterCreate(old(db.View()), req)
  {
    var def := req.def;
    if |def.participants| < 2 {
      return Rejected(TooFewParticipants);
    }
    if |req.allocs| != |def.participants| {
      return Rejected(AllocationCount);
    }
    if |def.weights| != |def.participants| {
      return Rejected(WeightCount);
    }
    var ok, recovered := RecoverSigners(req.signers);
    if !ok {
      return Rejected(InvalidSignature);
    }
    var saved := db.rows;
    ok := MoveFunds(db, req.id, req.allocs, req.signers, recovered);
    if !ok {
      db.rows := saved;
      return Rejected(RowRejected);
    }
    var session := BuildSession(req);
    if req.id in db.sessions || !SessionFits(session) {
      db.rows := saved;
      return Rejected(InsertFailed);
    }
    db.sessions := db.sessions[req.id := session];
    return Accepted;
  }

  // ----- HandleCloseApplication -----

  lemma SignersPrefix(m: map<Address, int>, signers: seq<Option<Address>>, n: nat)
    requires n <= |signers|
    ensures SignersAccepted(m, signers) ==> SignersAccepted(m, signers[..n])
  {
  }

  /** The first n + 1 signatures are accepted when the first n are and the next names a new, weighted participant. */
  lemma SignersStep(m: map<Address, int>, signers: seq<Option<Address>>, i: nat)
    requires i < |signers| && SignersAccepted(m, signers[..i])
    ensures var name := SignerName(signers[i]);
            && Map(signers[..i + 1], SignerName) == Map(signers[..i], SignerName) + [name]
            && (SignersAccepted(m, signers[..i + 1]) <==>
                signers[i].Some? && name !in Map(signers[..i], SignerName) && name in m && m[name] > 0)
  {
  }

  lemma ListedPrefix(m: map<Address, int>, allocs: seq<Allocation>, n: nat)
    requires n <= |allocs|
    ensures RowsListed(m, allocs) ==> RowsListed(m, allocs[..n])
  {
  }

  lemma ListedStep(m: map<Address, int>, allocs: seq<Allocation>, i: nat)
    requires i < |allocs| && RowsListed(m, allocs[..i])
    ensures var name := RowName(allocs[i]);
            && Map(allocs[..i + 1], RowName) == Map(allocs[..i], RowName) + [name]
            && (RowsListed(m, allocs[..i + 1]) <==> name in m && name !in Map(allocs[..i], RowName))
  {
  }

  /** The balance re-read before a row is the one from before the close: earlier rows name other participants. */
  lemma ReadIsOld(rows: seq<Entry>, id: Account, allocs: seq<Allocation>, i: nat)
    requires i < |allocs| && NoDup(Map(allocs[..i + 1], RowName))
    ensures var k := SessionKey(id, allocs[i].participant, allocs[i].asset);
            Balance(rows + CloseRows(rows, id, allocs[..i]), k) == Balance(rows, k)
  {
    var k := SessionKey(id, allocs[i].participant, allocs[i].asset);
    BalanceAppend(rows, CloseRows(rows, id, allocs[..i]), k);
    BalanceOfCloseRows(rows, id, allocs[..i], k);
    forall j | 0 <= j < i ensures allocs[..i][j].participant != allocs[i].participant {
      NamesSeparateRows(allocs[..i + 1], j, i);
    }
    SumZero(allocs[..i], CloseEffect(rows, id, k));
  }

  /** The first loops: the rows are complete, and these are the assets they name. */
  method ReadRows(allocs: seq<Allocation>) returns (ok: bool, assets: set<Symbol>)
    ensures ok <==> RowsComplete(allocs)
    ensures ok ==> assets == Named(allocs)
  {
    assets := {};
    for i := 0 to |allocs|
      invariant RowsComplete(allocs[..i]) && assets == Named(allocs[..i])
    {
      var al := allocs[i];
      assert allocs[..i + 1] == allocs[..i] + [al];
      if al.participant == "" || al.asset == "" || al.amount < 0 {
        assert al in allocs;
        return false, {};
      }
      assets := assets + {al.asset};
    }
    assert allocs[..|allocs|] == allocs;
    ok := true;
  }

  method GatherWeights(participants: seq<Address>, weights: seq<int>) returns (m: map<Address, int>)
    requires |participants| == |weights|
    ensures m == WeightMap(participants, weights)
    ensures forall i: nat :: i < |participants| && LastListed(participants, i) ==>
              Lower(participants[i]) in m && m[Lower(participants[i])] == weights[i]
    ensures forall p :: Lower(p) in m <==> Listed(participants, p)
  {
    m := map[];
    for i := 0 to |participants|
      invariant m == WeightMap(participants[..i], weights[..i])
    {
      m := m[Lower(participants[i]) := weights[i]];
      assert participants[..i + 1][..i] == participants[..i] && weights[..i + 1][..i] == weights[..i];
    }
    assert participants[..|participants|] == participants && weights[..|participants|] == weights;
    forall i: nat | i < |participants| && LastListed(participants, i) { WeightMapAt(participants, weights, i); }
    forall p { ListedIff(participants, weights, p); }
  }

  /** The signature loop, its total kept in an int64. */
  method CountSignatures(m: map<Address, int>, signers: seq<Option<Address>>) returns (ok: bool, total: int)
    ensures ok <==> SignersAccepted(m, signers)
    ensures ok ==> total == Wrap64(SignedWeight(m, signers))
  {
    var seen: set<Address> := {};
    total := 0;
    for i := 0 to |signers|
      invariant SignersAccepted(m, signers[..i])
      invariant forall p :: p in seen <==> p in Map(signers[..i], SignerName)
      invariant total == Wrap64(SignedWeight(m, signers[..i]))
    {
      SignersStep(m, signers, i);
      SignersPrefix(m, signers, i + 1);
      if signers[i] == None {
        return false, 0;
      }
      var name := Lower(signers[i].value);
      if name in seen {
        return false, 0;
      }
      if name !in m || m[name] <= 0 {
        return false, 0;
      }
      seen := seen + {name};
      WeightStep(m, signers, i);
      total := Wrap64(total + m[name]);
    }
    assert signers[..|signers|] == signers;
    ok := true;
  }

  lemma WeightStep(m: map<Address, int>, signers: seq<Option<Address>>, i: nat)
    requires i < |signers|
    ensures Wrap64(SignedWeight(m, signers[..i + 1]))
            == Wrap64(Wrap64(SignedWeight(m, signers[..i])) + WeightOf(m)(SignerName(signers[i])))
  {
    var names := Map(signers[..i + 1], SignerName);
    assert names[..i] == Map(signers[..i], SignerName);
    WrapAdd(SignedWeight(m, signers[..i]), WeightOf(m)(SignerName(signers[i])));
  }

  method CheckQuorum(s: StoredSession, signers: seq<Option<Address>>) returns (v: Verdict, m: map<Address, int>)
    ensures v == QuorumVerdict(s, signers)
    ensures m == WeightMap(s.participants, s.weights)
  {
    m := GatherWeights(s.participants, s.weights);
    var ok, total := CountSignatures(m, signers);
    if !ok {
      return Rejected(SignatureRejected), m;
    }
    v := if total < Wrap64(s.quorum) then Rejected(QuorumNotMet) else Accepted;
  }

  function GetOrZero(m: map<Symbol, int>, a: Symbol): int {
    if a in m then m[a] else 0
  }

  /** One participant's balances added to the totals; the assets of a map come in no particular order. */
  method AddHoldings(rows: seq<Entry>, id: Account, p: Address, assets: set<Symbol>, held: map<Symbol, int>)
    returns (after: map<Symbol, int>)
    requires held.Keys <= assets
    ensures after.Keys == assets
    ensures forall a :: a in after ==> after[a] == GetOrZero(held, a) + Balance(rows, SessionKey(id, p, a))
  {
    after := held;
    var todo := assets;
    while todo != {}
      invariant todo <= assets
      invariant forall a :: a in after <==> a in held || (a in assets && a !in todo)
      invariant forall a :: a in after && a in todo ==> after[a] == held[a]
      invariant forall a :: a in after && a !in todo ==>
        after[a] == GetOrZero(held, a) + Balance(rows, SessionKey(id, p, a))
      decreases |todo|
    {
      var a :| a in todo;
      after := after[a := GetOrZero(after, a) + Balance(rows, SessionKey(id, p, a))];
      todo := todo - {a};
    }
  }

  /** What the participants hold of each named asset. */
  method SumHoldings(rows: seq<Entry>, id: Account, participants: seq<Address>, assets: set<Symbol>)
    returns (held: map<Symbol, int>)
    ensures participants != [] ==> held.Keys == assets
    ensures forall a :: a in held ==> held[a] == SessionTotal(rows, id, participants, a)
  {
    held := map[];
    for i := 0 to |participants|
      invariant held.Keys == if i == 0 then {} else assets
      invariant forall a :: a in held ==> held[a] == SessionTotal(rows, id, participants[..i], a)
    {
      ghost var before := held;
      held := AddHoldings(rows, id, participants[i], assets, held);
      forall a | a in held ensures held[a] == SessionTotal(rows, id, participants[..i + 1], a) {
        SumPush(participants, i, HeldBy(rows, id, a));
      }
    }
    assert participants[..|participants|] == participants;
  }

  /** `paid` holds, for each asset the rows name, the sum of their amounts. */
  ghost predicate PaidOut(paid: map<Symbol, int>, allocs: seq<Allocation>) {
    paid.Keys == Named(allocs) && forall a :: a in paid ==> paid[a] == Sum(allocs, AmountIn(a))
  }

  lemma PaidStep(allocs: seq<Allocation>, i: nat, paid: map<Symbol, int>)
    requires i < |allocs| && PaidOut(paid, allocs[..i])
    ensures var al := allocs[i];
            PaidOut(paid[al.asset := GetOrZero(paid, al.asset) + al.amount], allocs[..i + 1])
  {
    var al := allocs[i];
    assert allocs[..i + 1] == allocs[..i] + [al];
    forall a ensures Sum(allocs[..i + 1], AmountIn(a)) == Sum(allocs[..i], AmountIn(a)) + AmountIn(a)(al) {
      SumPush(allocs, i, AmountIn(a));
    }
    if al.asset !in paid {
      assert forall x :: x in allocs[..i] ==> x.asset in Named(allocs[..i]);
      SumZero(allocs[..i], AmountIn(al.asset));
    }
  }

  /** The rows after both entries of one allocation row, its balance read just before. */
  function Settled(rows: seq<Entry>, id: Account, al: Allocation): seq<Entry> {
    var k := SessionKey(id, al.participant, al.asset);
    rows + RecordRows(k, -Balance(rows, k)) + RecordRows(UnifiedKey(al.participant, al.asset), al.amount)
  }

  method SettleRow(db: Database, id: Account, al: Allocation)
    modifies db`rows
    ensures db.rows == Settled(old(db.rows), id, al)
  {
    var k := SessionKey(id, al.participant, al.asset);
    var balance := Balance(db.rows, k);
    db.Record(k, -balance);
    db.Record(UnifiedKey(al.participant, al.asset), al.amount);
  }

  lemma CloseRowsStep(rows: seq<Entry>, id: Account, allocs: seq<Allocation>, i: nat)
    requires i < |allocs| && NoDup(Map(allocs[..i + 1], RowName))
    ensures rows + CloseRows(rows, id, allocs[..i + 1])
            == Settled(rows + CloseRows(rows, id, allocs[..i]), id, allocs[i])
  {
    var k := SessionKey(id, allocs[i].participant, allocs[i].asset);
    assert allocs[..i + 1][..i] == allocs[..i];
    ReadIsOld(rows, id, allocs, i);
    AppendThree(rows, CloseRows(rows, id, allocs[..i]), RecordRows(k, -Balance(rows, k)),
                RecordRows(UnifiedKey(allocs[i].participant, allocs[i].asset), allocs[i].amount));
  }

  /** The allocation loop: settle each row, keep who was listed and what each asset paid out. */
  method SettleRows(db: Database, id: Account, allocs: seq<Allocation>, m: map<Address, int>)
    returns (ok: bool, listed: set<Address>, paid: map<Symbol, int>)
    modifies db`rows
    ensures ok <==> RowsListed(m, allocs)
    ensures ok ==> db.rows == old(db.rows) + CloseRows(old(db.rows), id, allocs)
    ensures ok ==> |listed| == |allocs| && PaidOut(paid, allocs)
  {
    ghost var saved := db.rows;
    assert saved + [] == saved;
    listed, paid := {}, map[];
    for i := 0 to |allocs|
      invariant db.rows == saved + CloseRows(saved, id, allocs[..i])
      invariant RowsListed(m, allocs[..i])
      invariant forall x :: x in listed <==> x in Map(allocs[..i], RowName)
      invariant PaidOut(paid, allocs[..i])
    {
      var al := allocs[i];
      var name := Lower(al.participant);
      ListedStep(m, allocs, i);
      ListedPrefix(m, allocs, i + 1);
      if name !in m {
        return false, {}, map[];
      }
      if name in listed {
        return false, {}, map[];
      }
      listed := listed + {name};
      CloseRowsStep(saved, id, allocs, i);
      SettleRow(db, id, al);
      PaidStep(allocs, i, paid);
      paid := paid[al.asset := GetOrZero(paid, al.asset) + al.amount];
    }
    assert allocs[..|allocs|] == allocs;
    SetOfSize(Map(allocs, RowName));
    assert listed == SetOf(Map(allocs, RowName));
    ok := true;
  }

  /** The two closing loops over the maps, again in no particular order. */
  method CompareTotals(held: map<Symbol, int>, paid: map<Symbol, int>) returns (ok: bool)
    ensures ok <==> held == paid
  {
    var todo := held.Keys;
    while todo != {}
      invariant todo <= held.Keys
      invariant forall a :: a in held.Keys - todo ==> a in paid && held[a] == paid[a]
      decreases |todo|
    {
      var a :| a in todo;
      if a !in paid || held[a] != paid[a] {
        return false;
      }
      todo := todo - {a};
    }
    todo := paid.Keys;
    while todo != {}
      invariant todo <= paid.Keys
      invariant forall a :: a in paid.Keys - todo ==> a in held
      decreases |todo|
    {
      var a :| a in todo;
      if a !in held {
        return false;
      }
      todo := todo - {a};
    }
    assert held.Keys == paid.Keys;
    ok := true;
  }

  /** Holdings, allocation loop and comparison; on rejection the rows are left for the caller to roll back. */
  method Settle(
      db: Database, id: Account, s: StoredSession, m: map<Address, int>, allocs: seq<Allocation>, assets: set<Symbol>)
    returns (v: Verdict)
    requires m == WeightMap(s.participants, s.weights) && assets == Named(allocs) && allocs != []
    modifies db`rows
    ensures v == SettlementVerdict(old(db.rows), id, s, allocs)
    ensures v == Accepted ==> db.rows == old(db.rows) + CloseRows(old(db.rows), id, allocs)
  {
    var held := SumHoldings(db.rows, id, s.participants, assets);
    var ok, listed, paid := SettleRows(db, id, allocs, m);
    if !ok {
      return Rejected(AllocationRejected);
    }
    if |listed| != |s.participants| {
      return Rejected(MissingParticipant);
    }
    ok := CompareTotals(held, paid);
    v := if ok then Accepted else Rejected(NotRedistributed);
  }

  method HandleCloseApplication(db: Database, req: CloseRequest) returns (v: Verdict)
    modifies db
    ensures v == CloseVerdict(old(db.View()), req)
    ensures db.View() == AfterClose(old(db.View()), req)
  {
    if req.id == "" || req.allocs == [] {
      return Rejected(MissingParameters);
    }
    var complete, assets := ReadRows(req.allocs);
    if !complete {
      return Rejected(InvalidRow);
    }
    if req.id !in db.sessions || db.sessions[req.id].status != Open {
      return Rejected(SessionNotOpen);
    }
    var s := db.sessions[req.id];
    var quorum, m := CheckQuorum(s, req.signers);
    if quorum != Accepted {
      return quorum;
    }
    var saved := db.rows;
    v := Settle(db, req.id, s, m, req.allocs, assets);
    if v != Accepted {
      db.rows := saved;
      return;
    }
    db.sessions := db.sessions[req.id := s.(status := Status.Closed)];
  }

  // ----- HandleGetAppDefinition -----

  method HandleGetAppDefinition(db: Database, id: string) returns (def: Option<Definition>)
    ensures def == GetAppDefinition(db.View(), id)
  {
    if id !in db.sessions {
      return None;
    }
    var s := db.sessions[id];
    var weights: seq<U64> := [];
    for i := 0 to |s.weights|
      invariant |weights| == i && forall j :: 0 <= j < i ==> weights[j] == Unsigned(s.weights[j])
    {
      weights := weights + [s.weights[i] % TWO_64];
    }
    assert weights == Map<int, U64>(s.weights, Unsigned);
    def := Some(Definition(s.protocol, s.participants, weights, s.quorum, s.challenge, s.nonce));
  }

  // ----- handleBlockChainEvent -----

  class CustodyClient {
    const db: Database
    const on: Contract

    constructor (db: Database, on: Contract)
      ensures this.db == db && this.on == on
    {
      this.db, this.on := db, on;
    }

    method HandleBlockChainEvent(ev: Event)
      modifies db
      ensures db.View() == AfterEvent(old(db.View()), on, ev)
    {
      match ev
      case ChannelCreated(cid, participants, nonce, token, amount, adjudicator) =>
        if |participants| < 2 || participants[1] != on.broker {
          return;
        }
        if HasOpenChannel(db.View(), participants[0], token, on.chain) {
          return;
        }
        var channel := Channel(on.chain, token, participants[0], amount % TWO_64, Joining, nonce, 0, adjudicator);
        if cid in db.channels || !ChannelFits(channel) {
          return;
        }
        db.channels := db.channels[cid := channel];
      case ChannelJoined(cid) =>
        if cid in db.channels {
          Joined(cid);
        }
      case ChannelClosed(cid) =>
        if cid in db.channels {
          Closed(cid);
        }
      case ChannelResized(cid, deltas) =>
        if cid in db.channels {
          Resized(cid, deltas);
        }
    }

    method Joined(cid: ChannelId)
      requires cid in db.channels
      modifies db
      ensures db.View() == AfterEvent(old(db.View()), on, ChannelJoined(cid))
    {
      var saved := db.channels;
      var channel := db.channels[cid];
      db.channels := db.channels[cid := channel.(status := Open)];
      var asset := GetAssetByToken(db.assets, channel.token, on.chain);
      if asset == None {
        db.channels := saved;
        return;
      }
      db.Record(UnifiedKey(channel.participant, asset.value.symbol), channel.amount * Scale(asset.value));
    }

    method Closed(cid: ChannelId)
      requires cid in db.channels
      modifies db
      ensures db.View() == AfterEvent(old(db.View()), on, ChannelClosed(cid))
    {
      var channel := db.channels[cid];
      var asset := GetAssetByToken(db.assets, channel.token, on.chain);
      if asset == None {
        return;
      }
      db.Record(UnifiedKey(channel.participant, asset.value.symbol), -(channel.amount * Scale(asset.value)));
      db.channels := db.channels[cid := channel.(status := Status.Closed, amount := 0, version := channel.version + 1)];
    }

    /** The loop over the deltas in int64 arithmetic: overflow on the way cancels out. */
    static method AddDeltas(amount: int, deltas: seq<int>) returns (newAmount: int)
      requires FitsBigint(amount)
      ensures newAmount == Wrap64(amount + Sum(deltas, Identity))
    {
      newAmount := amount;
      for i := 0 to |deltas|
        invariant newAmount == Wrap64(amount + Sum(deltas[..i], Identity))
      {
        SumPush(deltas, i, Identity);
        WrapBoth(amount + Sum(deltas[..i], Identity), deltas[i]);
        newAmount := Wrap64(newAmount + Wrap64(deltas[i]));
      }
      assert deltas[..|deltas|] == deltas;
    }

    method Resized(cid: ChannelId, deltas: Deltas)
      requires cid in db.channels
      modifies db
      ensures db.View() == AfterEvent(old(db.View()), on, ChannelResized(cid, deltas))
    {
      var channel := db.channels[cid];
      var newAmount := AddDeltas(channel.amount, deltas);
      if !FitsBigint(newAmount) {
        return;
      }
      db.channels := db.channels[cid := channel.(amount := newAmount, version := channel.version + 1)];
      if deltas[0] != 0 {
        var asset := GetAssetByToken(db.assets, channel.token, on.chain);
        if asset == None {
          return;
        }
        db.Record(UnifiedKey(channel.participant, asset.value.symbol), deltas[0] * Scale(asset.value));
      }
    }
  }
}
