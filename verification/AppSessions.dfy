/**
 * handlers.go: what HandleCreateApplication and HandleCloseApplication decide and write,
 * said without their loops, and what the two steps do to balances and totals.
 */
module AppSessions {
  import opened Types
  import opened Sums
  import opened Ledger
  import opened Tables

  datatype Allocation = Allocation(participant: Address, asset: Symbol, amount: int)

  datatype Definition = Definition(
    protocol: string, participants: seq<Address>, weights: seq<U64>, quorum: U64, challenge: U64, nonce: U64)

  /** `id` is the hash of the definition and `signers` what recovering each signature gave. */
  datatype CreateRequest = CreateRequest(
    id: SessionId, def: Definition, allocs: seq<Allocation>, signers: seq<Option<HexAddress>>, timestamp: U64)

  datatype CloseRequest = CloseRequest(
    id: string, allocs: seq<Allocation>, signers: seq<Option<HexAddress>>)

  // ----- Create -----

  function AmountFor(p: Address, a: Symbol): Allocation -> int {
    (al: Allocation) => if al.participant == p && al.asset == a then al.amount else 0
  }

  /** All that the rows ask of one participant in one asset. */
  function Requested(allocs: seq<Allocation>, p: Address, a: Symbol): int {
    Sum(allocs, AmountFor(p, a))
  }

  predicate HasSigned(signers: seq<Option<Address>>, p: Address) {
    Some(p) in signers
  }

  /** No negative amount, and a signature for every positive one. */
  predicate RowsAuthorized(allocs: seq<Allocation>, signers: seq<Option<Address>>) {
    forall al :: al in allocs ==> al.amount >= 0 && (al.amount > 0 ==> HasSigned(signers, al.participant))
  }

  /** Every unified balance that a row draws on covers all the rows drawing on it together. */
  predicate Funded(rows: seq<Entry>, allocs: seq<Allocation>) {
    forall al :: al in allocs ==>
      Requested(allocs, al.participant, al.asset) <= Balance(rows, UnifiedKey(al.participant, al.asset))
  }

  /** The row to insert; an empty protocol and a zero quorum or version take the column default. */
  function NewSession(req: CreateRequest): AppSession {
    var d := req.def;
    AppSession(
      if d.protocol == "" then "NitroRPC/0.2" else d.protocol,
      d.participants,
      Map<int, int>(d.weights, Wrap64),
      if d.quorum == 0 then 100 else d.quorum,
      d.challenge,
      if d.nonce == 0 then req.timestamp else d.nonce,
      if req.timestamp == 0 then 1 else req.timestamp,
      Open)
  }

  /** HandleGetAppDefinition: the stored columns as a definition, weights back as unsigned words. */
  function ReadDefinition(s: StoredSession): Definition {
    Definition(s.protocol, s.participants, Map<int, U64>(s.weights, Unsigned), s.quorum, s.challenge, s.nonce)
  }

  function Unsigned(w: int): U64 {
    w % TWO_64
  }

  function GetAppDefinition(st: State, id: string): Option<Definition> {
    if id in st.sessions then Some(ReadDefinition(st.sessions[id])) else None
  }

  function CreateVerdict(st: State, req: CreateRequest): Verdict {
    if |req.def.participants| < 2 then Rejected(TooFewParticipants)
    else if |req.allocs| != |req.def.participants| then Rejected(AllocationCount)
    else if |req.def.weights| != |req.def.participants| then Rejected(WeightCount)
    else if None in req.signers then Rejected(InvalidSignature)
    else if !RowsAuthorized(req.allocs, req.signers) || !Funded(st.rows, req.allocs) then Rejected(RowRejected)
    else if req.id in st.sessions || !SessionFits(NewSession(req)) then Rejected(InsertFailed)
    else Accepted
  }

  /** Two entries a row: out of the unified account, into the session account. */
  function CreateRows(id: Account, allocs: seq<Allocation>): seq<Entry> {
    if allocs == [] then []
    else
      var al := allocs[|allocs| - 1];
      CreateRows(id, allocs[..|allocs| - 1])
      + RecordRows(UnifiedKey(al.participant, al.asset), -al.amount)
      + RecordRows(SessionKey(id, al.participant, al.asset), al.amount)
  }

  function AfterCreate(st: State, req: CreateRequest): State {
    if CreateVerdict(st, req) == Accepted then
      st.(rows := st.rows + CreateRows(req.id, req.allocs), sessions := st.sessions[req.id := NewSession(req)])
    else st
  }

  /** What one allocation row of a create does to the balance at `k`. */
  function CreateEffect(id: Account, k: Key): Allocation -> int {
    (al: Allocation) =>
      (if UnifiedKey(al.participant, al.asset) == k then -al.amount else 0)
      + (if SessionKey(id, al.participant, al.asset) == k then al.amount else 0)
  }

  lemma {:induction false} BalanceOfCreateRows(id: Account, allocs: seq<Allocation>, k: Key)
    ensures Balance(CreateRows(id, allocs), k) == Sum(allocs, CreateEffect(id, k))
  {
    if allocs != [] {
      var n := |allocs| - 1;
      var al := allocs[n];
      var uk, sk := UnifiedKey(al.participant, al.asset), SessionKey(id, al.participant, al.asset);
      BalanceOfCreateRows(id, allocs[..n], k);
      BalanceOfTwo(CreateRows(id, allocs[..n]), uk, -al.amount, sk, al.amount, k);
      assert CreateRows(id, allocs)
          == CreateRows(id, allocs[..n]) + RecordRows(uk, -al.amount) + RecordRows(sk, al.amount);
      assert Sum(allocs, CreateEffect(id, k)) == Sum(allocs[..n], CreateEffect(id, k)) + CreateEffect(id, k)(al);
    }
  }

  /** Some row moves an amount for this spelling of a participant. */
  predicate Moves(allocs: seq<Allocation>, p: Address) {
    exists al :: al in allocs && al.participant == p && al.amount != 0
  }

  /** The rows move nothing for a participant who is spelled like the session itself. */
  predicate NoneForItself(id: Account, allocs: seq<Allocation>) {
    !Moves(allocs, id)
  }

  /** A signature recovers to an address, and no address is as long as a hash. */
  lemma {:induction false} AuthorizedNoneForItself(
      id: SessionId, allocs: seq<Allocation>, signers: seq<Option<HexAddress>>)
    requires RowsAuthorized(allocs, signers)
    ensures NoneForItself(id, allocs)
    ensures forall p :: Moves(allocs, p) ==> |p| == 42
  {
    forall al | al in allocs && al.amount != 0 ensures |al.participant| == 42 {
      var i :| 0 <= i < |signers| && signers[i] == Some(al.participant);
      assert |signers[i].value| == 42;
    }
  }

  lemma BalanceAfterCreateRows(id: Account, allocs: seq<Allocation>, p: Address, a: Symbol)
    requires NoneForItself(id, allocs)
    ensures Balance(CreateRows(id, allocs), UnifiedKey(p, a)) == -Requested(allocs, p, a)
    ensures Balance(CreateRows(id, allocs), SessionKey(id, p, a)) == Requested(allocs, p, a)
  {
    BalanceOfCreateRows(id, allocs, UnifiedKey(p, a));
    BalanceOfCreateRows(id, allocs, SessionKey(id, p, a));
    SumScale(allocs, AmountFor(p, a), -1, CreateEffect(id, UnifiedKey(p, a)));
    SumExt(allocs, CreateEffect(id, SessionKey(id, p, a)), AmountFor(p, a));
  }

  /** Creating a session moves funds and makes none. */
  lemma {:induction false} CreateConserves(id: Account, allocs: seq<Allocation>, a: Symbol)
    ensures Total(CreateRows(id, allocs), a) == 0
  {
    if allocs != [] {
      var n := |allocs| - 1;
      var al := allocs[n];
      CreateConserves(id, allocs[..n], a);
      TotalOfTwo(CreateRows(id, allocs[..n]), UnifiedKey(al.participant, al.asset), -al.amount,
                 SessionKey(id, al.participant, al.asset), al.amount, a);
    }
  }

  /** The account of the session, or the unified account of a participant for whom a row moves an amount. */
  predicate IdOrMover(id: Account, allocs: seq<Allocation>, k: Key) {
    k.account == id || (k.account == k.participant && Moves(allocs, k.participant))
  }

  lemma {:induction false} CreateRowsAccounts(id: Account, allocs: seq<Allocation>)
    ensures forall e :: e in CreateRows(id, allocs) ==> IdOrMover(id, allocs, e.key)
  {
    if allocs != [] {
      CreateRowsAccounts(id, allocs[..|allocs| - 1]);
    }
  }

  lemma AuthorizedPermutation(
      xs: seq<Allocation>, ys: seq<Allocation>, signers: seq<Option<Address>>, others: seq<Option<Address>>)
    requires multiset(xs) == multiset(ys) && multiset(signers) == multiset(others)
    ensures RowsAuthorized(xs, signers) <==> RowsAuthorized(ys, others)
  {
    SameMembers(xs, ys);
    SameMembers(signers, others);
  }

  lemma FundedPermutation(rows: seq<Entry>, xs: seq<Allocation>, ys: seq<Allocation>)
    requires multiset(xs) == multiset(ys)
    ensures Funded(rows, xs) <==> Funded(rows, ys)
  {
    SameMembers(xs, ys);
    forall p, a ensures Requested(xs, p, a) == Requested(ys, p, a) {
      SumPermutation(xs, ys, AmountFor(p, a));
    }
  }

  /**
   * Although each row is checked against what the rows before it left, neither the verdict of a create
   * nor any balance after it depends on the order of its rows or signatures.
   */
  lemma CreateOrderIndependent(st: State, req: CreateRequest, other: CreateRequest)
    requires other == req.(allocs := other.allocs, signers := other.signers)
    requires multiset(req.allocs) == multiset(other.allocs) && multiset(req.signers) == multiset(other.signers)
    ensures CreateVerdict(st, req) == CreateVerdict(st, other)
    ensures forall k :: Balance(AfterCreate(st, req).rows, k) == Balance(AfterCreate(st, other).rows, k)
  {
    SameMembers(req.allocs, other.allocs);
    SameMembers(req.signers, other.signers);
    AuthorizedPermutation(req.allocs, other.allocs, req.signers, other.signers);
    FundedPermutation(st.rows, req.allocs, other.allocs);
    forall k
      ensures Balance(st.rows + CreateRows(req.id, req.allocs), k)
              == Balance(st.rows + CreateRows(req.id, other.allocs), k)
    {
      BalanceAppend(st.rows, CreateRows(req.id, req.allocs), k);
      BalanceAppend(st.rows, CreateRows(req.id, other.allocs), k);
      BalanceOfCreateRows(req.id, req.allocs, k);
      BalanceOfCreateRows(req.id, other.allocs, k);
      SumPermutation(req.allocs, other.allocs, CreateEffect(req.id, k));
    }
  }

  // ----- The signature quorum -----

  /** participantWeights: lowercased address to weight, a later listing overwriting an earlier one. */
  function WeightMap(participants: seq<Address>, weights: seq<int>): map<Address, int>
    requires |participants| == |weights|
  {
    if participants == [] then map[]
    else
      var n := |participants| - 1;
      WeightMap(participants[..n], weights[..n])[Lower(participants[n]) := weights[n]]
  }

  lemma {:induction false} WeightMapKeys(participants: seq<Address>, weights: seq<int>)
    requires |participants| == |weights|
    ensures WeightMap(participants, weights).Keys == SetOf(Map(participants, Lower))
    ensures forall p :: p in WeightMap(participants, weights) ==> WeightMap(participants, weights)[p] in weights
  {
    if participants != [] {
      var n := |participants| - 1;
      WeightMapKeys(participants[..n], weights[..n]);
      assert Map(participants, Lower) == Map(participants[..n], Lower) + [Lower(participants[n])];
    }
  }

  function WeightOf(m: map<Address, int>): Address -> int {
    (p: Address) => if p in m then m[p] else 0
  }

  function SignerName(o: Option<Address>): Address {
    match o case Some(a) => Lower(a) case None => ""
  }

  /** Every signature recovers, to pairwise different participants of positive weight. */
  predicate SignersAccepted(m: map<Address, int>, signers: seq<Option<Address>>) {
    var names := Map(signers, SignerName);
    && None !in signers
    && NoDup(names)
    && (forall p :: p in names ==> p in m && m[p] > 0)
  }

  /** The weights of the signers, added up without overflow. */
  function SignedWeight(m: map<Address, int>, signers: seq<Option<Address>>): int {
    Sum(Map(signers, SignerName), WeightOf(m))
  }

  function QuorumVerdict(s: StoredSession, signers: seq<Option<Address>>): Verdict {
    var m := WeightMap(s.participants, s.weights);
    if !SignersAccepted(m, signers) then Rejected(SignatureRejected)
    else if Wrap64(SignedWeight(m, signers)) < Wrap64(s.quorum) then Rejected(QuorumNotMet)
    else Accepted
  }

  /** The int64 total never wraps, so the loop accepts exactly the signer sets that reach the quorum. */
  lemma QuorumExact(s: StoredSession, signers: seq<Option<Address>>)
    requires |s.participants| < 0x1_0000_0000
    ensures var m := WeightMap(s.participants, s.weights);
            QuorumVerdict(s, signers) == Accepted <==>
              SignersAccepted(m, signers) && SignedWeight(m, signers) >= s.quorum
  {
    var m := WeightMap(s.participants, s.weights);
    WeightMapKeys(s.participants, s.weights);
    if SignersAccepted(m, signers) {
      var names := Map(signers, SignerName);
      SetOfSize(names);
      SetOfSize(Map(s.participants, Lower));
      assert SetOf(names) <= m.Keys;
      SubsetSize(SetOf(names), m.Keys);
      SumBound(names, WeightOf(m), 0x8000_0000 - 1);
      SumNonNegative(names, WeightOf(m));
      assert |names| * (0x8000_0000 - 1) < TWO_63;
    }
  }

  lemma SubsetSize<T>(a: set<T>, b: set<T>)
    requires a <= b
    ensures |a| <= |b|
  {
    assert b == a + (b - a);
  }

  /** The order in which the signatures come does not matter. */
  lemma QuorumPermutation(s: StoredSession, signers: seq<Option<Address>>, reordered: seq<Option<Address>>)
    requires multiset(signers) == multiset(reordered)
    ensures QuorumVerdict(s, signers) == QuorumVerdict(s, reordered)
  {
    var m := WeightMap(s.participants, s.weights);
    var names, names' := Map(signers, SignerName), Map(reordered, SignerName);
    SameMembers(signers, reordered);
    MapPermutation(signers, reordered, SignerName);
    SameMembers(names, names');
    SumPermutation(names, names', WeightOf(m));
    if NoDup(names) {
      NoDupPermutation(names, names');
    }
    if NoDup(names') {
      NoDupPermutation(names', names);
    }
  }

  // ----- Close -----

  predicate RowsComplete(allocs: seq<Allocation>) {
    forall al :: al in allocs ==> al.participant != "" && al.asset != "" && al.amount >= 0
  }

  function RowName(al: Allocation): Address {
    Lower(al.participant)
  }

  function Named(allocs: seq<Allocation>): set<Symbol> {
    set al | al in allocs :: al.asset
  }

  predicate RowsListed(m: map<Address, int>, allocs: seq<Allocation>) {
    && (forall al :: al in allocs ==> RowName(al) in m)
    && NoDup(Map(allocs, RowName))
  }

  function AmountIn(a: Symbol): Allocation -> int {
    (al: Allocation) => if al.asset == a then al.amount else 0
  }

  function HeldBy(rows: seq<Entry>, id: Account, a: Symbol): Address -> int {
    (p: Address) => Balance(rows, SessionKey(id, p, a))
  }

  /** appSessionBalance: what the listed participants hold in the session. */
  function SessionTotal(rows: seq<Entry>, id: Account, participants: seq<Address>, a: Symbol): int {
    Sum(participants, HeldBy(rows, id, a))
  }

  predicate Redistributed(rows: seq<Entry>, id: Account, participants: seq<Address>, allocs: seq<Allocation>) {
    forall a :: a in Named(allocs) ==> SessionTotal(rows, id, participants, a) == Sum(allocs, AmountIn(a))
  }

  /** The last checks of a close, once session and signatures are accepted. */
  function SettlementVerdict(rows: seq<Entry>, id: Account, s: StoredSession, allocs: seq<Allocation>): Verdict {
    if !RowsListed(WeightMap(s.participants, s.weights), allocs) then Rejected(AllocationRejected)
    else if |allocs| != |s.participants| then Rejected(MissingParticipant)
    else if !Redistributed(rows, id, s.participants, allocs) then Rejected(NotRedistributed)
    else Accepted
  }

  function CloseVerdict(st: State, req: CloseRequest): Verdict {
    if req.id == "" || req.allocs == [] then Rejected(MissingParameters)
    else if !RowsComplete(req.allocs) then Rejected(InvalidRow)
    else if req.id !in st.sessions || st.sessions[req.id].status != Open then Rejected(SessionNotOpen)
    else
      var s := st.sessions[req.id];
      if QuorumVerdict(s, req.signers) != Accepted then QuorumVerdict(s, req.signers)
      else SettlementVerdict(st.rows, req.id, s, req.allocs)
  }

  /** Two entries a row: the named session balance out, the allocated amount into the unified account. */
  function CloseRows(rows: seq<Entry>, id: Account, allocs: seq<Allocation>): seq<Entry> {
    if allocs == [] then []
    else
      var al := allocs[|allocs| - 1];
      var k := SessionKey(id, al.participant, al.asset);
      CloseRows(rows, id, allocs[..|allocs| - 1])
      + RecordRows(k, -Balance(rows, k))
      + RecordRows(UnifiedKey(al.participant, al.asset), al.amount)
  }

  function AfterClose(st: State, req: CloseRequest): State {
    if CloseVerdict(st, req) == Accepted then
      st.(rows := st.rows + CloseRows(st.rows, req.id, req.allocs),
          sessions := st.sessions[req.id := st.sessions[req.id].(status := Closed)])
    else st
  }

  function CloseEffect(rows: seq<Entry>, id: Account, k: Key): Allocation -> int {
    (al: Allocation) =>
      (if SessionKey(id, al.participant, al.asset) == k then -Balance(rows, k) else 0)
      + (if UnifiedKey(al.participant, al.asset) == k then al.amount else 0)
  }

  lemma {:induction false} BalanceOfCloseRows(rows: seq<Entry>, id: Account, allocs: seq<Allocation>, k: Key)
    ensures Balance(CloseRows(rows, id, allocs), k) == Sum(allocs, CloseEffect(rows, id, k))
  {
    if allocs != [] {
      var n := |allocs| - 1;
      var al := allocs[n];
      var sk := SessionKey(id, al.participant, al.asset);
      BalanceOfCloseRows(rows, id, allocs[..n], k);
      var uk := UnifiedKey(al.participant, al.asset);
      BalanceOfTwo(CloseRows(rows, id, allocs[..n]), sk, -Balance(rows, sk), uk, al.amount, k);
      assert CloseRows(rows, id, allocs)
          == CloseRows(rows, id, allocs[..n]) + RecordRows(sk, -Balance(rows, sk)) + RecordRows(uk, al.amount);
      assert Sum(allocs, CloseEffect(rows, id, k))
          == Sum(allocs[..n], CloseEffect(rows, id, k)) + CloseEffect(rows, id, k)(al);
    }
  }

  lemma {:induction false} CloseRowsAccounts(rows: seq<Entry>, id: Account, allocs: seq<Allocation>)
    ensures forall e :: e in CloseRows(rows, id, allocs) ==> IdOrMover(id, allocs, e.key)
  {
    if allocs != [] {
      CloseRowsAccounts(rows, id, allocs[..|allocs| - 1]);
    }
  }

  /** Rows with different names have different spellings, hence touch different keys. */
  lemma NamesSeparateRows(allocs: seq<Allocation>, i: nat, j: nat)
    requires NoDup(Map(allocs, RowName)) && i < |allocs| && j < |allocs| && i != j
    ensures allocs[i].participant != allocs[j].participant
  {
  }

  /** The rows of an accepted close list the participants once each, and the participants are distinct. */
  lemma {:induction false} CloseBijection(participants: seq<Address>, weights: seq<int>, allocs: seq<Allocation>)
    requires |participants| == |weights|
    ensures RowsListed(WeightMap(participants, weights), allocs) && |allocs| == |participants| <==>
            NoDup(Map(participants, Lower)) && multiset(Map(allocs, RowName)) == multiset(Map(participants, Lower))
  {
    var m := WeightMap(participants, weights);
    var names, listed := Map(allocs, RowName), Map(participants, Lower);
    WeightMapKeys(participants, weights);
    if RowsListed(m, allocs) && |allocs| == |participants| {
      forall x | x in names ensures x in listed {
        var i :| 0 <= i < |names| && names[i] == x;
        assert RowName(allocs[i]) in m;
      }
      Bijection(names, listed);
    }
    if NoDup(listed) && multiset(names) == multiset(listed) {
      SameMembers(names, listed);
      NoDupPermutation(listed, names);
      forall al | al in allocs ensures RowName(al) in m {
        var i :| 0 <= i < |allocs| && allocs[i] == al;
        assert names[i] in listed;
      }
    }
  }

  /** So a close succeeds only with exactly one row for each participant, and with no participant listed twice. */
  lemma AcceptedCloseIsBijection(st: State, req: CloseRequest)
    requires CloseVerdict(st, req) == Accepted
    ensures var participants := st.sessions[req.id].participants;
            && NoDup(Map(participants, Lower))
            && multiset(Map(req.allocs, RowName)) == multiset(Map(participants, Lower))
  {
    CloseBijection(st.sessions[req.id].participants, st.sessions[req.id].weights, req.allocs);
  }

  lemma {:induction false} CloseRowsPay(rows: seq<Entry>, id: Account, allocs: seq<Allocation>)
    ensures forall al :: al in allocs && al.amount > 0 ==>
              Entry(UnifiedKey(al.participant, al.asset), al.amount, 0) in CloseRows(rows, id, allocs)
  {
    if allocs != [] {
      var n := |allocs| - 1;
      CloseRowsPay(rows, id, allocs[..n]);
      assert allocs == allocs[..n] + [allocs[n]];
    }
  }

  /** One row empties the balance it names and pays its amount; both at one key if it is spelled like the session. */
  lemma CloseRowsSettle(rows: seq<Entry>, id: Account, allocs: seq<Allocation>, i: nat)
    requires NoDup(Map(allocs, RowName)) && i < |allocs|
    ensures var al := allocs[i];
            var sk, uk := SessionKey(id, al.participant, al.asset), UnifiedKey(al.participant, al.asset);
            var moved := CloseRows(rows, id, allocs);
            if al.participant == id then Balance(moved, sk) == al.amount - Balance(rows, sk)
            else Balance(moved, sk) == -Balance(rows, sk) && Balance(moved, uk) == al.amount
  {
    var al := allocs[i];
    var sk, uk := SessionKey(id, al.participant, al.asset), UnifiedKey(al.participant, al.asset);
    BalanceOfCloseRows(rows, id, allocs, sk);
    BalanceOfCloseRows(rows, id, allocs, uk);
    forall j | 0 <= j < |allocs| && j != i ensures allocs[j].participant != al.participant {
      NamesSeparateRows(allocs, i, j);
    }
    SumSingle(allocs, i, CloseEffect(rows, id, sk));
    SumSingle(allocs, i, CloseEffect(rows, id, uk));
  }

  /**
   * After an accepted close each row has emptied the balance it names and paid its amount;
   * for a participant spelled like the session these are one balance, left at the amount.
   */
  lemma CloseSettles(st: State, req: CloseRequest, i: nat)
    requires CloseVerdict(st, req) == Accepted && i < |req.allocs|
    ensures var al := req.allocs[i];
            var sk, uk := SessionKey(req.id, al.participant, al.asset), UnifiedKey(al.participant, al.asset);
            var after := AfterClose(st, req).rows;
            if al.participant == req.id then Balance(after, uk) == al.amount
            else Balance(after, sk) == 0 && Balance(after, uk) == Balance(st.rows, uk) + al.amount
  {
    var al := req.allocs[i];
    var moved := CloseRows(st.rows, req.id, req.allocs);
    BalanceAppend(st.rows, moved, SessionKey(req.id, al.participant, al.asset));
    BalanceAppend(st.rows, moved, UnifiedKey(al.participant, al.asset));
    CloseRowsSettle(st.rows, req.id, req.allocs, i);
  }

  // ----- What a close does to the total of an asset -----

  function CloseTotalEffect(rows: seq<Entry>, id: Account, a: Symbol): Allocation -> int {
    (al: Allocation) => if al.asset == a then al.amount - Balance(rows, SessionKey(id, al.participant, a)) else 0
  }

  /** The session balance that a row naming `a` takes out. */
  function TakenIn(rows: seq<Entry>, id: Account, a: Symbol): Allocation -> int {
    (al: Allocation) => if al.asset == a then Balance(rows, SessionKey(id, al.participant, a)) else 0
  }

  /** The session balance in `a` of a participant whose row names another asset. */
  function StrandedIn(rows: seq<Entry>, id: Account, a: Symbol): Allocation -> int {
    (al: Allocation) => if al.asset != a then Balance(rows, SessionKey(id, al.participant, a)) else 0
  }

  lemma {:induction false} TotalOfCloseRows(rows: seq<Entry>, id: Account, allocs: seq<Allocation>, a: Symbol)
    ensures Total(CloseRows(rows, id, allocs), a) == Sum(allocs, CloseTotalEffect(rows, id, a))
  {
    if allocs != [] {
      var n := |allocs| - 1;
      var al := allocs[n];
      var sk := SessionKey(id, al.participant, al.asset);
      TotalOfCloseRows(rows, id, allocs[..n], a);
      TotalOfTwo(CloseRows(rows, id, allocs[..n]), sk, -Balance(rows, sk),
                 UnifiedKey(al.participant, al.asset), al.amount, a);
    }
  }

  /** In a named asset the rows pay out their amounts and take in the balances they name; in others nothing. */
  lemma TotalOfCloseRowsSplit(rows: seq<Entry>, id: Account, allocs: seq<Allocation>, a: Symbol)
    ensures Total(CloseRows(rows, id, allocs), a) == Sum(allocs, AmountIn(a)) - Sum(allocs, TakenIn(rows, id, a))
    ensures a !in Named(allocs) ==> Total(CloseRows(rows, id, allocs), a) == 0
  {
    TotalOfCloseRows(rows, id, allocs, a);
    SumPlus(allocs, CloseTotalEffect(rows, id, a), TakenIn(rows, id, a), AmountIn(a));
    if a !in Named(allocs) {
      SumZero(allocs, CloseTotalEffect(rows, id, a));
    }
  }

  /** What a close adds to the ledger total of an asset: held by the participants, less what its rows take out. */
  function CloseDrift(st: State, req: CloseRequest, a: Symbol): int {
    if CloseVerdict(st, req) == Accepted && a in Named(req.allocs) then
      SessionTotal(st.rows, req.id, st.sessions[req.id].participants, a) - Sum(req.allocs, TakenIn(st.rows, req.id, a))
    else 0
  }

  /** The exact change of the total of every asset, for every request and every spelling of its rows. */
  lemma CloseDriftExact(st: State, req: CloseRequest, a: Symbol)
    ensures Total(AfterClose(st, req).rows, a) == Total(st.rows, a) + CloseDrift(st, req, a)
  {
    if CloseVerdict(st, req) == Accepted {
      TotalAppend(st.rows, CloseRows(st.rows, req.id, req.allocs), a);
      TotalOfCloseRowsSplit(st.rows, req.id, req.allocs, a);
    }
  }

  // ----- When a close conserves an asset -----

  /** Some row names `a` for exactly this spelling of a participant. */
  predicate NamesFor(allocs: seq<Allocation>, p: Address, a: Symbol) {
    exists al :: al in allocs && al.participant == p && al.asset == a
  }

  /** What a participant keeps of `a` in the session because no row names it under the stored spelling. */
  function LeftBehind(rows: seq<Entry>, id: Account, allocs: seq<Allocation>, a: Symbol): Address -> int {
    (p: Address) => if NamesFor(allocs, p, a) then 0 else Balance(rows, SessionKey(id, p, a))
  }

  /** What a row naming `a` takes out under a spelling that the session does not store. */
  function TakenElsewhere(rows: seq<Entry>, id: Account, participants: seq<Address>, a: Symbol): Allocation -> int {
    (al: Allocation) =>
      if al.asset == a && al.participant !in participants then Balance(rows, SessionKey(id, al.participant, a)) else 0
  }

  function HeldNamed(rows: seq<Entry>, id: Account, allocs: seq<Allocation>, a: Symbol): Address -> int {
    (p: Address) => if NamesFor(allocs, p, a) then Balance(rows, SessionKey(id, p, a)) else 0
  }

  function TakenListed(rows: seq<Entry>, id: Account, participants: seq<Address>, a: Symbol): Allocation -> int {
    (al: Allocation) =>
      if al.asset == a && al.participant in participants then Balance(rows, SessionKey(id, al.participant, a)) else 0
  }

  function HeldOf(rows: seq<Entry>, id: Account, al: Allocation, a: Symbol): Address -> int {
    (p: Address) => if al.participant == p && al.asset == a then Balance(rows, SessionKey(id, p, a)) else 0
  }

  /** One row takes from the listed participants what it takes under a stored spelling. */
  lemma {:induction false} OneRowTakes(
      rows: seq<Entry>, id: Account, participants: seq<Address>, al: Allocation, a: Symbol)
    requires NoDup(participants)
    ensures Sum(participants, HeldOf(rows, id, al, a)) == TakenListed(rows, id, participants, a)(al)
  {
    if i :| 0 <= i < |participants| && participants[i] == al.participant {
      SumSingle(participants, i, HeldOf(rows, id, al, a));
    } else {
      SumZero(participants, HeldOf(rows, id, al, a));
    }
  }

  /** What all rows take under stored spellings is what the participants with such a row hold. */
  lemma {:induction false} ListedTaken(
      rows: seq<Entry>, id: Account, participants: seq<Address>, allocs: seq<Allocation>, a: Symbol)
    requires NoDup(participants) && NoDup(Map(allocs, RowName))
    ensures Sum(participants, HeldNamed(rows, id, allocs, a)) == Sum(allocs, TakenListed(rows, id, participants, a))
  {
    if allocs == [] {
      SumZero(participants, HeldNamed(rows, id, allocs, a));
    } else {
      var n := |allocs| - 1;
      var al := allocs[n];
      assert allocs == allocs[..n] + [al];
      forall x | x in allocs[..n] ensures x.participant != al.participant {
        var j :| 0 <= j < n && allocs[j] == x;
        NamesSeparateRows(allocs, j, n);
      }
      ListedTaken(rows, id, participants, allocs[..n], a);
      OneRowTakes(rows, id, participants, al, a);
      SumPlus(participants, HeldNamed(rows, id, allocs[..n], a), HeldOf(rows, id, al, a),
              HeldNamed(rows, id, allocs, a));
    }
  }

  /** For every spelling, an accepted close adds what it leaves behind and burns what it takes elsewhere. */
  lemma CloseDriftSplit(st: State, req: CloseRequest, a: Symbol)
    requires CloseVerdict(st, req) == Accepted && a in Named(req.allocs)
    ensures var participants := st.sessions[req.id].participants;
            CloseDrift(st, req, a) == Sum(participants, LeftBehind(st.rows, req.id, req.allocs, a))
                                      - Sum(req.allocs, TakenElsewhere(st.rows, req.id, participants, a))
  {
    var participants := st.sessions[req.id].participants;
    AcceptedCloseIsBijection(st, req);
    ListedTaken(st.rows, req.id, participants, req.allocs, a);
    SumPlus(participants, HeldNamed(st.rows, req.id, req.allocs, a), LeftBehind(st.rows, req.id, req.allocs, a),
            HeldBy(st.rows, req.id, a));
    SumPlus(req.allocs, TakenListed(st.rows, req.id, participants, a),
            TakenElsewhere(st.rows, req.id, participants, a), TakenIn(st.rows, req.id, a));
  }

  /** As much of `a` stays behind under stored spellings as the rows take under others. */
  predicate Even(st: State, req: CloseRequest, a: Symbol) {
    CloseVerdict(st, req) == Accepted && a in Named(req.allocs) ==>
      var participants := st.sessions[req.id].participants;
      Sum(participants, LeftBehind(st.rows, req.id, req.allocs, a))
        == Sum(req.allocs, TakenElsewhere(st.rows, req.id, participants, a))
  }

  /** Without any assumption: a close conserves an asset exactly when it is even in it. */
  lemma CloseEvenIff(st: State, req: CloseRequest, a: Symbol)
    ensures Total(AfterClose(st, req).rows, a) == Total(st.rows, a) <==> Even(st, req, a)
    ensures CloseDrift(st, req, a) == 0 <==> Even(st, req, a)
  {
    CloseDriftExact(st, req, a);
    if CloseVerdict(st, req) == Accepted && a in Named(req.allocs) {
      CloseDriftSplit(st, req, a);
    }
  }

  /** No listed participant owes the session any of `a`. */
  predicate NothingOwed(rows: seq<Entry>, id: Account, participants: seq<Address>, a: Symbol) {
    forall p :: p in participants ==> Balance(rows, SessionKey(id, p, a)) >= 0
  }

  /** No row that names `a` under a spelling the session does not store finds anything to take. */
  predicate NothingElsewhere(
      rows: seq<Entry>, id: Account, participants: seq<Address>, allocs: seq<Allocation>, a: Symbol) {
    forall al :: al in allocs && al.asset == a && al.participant !in participants ==>
      Balance(rows, SessionKey(id, al.participant, a)) == 0
  }

  /** Every listed participant without a row of exactly the stored spelling naming `a` holds none of it. */
  predicate NothingLeft(rows: seq<Entry>, id: Account, participants: seq<Address>, allocs: seq<Allocation>, a: Symbol) {
    forall p :: p in participants && !NamesFor(allocs, p, a) ==> Balance(rows, SessionKey(id, p, a)) == 0
  }

  lemma {:induction false} LeftIff(
      rows: seq<Entry>, id: Account, participants: seq<Address>, allocs: seq<Allocation>, a: Symbol)
    requires NothingOwed(rows, id, participants, a)
    ensures Sum(participants, LeftBehind(rows, id, allocs, a)) >= 0
    ensures Sum(participants, LeftBehind(rows, id, allocs, a)) == 0 <==> NothingLeft(rows, id, participants, allocs, a)
  {
    SumNonNegative(participants, LeftBehind(rows, id, allocs, a));
  }

  /** No row names a participant who owes the session any of `a`. */
  predicate RowsHeld(rows: seq<Entry>, id: Account, allocs: seq<Allocation>, a: Symbol) {
    forall al :: al in allocs ==> Balance(rows, SessionKey(id, al.participant, a)) >= 0
  }

  lemma {:induction false} ElsewhereIff(
      rows: seq<Entry>, id: Account, participants: seq<Address>, allocs: seq<Allocation>, a: Symbol)
    requires RowsHeld(rows, id, allocs, a) || NothingElsewhere(rows, id, participants, allocs, a)
    ensures Sum(allocs, TakenElsewhere(rows, id, participants, a)) >= 0
    ensures Sum(allocs, TakenElsewhere(rows, id, participants, a)) == 0 <==>
            NothingElsewhere(rows, id, participants, allocs, a)
  {
    SumNonNegative(allocs, TakenElsewhere(rows, id, participants, a));
  }

  /** Whatever the rows spell: an asset is conserved exactly when no participant leaves any of it behind. */
  lemma {:induction false} CloseConservesIff(st: State, req: CloseRequest, a: Symbol)
    requires CloseVerdict(st, req) == Accepted && a in Named(req.allocs)
    requires var participants := st.sessions[req.id].participants;
             && NothingOwed(st.rows, req.id, participants, a)
             && NothingElsewhere(st.rows, req.id, participants, req.allocs, a)
    ensures Total(AfterClose(st, req).rows, a) == Total(st.rows, a) <==>
            NothingLeft(st.rows, req.id, st.sessions[req.id].participants, req.allocs, a)
    ensures Total(AfterClose(st, req).rows, a) >= Total(st.rows, a)
  {
    CloseDriftExact(st, req, a);
    CloseDriftSplit(st, req, a);
    LeftIff(st.rows, req.id, st.sessions[req.id].participants, req.allocs, a);
    ElsewhereIff(st.rows, req.id, st.sessions[req.id].participants, req.allocs, a);
  }

  /** The other way to fail: with nothing left behind, funds under other spellings are burnt, and only they. */
  lemma CloseBurnsIff(st: State, req: CloseRequest, a: Symbol)
    requires CloseVerdict(st, req) == Accepted && a in Named(req.allocs)
    requires NothingLeft(st.rows, req.id, st.sessions[req.id].participants, req.allocs, a)
    requires RowsHeld(st.rows, req.id, req.allocs, a)
    ensures Total(AfterClose(st, req).rows, a) < Total(st.rows, a) <==>
            !NothingElsewhere(st.rows, req.id, st.sessions[req.id].participants, req.allocs, a)
    ensures Total(AfterClose(st, req).rows, a) <= Total(st.rows, a)
  {
    var participants := st.sessions[req.id].participants;
    CloseDriftExact(st, req, a);
    CloseDriftSplit(st, req, a);
    SumZero(participants, LeftBehind(st.rows, req.id, req.allocs, a));
    ElsewhereIff(st.rows, req.id, participants, req.allocs, a);
  }

  predicate SingleAsset(allocs: seq<Allocation>) {
    forall x, y :: x in allocs && y in allocs ==> x.asset == y.asset
  }

  /** Some row spells this participant exactly so. */
  predicate Spelled(allocs: seq<Allocation>, p: Address) {
    exists al :: al in allocs && al.participant == p
  }

  /** A close in one asset conserves it exactly when every participant who holds any is spelled as stored. */
  lemma {:induction false} SingleAssetConservesIff(st: State, req: CloseRequest, a: Symbol)
    requires CloseVerdict(st, req) == Accepted && SingleAsset(req.allocs) && a in Named(req.allocs)
    requires var participants := st.sessions[req.id].participants;
             && NothingOwed(st.rows, req.id, participants, a)
             && NothingElsewhere(st.rows, req.id, participants, req.allocs, a)
    ensures Total(AfterClose(st, req).rows, a) == Total(st.rows, a) <==>
            forall p :: p in st.sessions[req.id].participants && Balance(st.rows, SessionKey(req.id, p, a)) != 0 ==>
              Spelled(req.allocs, p)
  {
    CloseConservesIff(st, req, a);
    forall p ensures Spelled(req.allocs, p) <==> NamesFor(req.allocs, p, a) {
      assert forall al :: al in req.allocs ==> al.asset == a;
    }
  }

  // ----- Rows spelled as the session stores them -----

  /** Every row spells its participant the way the session stores it. */
  predicate RowsSpelled(s: AppSession, allocs: seq<Allocation>) {
    forall al :: al in allocs ==> al.participant in s.participants
  }

  function ParticipantOf(al: Allocation): Address {
    al.participant
  }

  lemma SpelledBijection(st: State, req: CloseRequest)
    requires CloseVerdict(st, req) == Accepted && RowsSpelled(st.sessions[req.id], req.allocs)
    ensures multiset(Map(req.allocs, ParticipantOf)) == multiset(st.sessions[req.id].participants)
  {
    var spelled := Map(req.allocs, ParticipantOf);
    forall i, j | 0 <= i < j < |spelled| ensures spelled[i] != spelled[j] {
      NamesSeparateRows(req.allocs, i, j);
    }
    Bijection(spelled, st.sessions[req.id].participants);
  }

  /** With the stored spellings, the drift is exactly what stays behind with rows that name another asset. */
  lemma CloseDriftIsStranded(st: State, req: CloseRequest, a: Symbol)
    requires CloseVerdict(st, req) == Accepted && RowsSpelled(st.sessions[req.id], req.allocs)
    requires a in Named(req.allocs)
    ensures CloseDrift(st, req, a) == Sum(req.allocs, StrandedIn(st.rows, req.id, a))
  {
    var participants := st.sessions[req.id].participants;
    var held := HeldBy(st.rows, req.id, a);
    var spelled := Map(req.allocs, ParticipantOf);
    var heldOfRow := (al: Allocation) => held(al.participant);
    SpelledBijection(st, req);
    SumPermutation(spelled, participants, held);
    SumMap(req.allocs, spelled, heldOfRow, held);
    SumPlus(req.allocs, TakenIn(st.rows, req.id, a), StrandedIn(st.rows, req.id, a), heldOfRow);
  }

  /** So a close in one asset, with the stored spellings, conserves every asset, whatever the balances. */
  lemma SingleAssetConserves(st: State, req: CloseRequest, a: Symbol)
    requires CloseVerdict(st, req) == Accepted ==>
               SingleAsset(req.allocs) && RowsSpelled(st.sessions[req.id], req.allocs)
    ensures CloseDrift(st, req, a) == 0 && Even(st, req, a)
  {
    CloseEvenIff(st, req, a);
    if CloseVerdict(st, req) == Accepted && a in Named(req.allocs) {
      CloseDriftIsStranded(st, req, a);
      SumNonNegative(req.allocs, StrandedIn(st.rows, req.id, a));
    }
  }

  // ----- Order -----

  lemma SettlementPermutation(
      rows: seq<Entry>, id: Account, s: StoredSession, xs: seq<Allocation>, ys: seq<Allocation>)
    requires multiset(xs) == multiset(ys)
    ensures SettlementVerdict(rows, id, s, xs) == SettlementVerdict(rows, id, s, ys)
  {
    SameMembers(xs, ys);
    ListedPermutation(WeightMap(s.participants, s.weights), xs, ys);
    assert Named(xs) == Named(ys);
    forall a { SumPermutation(xs, ys, AmountIn(a)); }
  }

  lemma VerdictOrderIndependent(st: State, req: CloseRequest, other: CloseRequest)
    requires req.id == other.id
    requires multiset(req.allocs) == multiset(other.allocs) && multiset(req.signers) == multiset(other.signers)
    ensures CloseVerdict(st, req) == CloseVerdict(st, other)
  {
    SameMembers(req.allocs, other.allocs);
    assert RowsComplete(req.allocs) == RowsComplete(other.allocs);
    if req.id in st.sessions {
      QuorumPermutation(st.sessions[req.id], req.signers, other.signers);
      SettlementPermutation(st.rows, req.id, st.sessions[req.id], req.allocs, other.allocs);
    }
  }

  lemma {:induction false} CloseRowsPermutation(
      rows: seq<Entry>, id: Account, xs: seq<Allocation>, ys: seq<Allocation>, k: Key)
    requires multiset(xs) == multiset(ys)
    ensures Balance(rows + CloseRows(rows, id, xs), k) == Balance(rows + CloseRows(rows, id, ys), k)
  {
    BalanceAppend(rows, CloseRows(rows, id, xs), k);
    BalanceAppend(rows, CloseRows(rows, id, ys), k);
    BalanceOfCloseRows(rows, id, xs, k);
    BalanceOfCloseRows(rows, id, ys, k);
    SumPermutation(xs, ys, CloseEffect(rows, id, k));
  }

  /** Neither the verdict nor any balance after it depends on the order of the rows or of the signatures. */
  lemma CloseOrderIndependent(st: State, req: CloseRequest, other: CloseRequest)
    requires req.id == other.id
    requires multiset(req.allocs) == multiset(other.allocs) && multiset(req.signers) == multiset(other.signers)
    ensures CloseVerdict(st, req) == CloseVerdict(st, other)
    ensures AfterClose(st, req).sessions == AfterClose(st, other).sessions
    ensures forall k :: Balance(AfterClose(st, req).rows, k) == Balance(AfterClose(st, other).rows, k)
  {
    VerdictOrderIndependent(st, req, other);
    if CloseVerdict(st, req) == Accepted {
      forall k { CloseRowsPermutation(st.rows, req.id, req.allocs, other.allocs, k); }
    }
  }

  lemma ListedPermutation(m: map<Address, int>, xs: seq<Allocation>, ys: seq<Allocation>)
    requires multiset(xs) == multiset(ys)
    ensures RowsListed(m, xs) <==> RowsListed(m, ys)
  {
    SameMembers(xs, ys);
    MapPermutation(xs, ys, RowName);
    if NoDup(Map(xs, RowName)) {
      NoDupPermutation(Map(xs, RowName), Map(ys, RowName));
    }
    if NoDup(Map(ys, RowName)) {
      NoDupPermutation(Map(ys, RowName), Map(xs, RowName));
    }
  }
}
