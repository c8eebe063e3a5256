/** What whole runs keep about session accounts: who writes them, what they hold, that create and close cancel. */
module SessionRuns {
  import opened Types
  import opened Sums
  import opened Ledger
  import opened Tables
  import opened AppSessions
  import opened Custody
  import opened Runs
  import opened Verdicts

  /** A row of the session's account, other than of a participant spelled like the session. */
  function OfSession(id: Account): Entry -> bool {
    (e: Entry) => e.key.account == id && e.key.participant != id
  }

  function OfAccount(id: Account): Entry -> bool {
    (e: Entry) => e.key.account == id
  }

  function SessionRows(st: State, id: Account): seq<Entry> {
    Select(st.rows, OfSession(id))
  }

  /** All rows of the account. Payments to a participant spelled like the session are among them. */
  function AccountRows(st: State, id: Account): seq<Entry> {
    Select(st.rows, OfAccount(id))
  }

  predicate IsOpen(st: State, id: SessionId) {
    id in st.sessions && st.sessions[id].status == Open
  }

  /** The step is an accepted create or close of this very session. */
  predicate Writes(st: State, step: Step, id: SessionId) {
    match step
    case Create(req) => req.id == id && CreateVerdict(st, req) == Accepted
    case Close(req) => req.id == id && CloseVerdict(st, req) == Accepted
    case Chain(_, _) => false
  }

  /** The step is an accepted close that pays a participant spelled like the session. */
  predicate PaysAccount(st: State, step: Step, id: SessionId) {
    step.Close? && CloseVerdict(st, step.closing) == Accepted && Moves(step.closing.allocs, id)
  }

  /** The rows a step appends. */
  function Appended(st: State, step: Step): (more: seq<Entry>)
    ensures Apply(st, step).rows == st.rows + more
  {
    match step
    case Create(req) => if CreateVerdict(st, req) == Accepted then CreateRows(req.id, req.allocs) else []
    case Close(req) => if CloseVerdict(st, req) == Accepted then CloseRows(st.rows, req.id, req.allocs) else []
    case Chain(on, ev) =>
      EventExtends(st, on, ev);
      AfterEvent(st, on, ev).rows[|st.rows|..]
  }

  lemma RecordStays(st: State, step: Step, id: SessionId)
    requires !Writes(st, step, id)
    ensures id in Apply(st, step).sessions <==> id in st.sessions
    ensures id in st.sessions ==> Apply(st, step).sessions[id] == st.sessions[id]
  {
    if step.Chain? {
      EventExtends(st, step.on, step.ev);
    }
  }

  lemma CreateRowsForeign(req: CreateRequest, id: SessionId)
    requires req.id != id && RowsAuthorized(req.allocs, req.signers)
    ensures forall e :: e in CreateRows(req.id, req.allocs) ==> e.key.account != id
  {
    CreateRowsAccounts(req.id, req.allocs);
    AuthorizedNoneForItself(req.id, req.allocs, req.signers);
  }

  lemma CloseRowsForeign(rows: seq<Entry>, req: CloseRequest, id: SessionId)
    requires req.id != id && RowsComplete(req.allocs)
    ensures forall e :: e in CloseRows(rows, req.id, req.allocs) ==> !OfSession(id)(e)
    ensures (forall e :: e in CloseRows(rows, req.id, req.allocs) ==> !OfAccount(id)(e)) <==> !Moves(req.allocs, id)
  {
    CloseRowsAccounts(rows, req.id, req.allocs);
    CloseRowsPay(rows, req.id, req.allocs);
    if al :| al in req.allocs && al.participant == id && al.amount != 0 {
      assert OfAccount(id)(Entry(UnifiedKey(id, al.asset), al.amount, 0));
    }
  }

  /** Rows of a session account that are not of the session itself are payments to a participant of its name. */
  lemma AppendedRows(st: State, step: Step, id: SessionId)
    requires !Writes(st, step, id)
    ensures forall e :: e in Appended(st, step) ==> !OfSession(id)(e)
    ensures (forall e :: e in Appended(st, step) ==> !OfAccount(id)(e)) <==> !PaysAccount(st, step, id)
  {
    match step
    case Create(req) =>
      if CreateVerdict(st, req) == Accepted {
        CreateRowsForeign(req, id);
      }
    case Close(req) =>
      if CloseVerdict(st, req) == Accepted {
        CloseRowsForeign(st.rows, req, id);
      }
    case Chain(on, ev) =>
      EventExtends(st, on, ev);
  }

  /**
   * Only an accepted create or close of the session itself touches its rows or its record, and its
   * account gets further rows exactly from an accepted close paying a participant spelled like its id.
   */
  lemma SessionFrame(st: State, step: Step, id: SessionId)
    requires !Writes(st, step, id)
    ensures SessionRows(Apply(st, step), id) == SessionRows(st, id)
    ensures AccountRows(Apply(st, step), id) == AccountRows(st, id) <==> !PaysAccount(st, step, id)
    ensures id in Apply(st, step).sessions <==> id in st.sessions
    ensures id in st.sessions ==> Apply(st, step).sessions[id] == st.sessions[id]
  {
    RecordStays(st, step, id);
    AppendedRows(st, step, id);
    SelectStays(st.rows, Appended(st, step), OfSession(id));
    SelectStays(st.rows, Appended(st, step), OfAccount(id));
  }

  /** Some step of the run pays the account. */
  predicate PaidAlong(st: State, steps: seq<Step>, id: SessionId) {
    steps != [] &&
      (PaidAlong(st, steps[..|steps| - 1], id)
       || PaysAccount(Exec(st, steps[..|steps| - 1]), steps[|steps| - 1], id))
  }

  predicate WrittenAlong(st: State, steps: seq<Step>, id: SessionId) {
    steps != [] &&
      (WrittenAlong(st, steps[..|steps| - 1], id)
       || Writes(Exec(st, steps[..|steps| - 1]), steps[|steps| - 1], id))
  }

  /** Over a run that neither creates nor closes the session, its account stays as it was unless it is paid. */
  lemma {:induction false} AccountFrozenIff(st: State, steps: seq<Step>, id: SessionId)
    requires !WrittenAlong(st, steps, id)
    ensures SessionRows(Exec(st, steps), id) == SessionRows(st, id)
    ensures AccountRows(Exec(st, steps), id) == AccountRows(st, id) <==> !PaidAlong(st, steps, id)
    ensures |AccountRows(Exec(st, steps), id)| >= |AccountRows(st, id)|
    ensures |AccountRows(Exec(st, steps), id)| == |AccountRows(st, id)| ==> !PaidAlong(st, steps, id)
  {
    if steps != [] {
      var before, last := steps[..|steps| - 1], steps[|steps| - 1];
      var mid := Exec(st, before);
      AccountFrozenIff(st, before, id);
      SessionFrame(mid, last, id);
      SelectAppend(mid.rows, Appended(mid, last), OfAccount(id));
    }
  }

  lemma {:induction false} SessionsStay(st: State, steps: seq<Step>, id: SessionId)
    requires id in st.sessions
    ensures id in Exec(st, steps).sessions
  {
    if steps != [] {
      var before, last := steps[..|steps| - 1], steps[|steps| - 1];
      SessionsStay(st, before, id);
      if !Writes(Exec(st, before), last, id) {
        RecordStays(Exec(st, before), last, id);
      }
    }
  }

  lemma {:induction false} UnwrittenWhileAbsent(st: State, steps: seq<Step>, id: SessionId)
    requires id !in Exec(st, steps).sessions
    ensures !WrittenAlong(st, steps, id)
  {
    if steps != [] {
      var before, last := steps[..|steps| - 1], steps[|steps| - 1];
      var mid := Exec(st, before);
      assert !Writes(mid, last, id);
      RecordStays(mid, last, id);
      UnwrittenWhileAbsent(st, before, id);
    }
  }

  /** A session account has rows of its own only once its session exists, and others only if it was paid. */
  lemma NoRowsWithoutSession(assets: AssetTable, steps: seq<Step>, id: SessionId)
    requires id !in Exec(Start(assets), steps).sessions
    ensures SessionRows(Exec(Start(assets), steps), id) == []
    ensures AccountRows(Exec(Start(assets), steps), id) == [] <==> !PaidAlong(Start(assets), steps, id)
  {
    UnwrittenWhileAbsent(Start(assets), steps, id);
    AccountFrozenIff(Start(assets), steps, id);
  }

  lemma {:induction false} UnwrittenOnceClosed(st: State, steps: seq<Step>, id: SessionId)
    requires id in st.sessions && !IsOpen(st, id)
    ensures !WrittenAlong(st, steps, id)
    ensures id in Exec(st, steps).sessions && Exec(st, steps).sessions[id] == st.sessions[id]
  {
    if steps != [] {
      var before, last := steps[..|steps| - 1], steps[|steps| - 1];
      UnwrittenOnceClosed(st, before, id);
      RecordStays(Exec(st, before), last, id);
    }
  }

  /**
   * A session that is not open never changes again, whatever the run does; its account
   * changes exactly when a close pays a participant spelled like its id.
   */
  lemma ClosedForever(st: State, steps: seq<Step>, id: SessionId)
    requires id in st.sessions && !IsOpen(st, id)
    ensures id in Exec(st, steps).sessions && Exec(st, steps).sessions[id] == st.sessions[id]
    ensures SessionRows(Exec(st, steps), id) == SessionRows(st, id)
    ensures AccountRows(Exec(st, steps), id) == AccountRows(st, id) <==> !PaidAlong(st, steps, id)
  {
    UnwrittenOnceClosed(st, steps, id);
    AccountFrozenIff(st, steps, id);
  }

  /** As long as a session is still open, nothing of it has been written since. */
  lemma {:induction false} UntouchedWhileOpen(st: State, steps: seq<Step>, id: SessionId)
    requires id in st.sessions && IsOpen(Exec(st, steps), id)
    ensures IsOpen(st, id) && Exec(st, steps).sessions[id] == st.sessions[id]
    ensures SessionRows(Exec(st, steps), id) == SessionRows(st, id)
  {
    if steps != [] {
      var before, last := steps[..|steps| - 1], steps[|steps| - 1];
      SessionsStay(st, before, id);
      var mid := Exec(st, before);
      assert !Writes(mid, last, id);
      SessionFrame(mid, last, id);
      UntouchedWhileOpen(st, before, id);
    }
  }

  lemma BalanceOfSessionRows(st: State, id: Account, p: Address, a: Symbol)
    requires p != id
    ensures Balance(SessionRows(st, id), SessionKey(id, p, a)) == Balance(st.rows, SessionKey(id, p, a))
  {
    BalanceOfSelected(st.rows, OfSession(id), SessionKey(id, p, a));
  }

  lemma BalanceOfCreated(id: Account, allocs: seq<Allocation>, p: Address, a: Symbol)
    requires NoneForItself(id, allocs) && p != id
    ensures Balance(Select(CreateRows(id, allocs), OfSession(id)), SessionKey(id, p, a)) == Requested(allocs, p, a)
  {
    BalanceOfSelected(CreateRows(id, allocs), OfSession(id), SessionKey(id, p, a));
    BalanceAfterCreateRows(id, allocs, p, a);
  }

  lemma CreatedRows(st: State, req: CreateRequest, p: Address, a: Symbol)
    requires CreateVerdict(st, req) == Accepted && SessionRows(st, req.id) == []
    ensures var rows := SessionRows(AfterCreate(st, req), req.id);
            && rows == Select(CreateRows(req.id, req.allocs), OfSession(req.id))
            && (p != req.id ==> Balance(rows, SessionKey(req.id, p, a)) == Requested(req.allocs, p, a))
  {
    SelectAppend(st.rows, CreateRows(req.id, req.allocs), OfSession(req.id));
    AuthorizedNoneForItself(req.id, req.allocs, req.signers);
    if p != req.id {
      BalanceOfCreated(req.id, req.allocs, p, a);
    }
  }

  /** While a session is open, its rows are exactly its create rows and each balance what they allocated. */
  lemma {:induction false} OpenSessionHolds(
      assets: AssetTable, before: seq<Step>, req: CreateRequest, after: seq<Step>, p: Address, a: Symbol)
    requires CreateVerdict(Exec(Start(assets), before), req) == Accepted
    requires IsOpen(Exec(AfterCreate(Exec(Start(assets), before), req), after), req.id)
    ensures var st := Exec(AfterCreate(Exec(Start(assets), before), req), after);
            && st.sessions[req.id] == NewSession(req)
            && SessionRows(st, req.id) == Select(CreateRows(req.id, req.allocs), OfSession(req.id))
            && (p != req.id ==> Balance(st.rows, SessionKey(req.id, p, a)) == Requested(req.allocs, p, a))
  {
    var s0 := Exec(Start(assets), before);
    NoRowsWithoutSession(assets, before, req.id);
    CreatedRows(s0, req, p, a);
    UntouchedWhileOpen(AfterCreate(s0, req), after, req.id);
    if p != req.id {
      BalanceOfSessionRows(Exec(AfterCreate(s0, req), after), req.id, p, a);
    }
  }

  /** After an accepted close every named balance is zero, and stays zero whatever follows. */
  lemma {:induction false} ClosedSessionEmpty(st: State, req: CloseRequest, after: seq<Step>, i: nat)
    requires CloseVerdict(st, req) == Accepted && i < |req.allocs|
    ensures var end := Exec(AfterClose(st, req), after);
            && req.id in end.sessions && end.sessions[req.id].status == Closed
            && SessionRows(end, req.id) == SessionRows(AfterClose(st, req), req.id)
            && (req.allocs[i].participant != req.id ==>
                  Balance(end.rows, SessionKey(req.id, req.allocs[i].participant, req.allocs[i].asset)) == 0)
  {
    var p, a := req.allocs[i].participant, req.allocs[i].asset;
    ClosedForever(AfterClose(st, req), after, req.id);
    CloseSettles(st, req, i);
    if p != req.id {
      BalanceOfSessionRows(AfterClose(st, req), req.id, p, a);
      BalanceOfSessionRows(Exec(AfterClose(st, req), after), req.id, p, a);
    }
  }

  // ----- What the record of a session keeps -----

  /** Whatever runs, a stored session keeps every column but its status, which can only become closed. */
  lemma {:induction false} RecordKept(st: State, steps: seq<Step>, id: SessionId)
    requires id in st.sessions
    ensures id in Exec(st, steps).sessions
    ensures var was, now := st.sessions[id], Exec(st, steps).sessions[id];
            && now.protocol == was.protocol && now.participants == was.participants && now.weights == was.weights
            && now.quorum == was.quorum && now.challenge == was.challenge && now.nonce == was.nonce
            && now.version == was.version && (now.status == was.status || now.status == Closed)
  {
    if steps != [] {
      var before, last := steps[..|steps| - 1], steps[|steps| - 1];
      RecordKept(st, before, id);
      if !Writes(Exec(st, before), last, id) {
        RecordStays(Exec(st, before), last, id);
      }
    }
  }

  lemma WeightsReadBack(weights: seq<U64>)
    ensures Map<int, U64>(Map<int, int>(weights, Wrap64), Unsigned) == weights
  {
    forall i | 0 <= i < |weights| ensures Unsigned(Wrap64(weights[i])) == weights[i] {
      WrapShift(weights[i]);
    }
  }

  /**
   * At every point after an accepted create, open or closed, the record holds what was asked for, field
   * by field; a missing protocol, quorum, nonce or timestamp has become NitroRPC/0.2, 100, the timestamp, 1.
   */
  lemma {:induction false} RecordHoldsRequest(
      assets: AssetTable, before: seq<Step>, create: CreateRequest, after: seq<Step>)
    requires CreateVerdict(Exec(Start(assets), before), create) == Accepted
    ensures create.id in Exec(AfterCreate(Exec(Start(assets), before), create), after).sessions
    ensures var s := Exec(AfterCreate(Exec(Start(assets), before), create), after).sessions[create.id];
            && s.protocol == (if create.def.protocol == "" then "NitroRPC/0.2" else create.def.protocol)
            && s.participants == create.def.participants
            && |s.weights| == |create.def.weights|
            && (forall i :: 0 <= i < |s.weights| && create.def.weights[i] < 0x8000_0000_0000_0000 ==>
                  s.weights[i] == create.def.weights[i])
            && s.quorum == (if create.def.quorum == 0 then 100 else create.def.quorum)
            && s.challenge == create.def.challenge
            && s.nonce == (if create.def.nonce == 0 then create.timestamp else create.def.nonce)
            && s.version == (if create.timestamp == 0 then 1 else create.timestamp)
            && (s.status == Open || s.status == Closed)
  {
    RecordKept(AfterCreate(Exec(Start(assets), before), create), after, create.id);
  }

  /** And reading the definition back gives the definition, with the same defaults. */
  lemma {:induction false} DefinitionReadBack(
      assets: AssetTable, before: seq<Step>, create: CreateRequest, after: seq<Step>)
    requires CreateVerdict(Exec(Start(assets), before), create) == Accepted
    ensures var read := GetAppDefinition(Exec(AfterCreate(Exec(Start(assets), before), create), after), create.id);
            && read.Some?
            && read.value.protocol == (if create.def.protocol == "" then "NitroRPC/0.2" else create.def.protocol)
            && read.value.participants == create.def.participants && read.value.weights == create.def.weights
            && read.value.quorum == (if create.def.quorum == 0 then 100 else create.def.quorum)
            && read.value.challenge == create.def.challenge
            && read.value.nonce == (if create.def.nonce == 0 then create.timestamp else create.def.nonce)
            && (create.def.protocol != "" && create.def.quorum != 0 && create.def.nonce != 0 ==>
                  read == Some(create.def))
  {
    RecordKept(AfterCreate(Exec(Start(assets), before), create), after, create.id);
    WeightsReadBack(create.def.weights);
  }

  // ----- No close without its quorum -----

  lemma PositiveKept(w: U64)
    ensures FitsInteger(Wrap64(w)) && Wrap64(w) > 0 ==> Wrap64(w) == w
  {
    WrapShift(w);
  }

  /** A stored weight that counts at all is the weight of the definition: the conversion to int64 kept it. */
  lemma {:induction false} WeightsAgree(
      participants: seq<Address>, weights: seq<U64>, stored: seq<int>, signers: seq<Option<Address>>, n: nat)
    requires n <= |participants| == |weights| == |stored| && Verdicts.Distinct(participants)
    requires forall i :: 0 <= i < |stored| ==> stored[i] == Wrap64(weights[i]) && FitsInteger(stored[i])
    requires forall i :: 0 <= i < |signers| && signers[i].Some? ==>
               ListedWithWeight(participants, stored, signers[i].value)
    ensures PlainWeight(participants, stored, signers, n) == PlainWeight(participants, weights, signers, n)
  {
    if n > 0 {
      WeightsAgree(participants, weights, stored, signers, n - 1);
      if SignedFor(signers, participants[n - 1]) {
        var i :| 0 <= i < |signers| && signers[i].Some? && Lower(signers[i].value) == Lower(participants[n - 1]);
        var k :| 0 <= k < |participants| && Lower(participants[k]) == Lower(signers[i].value) && stored[k] > 0;
        assert k == n - 1;
        PositiveKept(weights[n - 1]);
      }
    }
  }

  lemma WeightListed(participants: seq<Address>, weights: seq<U64>, stored: seq<int>, p: Address)
    requires |participants| == |weights| == |stored| && ListedWithWeight(participants, stored, p)
    requires forall i :: 0 <= i < |stored| ==> stored[i] == Wrap64(weights[i]) && FitsInteger(stored[i])
    ensures ListedWithWeight(participants, weights, p)
  {
    var k :| 0 <= k < |participants| && Lower(participants[k]) == Lower(p) && stored[k] > 0;
    PositiveKept(weights[k]);
  }

  lemma QuorumReached(def: Definition, s: StoredSession, signers: seq<Option<Address>>)
    requires |def.participants| == |def.weights| < 0x1_0000_0000 && Verdicts.Distinct(def.participants)
    requires s.participants == def.participants && s.weights == Map<int, int>(def.weights, Wrap64)
    requires QuorumVerdict(s, signers) == Accepted
    ensures forall i :: 0 <= i < |signers| ==> signers[i].Some?
    ensures forall i, j :: 0 <= i < j < |signers| ==> Lower(signers[i].value) != Lower(signers[j].value)
    ensures forall i :: 0 <= i < |signers| ==> ListedWithWeight(def.participants, def.weights, signers[i].value)
    ensures PlainWeight(def.participants, def.weights, signers, |def.participants|) >= s.quorum
  {
    QuorumDistinctIff(s, signers);
    assert forall i :: 0 <= i < |s.weights| ==> s.weights[i] in s.weights;
    WeightsAgree(def.participants, def.weights, s.weights, signers, |def.participants|);
    forall i | 0 <= i < |signers| {
      WeightListed(def.participants, def.weights, s.weights, signers[i].value);
    }
  }

  lemma ClosersDistinct(st: State, close: CloseRequest)
    requires CloseVerdict(st, close) == Accepted
    ensures Verdicts.Distinct(st.sessions[close.id].participants)
  {
    var participants := st.sessions[close.id].participants;
    AcceptedCloseIsBijection(st, close);
    assert forall i :: 0 <= i < |participants| ==> Map(participants, Lower)[i] == Lower(participants[i]);
  }

  /**
   * No session closes without its quorum: over any run from its creation, an accepted close carries
   * signatures of different participants, each with a positive weight in the definition, and the weights
   * that the definition lists at the places of those who signed add up to its quorum.
   */
  lemma {:induction false} CloseNeedsQuorum(
      assets: AssetTable, before: seq<Step>, create: CreateRequest, between: seq<Step>, close: CloseRequest)
    requires create.id == close.id && |create.def.participants| < 0x1_0000_0000
    requires CreateVerdict(Exec(Start(assets), before), create) == Accepted
    requires CloseVerdict(Exec(AfterCreate(Exec(Start(assets), before), create), between), close) == Accepted
    ensures forall i :: 0 <= i < |close.signers| ==> close.signers[i].Some?
    ensures forall i, j :: 0 <= i < j < |close.signers| ==>
              Lower(close.signers[i].value) != Lower(close.signers[j].value)
    ensures forall i :: 0 <= i < |close.signers| ==>
              ListedWithWeight(create.def.participants, create.def.weights, close.signers[i].value)
    ensures PlainWeight(create.def.participants, create.def.weights, close.signers, |create.def.participants|)
            >= if create.def.quorum == 0 then 100 else create.def.quorum
  {
    var st := Exec(AfterCreate(Exec(Start(assets), before), create), between);
    RecordHoldsRequest(assets, before, create, between);
    RecordKept(AfterCreate(Exec(Start(assets), before), create), between, create.id);
    ClosersDistinct(st, close);
    QuorumReached(create.def, st.sessions[create.id], close.signers);
  }

  // ----- Create and close cancel -----

  /** What a close with the session's own rows takes out beyond them: payments to a participant of its name. */
  function Stray(rows: seq<Entry>, id: Account, allocs: seq<Allocation>, k: Key): int {
    if k == UnifiedKey(id, k.asset) && NamesFor(allocs, id, k.asset) then Balance(rows, k) else 0
  }

  /** At the session key of a row, the close takes out what the create put in. */
  lemma NamedCancel(rows: seq<Entry>, id: Account, allocs: seq<Allocation>, i: nat)
    requires i < |allocs| && NoDup(Map(allocs, RowName)) && NoneForItself(id, allocs)
    requires allocs[i].participant != id ==>
               Balance(rows, SessionKey(id, allocs[i].participant, allocs[i].asset))
                 == Requested(allocs, allocs[i].participant, allocs[i].asset)
    ensures var k := SessionKey(id, allocs[i].participant, allocs[i].asset);
            Balance(CreateRows(id, allocs), k) + Balance(CloseRows(rows, id, allocs), k) == -Stray(rows, id, allocs, k)
  {
    var p, a := allocs[i].participant, allocs[i].asset;
    assert allocs[i] in allocs;
    CloseRowsSettle(rows, id, allocs, i);
    BalanceAfterCreateRows(id, allocs, p, a);
    if p == id {
      SumZero(allocs, AmountFor(id, a));
    }
  }

  /** At any other key, the unified ones among them, it pays back what the create took. */
  lemma UnnamedCancel(rows: seq<Entry>, id: Account, allocs: seq<Allocation>, k: Key)
    requires forall al :: al in allocs ==> SessionKey(id, al.participant, al.asset) != k
    ensures Balance(CreateRows(id, allocs), k) + Balance(CloseRows(rows, id, allocs), k) == 0
  {
    BalanceOfCreateRows(id, allocs, k);
    BalanceOfCloseRows(rows, id, allocs, k);
    var both := (al: Allocation) => CreateEffect(id, k)(al) + CloseEffect(rows, id, k)(al);
    SumPlus(allocs, CreateEffect(id, k), CloseEffect(rows, id, k), both);
    SumZero(allocs, both);
  }

  lemma EffectsCancel(rows: seq<Entry>, id: Account, allocs: seq<Allocation>, k: Key)
    requires NoDup(Map(allocs, RowName)) && NoneForItself(id, allocs)
    requires forall al :: al in allocs && al.participant != id ==>
               Balance(rows, SessionKey(id, al.participant, al.asset)) == Requested(allocs, al.participant, al.asset)
    ensures Balance(CreateRows(id, allocs), k) + Balance(CloseRows(rows, id, allocs), k) == -Stray(rows, id, allocs, k)
  {
    if i: nat :| i < |allocs| && SessionKey(id, allocs[i].participant, allocs[i].asset) == k {
      assert allocs[i] in allocs;
      NamedCancel(rows, id, allocs, i);
    } else {
      forall al | al in allocs ensures SessionKey(id, al.participant, al.asset) != k {
        var i :| 0 <= i < |allocs| && allocs[i] == al;
      }
      UnnamedCancel(rows, id, allocs, k);
    }
  }

  /**
   * A session created with some rows and closed with the same rows leaves no trace: whatever ran
   * between, what the two steps wrote sums to zero at every account, participant and asset, but for
   * what others had paid to a participant spelled like the session.
   */
  lemma RoundTrip(
      assets: AssetTable, before: seq<Step>, create: CreateRequest, between: seq<Step>, close: CloseRequest, k: Key)
    requires create.id == close.id && create.allocs == close.allocs
    requires CreateVerdict(Exec(Start(assets), before), create) == Accepted
    requires CloseVerdict(Exec(AfterCreate(Exec(Start(assets), before), create), between), close) == Accepted
    ensures var st := Exec(AfterCreate(Exec(Start(assets), before), create), between);
            Balance(CreateRows(create.id, create.allocs), k) + Balance(CloseRows(st.rows, close.id, close.allocs), k)
              == -Stray(st.rows, close.id, close.allocs, k)
  {
    var st := Exec(AfterCreate(Exec(Start(assets), before), create), between);
    AuthorizedNoneForItself(create.id, create.allocs, create.signers);
    forall al | al in create.allocs && al.participant != create.id
      ensures Balance(st.rows, SessionKey(create.id, al.participant, al.asset))
              == Requested(create.allocs, al.participant, al.asset)
    {
      OpenSessionHolds(assets, before, create, between, al.participant, al.asset);
    }
    EffectsCancel(st.rows, create.id, create.allocs, k);
  }

  /** One row for each participant, spelled as in the definition, no two participants the same address. */
  predicate OneRowEach(def: Definition, allocs: seq<Allocation>) {
    NoDup(Map(def.participants, Lower)) && multiset(Map(allocs, ParticipantOf)) == multiset(def.participants)
  }

  lemma NamesOfParticipants(allocs: seq<Allocation>)
    ensures Map(Map(allocs, ParticipantOf), Lower) == Map(allocs, RowName)
  {
  }

  lemma SameRowsListed(def: Definition, weights: seq<int>, allocs: seq<Allocation>)
    requires OneRowEach(def, allocs) && |weights| == |def.participants|
    ensures RowsListed(WeightMap(def.participants, weights), allocs) && |allocs| == |def.participants|
  {
    NamesOfParticipants(allocs);
    MapPermutation(Map(allocs, ParticipantOf), def.participants, Lower);
    CloseBijection(def.participants, weights, allocs);
  }

  lemma SameRowsRedistributed(rows: seq<Entry>, id: Account, def: Definition, allocs: seq<Allocation>)
    requires OneRowEach(def, allocs) && NoDup(Map(allocs, RowName))
    requires forall p, a :: p in def.participants ==> Balance(rows, SessionKey(id, p, a)) == Requested(allocs, p, a)
    ensures Redistributed(rows, id, def.participants, allocs)
  {
    forall a | a in Named(allocs) ensures SessionTotal(rows, id, def.participants, a) == Sum(allocs, AmountIn(a)) {
      var held := HeldBy(rows, id, a);
      SumPermutation(Map(allocs, ParticipantOf), def.participants, held);
      SameMembers(Map(allocs, ParticipantOf), def.participants);
      forall i | 0 <= i < |allocs| ensures AmountIn(a)(allocs[i]) == held(allocs[i].participant) {
        assert Map(allocs, ParticipantOf)[i] in def.participants;
        forall j | 0 <= j < |allocs| && j != i ensures allocs[j].participant != allocs[i].participant {
          NamesSeparateRows(allocs, i, j);
        }
        SumSingle(allocs, i, AmountFor(allocs[i].participant, a));
      }
      SumMap(allocs, Map(allocs, ParticipantOf), AmountIn(a), held);
    }
  }

  /** Such a session, as long as it is open, can always be closed with its own rows by a quorum. */
  lemma {:induction false} OwnRowsAccepted(
      assets: AssetTable, before: seq<Step>, create: CreateRequest, between: seq<Step>, close: CloseRequest)
    requires create.id == close.id && create.allocs == close.allocs
    requires CreateVerdict(Exec(Start(assets), before), create) == Accepted
    requires OneRowEach(create.def, create.allocs) && RowsComplete(create.allocs)
    requires create.id !in create.def.participants
    requires var st := Exec(AfterCreate(Exec(Start(assets), before), create), between);
             IsOpen(st, create.id) && QuorumVerdict(st.sessions[create.id], close.signers) == Accepted
    ensures CloseVerdict(Exec(AfterCreate(Exec(Start(assets), before), create), between), close) == Accepted
  {
    var st := Exec(AfterCreate(Exec(Start(assets), before), create), between);
    forall p, a | p in create.def.participants
      ensures Balance(st.rows, SessionKey(create.id, p, a)) == Requested(create.allocs, p, a)
    {
      OpenSessionHolds(assets, before, create, between, p, a);
    }
    OpenSessionHolds(assets, before, create, between, "", "");
    SameRowsListed(create.def, st.sessions[create.id].weights, create.allocs);
    SameRowsRedistributed(st.rows, create.id, create.def, create.allocs);
  }

  // ----- No account below zero -----

  ghost predicate NonNegative(st: State) {
    forall k :: Balance(st.rows, k) >= 0
  }

  /** The one thing a step may draw below zero: a unified balance that a chain event debits. */
  predicate Covered(st: State, step: Step) {
    && step.Chain? && step.ev.cid in st.channels
    && GetAssetByToken(st.assets, st.channels[step.ev.cid].token, step.on.chain).Some? ==>
      var c := st.channels[step.ev.cid];
      var asset := GetAssetByToken(st.assets, c.token, step.on.chain).value;
      var balance := Balance(st.rows, UnifiedKey(c.participant, asset.symbol));
      match step.ev
      case ChannelResized(_, deltas) => FitsBigint(ResizedAmount(c, deltas)) ==> balance + deltas[0] * Scale(asset) >= 0
      case ChannelClosed(_) => balance >= c.amount * Scale(asset)
      case _ => true
  }

  lemma FundedStaysNonNegative(rows: seq<Entry>, id: Account, allocs: seq<Allocation>, k: Key)
    requires NoneForItself(id, allocs)
    requires Balance(rows, k) >= 0 && Funded(rows, allocs) && forall al :: al in allocs ==> al.amount >= 0
    ensures Balance(rows + CreateRows(id, allocs), k) >= 0
  {
    var p, a := k.participant, k.asset;
    BalanceAppend(rows, CreateRows(id, allocs), k);
    if k == UnifiedKey(p, a) {
      BalanceAfterCreateRows(id, allocs, p, a);
      if i :| 0 <= i < |allocs| && allocs[i].participant == p && allocs[i].asset == a {
        assert allocs[i] in allocs;
      } else {
        SumZero(allocs, AmountFor(p, a));
      }
    } else {
      BalanceOfCreateRows(id, allocs, k);
      SumNonNegative(allocs, CreateEffect(id, k));
    }
  }

  lemma CreateNonNegative(st: State, req: CreateRequest, k: Key)
    requires Balance(st.rows, k) >= 0 && CreateVerdict(st, req) == Accepted
    ensures Balance(AfterCreate(st, req).rows, k) >= 0
  {
    AuthorizedNoneForItself(req.id, req.allocs, req.signers);
    FundedStaysNonNegative(st.rows, req.id, req.allocs, k);
  }

  lemma SettledStaysNonNegative(rows: seq<Entry>, id: Account, allocs: seq<Allocation>, k: Key)
    requires Balance(rows, k) >= 0 && NoDup(Map(allocs, RowName)) && forall al :: al in allocs ==> al.amount >= 0
    ensures Balance(rows + CloseRows(rows, id, allocs), k) >= 0
  {
    BalanceAppend(rows, CloseRows(rows, id, allocs), k);
    if i: nat :| i < |allocs| && SessionKey(id, allocs[i].participant, allocs[i].asset) == k {
      CloseRowsSettle(rows, id, allocs, i);
    } else {
      var f := CloseEffect(rows, id, k);
      BalanceOfCloseRows(rows, id, allocs, k);
      forall i | 0 <= i < |allocs| ensures f(allocs[i]) >= 0 {
        assert allocs[i] in allocs;
      }
      SumNonNegative(allocs, f);
    }
  }

  lemma CloseNonNegative(st: State, req: CloseRequest, k: Key)
    requires Balance(st.rows, k) >= 0 && CloseVerdict(st, req) == Accepted
    ensures Balance(AfterClose(st, req).rows, k) >= 0
  {
    SettledStaysNonNegative(st.rows, req.id, req.allocs, k);
  }

  lemma WriteNonNegative(rows: seq<Entry>, at: Key, amount: int)
    requires forall k :: Balance(rows, k) >= 0
    ensures (forall k :: Balance(rows + RecordRows(at, amount), k) >= 0) <==> Balance(rows, at) + amount >= 0
  {
    forall k ensures Balance(rows + RecordRows(at, amount), k) == Balance(rows, k) + if at == k then amount else 0 {
      BalanceAppend(rows, RecordRows(at, amount), k);
      BalanceOfRecord(at, amount, k);
    }
  }

  /** The ledger write of an event: its key and amount, a zero amount when it writes nothing. */
  function EventWrite(st: State, on: Contract, ev: Event): RecordCall {
    if ev.ChannelCreated? || ev.cid !in st.channels then RecordCall(UnifiedKey("", ""), 0)
    else
      var c := st.channels[ev.cid];
      match GetAssetByToken(st.assets, c.token, on.chain)
      case None => RecordCall(UnifiedKey(c.participant, ""), 0)
      case Some(asset) =>
        var amount := match ev
          case ChannelResized(_, deltas) => if FitsBigint(ResizedAmount(c, deltas)) then deltas[0] * Scale(asset) else 0
          case ChannelClosed(_) => -(c.amount * Scale(asset))
          case _ => c.amount * Scale(asset);
        RecordCall(UnifiedKey(c.participant, asset.symbol), amount)
  }

  lemma EventRecords(st: State, on: Contract, ev: Event)
    ensures var w := EventWrite(st, on, ev);
            AfterEvent(st, on, ev).rows == st.rows + RecordRows(w.key, w.amount)
  {
  }

  lemma EventMoves(st: State, on: Contract, ev: Event, k: Key)
    ensures var w := EventWrite(st, on, ev);
            Balance(AfterEvent(st, on, ev).rows, k) == Balance(st.rows, k) + if w.key == k then w.amount else 0
  {
    var w := EventWrite(st, on, ev);
    EventRecords(st, on, ev);
    BalanceAppend(st.rows, RecordRows(w.key, w.amount), k);
    BalanceOfRecord(w.key, w.amount, k);
  }

  lemma ProductSign(x: int, s: int)
    requires s >= 1
    ensures x >= 0 ==> x * s >= 0
  {
  }

  lemma CoveredByWrite(st: State, on: Contract, ev: Event)
    requires NonNegative(st)
    ensures var w := EventWrite(st, on, ev);
            Balance(st.rows, w.key) + w.amount >= 0 <==> Covered(st, Chain(on, ev))
  {
    if ev.cid in st.channels {
      var c := st.channels[ev.cid];
      var asset := GetAssetByToken(st.assets, c.token, on.chain);
      if asset.Some? {
        ProductSign(c.amount, Scale(asset.value));
      }
    }
  }

  lemma EventNonNegative(st: State, on: Contract, ev: Event)
    requires NonNegative(st)
    ensures NonNegative(AfterEvent(st, on, ev)) <==> Covered(st, Chain(on, ev))
  {
    var w := EventWrite(st, on, ev);
    EventRecords(st, on, ev);
    CoveredByWrite(st, on, ev);
    WriteNonNegative(st.rows, w.key, w.amount);
  }

  /** A step keeps every account at or above zero exactly when the balance it debits covers the debit. */
  lemma NonNegativeStep(st: State, step: Step)
    requires NonNegative(st)
    ensures NonNegative(Apply(st, step)) <==> Covered(st, step)
  {
    match step
    case Create(req) =>
      if CreateVerdict(st, req) == Accepted {
        forall k { CreateNonNegative(st, req, k); }
      }
    case Close(req) =>
      if CloseVerdict(st, req) == Accepted {
        forall k { CloseNonNegative(st, req, k); }
      }
    case Chain(on, ev) => EventNonNegative(st, on, ev);
  }

  predicate AllCovered(st: State, steps: seq<Step>) {
    steps == [] ||
      (AllCovered(st, steps[..|steps| - 1]) && Covered(Exec(st, steps[..|steps| - 1]), steps[|steps| - 1]))
  }

  /** No account below zero now, nor at any earlier point of the run. */
  ghost predicate AlwaysNonNegative(st: State, steps: seq<Step>) {
    NonNegative(Exec(st, steps)) && (steps == [] || AlwaysNonNegative(st, steps[..|steps| - 1]))
  }

  /** A run from the empty database never goes below zero exactly when each of its steps is covered. */
  lemma {:induction false} NonNegativeRun(assets: AssetTable, steps: seq<Step>)
    ensures AllCovered(Start(assets), steps) <==> AlwaysNonNegative(Start(assets), steps)
  {
    if steps != [] {
      var n := |steps| - 1;
      NonNegativeRun(assets, steps[..n]);
      if AlwaysNonNegative(Start(assets), steps[..n]) {
        NonNegativeStep(Exec(Start(assets), steps[..n]), steps[n]);
      }
    }
  }

  /** Requests, Created and Joined events, and resizes that withdraw nothing. */
  predicate NeverDebits(step: Step) {
    step.Chain? ==>
      !step.ev.ChannelClosed? && (step.ev.ChannelResized? ==> step.ev.deltas[0] >= 0)
  }

  /** No run of such steps ever takes a unified or a session balance below zero. */
  lemma {:induction false} NothingGoesNegative(assets: AssetTable, steps: seq<Step>)
    requires forall i :: 0 <= i < |steps| ==> NeverDebits(steps[i])
    ensures NonNegative(Exec(Start(assets), steps))
  {
    if steps != [] {
      var n := |steps| - 1;
      var st := Exec(Start(assets), steps[..n]);
      NothingGoesNegative(assets, steps[..n]);
      NonNegativeStep(st, steps[n]);
    }
  }

  // ----- Nobody's funds move unasked -----

  /** Who can lower a balance: the owner's signature, the owner's channel, or the quorum of the session. */
  predicate MayLower(st: State, step: Step, k: Key) {
    match step
    case Create(req) =>
      CreateVerdict(st, req) == Accepted && k.account == k.participant && HasSigned(req.signers, k.participant)
    case Close(req) =>
      CloseVerdict(st, req) == Accepted && k.account == req.id && NamesFor(req.allocs, k.participant, k.asset)
    case Chain(_, ev) =>
      && k.account == k.participant
      && ev.cid in st.channels && st.channels[ev.cid].participant == k.participant
      && (ev.ChannelClosed? || (ev.ChannelResized? && ev.deltas[0] < 0))
  }

  lemma CreateLowersSigned(st: State, req: CreateRequest, k: Key)
    requires CreateVerdict(st, req) == Accepted && !MayLower(st, Create(req), k)
    ensures Balance(AfterCreate(st, req).rows, k) >= Balance(st.rows, k)
  {
    var f := CreateEffect(req.id, k);
    BalanceAppend(st.rows, CreateRows(req.id, req.allocs), k);
    BalanceOfCreateRows(req.id, req.allocs, k);
    forall al | al in req.allocs ensures f(al) >= 0 {
      assert UnifiedKey(al.participant, al.asset) == k && al.amount > 0 ==> HasSigned(req.signers, al.participant);
    }
    SumNonNegative(req.allocs, f);
  }

  lemma CloseLowersNamed(st: State, req: CloseRequest, k: Key)
    requires CloseVerdict(st, req) == Accepted && !MayLower(st, Close(req), k)
    ensures Balance(AfterClose(st, req).rows, k) >= Balance(st.rows, k)
  {
    var f := CloseEffect(st.rows, req.id, k);
    BalanceAppend(st.rows, CloseRows(st.rows, req.id, req.allocs), k);
    BalanceOfCloseRows(st.rows, req.id, req.allocs, k);
    forall al | al in req.allocs ensures f(al) >= 0 {
      var i :| 0 <= i < |req.allocs| && req.allocs[i] == al;
      assert SessionKey(req.id, al.participant, al.asset) != k;
    }
    SumNonNegative(req.allocs, f);
  }

  /** An event debits only when it closes a channel or withdraws from it, and then the channel's participant. */
  lemma EventDebits(st: State, on: Contract, ev: Event)
    requires EventWrite(st, on, ev).amount < 0
    ensures ev.cid in st.channels && (ev.ChannelClosed? || (ev.ChannelResized? && ev.deltas[0] < 0))
    ensures EventWrite(st, on, ev).key == UnifiedKey(st.channels[ev.cid].participant, EventWrite(st, on, ev).key.asset)
  {
    var c := st.channels[ev.cid];
    var asset := GetAssetByToken(st.assets, c.token, on.chain).value;
    ProductSign(c.amount, Scale(asset));
    if ev.ChannelResized? {
      ProductSign(ev.deltas[0], Scale(asset));
    }
  }

  lemma EventLowersOwn(st: State, on: Contract, ev: Event, k: Key)
    requires !MayLower(st, Chain(on, ev), k)
    ensures Balance(AfterEvent(st, on, ev).rows, k) >= Balance(st.rows, k)
  {
    EventMoves(st, on, ev, k);
    if EventWrite(st, on, ev).amount < 0 {
      EventDebits(st, on, ev);
    }
  }

  /** Whatever step lowers a balance was asked for by those it belongs to. */
  lemma NothingMovesUnasked(st: State, step: Step, k: Key)
    ensures Balance(Apply(st, step).rows, k) < Balance(st.rows, k) ==> MayLower(st, step, k)
  {
    if !MayLower(st, step, k) {
      match step
      case Create(req) =>
        if CreateVerdict(st, req) == Accepted {
          CreateLowersSigned(st, req, k);
        }
      case Close(req) =>
        if CloseVerdict(st, req) == Accepted {
          CloseLowersNamed(st, req, k);
        }
      case Chain(on, ev) => EventLowersOwn(st, on, ev, k);
    }
  }

  // ----- Funds in sessions, and what a close does to them -----

  /** The unified account of an address: the one kind of account that a run can overdraw. */
  predicate IsAddressKey(k: Key) {
    k.account == k.participant && |k.account| == 42
  }

  /** In every run, Closed events and withdrawals included, no session balance is ever negative. */
  lemma {:induction false} SessionFundsNonNegative(assets: AssetTable, steps: seq<Step>, k: Key)
    requires !IsAddressKey(k)
    ensures Balance(Exec(Start(assets), steps).rows, k) >= 0
  {
    if steps != [] {
      var n := |steps| - 1;
      var st := Exec(Start(assets), steps[..n]);
      SessionFundsNonNegative(assets, steps[..n], k);
      match steps[n]
      case Create(req) =>
        if CreateVerdict(st, req) == Accepted {
          CreateNonNegative(st, req, k);
        }
      case Close(req) =>
        if CloseVerdict(st, req) == Accepted {
          CloseNonNegative(st, req, k);
        }
      case Chain(on, ev) => EventLowersOwn(st, on, ev, k);
    }
  }

  /** So in a reachable state a close without finds under other spellings conserves an asset iff none stays behind. */
  lemma {:induction false} ReachableCloseConservesIff(
      assets: AssetTable, steps: seq<Step>, req: CloseRequest, a: Symbol)
    requires CloseVerdict(Exec(Start(assets), steps), req) == Accepted && a in Named(req.allocs)
    requires var st := Exec(Start(assets), steps);
             NothingElsewhere(st.rows, req.id, st.sessions[req.id].participants, req.allocs, a)
    ensures var st := Exec(Start(assets), steps);
            Total(AfterClose(st, req).rows, a) == Total(st.rows, a) <==>
            NothingLeft(st.rows, req.id, st.sessions[req.id].participants, req.allocs, a)
  {
    var st := Exec(Start(assets), steps);
    forall p ensures Balance(st.rows, SessionKey(req.id, p, a)) >= 0 {
      SessionFundsNonNegative(assets, steps, SessionKey(req.id, p, a));
    }
    CloseConservesIff(st, req, a);
  }

  /** And one that leaves none behind burns some exactly when a row takes any under another spelling. */
  lemma {:induction false} ReachableCloseBurnsIff(assets: AssetTable, steps: seq<Step>, req: CloseRequest, a: Symbol)
    requires CloseVerdict(Exec(Start(assets), steps), req) == Accepted && a in Named(req.allocs)
    requires var st := Exec(Start(assets), steps);
             NothingLeft(st.rows, req.id, st.sessions[req.id].participants, req.allocs, a)
    ensures var st := Exec(Start(assets), steps);
            Total(AfterClose(st, req).rows, a) < Total(st.rows, a) <==>
            !NothingElsewhere(st.rows, req.id, st.sessions[req.id].participants, req.allocs, a)
  {
    var st := Exec(Start(assets), steps);
    forall p ensures Balance(st.rows, SessionKey(req.id, p, a)) >= 0 {
      SessionFundsNonNegative(assets, steps, SessionKey(req.id, p, a));
    }
    CloseBurnsIff(st, req, a);
  }

  /** What the create allocated of `a` to a listed participant whom no row of the close names in it. */
  function ForgottenBy(create: CreateRequest, close: CloseRequest, a: Symbol): Address -> int {
    (p: Address) => if NamesFor(close.allocs, p, a) then 0 else Requested(create.allocs, p, a)
  }

  /** What the create allocated of `a` under the unlisted spelling that a row of the close uses. */
  function UnlistedIn(create: CreateRequest, a: Symbol): Allocation -> int {
    (al: Allocation) =>
      if al.asset == a && al.participant !in create.def.participants then Requested(create.allocs, al.participant, a)
      else 0
  }

  /** The definition does not list the session, whose id is its own hash. */
  predicate NotItsOwn(create: CreateRequest) {
    Lower(create.id) !in Map(create.def.participants, Lower)
  }

  lemma ClosersAreNotTheSession(create: CreateRequest, st: State, close: CloseRequest)
    requires NotItsOwn(create) && close.id == create.id && CloseVerdict(st, close) == Accepted
    requires st.sessions[close.id].participants == create.def.participants
    ensures forall p :: p in create.def.participants ==> p != create.id
    ensures forall al :: al in close.allocs ==> al.participant != create.id
  {
    var listed := Map(create.def.participants, Lower);
    AcceptedCloseIsBijection(st, close);
    SameMembers(Map(close.allocs, RowName), listed);
    forall p | p in create.def.participants ensures p != create.id {
      var i :| 0 <= i < |create.def.participants| && create.def.participants[i] == p;
      assert listed[i] in listed;
    }
    forall al | al in close.allocs ensures al.participant != create.id {
      var i :| 0 <= i < |close.allocs| && close.allocs[i] == al;
      assert Map(close.allocs, RowName)[i] in listed;
    }
  }

  lemma SumsByRequests(rows: seq<Entry>, create: CreateRequest, close: CloseRequest, a: Symbol)
    requires forall p :: p in create.def.participants ==> p != create.id
    requires forall al :: al in close.allocs ==> al.participant != create.id
    requires forall p :: p != create.id ==> Balance(rows, SessionKey(create.id, p, a)) == Requested(create.allocs, p, a)
    ensures Sum(create.def.participants, LeftBehind(rows, create.id, close.allocs, a))
            == Sum(create.def.participants, ForgottenBy(create, close, a))
    ensures Sum(close.allocs, TakenElsewhere(rows, create.id, create.def.participants, a))
            == Sum(close.allocs, UnlistedIn(create, a))
  {
    var participants := create.def.participants;
    SumExt(participants, LeftBehind(rows, create.id, close.allocs, a), ForgottenBy(create, close, a));
    SumExt(close.allocs, TakenElsewhere(rows, create.id, participants, a), UnlistedIn(create, a));
  }

  /**
   * From the two requests alone, whatever ran between them: the close conserves an asset exactly when the
   * allocations it forgets under listed spellings equal those it takes out under unlisted ones.
   */
  lemma {:induction false} CreateCloseConservesIff(
      assets: AssetTable, before: seq<Step>, create: CreateRequest, between: seq<Step>, close: CloseRequest, a: Symbol)
    requires create.id == close.id && NotItsOwn(create)
    requires CreateVerdict(Exec(Start(assets), before), create) == Accepted
    requires CloseVerdict(Exec(AfterCreate(Exec(Start(assets), before), create), between), close) == Accepted
    requires a in Named(close.allocs)
    ensures var st := Exec(AfterCreate(Exec(Start(assets), before), create), between);
            Total(AfterClose(st, close).rows, a) == Total(st.rows, a) <==>
            Sum(create.def.participants, ForgottenBy(create, close, a)) == Sum(close.allocs, UnlistedIn(create, a))
  {
    var st := Exec(AfterCreate(Exec(Start(assets), before), create), between);
    forall p | p != create.id
      ensures Balance(st.rows, SessionKey(create.id, p, a)) == Requested(create.allocs, p, a)
    {
      OpenSessionHolds(assets, before, create, between, p, a);
    }
    assert st.sessions[create.id] == NewSession(create) by {
      OpenSessionHolds(assets, before, create, between, create.id, a);
    }
    ClosersAreNotTheSession(create, st, close);
    SumsByRequests(st.rows, create, close, a);
    CloseEvenIff(st, close, a);
  }

  /** Every allocation of the create is spelled as the definition lists its participant. */
  predicate AllocatedAsListed(create: CreateRequest) {
    forall al :: al in create.allocs && al.amount > 0 ==> al.participant in create.def.participants
  }

  lemma RequestedNonNegative(create: CreateRequest, p: Address, a: Symbol)
    requires RowsAuthorized(create.allocs, create.signers)
    ensures Requested(create.allocs, p, a) >= 0
    ensures AllocatedAsListed(create) && p !in create.def.participants ==> Requested(create.allocs, p, a) == 0
  {
    SumNonNegative(create.allocs, AmountFor(p, a));
  }

  lemma NothingForgottenIff(create: CreateRequest, close: CloseRequest, a: Symbol)
    requires AllocatedAsListed(create) && RowsAuthorized(create.allocs, create.signers)
    ensures Sum(create.def.participants, ForgottenBy(create, close, a)) == Sum(close.allocs, UnlistedIn(create, a)) <==>
            forall p :: p in create.def.participants && Requested(create.allocs, p, a) > 0 ==>
              NamesFor(close.allocs, p, a)
  {
    forall p { RequestedNonNegative(create, p, a); }
    SumNonNegative(create.def.participants, ForgottenBy(create, close, a));
    SumNonNegative(close.allocs, UnlistedIn(create, a));
  }

  /** With such a create: exactly when each participant who got any of the asset has a row naming it, as listed. */
  lemma {:induction false} ListedCloseConservesIff(
      assets: AssetTable, before: seq<Step>, create: CreateRequest, between: seq<Step>, close: CloseRequest, a: Symbol)
    requires create.id == close.id && NotItsOwn(create) && AllocatedAsListed(create)
    requires CreateVerdict(Exec(Start(assets), before), create) == Accepted
    requires CloseVerdict(Exec(AfterCreate(Exec(Start(assets), before), create), between), close) == Accepted
    requires a in Named(close.allocs)
    ensures var st := Exec(AfterCreate(Exec(Start(assets), before), create), between);
            Total(AfterClose(st, close).rows, a) == Total(st.rows, a) <==>
            forall p :: p in create.def.participants && Requested(create.allocs, p, a) > 0 ==>
              NamesFor(close.allocs, p, a)
  {
    CreateCloseConservesIff(assets, before, create, between, close, a);
    NothingForgottenIff(create, close, a);
  }
}
