/** Whole runs of the broker: any interleaving of session requests and chain events. */
module Runs {
  import opened Types
  import opened Sums
  import opened Ledger
  import opened Tables
  import opened AppSessions
  import opened Custody

  datatype Step = Create(creation: CreateRequest) | Close(closing: CloseRequest) | Chain(on: Contract, ev: Event)

  function Apply(st: State, step: Step): State {
    match step
    case Create(req) => AfterCreate(st, req)
    case Close(req) => AfterClose(st, req)
    case Chain(on, ev) => AfterEvent(st, on, ev)
  }

  function Exec(st: State, steps: seq<Step>): State {
    if steps == [] then st else Apply(Exec(st, steps[..|steps| - 1]), steps[|steps| - 1])
  }

  /** The database before anything happened. */
  function Start(assets: AssetTable): State {
    State([], map[], map[], assets)
  }

  lemma {:induction false} AssetsStay(st: State, steps: seq<Step>)
    ensures Exec(st, steps).assets == st.assets
  {
    if steps != [] {
      AssetsStay(st, steps[..|steps| - 1]);
    }
  }

  // ----- The order in which chain events arrive -----

  /** Where a channel stands in the stream of chain events, and on which chain. */
  datatype Life = Absent | Pending(chain: ChainId) | Live(chain: ChainId) | Done(chain: ChainId)

  /** Created, then Joined, then any number of Resized, then Closed, all from one chain. */
  predicate Follows(l: Life, chain: ChainId, ev: Event) {
    match ev
    case ChannelCreated(_, _, _, _, _, _) => l == Absent
    case ChannelJoined(_) => l == Pending(chain)
    case ChannelResized(_, _) => l == Live(chain)
    case ChannelClosed(_) => l == Live(chain)
  }

  function LifeAfter(l: Life, chain: ChainId, ev: Event): Life {
    match ev
    case ChannelCreated(_, _, _, _, _, _) => Pending(chain)
    case ChannelJoined(_) => Live(chain)
    case ChannelResized(_, _) => l
    case ChannelClosed(_) => Done(chain)
  }

  function LifeOf(steps: seq<Step>, cid: ChannelId): Life {
    if steps == [] then Absent
    else
      var before := LifeOf(steps[..|steps| - 1], cid);
      match steps[|steps| - 1]
      case Chain(on, ev) => if ev.cid == cid then LifeAfter(before, on.chain, ev) else before
      case _ => before
  }

  /** A resize never takes a channel below zero or past what a BIGINT holds. */
  predicate AmountFits(st: State, ev: Event) {
    ev.ChannelResized? && ev.cid in st.channels ==>
      FitsBigint(st.channels[ev.cid].amount + Sum(ev.deltas, Identity))
  }

  /** The environment's part: events of each channel come in order, once, and amounts fit. */
  predicate WellOrdered(assets: AssetTable, steps: seq<Step>) {
    steps == [] ||
      var before := steps[..|steps| - 1];
      && WellOrdered(assets, before)
      && match steps[|steps| - 1]
         case Chain(on, ev) =>
           Follows(LifeOf(before, ev.cid), on.chain, ev) && AmountFits(Exec(Start(assets), before), ev)
         case _ => true
  }

  /** How the stored row of a channel reflects its life; without a registered asset it stays joining. */
  predicate Reflects(st: State, cid: ChannelId, l: Life) {
    if cid !in st.channels then true
    else
      var c := st.channels[cid];
      var registered := AssetOf(st.assets, c).Some?;
      match l
      case Absent => false
      case Pending(chain) => c.chainId == chain && c.status == Joining
      case Live(chain) => c.chainId == chain && c.status == (if registered then Open else Joining)
      case Done(chain) =>
        c.chainId == chain && c.status == (if registered then Closed else Joining) && (registered ==> c.amount == 0)
  }

  lemma EventReflects(st: State, on: Contract, ev: Event, l: Life)
    requires Reflects(st, ev.cid, l) && Follows(l, on.chain, ev)
    ensures Reflects(AfterEvent(st, on, ev), ev.cid, LifeAfter(l, on.chain, ev))
  {
  }

  /** In every reachable state the stored row says where in its life the channel is. */
  lemma {:induction false} LifeReflected(assets: AssetTable, steps: seq<Step>, cid: ChannelId)
    requires WellOrdered(assets, steps)
    ensures Reflects(Exec(Start(assets), steps), cid, LifeOf(steps, cid))
  {
    if steps != [] {
      var before, last := steps[..|steps| - 1], steps[|steps| - 1];
      var st := Exec(Start(assets), before);
      LifeReflected(assets, before, cid);
      if last.Chain? {
        if last.ev.cid == cid {
          EventReflects(st, last.on, last.ev, LifeOf(before, cid));
        } else {
          EventExtends(st, last.on, last.ev);
          EventFrame(st, last.on, last.ev, cid);
        }
      }
    }
  }

  lemma {:induction false} InTurnAlways(assets: AssetTable, steps: seq<Step>)
    requires WellOrdered(assets, steps) && steps != [] && steps[|steps| - 1].Chain?
    ensures var last := steps[|steps| - 1];
            InTurn(Exec(Start(assets), steps[..|steps| - 1]), last.on, last.ev)
  {
    LifeReflected(assets, steps[..|steps| - 1], steps[|steps| - 1].ev.cid);
  }

  /** In a well-ordered run a Resized event half applies exactly when it moves funds of an unregistered token. */
  lemma {:induction false} ResizeHalfAppliesInRunIff(assets: AssetTable, steps: seq<Step>)
    requires WellOrdered(assets, steps) && steps != []
    requires steps[|steps| - 1].Chain? && steps[|steps| - 1].ev.ChannelResized?
    ensures var st, last := Exec(Start(assets), steps[..|steps| - 1]), steps[|steps| - 1];
            HalfApplied(st, last.on, last.ev) <==>
            && last.ev.cid in st.channels && last.ev.deltas[0] != 0
            && AssetOf(assets, st.channels[last.ev.cid]) == None
  {
    var before, last := steps[..|steps| - 1], steps[|steps| - 1];
    InTurnAlways(assets, steps);
    AssetsStay(Start(assets), before);
    ResizeHalfAppliesIff(Exec(Start(assets), before), last.on, last.ev);
  }

  function Rank(s: Status): nat {
    match s case Joining => 0 case Open => 1 case Closed => 2
  }

  /** A stored channel is never dropped; its status stays or takes the next of joining, open, closed. */
  lemma {:induction false} StatusAdvances(assets: AssetTable, steps: seq<Step>, cid: ChannelId)
    requires WellOrdered(assets, steps) && steps != []
    requires cid in Exec(Start(assets), steps[..|steps| - 1]).channels
    ensures cid in Exec(Start(assets), steps).channels
    ensures var before := Rank(Exec(Start(assets), steps[..|steps| - 1]).channels[cid].status);
            before <= Rank(Exec(Start(assets), steps).channels[cid].status) <= before + 1
  {
    var st, last := Exec(Start(assets), steps[..|steps| - 1]), steps[|steps| - 1];
    if last.Chain? {
      if last.ev.cid == cid {
        InTurnAlways(assets, steps);
      } else {
        EventFrame(st, last.on, last.ev, cid);
      }
    }
  }

  /** Between any two points of a run the status never moves back, nor further than there are events between. */
  lemma {:induction false} StatusNeverMovesBack(assets: AssetTable, steps: seq<Step>, n: nat, cid: ChannelId)
    requires WellOrdered(assets, steps) && n <= |steps|
    requires cid in Exec(Start(assets), steps[..n]).channels
    ensures cid in Exec(Start(assets), steps).channels
    ensures var before := Rank(Exec(Start(assets), steps[..n]).channels[cid].status);
            before <= Rank(Exec(Start(assets), steps).channels[cid].status) <= before + (|steps| - n)
  {
    if n == |steps| {
      assert steps[..n] == steps;
    } else {
      var before := steps[..|steps| - 1];
      assert before[..n] == steps[..n];
      StatusNeverMovesBack(assets, before, n, cid);
      StatusAdvances(assets, steps, cid);
    }
  }

  // ----- Where a channel comes from -----

  /** No stored channel of the same participant, token and chain is open. */
  predicate NoneOpen(st: State, c: Channel) {
    forall d :: d in st.channels && st.channels[d].participant == c.participant && st.channels[d].token == c.token
                && st.channels[d].chainId == c.chainId ==>
      st.channels[d].status != Open
  }

  /** The event at `i` created the channel: with the broker, and while its participant had none open of the kind. */
  predicate CreatedAt(assets: AssetTable, steps: seq<Step>, i: nat, cid: ChannelId, c: Channel) {
    && i < |steps| && steps[i].Chain? && steps[i].ev.ChannelCreated? && steps[i].ev.cid == cid
    && var ev, on := steps[i].ev, steps[i].on;
       && |ev.participants| >= 2 && ev.participants[0] == c.participant && ev.participants[1] == on.broker
       && c.token == ev.token && c.chainId == on.chain && c.nonce == ev.nonce && c.adjudicator == ev.adjudicator
       && NoneOpen(Exec(Start(assets), steps[..i]), c)
  }

  /** What never changes about a channel once it is stored. */
  predicate SameTerms(c: Channel, d: Channel) {
    && c.participant == d.participant && c.token == d.token && c.chainId == d.chainId
    && c.nonce == d.nonce && c.adjudicator == d.adjudicator
  }

  lemma TermsStay(st: State, step: Step, cid: ChannelId)
    requires cid in Apply(st, step).channels
    requires cid in st.channels || !(step.Chain? && step.ev.ChannelCreated? && step.ev.cid == cid)
    ensures cid in st.channels && SameTerms(Apply(st, step).channels[cid], st.channels[cid])
  {
    if step.Chain? && step.ev.cid != cid {
      EventFrame(st, step.on, step.ev, cid);
    }
  }

  /** Every channel of every reachable state, in order or not, has such an origin. */
  lemma {:induction false} ChannelOrigin(assets: AssetTable, steps: seq<Step>, cid: ChannelId) returns (i: nat)
    requires cid in Exec(Start(assets), steps).channels
    ensures CreatedAt(assets, steps, i, cid, Exec(Start(assets), steps).channels[cid])
  {
    var n := |steps| - 1;
    var st := Exec(Start(assets), steps[..n]);
    if cid in st.channels || !(steps[n].Chain? && steps[n].ev.ChannelCreated? && steps[n].ev.cid == cid) {
      TermsStay(st, steps[n], cid);
      i := ChannelOrigin(assets, steps[..n], cid);
      assert steps[..n][..i] == steps[..i];
    } else {
      CreatedStoredIff(st, steps[n].on, steps[n].ev);
      i := n;
    }
  }

  /**
   * Once a channel is closed, the next Created event of its participant for the token and chain is
   * stored exactly when no other channel of the kind is open.
   */
  lemma NextCreatedStoredIff(assets: AssetTable, steps: seq<Step>, cid: ChannelId, on: Contract, ev: Event)
    requires WellOrdered(assets, steps) && LifeOf(steps, cid).Done? && cid in Exec(Start(assets), steps).channels
    requires ev.ChannelCreated? && |ev.participants| >= 2 && ev.participants[1] == on.broker
    requires ev.nonce < 0x8000_0000_0000_0000 && ev.amount < 0x8000_0000_0000_0000
    requires var st := Exec(Start(assets), steps);
             && ev.cid !in st.channels && st.channels[cid].participant == ev.participants[0]
             && st.channels[cid].token == ev.token && st.channels[cid].chainId == on.chain
    ensures var st := Exec(Start(assets), steps);
            ev.cid in Exec(Start(assets), steps + [Chain(on, ev)]).channels <==>
            forall d :: d in st.channels && d != cid && st.channels[d].participant == ev.participants[0]
                        && st.channels[d].token == ev.token && st.channels[d].chainId == on.chain ==>
              st.channels[d].status != Open
  {
    var st := Exec(Start(assets), steps);
    assert (steps + [Chain(on, ev)])[..|steps|] == steps;
    LifeReflected(assets, steps, cid);
    CreatedStoredIff(st, on, ev);
  }

  // ----- Solvency -----

  /** All later deltas of the run's Resized events in one symbol: what was allocated to channels, net. */
  function Allocated(st: State, steps: seq<Step>, a: Symbol): int {
    if steps == [] then 0
    else
      var before, last := steps[..|steps| - 1], steps[|steps| - 1];
      Allocated(st, before, a) + if last.Chain? then LaterDeltas(Exec(st, before), last.ev, a) else 0
  }

  /** All drift of the run's closes in one asset. */
  function Drifted(st: State, steps: seq<Step>, a: Symbol): int {
    if steps == [] then 0
    else
      var before, last := steps[..|steps| - 1], steps[|steps| - 1];
      Drifted(st, before, a) + if last.Close? then CloseDrift(Exec(st, before), last.closing, a) else 0
  }

  lemma GapOfSessionStep(st: State, step: Step, a: Symbol)
    requires !step.Chain?
    ensures Gap(Apply(st, step), a) == Gap(st, a) + if step.Close? then CloseDrift(st, step.closing, a) else 0
  {
    match step
    case Create(req) =>
      TotalAppend(st.rows, CreateRows(req.id, req.allocs), a);
      CreateConserves(req.id, req.allocs, a);
    case Close(req) =>
      CloseDriftExact(st, req, a);
  }

  /**
   * In every reachable state the ledger holds, of each symbol, exactly what the joined channels lock,
   * less what was allocated to them, plus what closes have drifted.
   */
  lemma {:induction false} Accounting(assets: AssetTable, steps: seq<Step>, a: Symbol)
    requires WellOrdered(assets, steps)
    ensures var st := Exec(Start(assets), steps);
            Total(st.rows, a)
              == ChannelValue(st, a) - Allocated(Start(assets), steps, a) + Drifted(Start(assets), steps, a)
  {
    if steps != [] {
      var before, last := steps[..|steps| - 1], steps[|steps| - 1];
      var st := Exec(Start(assets), before);
      Accounting(assets, before, a);
      if last.Chain? {
        InTurnAlways(assets, steps);
        EventKeepsGap(st, last.on, last.ev, a);
      } else {
        GapOfSessionStep(st, last, a);
      }
    }
  }

  /** Every close of the run is even in the asset: what it leaves behind is what it takes under other spellings. */
  predicate ClosesEven(st: State, steps: seq<Step>, a: Symbol) {
    steps == [] ||
      var before, last := steps[..|steps| - 1], steps[|steps| - 1];
      ClosesEven(st, before, a) && (last.Close? ==> Even(Exec(st, before), last.closing, a))
  }

  lemma {:induction false} EvenClosesDoNotDrift(st: State, steps: seq<Step>, a: Symbol)
    requires ClosesEven(st, steps, a)
    ensures Drifted(st, steps, a) == 0
  {
    if steps != [] {
      var before, last := steps[..|steps| - 1], steps[|steps| - 1];
      EvenClosesDoNotDrift(st, before, a);
      if last.Close? {
        CloseEvenIff(Exec(st, before), last.closing, a);
      }
    }
  }

  /** The ledger claims of the symbol exactly channel value less allocations. */
  ghost predicate Solvent(assets: AssetTable, steps: seq<Step>, a: Symbol) {
    var st := Exec(Start(assets), steps);
    Total(st.rows, a) == ChannelValue(st, a) - Allocated(Start(assets), steps, a)
  }

  /** Whole-run solvency: with closes that are even in the symbol, the books balance. */
  lemma Solvency(assets: AssetTable, steps: seq<Step>, a: Symbol)
    requires WellOrdered(assets, steps) && ClosesEven(Start(assets), steps, a)
    ensures Solvent(assets, steps, a)
  {
    Accounting(assets, steps, a);
    EvenClosesDoNotDrift(Start(assets), steps, a);
  }

  /** The books balance now and did at every earlier point of the run. */
  ghost predicate AlwaysSolvent(assets: AssetTable, steps: seq<Step>, a: Symbol) {
    Solvent(assets, steps, a) && (steps == [] || AlwaysSolvent(assets, steps[..|steps| - 1], a))
  }

  /** And only then: the books of a run balance throughout exactly when every close of it is even. */
  lemma {:induction false} AlwaysSolventIff(assets: AssetTable, steps: seq<Step>, a: Symbol)
    requires WellOrdered(assets, steps)
    ensures AlwaysSolvent(assets, steps, a) <==> ClosesEven(Start(assets), steps, a)
  {
    Accounting(assets, steps, a);
    if steps != [] {
      var before, last := steps[..|steps| - 1], steps[|steps| - 1];
      AlwaysSolventIff(assets, before, a);
      if ClosesEven(Start(assets), before, a) {
        EvenClosesDoNotDrift(Start(assets), before, a);
        if last.Close? {
          CloseEvenIff(Exec(Start(assets), before), last.closing, a);
        }
      }
    }
  }

  /** Every accepted close of the run names a single asset, with its participants spelled as stored. */
  predicate ClosesPlain(st: State, steps: seq<Step>) {
    steps == [] ||
      var before, last := steps[..|steps| - 1], steps[|steps| - 1];
      && ClosesPlain(st, before)
      && (last.Close? && CloseVerdict(Exec(st, before), last.closing) == Accepted ==>
          SingleAsset(last.closing.allocs)
          && RowsSpelled(Exec(st, before).sessions[last.closing.id], last.closing.allocs))
  }

  /** The closes one expects are even in every asset. */
  lemma {:induction false} PlainClosesAreEven(st: State, steps: seq<Step>, a: Symbol)
    requires ClosesPlain(st, steps)
    ensures ClosesEven(st, steps, a)
  {
    if steps != [] {
      var before, last := steps[..|steps| - 1], steps[|steps| - 1];
      PlainClosesAreEven(st, before, a);
      if last.Close? {
        SingleAssetConserves(Exec(st, before), last.closing, a);
      }
    }
  }

  // ----- One channel from birth to closing -----

  /** The signed amounts of the rows that events of one channel have written. */
  function Written(st: State, steps: seq<Step>, cid: ChannelId): int {
    if steps == [] then 0
    else
      var before, last := steps[..|steps| - 1], steps[|steps| - 1];
      var was, now := Exec(st, before), Exec(st, steps);
      Written(st, before, cid)
      + if last.Chain? && last.ev.cid == cid then Sum(now.rows, Signed) - Sum(was.rows, Signed) else 0
  }

  function LaterDeltasOf(st: State, ev: Event): int {
    if ev.ChannelResized? && ev.cid in st.channels && AssetOf(st.assets, st.channels[ev.cid]).Some? then
      Tail(ev.deltas) * Scale(AssetOf(st.assets, st.channels[ev.cid]).value)
    else 0
  }

  function AllocatedTo(st: State, steps: seq<Step>, cid: ChannelId): int {
    if steps == [] then 0
    else
      var before, last := steps[..|steps| - 1], steps[|steps| - 1];
      AllocatedTo(st, before, cid)
      + if last.Chain? && last.ev.cid == cid then LaterDeltasOf(Exec(st, before), last.ev) else 0
  }

  /** Resized and Closed events that found their channel. */
  function Updates(st: State, steps: seq<Step>, cid: ChannelId): nat {
    if steps == [] then 0
    else
      var before, last := steps[..|steps| - 1], steps[|steps| - 1];
      Updates(st, before, cid)
      + if last.Chain? && last.ev.cid == cid && cid in Exec(st, before).channels
           && (last.ev.ChannelResized?
               || (last.ev.ChannelClosed? && AssetOf(st.assets, Exec(st, before).channels[cid]).Some?))
        then 1 else 0
  }

  /** What a channel is worth in ledger units of its own asset, nothing while it is joining or unregistered. */
  function WorthOf(st: State, cid: ChannelId): int {
    if cid in st.channels && st.channels[cid].status != Joining && AssetOf(st.assets, st.channels[cid]).Some? then
      st.channels[cid].amount * Scale(AssetOf(st.assets, st.channels[cid]).value)
    else 0
  }

  lemma SumOfRecord(rows: seq<Entry>, k: Key, amount: int)
    ensures Sum(rows + RecordRows(k, amount), Signed) == Sum(rows, Signed) + amount
  {
    SumAppend(rows, RecordRows(k, amount), Signed);
    if amount != 0 {
      SumOne(RecordRows(k, amount)[0], Signed);
    }
  }

  lemma EventRowsSum(st: State, on: Contract, ev: Event)
    requires InTurn(st, on, ev) && (ev.ChannelCreated? ==> ev.cid !in st.channels)
    ensures var after := AfterEvent(st, on, ev);
            Sum(after.rows, Signed) - Sum(st.rows, Signed)
              == WorthOf(after, ev.cid) - WorthOf(st, ev.cid) - LaterDeltasOf(st, ev)
  {
    if ev.cid in st.channels {
      var c := st.channels[ev.cid];
      match AssetOf(st.assets, c)
      case None =>
      case Some(asset) =>
        var k := UnifiedKey(c.participant, asset.symbol);
        match ev
        case ChannelCreated(_, _, _, _, _, _) =>
        case ChannelJoined(_) => SumOfRecord(st.rows, k, c.amount * Scale(asset));
        case ChannelClosed(_) => SumOfRecord(st.rows, k, -(c.amount * Scale(asset)));
        case ChannelResized(_, deltas) => ResizeRowsSum(st, on, ev);
    }
  }

  lemma ResizeRowsSum(st: State, on: Contract, ev: Event)
    requires InTurn(st, on, ev) && ev.ChannelResized? && ev.cid in st.channels
    requires AssetOf(st.assets, st.channels[ev.cid]).Some?
    ensures var after := AfterEvent(st, on, ev);
            Sum(after.rows, Signed) - Sum(st.rows, Signed)
              == WorthOf(after, ev.cid) - WorthOf(st, ev.cid) - LaterDeltasOf(st, ev)
  {
    var c := st.channels[ev.cid];
    var asset := AssetOf(st.assets, c).value;
    ResizedAmountExact(st, on, ev);
    DeltasSplit(ev.deltas);
    Distribute(c.amount, ev.deltas[0], Tail(ev.deltas), Scale(asset));
    if ev.deltas[0] != 0 {
      SumOfRecord(st.rows, UnifiedKey(c.participant, asset.symbol), ev.deltas[0] * Scale(asset));
    }
  }

  /** Over a channel's whole life its rows telescope to what it is worth less what was allocated to it. */
  lemma {:induction false} ChannelTelescopes(assets: AssetTable, steps: seq<Step>, cid: ChannelId)
    requires WellOrdered(assets, steps)
    ensures Written(Start(assets), steps, cid)
            == WorthOf(Exec(Start(assets), steps), cid) - AllocatedTo(Start(assets), steps, cid)
  {
    if steps != [] {
      var before, last := steps[..|steps| - 1], steps[|steps| - 1];
      var st := Exec(Start(assets), before);
      ChannelTelescopes(assets, before, cid);
      if last.Chain? {
        if last.ev.cid == cid {
          LifeReflected(assets, before, cid);
          InTurnAlways(assets, steps);
          EventRowsSum(st, last.on, last.ev);
        } else {
          EventExtends(st, last.on, last.ev);
          EventFrame(st, last.on, last.ev, cid);
        }
      }
    }
  }

  /** The version counts the Resized and Closed events. */
  lemma {:induction false} VersionCounts(assets: AssetTable, steps: seq<Step>, cid: ChannelId)
    requires WellOrdered(assets, steps)
    ensures Updates(Start(assets), steps, cid)
            == var st := Exec(Start(assets), steps); if cid in st.channels then st.channels[cid].version else 0
  {
    if steps != [] {
      var before, last := steps[..|steps| - 1], steps[|steps| - 1];
      var st := Exec(Start(assets), before);
      VersionCounts(assets, before, cid);
      AssetsStay(Start(assets), before);
      if last.Chain? {
        if last.ev.cid == cid {
          LifeReflected(assets, before, cid);
          InTurnAlways(assets, steps);
          if last.ev.ChannelResized? && cid in st.channels {
            ResizedAmountExact(st, last.on, last.ev);
          }
        } else {
          EventFrame(st, last.on, last.ev, cid);
        }
      }
    }
  }

  /** A closed channel is empty, and its rows sum to minus all that was allocated to it. */
  lemma ClosedChannelSettled(assets: AssetTable, steps: seq<Step>, cid: ChannelId)
    requires WellOrdered(assets, steps) && LifeOf(steps, cid).Done?
    requires var st := Exec(Start(assets), steps); cid in st.channels && AssetOf(assets, st.channels[cid]).Some?
    ensures var c := Exec(Start(assets), steps).channels[cid]; c.status == Closed && c.amount == 0
    ensures Written(Start(assets), steps, cid) == -AllocatedTo(Start(assets), steps, cid)
  {
    AssetsStay(Start(assets), steps);
    LifeReflected(assets, steps, cid);
    ChannelTelescopes(assets, steps, cid);
  }
}
