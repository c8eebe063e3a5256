/**
 * custody.go and channel.go: what the four chain events do to the channel table and the ledger.
 * Each event is one transaction; what fails inside it is undone, except where the source saves
 * outside the transaction.
 */
module Custody {
  import opened Types
  import opened Sums
  import opened Ledger
  import opened Tables

  /** Signed amount changes of a resize, one a participant; the first is the participant's own. */
  type Deltas = s: seq<int> | s != [] witness [0]

  datatype Event =
    | ChannelCreated(
      cid: ChannelId, participants: seq<HexAddress>, nonce: U64, token: Token, amount: nat, adjudicator: Address)
    | ChannelJoined(cid: ChannelId)
    | ChannelResized(cid: ChannelId, deltas: Deltas)
    | ChannelClosed(cid: ChannelId)

  /** One custody contract: the chain it lives on and the broker's address. */
  datatype Contract = Contract(chain: ChainId, broker: HexAddress)

  predicate IsOpenFor(c: Channel, participant: HexAddress, token: Token, chain: ChainId) {
    c.participant == participant && c.token == token && c.chainId == chain && c.status == Open
  }

  /** CheckExistingChannels: an open channel of the participant for the token on the chain. */
  predicate HasOpenChannel(st: State, participant: HexAddress, token: Token, chain: ChainId) {
    exists cid :: cid in st.channels && IsOpenFor(st.channels[cid], participant, token, chain)
  }

  /** The row CreateChannel inserts; Int64 keeps the low 64 bits of the event's amount. */
  function NewChannel(on: Contract, ev: Event): Channel
    requires ev.ChannelCreated? && |ev.participants| >= 2
  {
    Channel(on.chain, ev.token, ev.participants[0], ev.amount % TWO_64, Joining, ev.nonce, 0, ev.adjudicator)
  }

  predicate CreatedAccepted(st: State, on: Contract, ev: Event)
    requires ev.ChannelCreated?
  {
    && |ev.participants| >= 2
    && ev.participants[1] == on.broker
    && !HasOpenChannel(st, ev.participants[0], ev.token, on.chain)
    && ev.cid !in st.channels
    && ChannelFits(NewChannel(on, ev))
  }

  function Identity(x: int): int { x }

  /** The amount the Resized loop computes in int64 arithmetic. */
  function ResizedAmount(c: StoredChannel, deltas: Deltas): int {
    Wrap64(c.amount + Sum(deltas, Identity))
  }

  function AfterEvent(st: State, on: Contract, ev: Event): State {
    match ev
    case ChannelCreated(cid, _, _, _, _, _) =>
      if CreatedAccepted(st, on, ev) then st.(channels := st.channels[cid := NewChannel(on, ev)]) else st
    case ChannelJoined(cid) =>
      if cid !in st.channels then st
      else (
        var c := st.channels[cid];
        match GetAssetByToken(st.assets, c.token, on.chain)
        case None => st
        case Some(asset) =>
          st.(channels := st.channels[cid := c.(status := Open)],
              rows := st.rows + RecordRows(UnifiedKey(c.participant, asset.symbol), c.amount * Scale(asset)))
      )
    case ChannelResized(cid, deltas) =>
      if cid !in st.channels || !FitsBigint(ResizedAmount(st.channels[cid], deltas)) then st
      else (
        var c := st.channels[cid];
        var resized := c.(amount := ResizedAmount(c, deltas), version := c.version + 1);
        var saved := st.(channels := st.channels[cid := resized]);
        if deltas[0] == 0 then saved
        else match GetAssetByToken(st.assets, c.token, on.chain)
          case None => saved  // the channel is saved outside the transaction that fails
          case Some(asset) =>
            saved.(rows := st.rows + RecordRows(UnifiedKey(c.participant, asset.symbol), deltas[0] * Scale(asset)))
      )
    case ChannelClosed(cid) =>
      if cid !in st.channels then st
      else (
        var c := st.channels[cid];
        match GetAssetByToken(st.assets, c.token, on.chain)
        case None => st
        case Some(asset) =>
          st.(channels := st.channels[cid := c.(amount := 0, status := Closed, version := c.version + 1)],
              rows := st.rows + RecordRows(UnifiedKey(c.participant, asset.symbol), -(c.amount * Scale(asset))))
      )
  }

  /** A row of the unified account of an address. */
  predicate IsUnified(e: Entry) {
    e.key.account == e.key.participant && |e.key.account| == 42
  }

  /** An event extends the ledger by rows of unified accounts and leaves sessions and assets alone. */
  lemma EventExtends(st: State, on: Contract, ev: Event)
    ensures var after := AfterEvent(st, on, ev);
            && after.sessions == st.sessions && after.assets == st.assets
            && |st.rows| <= |after.rows| && after.rows[..|st.rows|] == st.rows
            && forall e :: e in after.rows[|st.rows|..] ==> IsUnified(e)
  {
  }

  /** An event touches the row of its own channel only. */
  lemma EventFrame(st: State, on: Contract, ev: Event, cid: ChannelId)
    requires cid != ev.cid
    ensures cid in AfterEvent(st, on, ev).channels <==> cid in st.channels
    ensures cid in st.channels ==> AfterEvent(st, on, ev).channels[cid] == st.channels[cid]
  {
  }

  /**
   * The wrapped sum is the true one exactly when the true one is a BIGINT: partial sums
   * may overflow, even single deltas may.
   */
  lemma ResizedAmountExact(st: State, on: Contract, ev: Event)
    requires ev.ChannelResized? && ev.cid in st.channels
    ensures var c := st.channels[ev.cid];
            AfterEvent(st, on, ev).channels[ev.cid]
              == c.(amount := c.amount + Sum(ev.deltas, Identity), version := c.version + 1)
            <==> 0 <= c.amount + Sum(ev.deltas, Identity) < 0x8000_0000_0000_0000
  {
  }

  /**
   * Exactly when a Created event is stored: with the broker second, under a new id, with numbers that fit,
   * and while no stored channel of the participant for the token on the chain is open.
   */
  lemma CreatedStoredIff(st: State, on: Contract, ev: Event)
    requires ev.ChannelCreated?
    ensures ev.cid !in st.channels && ev.cid in AfterEvent(st, on, ev).channels <==>
              && |ev.participants| >= 2 && ev.participants[1] == on.broker && ev.cid !in st.channels
              && ev.nonce < 0x8000_0000_0000_0000 && ev.amount % 0x1_0000_0000_0000_0000 < 0x8000_0000_0000_0000
              && forall d :: d in st.channels && st.channels[d].participant == ev.participants[0]
                             && st.channels[d].token == ev.token && st.channels[d].chainId == on.chain ==>
                   st.channels[d].status != Open
  {
    if |ev.participants| >= 2 {
      var p := ev.participants[0];
      assert forall d :: d in st.channels && IsOpenFor(st.channels[d], p, ev.token, on.chain) ==>
          HasOpenChannel(st, p, ev.token, on.chain);
      if HasOpenChannel(st, p, ev.token, on.chain) {
        var d :| d in st.channels && IsOpenFor(st.channels[d], p, ev.token, on.chain);
        assert st.channels[d].participant == p && st.channels[d].status == Open;
      }
    }
  }

  /** What a stored Created event leaves: one more channel, joining, with the event's terms. Otherwise nothing. */
  lemma CreatedLeaves(st: State, on: Contract, ev: Event)
    requires ev.ChannelCreated?
    ensures var after := AfterEvent(st, on, ev);
            if ev.cid in st.channels || ev.cid !in after.channels then after == st
            else
              var c := after.channels[ev.cid];
              && after.rows == st.rows && |ev.participants| >= 2
              && c.participant == ev.participants[0] && c.token == ev.token && c.chainId == on.chain
              && c.nonce == ev.nonce && c.adjudicator == ev.adjudicator
              && c.amount == ev.amount % 0x1_0000_0000_0000_0000 && c.status == Joining && c.version == 0
  {
  }

  lemma BalanceOfPush(rows: seq<Entry>, at: Key, amount: int, k: Key)
    ensures Balance(rows + RecordRows(at, amount), k) == Balance(rows, k) + if at == k then amount else 0
  {
    BalanceAppend(rows, RecordRows(at, amount), k);
    BalanceOfRecord(at, amount, k);
  }

  /** A Joined event opens a known channel of a registered token and credits its whole amount to its participant. */
  lemma JoinedLeaves(st: State, on: Contract, cid: ChannelId, k: Key)
    ensures var after := AfterEvent(st, on, ChannelJoined(cid));
            if cid !in st.channels || (st.channels[cid].token, on.chain) !in st.assets then after == st
            else
              var c, asset := st.channels[cid], st.assets[(st.channels[cid].token, on.chain)];
              && cid in after.channels && after.channels[cid] == c.(status := Open)
              && Balance(after.rows, k) - Balance(st.rows, k)
                 == if k == Key(c.participant, c.participant, asset.symbol) then c.amount * Scale(asset) else 0
  {
    if cid in st.channels && (st.channels[cid].token, on.chain) in st.assets {
      var c, asset := st.channels[cid], st.assets[(st.channels[cid].token, on.chain)];
      BalanceOfPush(st.rows, UnifiedKey(c.participant, asset.symbol), c.amount * Scale(asset), k);
    }
  }

  /** A Closed event closes and empties such a channel, counts a version and debits its whole amount. */
  lemma ClosedLeaves(st: State, on: Contract, cid: ChannelId, k: Key)
    ensures var after := AfterEvent(st, on, ChannelClosed(cid));
            if cid !in st.channels || (st.channels[cid].token, on.chain) !in st.assets then after == st
            else
              var c, asset := st.channels[cid], st.assets[(st.channels[cid].token, on.chain)];
              && cid in after.channels
              && after.channels[cid] == c.(status := Closed, amount := 0, version := c.version + 1)
              && Balance(after.rows, k) - Balance(st.rows, k)
                 == if k == Key(c.participant, c.participant, asset.symbol) then -(c.amount * Scale(asset)) else 0
  {
    if cid in st.channels && (st.channels[cid].token, on.chain) in st.assets {
      var c, asset := st.channels[cid], st.assets[(st.channels[cid].token, on.chain)];
      BalanceOfPush(st.rows, UnifiedKey(c.participant, asset.symbol), -(c.amount * Scale(asset)), k);
    }
  }

  lemma ProductNotZero(x: int, s: int)
    requires x != 0 && s >= 1
    ensures x * s != 0
  {
    if x > 0 {
      assert x * s >= s;
    } else {
      assert x * s <= -s;
    }
  }

  /** The channel was saved with a deposit or withdrawal that the ledger did not follow. */
  predicate HalfApplied(st: State, on: Contract, ev: Event)
    requires ev.ChannelResized?
  {
    var after := AfterEvent(st, on, ev);
    ev.deltas[0] != 0 && after.channels != st.channels && after.rows == st.rows
  }

  /**
   * Exactly when a Resized event is not all or nothing: the channel is there, the new amount can be
   * stored, something is to be recorded, and the token has no asset. Otherwise either nothing changes,
   * or both tables do: the channel gets its amount and next version, and the participant's
   * balance, alone of all balances, moves by the first delta.
   */
  lemma {:induction false} ResizeHalfAppliesIff(st: State, on: Contract, ev: Event)
    requires ev.ChannelResized?
    ensures HalfApplied(st, on, ev) <==>
            && ev.cid in st.channels && 0 <= ResizedAmount(st.channels[ev.cid], ev.deltas)
            && ev.deltas[0] != 0 && GetAssetByToken(st.assets, st.channels[ev.cid].token, on.chain) == None
    ensures AfterEvent(st, on, ev) != st <==>
              ev.cid in st.channels && 0 <= ResizedAmount(st.channels[ev.cid], ev.deltas)
    ensures AfterEvent(st, on, ev) != st ==>
            && ev.cid in st.channels
            && var c, after := st.channels[ev.cid], AfterEvent(st, on, ev);
               && FitsBigint(ResizedAmount(c, ev.deltas))
               && after == st.(rows := after.rows, channels := st.channels[ev.cid :=
                    c.(amount := ResizedAmount(c, ev.deltas), version := c.version + 1)])
               && (!HalfApplied(st, on, ev) ==>
                     forall k :: Balance(after.rows, k) == Balance(st.rows, k) + Follow(st, on, ev, k))
  {
    if ev.cid in st.channels && FitsBigint(ResizedAmount(st.channels[ev.cid], ev.deltas)) {
      var c, after := st.channels[ev.cid], AfterEvent(st, on, ev);
      assert after.channels[ev.cid].version != c.version;
      if ev.deltas[0] != 0 {
        match GetAssetByToken(st.assets, c.token, on.chain)
        case None =>
        case Some(asset) =>
          ProductNotZero(ev.deltas[0], Scale(asset));
          forall k ensures Balance(after.rows, k) == Balance(st.rows, k) + Follow(st, on, ev, k) {
            BalanceOfPush(st.rows, UnifiedKey(c.participant, asset.symbol), ev.deltas[0] * Scale(asset), k);
          }
      }
    }
  }

  /** By how much the balance at `k` should move: the first delta, for the participant, in the channel's asset. */
  function Follow(st: State, on: Contract, ev: Event, k: Key): int
    requires ev.ChannelResized? && ev.cid in st.channels
  {
    var c := st.channels[ev.cid];
    match GetAssetByToken(st.assets, c.token, on.chain)
    case None => 0
    case Some(asset) => if k == UnifiedKey(c.participant, asset.symbol) then ev.deltas[0] * Scale(asset) else 0
  }

  /** A new channel records the event's amount unless that amount needs more than 63 bits. */
  lemma CreatedAmountExact(st: State, on: Contract, ev: Event)
    requires ev.ChannelCreated? && CreatedAccepted(st, on, ev)
    ensures AfterEvent(st, on, ev).channels[ev.cid].amount == ev.amount <==> ev.amount < 0x8000_0000_0000_0000
  {
  }

  // ----- Solvency of one event -----

  /** The asset a channel is denominated in. */
  function AssetOf(assets: AssetTable, c: Channel): Option<Asset> {
    GetAssetByToken(assets, c.token, c.chainId)
  }

  /** What a channel that the broker has joined is worth in ledger units of one symbol. */
  function Worth(assets: AssetTable, a: Symbol): StoredChannel -> int {
    (c: StoredChannel) =>
      match AssetOf(assets, c)
      case Some(asset) => if c.status != Joining && asset.symbol == a then c.amount * Scale(asset) else 0
      case None => 0
  }

  ghost function ChannelValue(st: State, a: Symbol): int {
    MapSum(st.channels, Worth(st.assets, a))
  }

  /** Ledger total less channel value: what the ledger claims beyond what the channels lock. */
  ghost function Gap(st: State, a: Symbol): int {
    Total(st.rows, a) - ChannelValue(st, a)
  }

  /** An event that comes from the channel's own chain, in its turn, with an amount that fits the column. */
  predicate InTurn(st: State, on: Contract, ev: Event) {
    ev.cid in st.channels ==>
      var c := st.channels[ev.cid];
      var registered := AssetOf(st.assets, c).Some?;
      match ev
      case ChannelCreated(_, _, _, _, _, _) => true
      case ChannelJoined(_) => c.chainId == on.chain && c.status == Joining
      case ChannelResized(_, deltas) =>
        && c.chainId == on.chain
        && c.status == (if registered then Open else Joining)
        && FitsBigint(c.amount + Sum(deltas, Identity))
      case ChannelClosed(_) => c.chainId == on.chain && c.status == (if registered then Open else Joining)
  }

  /** The deltas after the participant's own: amounts moved between channel and unified balance. */
  function Tail(deltas: Deltas): int {
    Sum(deltas[1..], Identity)
  }

  /** The later deltas of a Resized event, in ledger units of the symbol; nothing for any other event. */
  function LaterDeltas(st: State, ev: Event, a: Symbol): int {
    if ev.ChannelResized? && ev.cid in st.channels && AssetOf(st.assets, st.channels[ev.cid]).Some? then
      var asset := AssetOf(st.assets, st.channels[ev.cid]).value;
      if asset.symbol == a then Tail(ev.deltas) * Scale(asset) else 0
    else 0
  }

  lemma {:induction false} DeltasSplit(deltas: Deltas)
    ensures Sum(deltas, Identity) == deltas[0] + Tail(deltas)
  {
    assert deltas == [deltas[0]] + deltas[1..];
    SumAppend([deltas[0]], deltas[1..], Identity);
    SumOne(deltas[0], Identity);
  }

  /** How an event that writes one channel and one ledger entry moves the gap. */
  lemma GapOfWrite(st: State, cid: ChannelId, c: StoredChannel, k: Key, amount: int, a: Symbol)
    ensures var after := st.(channels := st.channels[cid := c], rows := st.rows + RecordRows(k, amount));
            Gap(after, a) == Gap(st, a) + (if k.asset == a then amount else 0)
              - Worth(st.assets, a)(c) + (if cid in st.channels then Worth(st.assets, a)(st.channels[cid]) else 0)
  {
    TotalAppend(st.rows, RecordRows(k, amount), a);
    TotalOfRecord(k, amount, a);
    MapSumUpdate(st.channels, cid, c, Worth(st.assets, a));
  }

  lemma GapOfChannel(st: State, cid: ChannelId, c: StoredChannel, a: Symbol)
    ensures Gap(st.(channels := st.channels[cid := c]), a) == Gap(st, a)
              - Worth(st.assets, a)(c) + (if cid in st.channels then Worth(st.assets, a)(st.channels[cid]) else 0)
  {
    MapSumUpdate(st.channels, cid, c, Worth(st.assets, a));
  }

  /** Joining credits exactly what the channel comes to be worth, closing debits exactly what it was worth. */
  lemma EventKeepsGap(st: State, on: Contract, ev: Event, a: Symbol)
    requires InTurn(st, on, ev)
    ensures Gap(AfterEvent(st, on, ev), a) == Gap(st, a) - LaterDeltas(st, ev, a)
  {
    var after := AfterEvent(st, on, ev);
    if after != st {
      var c := after.channels[ev.cid];
      match ev
      case ChannelCreated(_, _, _, _, _, _) =>
        GapOfChannel(st, ev.cid, c, a);
      case ChannelJoined(_) =>
        var asset := AssetOf(st.assets, c).value;
        GapOfWrite(st, ev.cid, c, UnifiedKey(c.participant, asset.symbol), c.amount * Scale(asset), a);
      case ChannelClosed(_) =>
        var asset := AssetOf(st.assets, c).value;
        var was := st.channels[ev.cid];
        GapOfWrite(st, ev.cid, c, UnifiedKey(c.participant, asset.symbol), -(was.amount * Scale(asset)), a);
      case ChannelResized(_, deltas) =>
        ResizeKeepsGap(st, on, ev, a);
    }
  }

  /** A resize moves the worth of an open channel by all deltas, the first and the later ones. */
  lemma ResizeWorth(st: State, on: Contract, ev: Event, a: Symbol)
    requires ev.ChannelResized? && InTurn(st, on, ev) && ev.cid in st.channels
    ensures var was, c := st.channels[ev.cid], AfterEvent(st, on, ev).channels[ev.cid];
            Worth(st.assets, a)(c) - Worth(st.assets, a)(was) ==
              match AssetOf(st.assets, was)
              case None => 0
              case Some(asset) =>
                if asset.symbol == a then ev.deltas[0] * Scale(asset) + Tail(ev.deltas) * Scale(asset) else 0
  {
    var was := st.channels[ev.cid];
    ResizedAmountExact(st, on, ev);
    DeltasSplit(ev.deltas);
    if AssetOf(st.assets, was).Some? {
      Distribute(was.amount, ev.deltas[0], Tail(ev.deltas), Scale(AssetOf(st.assets, was).value));
    }
  }

  lemma ResizeKeepsGap(st: State, on: Contract, ev: Event, a: Symbol)
    requires ev.ChannelResized? && InTurn(st, on, ev) && ev.cid in st.channels
    ensures Gap(AfterEvent(st, on, ev), a) == Gap(st, a) - LaterDeltas(st, ev, a)
  {
    var was, c := st.channels[ev.cid], AfterEvent(st, on, ev).channels[ev.cid];
    ResizeWorth(st, on, ev, a);
    match AssetOf(st.assets, was)
    case None =>
      GapOfChannel(st, ev.cid, c, a);
    case Some(asset) =>
      if ev.deltas[0] == 0 {
        GapOfChannel(st, ev.cid, c, a);
      } else {
        GapOfWrite(st, ev.cid, c, UnifiedKey(c.participant, asset.symbol), ev.deltas[0] * Scale(asset), a);
      }
  }

  lemma Distribute(x: int, y: int, z: int, s: int)
    ensures (x + (y + z)) * s == x * s + y * s + z * s
  {
  }
}
