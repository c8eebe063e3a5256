/**
 * handlers.go: the channel states HandleResizeChannel and HandleCloseChannel sign, and what
 * the matching chain event then leaves behind.
 */
module SignedStates {
  import opened Types
  import opened Sums
  import opened Ledger
  import opened Tables
  import opened Custody

  /** The split of the channel between participant and broker, its version and the encoded intents. */
  datatype SignedState = SignedState(user: int, broker: int, version: nat, intents: seq<int>)

  datatype Signing = Signed(state: SignedState) | Refused(why: Reason)

  /** balance.Shift(decimals).BigInt(): whole raw units, truncated toward zero. */
  function RawUnits(balance: int, scale: int): int
    requires scale >= 1
  {
    if balance >= 0 then balance / scale else -((-balance) / scale)
  }

  predicate SignedBy(signer: Option<Address>, participant: Address) {
    signer.Some? && Lower(signer.value) == Lower(participant)
  }

  function GivenOrZero(x: Option<int>): int {
    match x case Some(v) => v case None => 0
  }

  function SignResize(
      st: State, cid: ChannelId, resize: Option<int>, allocate: Option<int>, signer: Option<Address>): Signing
  {
    if cid !in st.channels then Refused(ChannelNotFound)
    else
      var c := st.channels[cid];
      if !SignedBy(signer, c.participant) then Refused(InvalidSignature)
      else match AssetOf(st.assets, c)
        case None => Refused(AssetNotFound)
        case Some(asset) =>
          var raw := RawUnits(Balance(st.rows, UnifiedKey(c.participant, asset.symbol)), Scale(asset));
          var covered := c.amount + GivenOrZero(allocate);
          var resized := covered + GivenOrZero(resize);
          if raw < covered then Refused(InsufficientBalance)
          else if resized < 0 then Refused(NegativeAmount)
          else Signed(SignedState(resized, 0, c.version + 1, [-GivenOrZero(resize), GivenOrZero(allocate)]))
  }

  function SignClose(st: State, cid: ChannelId, signer: Option<Address>): Signing {
    if cid !in st.channels then Refused(ChannelNotFound)
    else
      var c := st.channels[cid];
      if !SignedBy(signer, c.participant) then Refused(InvalidSignature)
      else match AssetOf(st.assets, c)
        case None => Refused(AssetNotFound)
        case Some(asset) =>
          var balance := Balance(st.rows, UnifiedKey(c.participant, asset.symbol));
          if balance < 0 then Refused(InsufficientBalance)
          else
            var raw := RawUnits(balance, Scale(asset));
            if c.amount < raw then Refused(ResizeFirst)
            else Signed(SignedState(raw, c.amount - raw, c.version + 1, []))
  }

  /** Whole raw units of a balance: what is cut off is less than one unit and has the sign of the balance. */
  lemma RawUnitsExact(balance: int, s: int)
    requires s >= 1
    ensures balance >= 0 ==> RawUnits(balance, s) >= 0 && 0 <= balance - RawUnits(balance, s) * s < s
    ensures balance <= 0 ==> RawUnits(balance, s) <= 0 && 0 <= RawUnits(balance, s) * s - balance < s
  {
    var x := if balance >= 0 then balance else -balance;
    assert x == x / s * s + x % s;
    Product(-(x / s), 0, x / s, s);
    TruncationByFloor(x, s);
  }

  /** The participant's balance in the asset of one channel. */
  function HolderBalance(st: State, cid: ChannelId): int
    requires cid in st.channels && AssetOf(st.assets, st.channels[cid]).Some?
  {
    var c := st.channels[cid];
    Balance(st.rows, UnifiedKey(c.participant, AssetOf(st.assets, c).value.symbol))
  }

  /** The balance a request is measured by: the participant's own, in the channel's asset. */
  function Held(st: State, cid: ChannelId): int
    requires cid in st.channels && (st.channels[cid].token, st.channels[cid].chainId) in st.assets
  {
    var c := st.channels[cid];
    Balance(st.rows, Key(c.participant, c.participant, st.assets[(c.token, c.chainId)].symbol))
  }

  /** The same in whole raw units. */
  function RawHeld(st: State, cid: ChannelId): int
    requires cid in st.channels && (st.channels[cid].token, st.channels[cid].chainId) in st.assets
  {
    var c := st.channels[cid];
    var asset := st.assets[(c.token, c.chainId)];
    RawUnits(Held(st, cid), Scale(asset))
  }

  predicate SignerIs(signer: Option<Address>, participant: Address) {
    match signer
    case None => false
    case Some(recovered) => Lower(recovered) == Lower(participant)
  }

  /** A known channel of a registered token, and a signature that recovers to its participant. */
  predicate MaySign(st: State, cid: ChannelId, signer: Option<Address>) {
    && cid in st.channels && (st.channels[cid].token, st.channels[cid].chainId) in st.assets
    && SignerIs(signer, st.channels[cid].participant)
  }

  /**
   * Exactly when a resize is signed: the truncated balance covers the channel with what is to be
   * allocated, and the new amount is not negative. And what is signed.
   */
  lemma ResizeSignedIff(st: State, cid: ChannelId, resize: Option<int>, allocate: Option<int>, signer: Option<Address>)
    ensures var r, al := if resize.Some? then resize.value else 0, if allocate.Some? then allocate.value else 0;
            var signing := SignResize(st, cid, resize, allocate, signer);
            && (signing.Signed? <==>
                  && MaySign(st, cid, signer)
                  && RawHeld(st, cid) >= st.channels[cid].amount + al && st.channels[cid].amount + al + r >= 0)
            && (signing.Signed? ==>
                  && signing.state.user == st.channels[cid].amount + al + r && signing.state.broker == 0
                  && signing.state.version == st.channels[cid].version + 1 && signing.state.intents == [-r, al])
  {
  }

  /** A refused resize names the first check that fails. */
  lemma ResizeRefused(st: State, cid: ChannelId, resize: Option<int>, allocate: Option<int>, signer: Option<Address>)
    requires SignResize(st, cid, resize, allocate, signer).Refused?
    ensures SignResize(st, cid, resize, allocate, signer).why ==
              if cid !in st.channels then ChannelNotFound
              else if !SignerIs(signer, st.channels[cid].participant) then InvalidSignature
              else if (st.channels[cid].token, st.channels[cid].chainId) !in st.assets then AssetNotFound
              else if RawHeld(st, cid) < st.channels[cid].amount + (if allocate.Some? then allocate.value else 0) then
                InsufficientBalance
              else NegativeAmount
  {
  }

  /** Exactly when a close is signed: the balance is not negative, and in whole raw units not above the channel. */
  lemma CloseSignedIff(st: State, cid: ChannelId, signer: Option<Address>)
    ensures var signing := SignClose(st, cid, signer);
            && (signing.Signed? <==>
                  && MaySign(st, cid, signer)
                  && Held(st, cid) >= 0 && RawHeld(st, cid) <= st.channels[cid].amount)
            && (signing.Signed? ==>
                  && signing.state.user == RawHeld(st, cid)
                  && signing.state.broker == st.channels[cid].amount - RawHeld(st, cid)
                  && signing.state.version == st.channels[cid].version + 1 && signing.state.intents == [])
  {
  }

  lemma CloseRefused(st: State, cid: ChannelId, signer: Option<Address>)
    requires SignClose(st, cid, signer).Refused?
    ensures SignClose(st, cid, signer).why ==
              if cid !in st.channels then ChannelNotFound
              else if !SignerIs(signer, st.channels[cid].participant) then InvalidSignature
              else if (st.channels[cid].token, st.channels[cid].chainId) !in st.assets then AssetNotFound
              else if Held(st, cid) < 0 then InsufficientBalance
              else ResizeFirst
  {
  }

  /**
   * If nothing moves between the signing and the Closed event, the signed shares make up the channel
   * and the event leaves the participant owing the broker's share, but for the dust below one raw unit.
   */
  lemma {:induction false} CloseMatchesSplit(st: State, on: Contract, cid: ChannelId, signer: Option<Address>)
    requires SignClose(st, cid, signer).Signed? && st.channels[cid].chainId == on.chain
    ensures var signed := SignClose(st, cid, signer).state;
            var after := AfterEvent(st, on, ChannelClosed(cid));
            var scale := Scale(AssetOf(st.assets, st.channels[cid]).value);
            && SignedBy(signer, st.channels[cid].participant)
            && signed.user >= 0 && signed.broker >= 0 && signed.user + signed.broker == st.channels[cid].amount
            && 0 <= HolderBalance(after, cid) + signed.broker * scale < scale
            && after.channels[cid].amount == 0 && after.channels[cid].status == Closed
            && after.channels[cid].version == signed.version
  {
    var c := st.channels[cid];
    var asset := AssetOf(st.assets, c).value;
    var k := UnifiedKey(c.participant, asset.symbol);
    var balance, scale := Balance(st.rows, k), Scale(asset);
    ClosedLeaves(st, on, cid, k);
    SplitDust(balance, c.amount, scale);
  }

  /** What is left of a balance once the channel is debited and the broker's share added back. */
  lemma SplitDust(balance: nat, amount: int, s: int)
    requires s >= 1
    ensures 0 <= balance / s
    ensures 0 <= balance - amount * s + (amount - balance / s) * s < s
  {
    assert balance == balance / s * s + balance % s;
    Product(amount - balance / s, amount, balance / s, s);
  }

  /** The one way in which a resize loses coverage: a negative balance, rounded up to the allocated amount. */
  predicate RoundedIntoCover(balance: int, scale: int, covered: int, resized: int)
    requires scale >= 1
  {
    balance < 0 && balance % scale != 0 && RawUnits(balance, scale) == covered && resized > 0
  }

  /** Adding whole raw units to a balance moves its truncation by as many, or by one less across zero. */
  lemma {:induction false} RawUnitsShift(balance: int, scale: int, units: int)
    requires scale >= 1
    ensures var before, after := RawUnits(balance, scale), RawUnits(balance + units * scale, scale);
            after == before + units
              + (if balance < 0 && balance % scale != 0 && before + units > 0 then -1
                 else if balance >= 0 && balance % scale != 0 && before + units < 0 then 1 else 0)
  {
    var q, r := balance / scale, balance % scale;
    assert balance == q * scale + r;
    var shifted := balance + units * scale;
    assert shifted == (q + units) * scale + r;
    FloorUnique(shifted, q + units, r, scale);
    TruncationByFloor(balance, scale);
    TruncationByFloor(shifted, scale);
  }

  lemma {:induction false} FloorUnique(x: int, q: int, r: int, s: int)
    requires s >= 1 && x == q * s + r && 0 <= r < s
    ensures x / s == q && x % s == r
  {
    var d := x / s - q;
    assert x == x / s * s + x % s;
    Product(d, x / s, q, s);
    if d > 0 {
      ProductBound(d - 1, s);
    } else if d < 0 {
      ProductBound(-d - 1, s);
    }
  }

  lemma Product(d: int, a: int, b: int, s: int)
    requires d == a - b
    ensures d * s == a * s - b * s
  {
  }

  lemma ProductBound(n: int, s: int)
    requires n >= 0 && s >= 0
    ensures (n + 1) * s >= s && (-n - 1) * s <= -s
  {
  }

  lemma {:induction false} TruncationByFloor(x: int, s: int)
    requires s >= 1
    ensures RawUnits(x, s) == if x < 0 && x % s != 0 then x / s + 1 else x / s
    ensures x < 0 <==> x / s < 0
  {
    var q, r := x / s, x % s;
    assert x == q * s + r;
    if q >= 0 {
      Product(q + 1, q, -1, s);
      ProductBound(q, s);
    } else {
      ProductBound(-q - 1, s);
      Product(-q, 0, q, s);
      if r == 0 {
        FloorUnique(-x, -q, 0, s);
      } else {
        Product(-q - 1, -q, 1, s);
        FloorUnique(-x, -q - 1, s - r, s);
      }
    }
  }

  /** The state that the event [resize, allocate] leaves of a channel for which a resize was signed. */
  function ResizedTo(st: State, on: Contract, cid: ChannelId, resize: Option<int>, allocate: Option<int>): State {
    AfterEvent(st, on, ChannelResized(cid, [GivenOrZero(resize), GivenOrZero(allocate)]))
  }

  lemma SumOfPair(x: int, y: int)
    ensures Sum([x, y], Identity) == x + y
  {
    assert [x, y][..1] == [x];
    SumOne(x, Identity);
  }

  /** The stored amount and version are the signed ones exactly when the signed amount is a BIGINT. */
  lemma ResizeStoresSigned(st: State, on: Contract, cid: ChannelId,
                           resize: Option<int>, allocate: Option<int>, signer: Option<Address>)
    requires SignResize(st, cid, resize, allocate, signer).Signed?
    ensures var signed := SignResize(st, cid, resize, allocate, signer).state;
            var after := ResizedTo(st, on, cid, resize, allocate);
            after.channels[cid].amount == signed.user && after.channels[cid].version == signed.version
            <==> FitsBigint(signed.user)
    ensures var c, signed := st.channels[cid], SignResize(st, cid, resize, allocate, signer).state;
            && SignedBy(signer, c.participant) && signed.user >= 0 && signed.broker == 0
            && |signed.intents| == 2 && signed.user == c.amount - signed.intents[0] + signed.intents[1]
  {
    var r, al := GivenOrZero(resize), GivenOrZero(allocate);
    SumOfPair(r, al);
    ResizedAmountExact(st, on, ChannelResized(cid, [r, al]));
  }

  /** The event that carries out a signed resize: its intents, the first with its sign turned, as deltas. */
  function MatchingEvent(cid: ChannelId, state: SignedState): Event
    requires |state.intents| == 2
  {
    ChannelResized(cid, [-state.intents[0], state.intents[1]])
  }

  /**
   * It is the event that was asked for: the channel moves by both amounts, the holder's balance by the
   * resize alone, which is the first intent with its sign turned, and the version is the signed one.
   */
  lemma {:induction false} MatchingEventCarriesOut(st: State, on: Contract, cid: ChannelId,
                                                   resize: Option<int>, allocate: Option<int>, signer: Option<Address>)
    requires SignResize(st, cid, resize, allocate, signer).Signed? && st.channels[cid].chainId == on.chain
    requires SignResize(st, cid, resize, allocate, signer).state.user < 0x8000_0000_0000_0000
    ensures var c, signed := st.channels[cid], SignResize(st, cid, resize, allocate, signer).state;
            && |signed.intents| == 2
            && MatchingEvent(cid, signed) == ChannelResized(cid, [GivenOrZero(resize), GivenOrZero(allocate)])
            && var after := AfterEvent(st, on, MatchingEvent(cid, signed));
               && cid in after.channels && AssetOf(after.assets, after.channels[cid]) == AssetOf(st.assets, c)
               && after.channels[cid].amount == c.amount - signed.intents[0] + signed.intents[1] == signed.user
               && after.channels[cid].version == signed.version
               && HolderBalance(after, cid)
                  == HolderBalance(st, cid) - signed.intents[0] * Scale(AssetOf(st.assets, c).value)
               && HolderBalance(after, cid)
                  == HolderBalance(st, cid) + GivenOrZero(resize) * Scale(AssetOf(st.assets, c).value)
  {
    ResizeSignedIff(st, cid, resize, allocate, signer);
    ResizeStoresSigned(st, on, cid, resize, allocate, signer);
    ResizeMovesBalance(st, on, cid, resize, allocate, signer);
    Product(-GivenOrZero(resize), 0, GivenOrZero(resize), Scale(AssetOf(st.assets, st.channels[cid]).value));
  }

  lemma ResizeMovesBalance(st: State, on: Contract, cid: ChannelId,
                           resize: Option<int>, allocate: Option<int>, signer: Option<Address>)
    requires SignResize(st, cid, resize, allocate, signer).Signed? && st.channels[cid].chainId == on.chain
    requires FitsBigint(SignResize(st, cid, resize, allocate, signer).state.user)
    ensures var after := ResizedTo(st, on, cid, resize, allocate);
            && cid in after.channels
            && AssetOf(after.assets, after.channels[cid]) == AssetOf(st.assets, st.channels[cid])
            && HolderBalance(after, cid)
               == HolderBalance(st, cid) + GivenOrZero(resize) * Scale(AssetOf(st.assets, st.channels[cid]).value)
  {
    var c := st.channels[cid];
    var asset := AssetOf(st.assets, c).value;
    var k := UnifiedKey(c.participant, asset.symbol);
    var r := GivenOrZero(resize);
    SumOfPair(r, GivenOrZero(allocate));
    BalanceAppend(st.rows, RecordRows(k, r * Scale(asset)), k);
    BalanceOfRecord(k, r * Scale(asset), k);
  }

  /**
   * If nothing moves between the signing and a Resized event with deltas [resize, allocate], the
   * participant's truncated balance then still covers the channel, except in the one rounding case.
   */
  lemma {:induction false} ResizeKeepsCoverage(st: State, on: Contract, cid: ChannelId,
                            resize: Option<int>, allocate: Option<int>, signer: Option<Address>)
    requires SignResize(st, cid, resize, allocate, signer).Signed? && st.channels[cid].chainId == on.chain
    requires FitsBigint(SignResize(st, cid, resize, allocate, signer).state.user)
    ensures var c := st.channels[cid];
            var after := ResizedTo(st, on, cid, resize, allocate);
            var scale := Scale(AssetOf(st.assets, c).value);
            && cid in after.channels && AssetOf(after.assets, after.channels[cid]).Some?
            && (RawUnits(HolderBalance(after, cid), scale) >= after.channels[cid].amount <==>
                !RoundedIntoCover(HolderBalance(st, cid), scale, c.amount + GivenOrZero(allocate),
                                  after.channels[cid].amount))
  {
    ResizeStoresSigned(st, on, cid, resize, allocate, signer);
    ResizeMovesBalance(st, on, cid, resize, allocate, signer);
    RawUnitsShift(HolderBalance(st, cid), Scale(AssetOf(st.assets, st.channels[cid]).value), GivenOrZero(resize));
  }
}
