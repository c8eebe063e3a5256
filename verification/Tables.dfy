/** The tables of the database as one value. A row type admits exactly what its columns can hold. */
module Tables {
  import opened Types
  import opened Ledger

  datatype Status = Joining | Open | Closed

  datatype AppSession = AppSession(
    protocol: string, participants: seq<Address>, weights: seq<int>, quorum: int,
    challenge: int, nonce: int, version: int, status: Status)

  predicate FitsBigint(x: int) {
    0 <= x < TWO_63
  }

  predicate FitsInteger(x: int) {
    -0x8000_0000 <= x < 0x8000_0000
  }

  /** weights is INTEGER[], the numbers of a session are BIGINT. */
  predicate SessionFits(s: AppSession) {
    && FitsBigint(s.quorum) && FitsBigint(s.challenge) && FitsBigint(s.nonce) && FitsBigint(s.version)
    && (forall w :: w in s.weights ==> FitsInteger(w))
  }

  type StoredSession = s: AppSession | SessionFits(s) && |s.weights| == |s.participants|
    witness AppSession("", [], [], 0, 0, 0, 0, Open)

  datatype Channel = Channel(
    chainId: ChainId, token: Token, participant: HexAddress, amount: int, status: Status,
    nonce: int, version: nat, adjudicator: Address)

  predicate ChannelFits(c: Channel) {
    FitsBigint(c.amount) && FitsBigint(c.nonce)
  }

  type StoredChannel = c: Channel | ChannelFits(c)
    witness Channel(0, "", seq(42, _ => '0'), 0, Joining, 0, 0, "")

  /** Ledger amounts count units of 10^-18; a token has at most 18 decimals. */
  type Decimals = d: nat | d <= 18

  datatype Asset = Asset(symbol: Symbol, decimals: Decimals)

  function Pow10(n: nat): (r: int)
    ensures r >= 1
  {
    if n == 0 then 1 else 10 * Pow10(n - 1)
  }

  /** Ledger units in one raw unit of the token. */
  function Scale(a: Asset): (r: int)
    ensures r >= 1
  {
    Pow10(18 - a.decimals)
  }

  lemma {:induction false} Pow10Add(m: nat, n: nat)
    ensures Pow10(m + n) == Pow10(m) * Pow10(n)
  {
    if m > 0 {
      Pow10Add(m - 1, n);
      assert 10 * (Pow10(m - 1) * Pow10(n)) == (10 * Pow10(m - 1)) * Pow10(n);
    }
  }

  /** Ten to the power of the token's decimals raw units make one whole unit, 10^18 ledger units. */
  lemma ScaleExact(a: Asset)
    ensures Scale(a) * Pow10(a.decimals) == 1_000_000_000_000_000_000
  {
    Pow10Add(18 - a.decimals, a.decimals);
    assert Pow10(6) == 1_000_000;
    Pow10Add(6, 6);
    Pow10Add(12, 6);
  }

  type AssetTable = map<(Token, ChainId), Asset>

  datatype State = State(
    rows: seq<Entry>,
    sessions: map<SessionId, StoredSession>,
    channels: map<ChannelId, StoredChannel>,
    assets: AssetTable)

  function GetAssetByToken(assets: AssetTable, token: Token, chain: ChainId): Option<Asset> {
    if (token, chain) in assets then Some(assets[(token, chain)]) else None
  }

  datatype Reason =
    // create
    | TooFewParticipants | AllocationCount | WeightCount | InvalidSignature | RowRejected | InsertFailed
    // close
    | MissingParameters | InvalidRow | SessionNotOpen | SignatureRejected | QuorumNotMet
    | AllocationRejected | MissingParticipant | NotRedistributed
    // signed channel states
    | ChannelNotFound | AssetNotFound | InsufficientBalance | NegativeAmount | ResizeFirst

  datatype Verdict = Accepted | Rejected(why: Reason)
}
