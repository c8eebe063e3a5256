/** ledger.go: the append-only table of credits and debits, and the three ways it is read. */
module Ledger {
  import opened Types
  import opened Sums

  /** The column account_id: a participant's own name for the unified account, or the id of a session. */
  type Account = string

  datatype Key = Key(account: Account, participant: Address, asset: Symbol)

  datatype Entry = Entry(key: Key, credit: nat, debit: nat)

  /** The account every participant has under the broker: named by the participant's own address. */
  function UnifiedKey(p: Address, asset: Symbol): Key {
    Key(p, p, asset)
  }

  function SessionKey(id: Account, p: Address, asset: Symbol): Key {
    Key(id, p, asset)
  }

  function Signed(e: Entry): int {
    e.credit - e.debit
  }

  /** What one call of Record appends: a credit, a debit, or nothing for zero. */
  function RecordRows(k: Key, amount: int): seq<Entry> {
    if amount > 0 then [Entry(k, amount, 0)]
    else if amount < 0 then [Entry(k, 0, -amount)]
    else []
  }

  /** A positive amount is one credit, a negative one a debit of as much, and the other column stays zero. */
  lemma RecordedColumns(k: Key, amount: int)
    ensures |RecordRows(k, amount)| == if amount == 0 then 0 else 1
    ensures forall e :: e in RecordRows(k, amount) ==>
              && e.key == k && e.credit == (if amount > 0 then amount else 0)
              && e.debit == (if amount < 0 then -amount else 0)
  {
  }

  function CreditAt(k: Key): Entry -> int {
    (e: Entry) => if e.key == k then e.credit else 0
  }

  function DebitAt(k: Key): Entry -> int {
    (e: Entry) => if e.key == k then e.debit else 0
  }

  function SignedAt(k: Key): Entry -> int {
    (e: Entry) => if e.key == k then Signed(e) else 0
  }

  function SignedIn(asset: Symbol): Entry -> int {
    (e: Entry) => if e.key.asset == asset then Signed(e) else 0
  }

  /** The query of Balance: SUM(credit) - SUM(debit) over the rows at one key. */
  function Balance(rows: seq<Entry>, k: Key): int {
    Sum(rows, CreditAt(k)) - Sum(rows, DebitAt(k))
  }

  /** Credit minus debit over every row of one asset, whoever holds it. */
  function Total(rows: seq<Entry>, asset: Symbol): int {
    Sum(rows, SignedIn(asset))
  }

  lemma BalanceIsSigned(rows: seq<Entry>, k: Key)
    ensures Balance(rows, k) == Sum(rows, SignedAt(k))
  {
  }

  lemma BalanceAppend(rows: seq<Entry>, more: seq<Entry>, k: Key)
    ensures Balance(rows + more, k) == Balance(rows, k) + Balance(more, k)
  {
    SumAppend(rows, more, CreditAt(k));
    SumAppend(rows, more, DebitAt(k));
  }

  lemma TotalAppend(rows: seq<Entry>, more: seq<Entry>, asset: Symbol)
    ensures Total(rows + more, asset) == Total(rows, asset) + Total(more, asset)
  {
    SumAppend(rows, more, SignedIn(asset));
  }

  /** Recording moves the balance at the recorded key by the amount and at no other key. */
  lemma BalanceOfRecord(at: Key, amount: int, k: Key)
    ensures Balance(RecordRows(at, amount), k) == if at == k then amount else 0
  {
    BalanceIsSigned(RecordRows(at, amount), k);
    if amount != 0 {
      SumOne(RecordRows(at, amount)[0], SignedAt(k));
    }
  }

  lemma TotalOfRecord(at: Key, amount: int, asset: Symbol)
    ensures Total(RecordRows(at, amount), asset) == if at.asset == asset then amount else 0
  {
    if amount != 0 {
      SumOne(RecordRows(at, amount)[0], SignedIn(asset));
    }
  }

  /** Two records, one after the other, as create and close write them for every allocation row. */
  lemma BalanceOfTwo(rows: seq<Entry>, k1: Key, a1: int, k2: Key, a2: int, k: Key)
    ensures Balance(rows + RecordRows(k1, a1) + RecordRows(k2, a2), k)
            == Balance(rows, k) + (if k1 == k then a1 else 0) + (if k2 == k then a2 else 0)
  {
    BalanceAppend(rows, RecordRows(k1, a1), k);
    BalanceAppend(rows + RecordRows(k1, a1), RecordRows(k2, a2), k);
    BalanceOfRecord(k1, a1, k);
    BalanceOfRecord(k2, a2, k);
  }

  lemma TotalOfTwo(rows: seq<Entry>, k1: Key, a1: int, k2: Key, a2: int, a: Symbol)
    ensures Total(rows + RecordRows(k1, a1) + RecordRows(k2, a2), a)
            == Total(rows, a) + (if k1.asset == a then a1 else 0) + (if k2.asset == a then a2 else 0)
  {
    TotalAppend(rows, RecordRows(k1, a1), a);
    TotalAppend(rows + RecordRows(k1, a1), RecordRows(k2, a2), a);
    TotalOfRecord(k1, a1, a);
    TotalOfRecord(k2, a2, a);
  }

  // ----- Some of the rows -----

  /** The rows that `pick` accepts, in the order they were written. */
  function Select(rows: seq<Entry>, pick: Entry -> bool): (r: seq<Entry>)
    ensures forall e :: e in r <==> e in rows && pick(e)
  {
    if rows == [] then []
    else
      var last := rows[|rows| - 1];
      var rest := Select(rows[..|rows| - 1], pick);
      assert rows == rows[..|rows| - 1] + [last];
      if pick(last) then rest + [last] else rest
  }

  lemma {:induction false} SelectAppend(rows: seq<Entry>, more: seq<Entry>, pick: Entry -> bool)
    ensures Select(rows + more, pick) == Select(rows, pick) + Select(more, pick)
  {
    if more == [] {
      assert rows + more == rows;
    } else {
      var n := |more| - 1;
      SelectAppend(rows, more[..n], pick);
      assert (rows + more)[..|rows + more| - 1] == rows + more[..n];
    }
  }

  /** Later rows leave a selection as it was exactly when it takes none of them. */
  lemma SelectStays(rows: seq<Entry>, more: seq<Entry>, pick: Entry -> bool)
    ensures Select(rows + more, pick) == Select(rows, pick) <==> forall e :: e in more ==> !pick(e)
  {
    SelectAppend(rows, more, pick);
    var taken := Select(more, pick);
    assert taken != [] ==> taken[0] in taken;
    assert Select(rows, pick) + taken == Select(rows, pick) <==> taken == [];
  }

  /** A balance can be read from any selection that keeps the rows at its key. */
  lemma {:induction false} BalanceOfSelected(rows: seq<Entry>, pick: Entry -> bool, k: Key)
    requires forall e: Entry :: e.key == k ==> pick(e)
    ensures Balance(Select(rows, pick), k) == Balance(rows, k)
  {
    if rows != [] {
      var n := |rows| - 1;
      BalanceOfSelected(rows[..n], pick, k);
      assert rows == rows[..n] + [rows[n]];
      BalanceAppend(rows[..n], [rows[n]], k);
      BalanceAppend(Select(rows[..n], pick), [rows[n]], k);
      SumOne(rows[n], CreditAt(k));
      SumOne(rows[n], DebitAt(k));
    }
  }

  // ----- GetEntries and GetBalances -----

  predicate EntryMatches(e: Entry, account: Account, p: Address, asset: Symbol) {
    e.key.account == account && e.key.participant == p && (asset != "" ==> e.key.asset == asset)
  }

  /** The rows of a participant in an account, of one asset, or of all of them when the asset is left empty. */
  function GetEntries(rows: seq<Entry>, account: Account, p: Address, asset: Symbol): seq<Entry> {
    Select(rows, (e: Entry) => EntryMatches(e, account, p, asset))
  }

  lemma {:induction false} SelectCounts(rows: seq<Entry>, pick: Entry -> bool, e: Entry)
    ensures multiset(Select(rows, pick))[e] == if pick(e) then multiset(rows)[e] else 0
  {
    if rows != [] {
      var front, last := rows[..|rows| - 1], rows[|rows| - 1];
      SelectCounts(front, pick, e);
      assert rows == front + [last];
    }
  }

  /** Listed are exactly the rows at the account and participant, of the asset if one is named, as often as recorded. */
  lemma GetEntriesExact(rows: seq<Entry>, account: Account, p: Address, asset: Symbol, e: Entry)
    ensures multiset(GetEntries(rows, account, p, asset))[e] ==
              if e.key.account == account && e.key.participant == p && (asset == "" || e.key.asset == asset)
              then multiset(rows)[e] else 0
  {
    SelectCounts(rows, (e: Entry) => EntryMatches(e, account, p, asset), e);
  }

  /** And in the order of recording: later rows are listed after earlier ones. */
  lemma GetEntriesInOrder(rows: seq<Entry>, more: seq<Entry>, account: Account, p: Address, asset: Symbol)
    ensures GetEntries(rows + more, account, p, asset)
            == GetEntries(rows, account, p, asset) + GetEntries(more, account, p, asset)
  {
    SelectAppend(rows, more, (e: Entry) => EntryMatches(e, account, p, asset));
  }

  datatype AssetBalance = AssetBalance(asset: Symbol, amount: int)

  function AmountOf(b: AssetBalance): int {
    b.amount
  }

  /** The place of an asset among the groups, or their number when it has none. */
  function Position(groups: seq<AssetBalance>, asset: Symbol): (i: nat)
    ensures i <= |groups|
    ensures i < |groups| ==> groups[i].asset == asset
    ensures forall j :: 0 <= j < i ==> groups[j].asset != asset
  {
    if groups == [] || groups[0].asset == asset then 0 else 1 + Position(groups[1..], asset)
  }

  /** One step of GROUP BY asset_symbol: add to the group of the asset, or open one. */
  function Grouped(groups: seq<AssetBalance>, asset: Symbol, amount: int): seq<AssetBalance> {
    var i := Position(groups, asset);
    if i < |groups| then groups[i := AssetBalance(asset, groups[i].amount + amount)]
    else groups + [AssetBalance(asset, amount)]
  }

  function GetBalances(rows: seq<Entry>, account: Account, p: Address): seq<AssetBalance> {
    if rows == [] then []
    else
      var last := rows[|rows| - 1];
      var groups := GetBalances(rows[..|rows| - 1], account, p);
      if EntryMatches(last, account, p, "") then Grouped(groups, last.key.asset, Signed(last)) else groups
  }

  predicate Present(rows: seq<Entry>, k: Key) {
    exists e :: e in rows && e.key == k
  }

  /** One group for every asset present at the account and participant, holding its balance, and no other group. */
  ghost predicate GroupsAgree(groups: seq<AssetBalance>, rows: seq<Entry>, account: Account, p: Address) {
    && (forall i, j :: 0 <= i < j < |groups| ==> groups[i].asset != groups[j].asset)
    && (forall i :: 0 <= i < |groups| ==> groups[i].amount == Balance(rows, Key(account, p, groups[i].asset)))
    && (forall a :: Position(groups, a) < |groups| <==> Present(rows, Key(account, p, a)))
  }

  lemma PresentPush(rows: seq<Entry>, last: Entry, k: Key)
    ensures Present(rows + [last], k) <==> Present(rows, k) || last.key == k
  {
  }

  lemma BalancePush(rows: seq<Entry>, last: Entry, k: Key)
    ensures Balance(rows + [last], k) == Balance(rows, k) + if last.key == k then Signed(last) else 0
  {
  }

  lemma AbsentIsZero(rows: seq<Entry>, k: Key)
    requires !Present(rows, k)
    ensures Balance(rows, k) == 0
  {
    SumNonNegative(rows, CreditAt(k));
    SumNonNegative(rows, DebitAt(k));
  }

  lemma PositionGrouped(groups: seq<AssetBalance>, asset: Symbol, amount: int, a: Symbol)
    ensures var after := Grouped(groups, asset, amount);
            Position(after, a) < |after| <==> a == asset || Position(groups, a) < |groups|
  {
    var after := Grouped(groups, asset, amount);
    var k := Position(groups, asset);
    assert after[k].asset == asset;
    assert forall i :: 0 <= i < |groups| ==> after[i].asset == groups[i].asset;
    if Position(groups, a) < |groups| {
      assert after[Position(groups, a)].asset == a;
    }
  }

  lemma GroupedAgrees(groups: seq<AssetBalance>, rows: seq<Entry>, last: Entry, account: Account, p: Address)
    requires GroupsAgree(groups, rows, account, p) && EntryMatches(last, account, p, "")
    ensures GroupsAgree(Grouped(groups, last.key.asset, Signed(last)), rows + [last], account, p)
  {
    var asset := last.key.asset;
    var after := Grouped(groups, asset, Signed(last));
    forall a
      ensures Position(after, a) < |after| <==> Present(rows + [last], Key(account, p, a))
    {
      PositionGrouped(groups, asset, Signed(last), a);
      PresentPush(rows, last, Key(account, p, a));
    }
    forall i | 0 <= i < |after| ensures after[i].amount == Balance(rows + [last], Key(account, p, after[i].asset)) {
      BalancePush(rows, last, Key(account, p, after[i].asset));
      if Position(groups, asset) == |groups| {
        AbsentIsZero(rows, Key(account, p, asset));
      }
    }
  }

  lemma GroupedSum(groups: seq<AssetBalance>, a: Symbol, amount: int)
    ensures Sum(Grouped(groups, a, amount), AmountOf) == Sum(groups, AmountOf) + amount
  {
    var after := Grouped(groups, a, amount);
    var k := Position(groups, a);
    if k < |groups| {
      SumWithout(groups, k, AmountOf);
      SumWithout(after, k, AmountOf);
      assert Without(groups, k) == Without(after, k);
    } else {
      SumAppend(groups, [AssetBalance(a, amount)], AmountOf);
      SumOne(AssetBalance(a, amount), AmountOf);
    }
  }

  /** GetBalances lists each asset present exactly once, with the amount Balance reports. */
  lemma {:induction false} GetBalancesAgree(rows: seq<Entry>, account: Account, p: Address)
    ensures GroupsAgree(GetBalances(rows, account, p), rows, account, p)
    ensures Sum(GetBalances(rows, account, p), AmountOf) == Sum(GetEntries(rows, account, p, ""), Signed)
  {
    if rows == [] {
      forall a { AbsentIsZero([], Key(account, p, a)); }
    } else {
      var n := |rows| - 1;
      var last := rows[n];
      var groups := GetBalances(rows[..n], account, p);
      GetBalancesAgree(rows[..n], account, p);
      assert rows == rows[..n] + [last];
      if EntryMatches(last, account, p, "") {
        GroupedAgrees(groups, rows[..n], last, account, p);
        GroupedSum(groups, last.key.asset, Signed(last));
        SumAppend(GetEntries(rows[..n], account, p, ""), [last], Signed);
        SumOne(last, Signed);
      } else {
        forall a { PresentPush(rows[..n], last, Key(account, p, a)); }
        forall i | 0 <= i < |groups| { BalancePush(rows[..n], last, Key(account, p, groups[i].asset)); }
      }
    }
  }

  /** The entries listed for a named asset add up to its balance. */
  lemma {:induction false} GetEntriesAgree(rows: seq<Entry>, account: Account, p: Address, a: Symbol)
    requires a != ""
    ensures Sum(GetEntries(rows, account, p, a), Signed) == Balance(rows, Key(account, p, a))
  {
    if rows != [] {
      var n := |rows| - 1;
      var k := Key(account, p, a);
      GetEntriesAgree(rows[..n], account, p, a);
      assert rows == rows[..n] + [rows[n]];
      BalanceAppend(rows[..n], [rows[n]], k);
      SumOne(rows[n], CreditAt(k));
      SumOne(rows[n], DebitAt(k));
      SumOne(rows[n], Signed);
      SumAppend(GetEntries(rows[..n], account, p, a), [rows[n]], Signed);
    }
  }

  // ----- A whole history of Record calls -----

  datatype RecordCall = RecordCall(key: Key, amount: int)

  function Recorded(calls: seq<RecordCall>): seq<Entry> {
    if calls == [] then []
    else
      var c := calls[|calls| - 1];
      Recorded(calls[..|calls| - 1]) + RecordRows(c.key, c.amount)
  }

  function AmountAt(k: Key): RecordCall -> int {
    (c: RecordCall) => if c.key == k then c.amount else 0
  }

  /** Whatever was recorded, and in whatever order, Balance is the sum of the signed amounts at the key. */
  lemma {:induction false} BalanceOfHistory(calls: seq<RecordCall>, k: Key)
    ensures Balance(Recorded(calls), k) == Sum(calls, AmountAt(k))
  {
    if calls != [] {
      var n := |calls| - 1;
      BalanceOfHistory(calls[..n], k);
      BalanceAppend(Recorded(calls[..n]), RecordRows(calls[n].key, calls[n].amount), k);
      BalanceOfRecord(calls[n].key, calls[n].amount, k);
    }
  }
}
