/**
 * handlers.go: what the verdicts of the two session handlers mean, said by indices and columns alone,
 * without the maps and loops by which the handlers find them.
 */
module Verdicts {
  import opened Types
  import opened Sums
  import opened Ledger
  import opened Tables
  import opened AppSessions

  // ----- Whose weight counts -----

  /** Some signature recovers to this address, whatever the case of its letters. */
  predicate SignedFor(signers: seq<Option<Address>>, p: Address) {
    exists i :: 0 <= i < |signers| && signers[i].Some? && Lower(signers[i].value) == Lower(p)
  }

  /** No later participant has the same address. */
  predicate LastListed(participants: seq<Address>, i: nat)
    requires i < |participants|
  {
    forall j :: i < j < |participants| ==> Lower(participants[j]) != Lower(participants[i])
  }

  /** Of an address listed several times, the last weight counts. */
  predicate Weighs(participants: seq<Address>, weights: seq<int>, i: nat, p: Address)
    requires |participants| == |weights|
  {
    i < |participants| && LastListed(participants, i) && Lower(participants[i]) == Lower(p) && weights[i] > 0
  }

  ghost predicate HasWeight(participants: seq<Address>, weights: seq<int>, p: Address)
    requires |participants| == |weights|
  {
    exists i: nat :: Weighs(participants, weights, i, p)
  }

  /** Every signature recovers, no two to the same address, each to a participant of positive weight. */
  ghost predicate SignersWeigh(participants: seq<Address>, weights: seq<int>, signers: seq<Option<Address>>)
    requires |participants| == |weights|
  {
    && (forall i :: 0 <= i < |signers| ==> signers[i].Some?)
    && (forall i, j :: 0 <= i < j < |signers| ==> Lower(signers[i].value) != Lower(signers[j].value))
    && (forall i :: 0 <= i < |signers| ==> HasWeight(participants, weights, signers[i].value))
  }

  /** The sum of weights[i] over the places i below n whose participant signed, each address at its last place. */
  function WeightSigned(
      participants: seq<Address>, weights: seq<int>, signers: seq<Option<Address>>, n: nat): int
    requires n <= |participants| == |weights|
  {
    if n == 0 then 0
    else
      WeightSigned(participants, weights, signers, n - 1)
      + if LastListed(participants, n - 1) && SignedFor(signers, participants[n - 1]) then weights[n - 1] else 0
  }

  /** The same sum by lowercased names. */
  function WeightNamed(participants: seq<Address>, weights: seq<int>, names: seq<Address>, n: nat): int
    requires n <= |participants| == |weights|
  {
    if n == 0 then 0
    else
      WeightNamed(participants, weights, names, n - 1)
      + if LastListed(participants, n - 1) && Lower(participants[n - 1]) in names then weights[n - 1] else 0
  }

  lemma {:induction false} NamedIsSigned(
      participants: seq<Address>, weights: seq<int>, signers: seq<Option<Address>>, n: nat)
    requires n <= |participants| == |weights| && None !in signers
    ensures WeightNamed(participants, weights, Map(signers, SignerName), n)
            == WeightSigned(participants, weights, signers, n)
  {
    if n > 0 {
      NamedIsSigned(participants, weights, signers, n - 1);
      NameSigned(signers, participants[n - 1]);
    }
  }

  lemma NameSigned(signers: seq<Option<Address>>, p: Address)
    requires None !in signers
    ensures Lower(p) in Map(signers, SignerName) <==> SignedFor(signers, p)
  {
    var names := Map(signers, SignerName);
    assert forall i :: 0 <= i < |signers| ==> signers[i] in signers && signers[i].Some?;
    if SignedFor(signers, p) {
      var i :| 0 <= i < |signers| && signers[i].Some? && Lower(signers[i].value) == Lower(p);
      assert names[i] == Lower(p);
    }
  }

  /** The map of weights holds of each listed address the weight at its last place, and nothing else. */
  lemma {:induction false} WeightMapAt(participants: seq<Address>, weights: seq<int>, i: nat)
    requires |participants| == |weights| && i < |participants| && LastListed(participants, i)
    ensures var m := WeightMap(participants, weights);
            Lower(participants[i]) in m && m[Lower(participants[i])] == weights[i]
  {
    var n := |participants| - 1;
    if i < n {
      assert forall j :: i < j < n ==> participants[..n][j] == participants[j];
      assert Lower(participants[n]) != Lower(participants[i]);
      WeightMapAt(participants[..n], weights[..n], i);
    }
  }

  lemma {:induction false} LastPlace(participants: seq<Address>, x: Address, n: nat) returns (k: nat)
    requires n <= |participants| && exists i :: 0 <= i < n && Lower(participants[i]) == x
    ensures k < n && Lower(participants[k]) == x
    ensures forall j :: k < j < n ==> Lower(participants[j]) != x
  {
    if Lower(participants[n - 1]) == x {
      k := n - 1;
    } else {
      k := LastPlace(participants, x, n - 1);
    }
  }

  lemma WeightMapFrom(participants: seq<Address>, weights: seq<int>, x: Address) returns (k: nat)
    requires |participants| == |weights| && x in WeightMap(participants, weights)
    ensures k < |participants| && LastListed(participants, k) && Lower(participants[k]) == x
    ensures WeightMap(participants, weights)[x] == weights[k]
  {
    WeightMapKeys(participants, weights);
    var listed := Map(participants, Lower);
    assert x in listed;
    var i :| 0 <= i < |listed| && listed[i] == x;
    assert Lower(participants[i]) == x;
    k := LastPlace(participants, x, |participants|);
    WeightMapAt(participants, weights, k);
  }

  /** One more name adds the weight at its last place. */
  lemma {:induction false} NameAdds(
      participants: seq<Address>, weights: seq<int>, names: seq<Address>, k: nat, n: nat)
    requires n <= |participants| == |weights| && k < |participants| && LastListed(participants, k)
    requires Lower(participants[k]) !in names
    ensures WeightNamed(participants, weights, names + [Lower(participants[k])], n)
            == WeightNamed(participants, weights, names, n) + if k < n then weights[k] else 0
  {
    if n > 0 {
      NameAdds(participants, weights, names, k, n - 1);
      assert LastListed(participants, n - 1) && Lower(participants[n - 1]) == Lower(participants[k]) ==> n - 1 == k;
    }
  }

  lemma {:induction false} NoName(participants: seq<Address>, weights: seq<int>, n: nat)
    requires n <= |participants| == |weights|
    ensures WeightNamed(participants, weights, [], n) == 0
  {
    if n > 0 {
      NoName(participants, weights, n - 1);
    }
  }

  /** Adding up by distinct names is adding up by places. */
  lemma {:induction false} SumByPlaces(participants: seq<Address>, weights: seq<int>, names: seq<Address>)
    requires |participants| == |weights| && NoDup(names)
    requires forall x :: x in names ==> x in WeightMap(participants, weights)
    ensures Sum(names, WeightOf(WeightMap(participants, weights)))
            == WeightNamed(participants, weights, names, |participants|)
  {
    if names == [] {
      NoName(participants, weights, |participants|);
    } else {
      var front, x := names[..|names| - 1], names[|names| - 1];
      assert names == front + [x];
      SumByPlaces(participants, weights, front);
      var k := WeightMapFrom(participants, weights, x);
      assert x !in front;
      NameAdds(participants, weights, front, k, |participants|);
    }
  }

  lemma WeighsIff(participants: seq<Address>, weights: seq<int>, p: Address)
    requires |participants| == |weights|
    ensures var m := WeightMap(participants, weights);
            Lower(p) in m && m[Lower(p)] > 0 <==> HasWeight(participants, weights, p)
  {
    var m := WeightMap(participants, weights);
    if Lower(p) in m {
      var k := WeightMapFrom(participants, weights, Lower(p));
      assert m[Lower(p)] > 0 ==> Weighs(participants, weights, k, p);
    }
    if k: nat :| Weighs(participants, weights, k, p) {
      WeightMapAt(participants, weights, k);
    }
  }

  lemma AllRecover(signers: seq<Option<Address>>)
    ensures None !in signers <==> forall i :: 0 <= i < |signers| ==> signers[i].Some?
    ensures None !in signers ==> forall i :: 0 <= i < |signers| ==> SignerName(signers[i]) == Lower(signers[i].value)
  {
    assert forall i :: 0 <= i < |signers| ==> signers[i] in signers;
  }

  /** The names of the signatures, one by one. */
  lemma NamesWeigh(m: map<Address, int>, signers: seq<Option<Address>>)
    requires forall i :: 0 <= i < |signers| ==> signers[i].Some?
    ensures SignersAccepted(m, signers) <==>
              && (forall i, j :: 0 <= i < j < |signers| ==> Lower(signers[i].value) != Lower(signers[j].value))
              && (forall i :: 0 <= i < |signers| ==> Lower(signers[i].value) in m && m[Lower(signers[i].value)] > 0)
  {
    var names := Map(signers, SignerName);
    AllRecover(signers);
    assert forall i :: 0 <= i < |signers| ==> names[i] == Lower(signers[i].value) && names[i] in names;
    assert forall x :: x in names ==> exists i :: 0 <= i < |names| && names[i] == x;
  }

  lemma SignersWeighIff(participants: seq<Address>, weights: seq<int>, signers: seq<Option<Address>>)
    requires |participants| == |weights|
    ensures SignersAccepted(WeightMap(participants, weights), signers) <==>
            SignersWeigh(participants, weights, signers)
  {
    AllRecover(signers);
    if None !in signers {
      forall i | 0 <= i < |signers| {
        WeighsIff(participants, weights, signers[i].value);
      }
      NamesWeigh(WeightMap(participants, weights), signers);
    }
  }

  /**
   * When the signatures of a close are accepted: all recover, to different participants of positive
   * weight, and the weights at the places of those who signed add up to the quorum.
   */
  lemma QuorumIff(s: StoredSession, signers: seq<Option<Address>>)
    requires |s.participants| < 0x1_0000_0000
    ensures QuorumVerdict(s, signers) == Accepted <==>
              && SignersWeigh(s.participants, s.weights, signers)
              && WeightSigned(s.participants, s.weights, signers, |s.participants|) >= s.quorum
  {
    var m := WeightMap(s.participants, s.weights);
    QuorumExact(s, signers);
    SignersWeighIff(s.participants, s.weights, signers);
    if SignersAccepted(m, signers) {
      SumByPlaces(s.participants, s.weights, Map(signers, SignerName));
      NamedIsSigned(s.participants, s.weights, signers, |s.participants|);
    }
  }

  // ----- Participants that are different addresses -----

  predicate Distinct(participants: seq<Address>) {
    forall i, j :: 0 <= i < j < |participants| ==> Lower(participants[i]) != Lower(participants[j])
  }

  /** The sum of weights[i] over the places i below n whose participant signed. */
  function PlainWeight(participants: seq<Address>, weights: seq<int>, signers: seq<Option<Address>>, n: nat): int
    requires n <= |participants| == |weights|
  {
    if n == 0 then 0
    else
      PlainWeight(participants, weights, signers, n - 1)
      + if SignedFor(signers, participants[n - 1]) then weights[n - 1] else 0
  }

  lemma {:induction false} DistinctIsPlain(
      participants: seq<Address>, weights: seq<int>, signers: seq<Option<Address>>, n: nat)
    requires n <= |participants| == |weights| && Distinct(participants)
    ensures WeightSigned(participants, weights, signers, n) == PlainWeight(participants, weights, signers, n)
  {
    if n > 0 {
      DistinctIsPlain(participants, weights, signers, n - 1);
    }
  }

  /** The address is listed, with a positive weight. */
  predicate ListedWithWeight(participants: seq<Address>, weights: seq<int>, p: Address)
    requires |participants| == |weights|
  {
    exists k :: 0 <= k < |participants| && Lower(participants[k]) == Lower(p) && weights[k] > 0
  }

  lemma ListedIffWeighs(participants: seq<Address>, weights: seq<int>, p: Address)
    requires |participants| == |weights| && Distinct(participants)
    ensures ListedWithWeight(participants, weights, p) <==> HasWeight(participants, weights, p)
  {
    if k :| 0 <= k < |participants| && Lower(participants[k]) == Lower(p) && weights[k] > 0 {
      assert Weighs(participants, weights, k, p);
    }
    if k: nat :| Weighs(participants, weights, k, p) {
      assert Lower(participants[k]) == Lower(p);
    }
  }

  /** For different participants, without a word about last places. */
  lemma QuorumDistinctIff(s: StoredSession, signers: seq<Option<Address>>)
    requires |s.participants| < 0x1_0000_0000 && Distinct(s.participants)
    ensures QuorumVerdict(s, signers) == Accepted <==>
              && (forall i :: 0 <= i < |signers| ==> signers[i].Some?)
              && (forall i, j :: 0 <= i < j < |signers| ==> Lower(signers[i].value) != Lower(signers[j].value))
              && (forall i :: 0 <= i < |signers| ==> ListedWithWeight(s.participants, s.weights, signers[i].value))
              && PlainWeight(s.participants, s.weights, signers, |s.participants|) >= s.quorum
  {
    QuorumIff(s, signers);
    DistinctIsPlain(s.participants, s.weights, signers, |s.participants|);
    forall p { ListedIffWeighs(s.participants, s.weights, p); }
  }

  // ----- What a create is answered -----

  /** The row moves no negative amount, has its participant's signature if it moves any, and is covered. */
  predicate RowPayable(rows: seq<Entry>, allocs: seq<Allocation>, signers: seq<Option<Address>>, i: nat)
    requires i < |allocs|
  {
    var al := allocs[i];
    && al.amount >= 0
    && (al.amount > 0 ==> exists j :: 0 <= j < |signers| && signers[j].Some? && signers[j].value == al.participant)
    && Requested(allocs, al.participant, al.asset) <= Balance(rows, Key(al.participant, al.participant, al.asset))
  }

  predicate RowsPayable(rows: seq<Entry>, allocs: seq<Allocation>, signers: seq<Option<Address>>) {
    forall i :: 0 <= i < |allocs| ==> RowPayable(rows, allocs, signers, i)
  }

  lemma RowsPayableIff(rows: seq<Entry>, allocs: seq<Allocation>, signers: seq<Option<Address>>)
    ensures RowsPayable(rows, allocs, signers) <==> RowsAuthorized(allocs, signers) && Funded(rows, allocs)
  {
    assert forall i :: 0 <= i < |allocs| ==> allocs[i] in allocs;
    forall p ensures HasSigned(signers, p) <==>
                     exists j :: 0 <= j < |signers| && signers[j].Some? && signers[j].value == p
    {
    }
    if RowsPayable(rows, allocs, signers) {
      forall al | al in allocs
        ensures al.amount >= 0 && (al.amount > 0 ==> HasSigned(signers, al.participant))
        ensures Requested(allocs, al.participant, al.asset) <= Balance(rows, UnifiedKey(al.participant, al.asset))
      {
        var i :| 0 <= i < |allocs| && allocs[i] == al;
        assert RowPayable(rows, allocs, signers, i);
      }
    }
  }

  /** The columns hold the numbers: 63 bits each, and of a weight, taken as a signed word, 32. */
  predicate Storable(def: Definition, timestamp: U64) {
    && def.quorum < 0x8000_0000_0000_0000 && def.challenge < 0x8000_0000_0000_0000
    && def.nonce < 0x8000_0000_0000_0000 && timestamp < 0x8000_0000_0000_0000
    && forall i :: 0 <= i < |def.weights| ==>
         def.weights[i] < 0x8000_0000 || def.weights[i] >= 0xFFFF_FFFF_8000_0000
  }

  lemma StorableIff(req: CreateRequest)
    ensures SessionFits(NewSession(req)) <==> Storable(req.def, req.timestamp)
  {
    var ws := Map<int, int>(req.def.weights, Wrap64);
    forall i | 0 <= i < |ws|
      ensures FitsInteger(ws[i]) <==> req.def.weights[i] < 0x8000_0000 || req.def.weights[i] >= 0xFFFF_FFFF_8000_0000
    {
      WrapShift(req.def.weights[i]);
    }
    assert forall i :: 0 <= i < |ws| ==> ws[i] in ws;
  }

  /** Every answer of a create: the first check that fails decides, and none failing is acceptance. */
  lemma CreateVerdictExact(st: State, req: CreateRequest)
    ensures var n := |req.def.participants|;
            var recovered := forall i :: 0 <= i < |req.signers| ==> req.signers[i].Some?;
            var payable := RowsPayable(st.rows, req.allocs, req.signers);
            var storable := req.id !in st.sessions && Storable(req.def, req.timestamp);
            CreateVerdict(st, req) ==
              if n < 2 then Rejected(TooFewParticipants)
              else if |req.allocs| != n then Rejected(AllocationCount)
              else if |req.def.weights| != n then Rejected(WeightCount)
              else if !recovered then Rejected(InvalidSignature)
              else if !payable then Rejected(RowRejected)
              else if !storable then Rejected(InsertFailed)
              else Accepted
  {
    AllRecover(req.signers);
    RowsPayableIff(st.rows, req.allocs, req.signers);
    StorableIff(req);
  }

  // ----- What a close is answered -----

  /** Every row names a listed address, and no two rows the same one. */
  ghost predicate RowsDiffer(participants: seq<Address>, allocs: seq<Allocation>) {
    && (forall i :: 0 <= i < |allocs| ==> Listed(participants, allocs[i].participant))
    && (forall i, j :: 0 <= i < j < |allocs| ==> Lower(allocs[i].participant) != Lower(allocs[j].participant))
  }

  predicate Listed(participants: seq<Address>, p: Address) {
    exists k :: 0 <= k < |participants| && Lower(participants[k]) == Lower(p)
  }

  lemma ListedIff(participants: seq<Address>, weights: seq<int>, p: Address)
    requires |participants| == |weights|
    ensures Lower(p) in WeightMap(participants, weights) <==> Listed(participants, p)
  {
    WeightMapKeys(participants, weights);
    var listed := Map(participants, Lower);
    assert forall k :: 0 <= k < |participants| ==> listed[k] == Lower(participants[k]) && listed[k] in listed;
    assert Lower(p) in listed ==> exists k :: 0 <= k < |listed| && listed[k] == Lower(p);
  }

  lemma RowsDifferIff(participants: seq<Address>, weights: seq<int>, allocs: seq<Allocation>)
    requires |participants| == |weights|
    ensures RowsListed(WeightMap(participants, weights), allocs) <==> RowsDiffer(participants, allocs)
  {
    var names := Map(allocs, RowName);
    assert forall i :: 0 <= i < |allocs| ==> names[i] == Lower(allocs[i].participant) && allocs[i] in allocs;
    forall p { ListedIff(participants, weights, p); }
  }

  predicate RowsGiven(allocs: seq<Allocation>) {
    forall i :: 0 <= i < |allocs| ==> allocs[i].participant != "" && allocs[i].asset != "" && allocs[i].amount >= 0
  }

  /** Of every asset that a row names, the rows pay what the listed participants hold. */
  predicate PaysOutHeld(rows: seq<Entry>, id: Account, participants: seq<Address>, allocs: seq<Allocation>) {
    forall i :: 0 <= i < |allocs| ==>
      Sum(participants, HeldBy(rows, id, allocs[i].asset)) == Sum(allocs, AmountIn(allocs[i].asset))
  }

  lemma GivenIff(allocs: seq<Allocation>)
    ensures RowsComplete(allocs) <==> RowsGiven(allocs)
  {
    assert forall i :: 0 <= i < |allocs| ==> allocs[i] in allocs;
  }

  lemma PaysOutIff(rows: seq<Entry>, id: Account, participants: seq<Address>, allocs: seq<Allocation>)
    ensures Redistributed(rows, id, participants, allocs) <==> PaysOutHeld(rows, id, participants, allocs)
  {
    assert forall i :: 0 <= i < |allocs| ==> allocs[i] in allocs && allocs[i].asset in Named(allocs);
  }

  /** Every answer of a close of a stored session, in the order of the checks. */
  lemma CloseVerdictExact(st: State, req: CloseRequest)
    requires req.id in st.sessions ==> |st.sessions[req.id].participants| < 0x1_0000_0000
    ensures CloseVerdict(st, req) ==
              if req.id == "" || req.allocs == [] then Rejected(MissingParameters)
              else if !RowsGiven(req.allocs) then Rejected(InvalidRow)
              else if req.id !in st.sessions || st.sessions[req.id].status != Open then Rejected(SessionNotOpen)
              else
                var s := st.sessions[req.id];
                if !SignersWeigh(s.participants, s.weights, req.signers) then Rejected(SignatureRejected)
                else if WeightSigned(s.participants, s.weights, req.signers, |s.participants|) < s.quorum then
                  Rejected(QuorumNotMet)
                else if !RowsDiffer(s.participants, req.allocs) then Rejected(AllocationRejected)
                else if |req.allocs| != |s.participants| then Rejected(MissingParticipant)
                else if !PaysOutHeld(st.rows, req.id, s.participants, req.allocs) then Rejected(NotRedistributed)
                else Accepted
  {
    GivenIff(req.allocs);
    if req.id in st.sessions {
      var s := st.sessions[req.id];
      QuorumIff(s, req.signers);
      SignersWeighIff(s.participants, s.weights, req.signers);
      RowsDifferIff(s.participants, s.weights, req.allocs);
      PaysOutIff(st.rows, req.id, s.participants, req.allocs);
    }
  }
}
