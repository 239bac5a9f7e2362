// The shaped bytes of each client over a stratum: buildTransferEvidence of
// cmd/nntpbench/summarize.go.
module TransferEvidence {
  import Ordering
  import opened SummaryFold
  import opened Wrappers

  // --- Sorting byte counts ----------------------------------------------------------------------------------

  predicate Ascending(s: seq<nat>) {
    forall i, j :: 0 <= i < j < |s| ==> s[i] <= s[j]
  }

  function AtMost(): (nat, nat) -> bool {
    (x: nat, y: nat) => x <= y
  }

  // sort.Slice on a copy.
  function SortBytes(bytes: seq<nat>): (sorted: seq<nat>)
    ensures |sorted| == |bytes|
  {
    Ordering.SortBy(bytes, AtMost())
  }

  lemma SortBytesAscending(bytes: seq<nat>)
    ensures Ascending(SortBytes(bytes)) && multiset(SortBytes(bytes)) == multiset(bytes)
  {
    Ordering.SortByAscending(bytes, AtMost());
    AscendingIs(SortBytes(bytes));
  }

  lemma AscendingIs(s: seq<nat>)
    ensures Ascending(s) <==> Ordering.AscendingBy(s, AtMost())
  {
  }

  lemma SomeNumber(bytes: multiset<nat>)
    ensures |bytes| > 0 ==> exists x :: x in bytes
  {
    if forall x :: x !in bytes {
      assert bytes == multiset{};
    }
  }

  lemma {:induction false} ListBytes(bytes: multiset<nat>) returns (s: seq<nat>)
    ensures multiset(s) == bytes
    decreases |bytes|
  {
    s := [];
    if |bytes| != 0 {
      SomeNumber(bytes);
      var x :| x in bytes;
      s := ListBytes(bytes - multiset{x});
      s := s + [x];
    }
  }

  lemma HasSorted(bytes: multiset<nat>)
    ensures exists s: seq<nat> :: Ascending(s) && multiset(s) == bytes
  {
    var s := ListBytes(bytes);
    SortBytesAscending(s);
  }

  // The byte counts in ascending order, whatever order they came in.
  ghost function Sorted(bytes: multiset<nat>): (s: seq<nat>)
    ensures Ascending(s) && multiset(s) == bytes && |s| == |bytes|
  {
    HasSorted(bytes);
    var s: seq<nat> :| Ascending(s) && multiset(s) == bytes;
    assert |multiset(s)| == |s|;
    s
  }

  lemma SortedUnique(bytes: multiset<nat>, s: seq<nat>)
    requires Ascending(s) && multiset(s) == bytes
    ensures s == Sorted(bytes)
  {
    AscendingIs(s);
    AscendingIs(Sorted(bytes));
    Ordering.AscendingUnique(s, Sorted(bytes), AtMost());
  }

  // --- Evidence ---------------------------------------------------------------------------------------------

  datatype Counted = Counted(blocks: nat, requests: nat, distinct: nat, repeated: nat)

  datatype Evidence = Evidence(
    client: int, finished: nat, minimum: nat, median: nat, maximum: nat, census: Option<Counted>)

  ghost function EvidenceOf(client: int, account: Transfers): seq<Evidence> {
    var sorted := Sorted(account.bytes);
    var n := |sorted|;
    if n == 0 then []
    else [Evidence(client, n, sorted[0], sorted[n / 2], sorted[n - 1], CensusOf(account))]
  }

  function CensusOf(account: Transfers): Option<Counted> {
    if account.census > 0 then Some(Counted(account.census, account.requests, account.distinct, account.repeated))
    else None
  }

  // Baseline first; a client without shaped bytes has no entry.
  ghost function TransferOf(transfers: map<Product, Transfers>, s: Stratum, roles: Roles): seq<Evidence> {
    EvidenceOf(roles.baseline, TransfersOf(transfers, Product(s, roles.baseline))) +
    EvidenceOf(roles.candidate, TransfersOf(transfers, Product(s, roles.candidate)))
  }

  method ClientEvidence(lists: map<Product, seq<nat>>, transfers: map<Product, Transfers>, p: Product)
    returns (evidence: seq<Evidence>)
    requires Listed(lists, transfers)
    ensures evidence == EvidenceOf(p.client, TransfersOf(transfers, p))
  {
    var account := TransfersOf(transfers, p);
    if p !in lists || |lists[p]| == 0 {
      NoBytes(account.bytes, if p in lists then lists[p] else []);
      return [];
    }
    var sorted := SortBytes(lists[p]);
    var n := |sorted|;
    SortBytesAscending(lists[p]);
    SortedUnique(account.bytes, sorted);
    evidence := [Evidence(p.client, n, sorted[0], sorted[n / 2], sorted[n - 1], CensusOf(account))];
  }

  lemma NoBytes(bytes: multiset<nat>, list: seq<nat>)
    requires multiset(list) == bytes && |list| == 0
    ensures |Sorted(bytes)| == 0
  {
    assert |multiset(list)| == |list|;
  }

  method BuildTransferEvidence(
    lists: map<Product, seq<nat>>, transfers: map<Product, Transfers>, s: Stratum, roles: Roles)
    returns (evidence: seq<Evidence>)
    requires Listed(lists, transfers)
    ensures evidence == TransferOf(transfers, s, roles)
  {
    hide Listed, EvidenceOf;
    var baseline := ClientEvidence(lists, transfers, Product(s, roles.baseline));
    var candidate := ClientEvidence(lists, transfers, Product(s, roles.candidate));
    evidence := baseline + candidate;
  }

  // At least half of the byte counts, all of which are at most m, or at least m.
  predicate LowHalf(part: multiset<nat>, bytes: multiset<nat>, m: nat) {
    part <= bytes && 2 * |part| >= |bytes| && forall x :: x in part ==> x <= m
  }

  predicate HighHalf(part: multiset<nat>, bytes: multiset<nat>, m: nat) {
    part <= bytes && 2 * |part| >= |bytes| && forall x :: x in part ==> x >= m
  }

  lemma LowerHalf(s: seq<nat>)
    requires |s| > 0 && Ascending(s)
    ensures LowHalf(multiset(s[..|s| / 2 + 1]), multiset(s), s[|s| / 2])
  {
    var n := |s| / 2;
    PartOf(s[..n + 1], s[n + 1..], s);
    AllBelow(s[..n + 1], s[n]);
  }

  lemma UpperHalf(s: seq<nat>)
    requires |s| > 0 && Ascending(s)
    ensures HighHalf(multiset(s[|s| / 2..]), multiset(s), s[|s| / 2])
  {
    var n := |s| / 2;
    PartOf(s[n..], s[..n], s);
    AllAbove(s[n..], s[n]);
  }

  lemma AllBelow(part: seq<nat>, m: nat)
    requires forall i :: 0 <= i < |part| ==> part[i] <= m
    ensures forall x :: x in multiset(part) ==> x <= m
  {
  }

  lemma AllAbove(part: seq<nat>, m: nat)
    requires forall i :: 0 <= i < |part| ==> part[i] >= m
    ensures forall x :: x in multiset(part) ==> x >= m
  {
  }

  lemma PartOf(part: seq<nat>, others: seq<nat>, s: seq<nat>)
    requires s == part + others || s == others + part
    ensures multiset(part) <= multiset(s) && |multiset(part)| == |part|
    ensures |multiset(s)| == |s|
  {
    assert multiset(s) == multiset(part) + multiset(others);
  }

  // What the evidence means: the smallest and the largest byte count of the runs, and a
  // middle one with at least half of them on each side.
  lemma EvidenceMeans(client: int, account: Transfers)
    requires |account.bytes| > 0
    ensures |EvidenceOf(client, account)| == 1
    ensures var e := EvidenceOf(client, account)[0];
            && e.finished == |account.bytes| && e.minimum in account.bytes && e.maximum in account.bytes
            && (forall x :: x in account.bytes ==> e.minimum <= x <= e.maximum)
            && e.median in account.bytes
            && (exists part :: LowHalf(part, account.bytes, e.median))
            && (exists part :: HighHalf(part, account.bytes, e.median))
            && e.client == client && (e.census.None? <==> account.census == 0)
            && (e.census.Some? ==>
                  && e.census.value.blocks == account.census && e.census.value.requests == account.requests
                  && e.census.value.distinct == account.distinct && e.census.value.repeated == account.repeated)
  {
    hide LowHalf, HighHalf;
    var s := Sorted(account.bytes);
    LowerHalf(s);
    UpperHalf(s);
    assert s[0] in multiset(s) && s[|s| / 2] in multiset(s) && s[|s| - 1] in multiset(s);
    forall x | x in account.bytes
      ensures s[0] <= x <= s[|s| - 1]
    {
      assert x in multiset(s);
      var i :| 0 <= i < |s| && s[i] == x;
    }
  }

  // Each client has one entry, if it has shaped bytes: the baseline's comes first.
  lemma TransferOrder(transfers: map<Product, Transfers>, s: Stratum, roles: Roles)
    ensures var b := TransfersOf(transfers, Product(s, roles.baseline));
            var c := TransfersOf(transfers, Product(s, roles.candidate));
            var evidence := TransferOf(transfers, s, roles);
            && |evidence| == (if |b.bytes| > 0 then 1 else 0) + (if |c.bytes| > 0 then 1 else 0)
            && (|b.bytes| > 0 ==> evidence[0] == EvidenceOf(roles.baseline, b)[0])
            && (|c.bytes| > 0 ==> evidence[|evidence| - 1] == EvidenceOf(roles.candidate, c)[0])
  {
    EvidenceLength(roles.baseline, TransfersOf(transfers, Product(s, roles.baseline)));
    EvidenceLength(roles.candidate, TransfersOf(transfers, Product(s, roles.candidate)));
    hide EvidenceOf;
  }

  lemma EvidenceLength(client: int, account: Transfers)
    ensures |EvidenceOf(client, account)| == if |account.bytes| > 0 then 1 else 0
  {
  }
}
