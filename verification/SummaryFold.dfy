// The fold over the artifacts of buildSummaryReport: cmd/nntpbench/summarize.go. Identifiers
// and digests are only compared, so integers stand for them.
module SummaryFold {
  import opened Wrappers

  // A fixture under one setting: profile, target, transport, toolchain, link, storage and article profile.
  datatype Stratum = Stratum(fixture: int, setting: int)

  datatype Product = Product(stratum: Stratum, client: int)

  // A storage profile; nfs: its kind.
  datatype Storage = Storage(id: int, nfs: bool)

  // The declared workload axes of a fixture; other stands for the axes no subgroup uses.
  datatype Case = Case(repairProfile: string, encryption: string, other: int)

  // A TLS validation and its label.
  datatype Policy = Policy(validation: int, labelled: int)

  // A client build, with the policy and the configuration it ran under. A configuration names
  // paths of its fixture, so builds are compared across fixtures without it.
  datatype Build = Build(identity: int, policy: Policy, config: int)

  const NO_CONFIG := 0

  // Where a counter was read: its window, scope, collector and collector version.
  datatype Provenance = Provenance(window: int, scope: int, collector: int, version: int)

  datatype Reading = Measured(provenance: Provenance, value: real) | Unavailable(reason: int)

  // What the shaper saw of one run: the bytes it delivered, none when the link is not shaped,
  // and the client's article requests where it counted them.
  datatype Census = Census(requests: nat, distinct: nat, repeated: nat)

  datatype Transfer = Transfer(bytes: nat, census: Option<Census>)

  datatype Outcome =
    | DidNotFinish
    | Finished(
        duration: real, uncertainty: real, cpu: Reading, rss: Reading, writes: Reading, caveats: set<int>,
        transfer: Transfer)

  // The verified output of an external fixture, which every run of it must share.
  datatype Output = Unpinned | Output(digest: int)

  // What the fold reads of one artifact. sound: the checks that look at this artifact alone
  // and apply to every client; usable: those that apply to the two compared clients.
  datatype Artifact = Artifact(
    sound: bool, usable: bool, storage: Storage, pinned: Output, client: int, stratum: Stratum, repetition: int,
    workload: int, infrastructure: int, fixtureClass: int, declared: Case, encoding: int, build: Build, outcome: Outcome)

  datatype Roles = Roles(baseline: int, candidate: int)

  // What all artifacts must agree on. Each kind of fact is a map of its own in the source.
  datatype Fact =
    | StorageProfile
    | Pinned(fixture: int)
    | Workload(stratum: Stratum)
    | Infrastructure(stratum: Stratum)
    | ClassOf(fixture: int)
    | CaseOf(fixture: int)
    | EncodingOf(fixture: int)
    | BuildOf(product: Product)
    | Aggregated(fixtureClass: int, setting: int, client: int)

  datatype Value = Digest(id: int) | Declared(declared: Case) | Built(build: Build) | Stored(storage: Storage)

  datatype Side = Absent | Unfinished | Timed(duration: real, uncertainty: real, cpu: Counter, rss: Counter, writes: Counter)

  datatype Counter = NoCount | Count(value: real)

  datatype Block = Block(baseline: Side, candidate: Side)

  // How one client's counter was collected over a stratum: the number of blocks for each
  // provenance, and what was unavailable.
  datatype Account = Account(measured: multiset<Provenance>, unavailable: nat, reasons: set<int>)

  datatype Accounts = Accounts(cpu: Account, rss: Account, writes: Account)

  // One client's shaped transfers over a stratum: the byte counts of its runs in whatever
  // order they came, and the sums of the censuses.
  datatype Transfers = Transfers(bytes: multiset<nat>, census: nat, requests: nat, distinct: nat, repeated: nat)

  datatype Tables = Tables(
    facts: map<Fact, Value>, groups: map<Stratum, map<int, Block>>, accounts: map<Product, Accounts>,
    caveats: map<Stratum, set<int>>, transfers: map<Product, Transfers>)

  datatype Folded = Refused | Folded(tables: Tables)

  const NO_TABLES := Tables(map[], map[], map[], map[], map[])

  // --- One artifact ---------------------------------------------------------------------------------------

  predicate Compared(roles: Roles, a: Artifact) {
    a.client == roles.baseline || a.client == roles.candidate
  }

  // The facts an artifact states: two for every artifact, the others for the compared clients.
  function FactsOf(roles: Roles, a: Artifact): map<Fact, Value> {
    CommonFacts(a) + if Compared(roles, a) then ComparedFacts(a) else map[]
  }

  function CommonFacts(a: Artifact): map<Fact, Value> {
    map[StorageProfile := Stored(a.storage)] +
    if a.pinned.Unpinned? then map[] else map[Pinned(a.stratum.fixture) := Digest(a.pinned.digest)]
  }

  function RunFacts(a: Artifact): map<Fact, Value> {
    map[Workload(a.stratum) := Digest(a.workload), Infrastructure(a.stratum) := Digest(a.infrastructure)]
  }

  function FixtureFacts(a: Artifact): map<Fact, Value> {
    map[ClassOf(a.stratum.fixture) := Digest(a.fixtureClass),
        CaseOf(a.stratum.fixture) := Declared(a.declared),
        EncodingOf(a.stratum.fixture) := Digest(a.encoding)]
  }

  function ProductFacts(a: Artifact): map<Fact, Value> {
    map[BuildOf(Product(a.stratum, a.client)) := Built(a.build),
        Aggregated(a.fixtureClass, a.stratum.setting, a.client) := Built(a.build.(config := NO_CONFIG))]
  }

  function ComparedFacts(a: Artifact): map<Fact, Value> {
    RunFacts(a) + (FixtureFacts(a) + ProductFacts(a))
  }

  predicate Agree<K, V(==)>(m: map<K, V>, f: map<K, V>) {
    forall k :: k in m && k in f ==> m[k] == f[k]
  }

  function BlocksOf(groups: map<Stratum, map<int, Block>>, s: Stratum): map<int, Block> {
    if s in groups then groups[s] else map[]
  }

  function BlockOf(groups: map<Stratum, map<int, Block>>, s: Stratum, repetition: int): Block {
    var blocks := BlocksOf(groups, s);
    if repetition in blocks then blocks[repetition] else Block(Absent, Absent)
  }

  function Get(b: Block, baseline: bool): Side {
    if baseline then b.baseline else b.candidate
  }

  function Set(b: Block, baseline: bool, side: Side): Block {
    if baseline then b.(baseline := side) else b.(candidate := side)
  }

  predicate Vacant(groups: map<Stratum, map<int, Block>>, roles: Roles, a: Artifact) {
    Get(BlockOf(groups, a.stratum, a.repetition), a.client == roles.baseline).Absent?
  }

  function CounterOf(r: Reading): Counter {
    if r.Measured? then Count(r.value) else NoCount
  }

  function SideOf(o: Outcome): Side {
    match o
    case DidNotFinish => Unfinished
    case Finished(duration, uncertainty, cpu, rss, writes, _, _) =>
      Timed(duration, uncertainty, CounterOf(cpu), CounterOf(rss), CounterOf(writes))
  }

  function Put(groups: map<Stratum, map<int, Block>>, roles: Roles, a: Artifact): map<Stratum, map<int, Block>> {
    var block := Set(BlockOf(groups, a.stratum, a.repetition), a.client == roles.baseline, SideOf(a.outcome));
    groups[a.stratum := BlocksOf(groups, a.stratum)[a.repetition := block]]
  }

  function Entered(account: Account, r: Reading): Account {
    match r
    case Measured(provenance, _) => account.(measured := account.measured + multiset{provenance})
    case Unavailable(reason) =>
      account.(unavailable := account.unavailable + 1, reasons := account.reasons + {reason})
  }

  const NO_ACCOUNT := Account(multiset{}, 0, {})

  function AccountsOf(accounts: map<Product, Accounts>, p: Product): Accounts {
    if p in accounts then accounts[p] else Accounts(NO_ACCOUNT, NO_ACCOUNT, NO_ACCOUNT)
  }

  function Tallied(accounts: map<Product, Accounts>, a: Artifact): map<Product, Accounts> {
    match a.outcome
    case DidNotFinish => accounts
    case Finished(_, _, cpu, rss, writes, _, _) =>
      var p := Product(a.stratum, a.client);
      var prior := AccountsOf(accounts, p);
      accounts[p := Accounts(Entered(prior.cpu, cpu), Entered(prior.rss, rss), Entered(prior.writes, writes))]
  }

  function Noted(caveats: map<Stratum, set<int>>, a: Artifact): map<Stratum, set<int>> {
    if a.outcome.DidNotFinish? || a.outcome.caveats == {} then caveats
    else caveats[a.stratum := (if a.stratum in caveats then caveats[a.stratum] else {}) + a.outcome.caveats]
  }

  const NO_TRANSFERS := Transfers(multiset{}, 0, 0, 0, 0)

  function TransfersOf(transfers: map<Product, Transfers>, p: Product): Transfers {
    if p in transfers then transfers[p] else NO_TRANSFERS
  }

  function Taken(account: Transfers, x: Transfer): Transfers {
    var account := account.(bytes := account.bytes + multiset{x.bytes});
    match x.census
    case None => account
    case Some(c) =>
      account.(census := account.census + 1, requests := account.requests + c.requests,
               distinct := account.distinct + c.distinct, repeated := account.repeated + c.repeated)
  }

  // A finished run over a shaped link.
  predicate Shaped(o: Outcome) {
    o.Finished? && o.transfer.bytes > 0
  }

  function Carried(transfers: map<Product, Transfers>, a: Artifact): map<Product, Transfers> {
    if !Shaped(a.outcome) then transfers
    else
      var p := Product(a.stratum, a.client);
      transfers[p := Taken(TransfersOf(transfers, p), a.outcome.transfer)]
  }

  // The rule on a measurement: a positive duration, and an uncertainty of at most one hundredth
  // of it or 250 ms, whichever is larger. Durations are whole nanoseconds.
  const UNCERTAINTY_FLOOR := 250000000.0

  predicate Acceptable(uncertainty: real, duration: real) {
    uncertainty >= 0.0 && duration > 0.0 &&
    (uncertainty <= (duration / 100.0).Floor as real || uncertainty <= UNCERTAINTY_FLOOR)
  }

  // The rule in whole nanoseconds.
  lemma AcceptableExactly(u: int, d: int)
    ensures Acceptable(u as real, d as real) <==> 0 <= u && 0 < d && (100 * u <= d || u <= 250000000)
  {
    var q := (d as real / 100.0).Floor;
    assert q as real <= d as real / 100.0 < q as real + 1.0;
    HundredthPart(d, q);
  }

  lemma HundredthPart(d: int, q: int)
    requires q as real <= d as real / 100.0 < q as real + 1.0
    ensures 100 * q <= d < 100 * q + 100
  {
  }

  predicate Measurable(o: Outcome) {
    o.Finished? ==> Acceptable(o.uncertainty, o.duration)
  }

  // Whether an artifact is accepted after others, and what it adds.
  predicate Accepted(roles: Roles, t: Tables, a: Artifact) {
    && a.sound && Agree(t.facts, FactsOf(roles, a))
    && (Compared(roles, a) ==> a.usable && Measurable(a.outcome) && Vacant(t.groups, roles, a))
  }

  function Added(roles: Roles, t: Tables, a: Artifact): Tables {
    var facts := t.facts + FactsOf(roles, a);
    if !Compared(roles, a) then t.(facts := facts)
    else
      Tables(facts, Put(t.groups, roles, a), Tallied(t.accounts, a), Noted(t.caveats, a), Carried(t.transfers, a))
  }

  function Step(roles: Roles, f: Folded, a: Artifact): Folded {
    match f
    case Refused => Refused
    case Folded(t) => if Accepted(roles, t, a) then Folded(Added(roles, t, a)) else Refused
  }

  function Fold(roles: Roles, artifacts: seq<Artifact>): Folded {
    if |artifacts| == 0 then Folded(NO_TABLES)
    else Step(roles, Fold(roles, artifacts[..|artifacts| - 1]), artifacts[|artifacts| - 1])
  }

  // --- Two artifacts in either order ----------------------------------------------------------------------

  lemma AgreeTwice<K, V>(m: map<K, V>, f: map<K, V>, g: map<K, V>)
    ensures Agree(m, f) && Agree(m + f, g) <==> Agree(m, f) && Agree(m, g) && Agree(f, g)
    ensures Agree(f, g) ==> m + f + g == m + g + f
  {
    if Agree(m, f) && Agree(m + f, g) {
      assert forall k :: k in m && k in g ==> (m + f)[k] == g[k];
      assert forall k :: k in f && k in g ==> (m + f)[k] == g[k];
    }
  }

  lemma AgreeBack<K, V>(f: map<K, V>, g: map<K, V>)
    ensures Agree(f, g) <==> Agree(g, f)
  {
  }

  // Whether two artifacts compete for one place.
  predicate SamePlace(roles: Roles, a: Artifact, b: Artifact) {
    a.stratum == b.stratum && a.repetition == b.repetition &&
    (a.client == roles.baseline <==> b.client == roles.baseline)
  }

  lemma PutTwice(groups: map<Stratum, map<int, Block>>, roles: Roles, a: Artifact, b: Artifact)
    ensures Vacant(Put(groups, roles, a), roles, b) <==> Vacant(groups, roles, b) && !SamePlace(roles, a, b)
    ensures !SamePlace(roles, a, b) ==> Put(Put(groups, roles, a), roles, b) == Put(Put(groups, roles, b), roles, a)
  {
    if !SamePlace(roles, a, b) {
      var x, y := Put(Put(groups, roles, a), roles, b), Put(Put(groups, roles, b), roles, a);
      assert x.Keys == y.Keys;
      forall s | s in x
        ensures x[s] == y[s]
      {
        PutAt(groups, roles, a, b, s);
      }
    }
  }

  lemma PutAt(groups: map<Stratum, map<int, Block>>, roles: Roles, a: Artifact, b: Artifact, s: Stratum)
    requires !SamePlace(roles, a, b)
    ensures BlocksOf(Put(Put(groups, roles, a), roles, b), s) == BlocksOf(Put(Put(groups, roles, b), roles, a), s)
  {
  }

  lemma EnteredTwice(account: Account, r: Reading, q: Reading)
    ensures Entered(Entered(account, r), q) == Entered(Entered(account, q), r)
  {
    if r.Measured? && q.Measured? {
      assert account.measured + multiset{r.provenance} + multiset{q.provenance} ==
             account.measured + multiset{q.provenance} + multiset{r.provenance};
    } else if r.Unavailable? && q.Unavailable? {
      assert account.reasons + {r.reason} + {q.reason} == account.reasons + {q.reason} + {r.reason};
    }
  }

  lemma TalliedTwice(accounts: map<Product, Accounts>, a: Artifact, b: Artifact)
    ensures Tallied(Tallied(accounts, a), b) == Tallied(Tallied(accounts, b), a)
  {
    hide Entered;
    if a.outcome.Finished? && b.outcome.Finished? {
      var prior := AccountsOf(accounts, Product(a.stratum, a.client));
      EnteredTwice(prior.cpu, a.outcome.cpu, b.outcome.cpu);
      EnteredTwice(prior.rss, a.outcome.rss, b.outcome.rss);
      EnteredTwice(prior.writes, a.outcome.writes, b.outcome.writes);
    }
  }

  lemma NotedTwice(caveats: map<Stratum, set<int>>, a: Artifact, b: Artifact)
    ensures Noted(Noted(caveats, a), b) == Noted(Noted(caveats, b), a)
  {
    var x, y := Noted(Noted(caveats, a), b), Noted(Noted(caveats, b), a);
    assert x.Keys == y.Keys;
    forall s | s in x
      ensures x[s] == y[s]
    {
    }
  }

  lemma TakenTwice(account: Transfers, x: Transfer, y: Transfer)
    ensures Taken(Taken(account, x), y) == Taken(Taken(account, y), x)
  {
    assert account.bytes + multiset{x.bytes} + multiset{y.bytes} == account.bytes + multiset{y.bytes} + multiset{x.bytes};
  }

  lemma CarriedTwice(transfers: map<Product, Transfers>, a: Artifact, b: Artifact)
    ensures Carried(Carried(transfers, a), b) == Carried(Carried(transfers, b), a)
  {
    hide Taken;
    if Shaped(a.outcome) && Shaped(b.outcome) {
      TakenTwice(TransfersOf(transfers, Product(a.stratum, a.client)), a.outcome.transfer, b.outcome.transfer);
    }
  }

  // What is asked of one artifact, and of two.
  predicate Usable(roles: Roles, a: Artifact) {
    a.sound && (Compared(roles, a) ==> a.usable && Measurable(a.outcome))
  }

  predicate Consistent(roles: Roles, a: Artifact, b: Artifact) {
    && Agree(FactsOf(roles, a), FactsOf(roles, b))
    && !(Compared(roles, a) && Compared(roles, b) && SamePlace(roles, a, b))
  }

  predicate Fits(roles: Roles, t: Tables, x: Artifact) {
    Agree(t.facts, FactsOf(roles, x)) && (Compared(roles, x) ==> Vacant(t.groups, roles, x))
  }

  lemma FitsAdded(roles: Roles, t: Tables, a: Artifact, x: Artifact)
    requires Accepted(roles, t, a)
    ensures Fits(roles, Added(roles, t, a), x) <==> Fits(roles, t, x) && Consistent(roles, a, x)
  {
    hide FactsOf, Agree, Put, Vacant, Tallied, Noted, Carried, SamePlace, Measurable;
    AgreeTwice(t.facts, FactsOf(roles, a), FactsOf(roles, x));
    PutTwice(t.groups, roles, a, x);
  }

  lemma AcceptedFits(roles: Roles, t: Tables, a: Artifact)
    ensures Accepted(roles, t, a) <==> Usable(roles, a) && Fits(roles, t, a)
  {
  }

  lemma ConsistentBack(roles: Roles, a: Artifact, b: Artifact)
    ensures Consistent(roles, a, b) <==> Consistent(roles, b, a)
  {
    hide FactsOf, Agree, SamePlace;
    AgreeBack(FactsOf(roles, a), FactsOf(roles, b));
    SamePlaceBack(roles, a, b);
  }

  lemma AcceptedTwice(roles: Roles, t: Tables, a: Artifact, b: Artifact)
    requires Accepted(roles, t, a)
    ensures Accepted(roles, Added(roles, t, a), b) <==> Accepted(roles, t, b) && Consistent(roles, a, b)
  {
    FitsAdded(roles, t, a, b);
    AcceptedFits(roles, t, b);
    AcceptedFits(roles, Added(roles, t, a), b);
    hide *;
  }

  lemma AddedParts(roles: Roles, t: Tables, a: Artifact)
    ensures var x := Added(roles, t, a);
            && x.facts == t.facts + FactsOf(roles, a)
            && x.groups == (if Compared(roles, a) then Put(t.groups, roles, a) else t.groups)
            && x.accounts == (if Compared(roles, a) then Tallied(t.accounts, a) else t.accounts)
            && x.caveats == (if Compared(roles, a) then Noted(t.caveats, a) else t.caveats)
            && x.transfers == (if Compared(roles, a) then Carried(t.transfers, a) else t.transfers)
  {
    hide FactsOf, Put, Tallied, Noted, Carried;
  }

  lemma AddedTwice(roles: Roles, t: Tables, a: Artifact, b: Artifact)
    requires Consistent(roles, a, b)
    ensures Added(roles, Added(roles, t, a), b) == Added(roles, Added(roles, t, b), a)
  {
    hide FactsOf, Agree, Put, Vacant, Tallied, Noted, Carried, SamePlace, Added, Compared;
    AgreeTwice(t.facts, FactsOf(roles, a), FactsOf(roles, b));
    AddedParts(roles, t, a);
    AddedParts(roles, t, b);
    AddedParts(roles, Added(roles, t, a), b);
    AddedParts(roles, Added(roles, t, b), a);
    if Compared(roles, a) && Compared(roles, b) {
      PutTwice(t.groups, roles, a, b);
      TalliedTwice(t.accounts, a, b);
      NotedTwice(t.caveats, a, b);
      CarriedTwice(t.transfers, a, b);
    }
  }

  lemma StepsCommute(roles: Roles, f: Folded, a: Artifact, b: Artifact)
    ensures Step(roles, Step(roles, f, a), b) == Step(roles, Step(roles, f, b), a)
  {
    hide Accepted, Added, Consistent;
    if f.Folded? {
      var t := f.tables;
      ConsistentBack(roles, a, b);
      if Accepted(roles, t, a) {
        AcceptedTwice(roles, t, a, b);
      }
      if Accepted(roles, t, b) {
        AcceptedTwice(roles, t, b, a);
      }
      if Consistent(roles, a, b) {
        AddedTwice(roles, t, a, b);
      }
    }
  }

  lemma SamePlaceBack(roles: Roles, a: Artifact, b: Artifact)
    ensures SamePlace(roles, a, b) <==> SamePlace(roles, b, a)
  {
  }

  // --- Any order --------------------------------------------------------------------------------------------

  lemma FoldAppend(roles: Roles, s: seq<Artifact>, x: Artifact)
    ensures Fold(roles, s + [x]) == Step(roles, Fold(roles, s), x)
  {
    hide Step;
    assert (s + [x])[..|s|] == s;
  }

  // An artifact may be taken last.
  lemma {:induction false} TakenLast(roles: Roles, before: seq<Artifact>, a: Artifact, after: seq<Artifact>)
    ensures Fold(roles, before + [a] + after) == Fold(roles, before + after + [a])
    decreases |after|
  {
    hide Step, Fold;
    if |after| == 0 {
      assert before + [a] + after == before + after + [a];
    } else {
      var n := |after| - 1;
      var b, less := after[n], after[..n];
      TakenLast(roles, before, a, less);
      assert after == less + [b];
      assert before + [a] + after == before + [a] + less + [b];
      assert before + after + [a] == before + less + [b] + [a];
      FoldAppend(roles, before + [a] + less, b);
      FoldAppend(roles, before + less, a);
      FoldAppend(roles, before + less, b);
      FoldAppend(roles, before + less + [b], a);
      StepsCommute(roles, Fold(roles, before + less), a, b);
    }
  }

  lemma Removed(a: seq<Artifact>, x: Artifact, before: seq<Artifact>, after: seq<Artifact>)
    requires multiset(a + [x]) == multiset(before + [x] + after)
    ensures multiset(a) == multiset(before + after)
  {
    assert multiset(a + [x]) == multiset(a) + multiset{x};
    assert multiset(before + [x] + after) == multiset(before) + multiset{x} + multiset(after);
    assert multiset(before + after) == multiset(before) + multiset(after);
    assert multiset(a) == multiset(a + [x]) - multiset{x};
  }

  // The fold does not depend on the order of the artifacts: neither what it refuses nor what
  // it collects.
  lemma {:induction false} OrderIrrelevant(roles: Roles, a: seq<Artifact>, b: seq<Artifact>)
    requires multiset(a) == multiset(b)
    ensures Fold(roles, a) == Fold(roles, b)
    decreases |a|
  {
    hide Step, Fold;
    assert |a| == |multiset(a)| == |multiset(b)| == |b|;
    if |a| == 0 {
      assert a == b;
    } else {
      var n := |a| - 1;
      var x, less := a[n], a[..n];
      assert a == less + [x];
      assert x in a;
      assert x in multiset(b);
      var i :| 0 <= i < |b| && b[i] == x;
      var before, after := b[..i], b[i + 1..];
      assert b == before + [x] + after;
      Removed(less, x, before, after);
      OrderIrrelevant(roles, less, before + after);
      TakenLast(roles, before, x, after);
      FoldAppend(roles, less, x);
      FoldAppend(roles, before + after, x);
    }
  }

  // --- What is accepted ---------------------------------------------------------------------------------------

  lemma {:induction false} FitsFold(roles: Roles, s: seq<Artifact>, x: Artifact)
    requires Fold(roles, s).Folded?
    ensures Fits(roles, Fold(roles, s).tables, x) <==> forall i :: 0 <= i < |s| ==> Consistent(roles, s[i], x)
  {
    hide Consistent, Fits, Accepted, Added;
    if |s| == 0 {
      FitsNothing(roles, x);
    } else {
      var n := |s| - 1;
      FitsFold(roles, s[..n], x);
      FitsAdded(roles, Fold(roles, s[..n]).tables, s[n], x);
      assert forall i :: 0 <= i < n ==> s[..n][i] == s[i];
    }
  }

  lemma FitsNothing(roles: Roles, x: Artifact)
    ensures Fits(roles, NO_TABLES, x)
  {
  }

  // The fold accepts exactly the artifacts that are usable on their own and consistent two by
  // two: the maps of earlier values catch every disagreement.
  lemma {:induction false} FoldAccepts(roles: Roles, s: seq<Artifact>)
    ensures Fold(roles, s).Folded? <==>
              && (forall i :: 0 <= i < |s| ==> Usable(roles, s[i]))
              && (forall i, j :: 0 <= i < j < |s| ==> Consistent(roles, s[i], s[j]))
  {
    hide Consistent, Fits, Agree, Vacant, Added;
    if |s| != 0 {
      var n := |s| - 1;
      var less := s[..n];
      FoldAccepts(roles, less);
      assert forall i :: 0 <= i < n ==> less[i] == s[i];
      if Fold(roles, less).Folded? {
        FitsFold(roles, less, s[n]);
        AcceptedFits(roles, Fold(roles, less).tables, s[n]);
      }
    }
  }

  // --- The loop -------------------------------------------------------------------------------------------------

  // A map of earlier values: the fact is refused when it differs from the one recorded.
  method Record(facts: map<Fact, Value>, fact: Fact, value: Value) returns (ok: bool, after: map<Fact, Value>)
    ensures ok <==> Agree(facts, map[fact := value])
    ensures after == facts + map[fact := value]
  {
    ok := !(fact in facts && facts[fact] != value);
    after := facts[fact := value];
  }

  method RecordCommon(facts: map<Fact, Value>, a: Artifact) returns (ok: bool, after: map<Fact, Value>)
    ensures ok <==> Agree(facts, CommonFacts(a))
    ensures ok ==> after == facts + CommonFacts(a)
  {
    ok, after := Record(facts, StorageProfile, Stored(a.storage));
    if ok && a.pinned.Output? {
      ok, after := Record(after, Pinned(a.stratum.fixture), Digest(a.pinned.digest));
    }
  }

  method RecordRun(facts: map<Fact, Value>, a: Artifact) returns (ok: bool, after: map<Fact, Value>)
    ensures ok <==> Agree(facts, RunFacts(a))
    ensures ok ==> after == facts + RunFacts(a)
  {
    ok, after := Record(facts, Workload(a.stratum), Digest(a.workload));
    if ok {
      ok, after := Record(after, Infrastructure(a.stratum), Digest(a.infrastructure));
    }
  }

  method RecordFixture(facts: map<Fact, Value>, a: Artifact) returns (ok: bool, after: map<Fact, Value>)
    ensures ok <==> Agree(facts, FixtureFacts(a))
    ensures ok ==> after == facts + FixtureFacts(a)
  {
    hide Agree;
    FixtureKinds(facts, a);
    ok, after := Record(facts, ClassOf(a.stratum.fixture), Digest(a.fixtureClass));
    if ok {
      ok, after := Record(after, CaseOf(a.stratum.fixture), Declared(a.declared));
    }
    if ok {
      ok, after := Record(after, EncodingOf(a.stratum.fixture), Digest(a.encoding));
    }
  }

  lemma FixtureKinds(facts: map<Fact, Value>, a: Artifact)
    ensures var c := map[ClassOf(a.stratum.fixture) := Digest(a.fixtureClass)];
            var d := map[CaseOf(a.stratum.fixture) := Declared(a.declared)];
            var e := map[EncodingOf(a.stratum.fixture) := Digest(a.encoding)];
            && (Agree(facts, FixtureFacts(a)) <==> Agree(facts, c) && Agree(facts + c, d) && Agree(facts + c + d, e))
            && facts + FixtureFacts(a) == facts + c + d + e
  {
    hide Agree;
    var c := map[ClassOf(a.stratum.fixture) := Digest(a.fixtureClass)];
    var d := map[CaseOf(a.stratum.fixture) := Declared(a.declared)];
    var e := map[EncodingOf(a.stratum.fixture) := Digest(a.encoding)];
    assert FixtureFacts(a) == c + (d + e);
    AgreeUnion(facts, c, d + e);
    AgreeTwice(facts, c, d + e);
    AgreeUnion(facts + c, d, e);
    AgreeTwice(facts + c, d, e);
  }

  method RecordProduct(facts: map<Fact, Value>, a: Artifact) returns (ok: bool, after: map<Fact, Value>)
    ensures ok <==> Agree(facts, ProductFacts(a))
    ensures ok ==> after == facts + ProductFacts(a)
  {
    ok, after := Record(facts, BuildOf(Product(a.stratum, a.client)), Built(a.build));
    if ok {
      ok, after := Record(after, Aggregated(a.fixtureClass, a.stratum.setting, a.client),
        Built(a.build.(config := NO_CONFIG)));
    }
  }

  method RecordCompared(facts: map<Fact, Value>, a: Artifact) returns (ok: bool, after: map<Fact, Value>)
    ensures ok <==> Agree(facts, ComparedFacts(a))
    ensures ok ==> after == facts + ComparedFacts(a)
  {
    hide Agree, RunFacts, FixtureFacts, ProductFacts;
    ComparedKinds(a);
    var r, f, p := RunFacts(a), FixtureFacts(a), ProductFacts(a);
    AgreeUnion(facts, r, f + p);
    AgreeTwice(facts, r, f + p);
    AgreeUnion(facts + r, f, p);
    AgreeTwice(facts + r, f, p);
    ok, after := RecordRun(facts, a);
    if ok {
      ok, after := RecordFixture(after, a);
    }
    if ok {
      ok, after := RecordProduct(after, a);
    }
  }

  lemma ComparedKinds(a: Artifact)
    ensures forall k :: k in RunFacts(a) ==> k !in FixtureFacts(a) + ProductFacts(a)
    ensures forall k :: k in FixtureFacts(a) ==> k !in ProductFacts(a)
  {
  }

  // The byte counts as the source keeps them: one list per client and stratum, in the order
  // of the artifacts.
  ghost predicate Listed(lists: map<Product, seq<nat>>, transfers: map<Product, Transfers>) {
    lists.Keys == transfers.Keys && forall p :: p in lists ==> multiset(lists[p]) == transfers[p].bytes
  }

  method AppendBytes(lists: map<Product, seq<nat>>, ghost transfers: map<Product, Transfers>, a: Artifact)
    returns (after: map<Product, seq<nat>>)
    requires Listed(lists, transfers)
    ensures Listed(after, Carried(transfers, a))
  {
    after := lists;
    if a.outcome.Finished? && a.outcome.transfer.bytes > 0 {
      var p := Product(a.stratum, a.client);
      after := lists[p := (if p in lists then lists[p] else []) + [a.outcome.transfer.bytes]];
    }
  }

  method FoldArtifacts(roles: Roles, artifacts: seq<Artifact>) returns (result: Folded, lists: map<Product, seq<nat>>)
    ensures result == Fold(roles, artifacts)
    ensures result.Folded? ==> Listed(lists, result.tables.transfers)
  {
    hide Agree, CommonFacts, ComparedFacts, Put, Vacant, Tallied, Noted, Carried, Listed, Measurable, Step, Fold;
    NothingFolded(roles);
    var t := NO_TABLES;
    lists := map[];
    NothingListed();
    for i := 0 to |artifacts|
      invariant Fold(roles, artifacts[..i]) == Folded(t) && Listed(lists, t.transfers)
    {
      var a := artifacts[i];
      assert artifacts[..i + 1] == artifacts[..i] + [a];
      FoldAppend(roles, artifacts[..i], a);
      StepParts(roles, t, a);
      if !a.sound {
        RefusedStays(roles, artifacts, i + 1);
        return Refused, lists;
      }
      var ok, facts := RecordCommon(t.facts, a);
      if !ok {
        RefusedStays(roles, artifacts, i + 1);
        return Refused, lists;
      }
      if a.client != roles.baseline && a.client != roles.candidate {
        t := t.(facts := facts);
        continue;
      }
      if !a.usable || !Measurable(a.outcome) {
        RefusedStays(roles, artifacts, i + 1);
        return Refused, lists;
      }
      ok, facts := RecordCompared(facts, a);
      if !ok || !Vacant(t.groups, roles, a) {
        RefusedStays(roles, artifacts, i + 1);
        return Refused, lists;
      }
      lists := AppendBytes(lists, t.transfers, a);
      t := Tables(
        facts, Put(t.groups, roles, a), Tallied(t.accounts, a), Noted(t.caveats, a), Carried(t.transfers, a));
    }
    assert artifacts[..|artifacts|] == artifacts;
    result := Folded(t);
  }

  lemma NothingFolded(roles: Roles)
    ensures Fold(roles, []) == Folded(NO_TABLES)
  {
  }

  // The order in which the loop body asks.
  lemma StepParts(roles: Roles, t: Tables, a: Artifact)
    ensures Step(roles, Folded(t), a) ==
              if !a.sound || !Agree(t.facts, CommonFacts(a)) then Refused
              else if !Compared(roles, a) then Folded(t.(facts := t.facts + CommonFacts(a)))
              else if !a.usable || !Measurable(a.outcome) || !Agree(t.facts + CommonFacts(a), ComparedFacts(a)) ||
                      !Vacant(t.groups, roles, a)
              then Refused
              else Folded(Tables(t.facts + CommonFacts(a) + ComparedFacts(a), Put(t.groups, roles, a),
                                 Tallied(t.accounts, a), Noted(t.caveats, a), Carried(t.transfers, a)))
  {
    hide Agree, CommonFacts, ComparedFacts, FactsOf, Put, Vacant, Tallied, Noted, Carried, Measurable;
    FactsSplit(roles, t.facts, a);
  }

  lemma NothingListed()
    ensures Listed(map[], map[])
  {
  }

  lemma AgreeUnion<K, V>(m: map<K, V>, c: map<K, V>, d: map<K, V>)
    requires forall k :: k in c ==> k !in d
    ensures Agree(m, c + d) <==> Agree(m, c) && Agree(m, d)
    ensures Agree(c, d) && m + (c + d) == m + c + d
  {
    assert forall k :: k in c ==> (c + d)[k] == c[k];
    assert forall k :: k in d ==> (c + d)[k] == d[k];
  }

  lemma KindsDiffer(a: Artifact)
    ensures forall k :: k in CommonFacts(a) ==> k !in ComparedFacts(a)
  {
    assert forall k :: k in CommonFacts(a) ==> k.StorageProfile? || k.Pinned?;
    assert forall k :: k in ComparedFacts(a) ==> !k.StorageProfile? && !k.Pinned?;
  }

  lemma FactsSplit(roles: Roles, facts: map<Fact, Value>, a: Artifact)
    ensures var f := FactsOf(roles, a);
            && (Compared(roles, a) ==>
                  && (Agree(facts, f) <==>
                        Agree(facts, CommonFacts(a)) && Agree(facts + CommonFacts(a), ComparedFacts(a)))
                  && facts + f == facts + CommonFacts(a) + ComparedFacts(a))
            && (!Compared(roles, a) ==> f == CommonFacts(a))
  {
    hide Agree, CommonFacts, ComparedFacts;
    var c, d := CommonFacts(a), ComparedFacts(a);
    if Compared(roles, a) {
      KindsDiffer(a);
      AgreeUnion(facts, c, d);
      AgreeTwice(facts, c, d);
    } else {
      assert c + map[] == c;
    }
  }

  lemma {:induction false} RefusedStays(roles: Roles, s: seq<Artifact>, i: nat)
    requires i <= |s| && Fold(roles, s[..i]) == Refused
    ensures Fold(roles, s) == Refused
    decreases |s| - i
  {
    hide Step, Fold;
    if i == |s| {
      assert s[..i] == s;
    } else {
      FoldAppend(roles, s[..i], s[i]);
      assert s[..i + 1] == s[..i] + [s[i]];
      StepRefused(roles, s[i]);
      RefusedStays(roles, s, i + 1);
    }
  }

  lemma StepRefused(roles: Roles, a: Artifact)
    ensures Step(roles, Refused, a) == Refused
  {
  }

  // --- What is collected ----------------------------------------------------------------------------------------

  predicate PlausibleSide(s: Side) {
    s.Timed? ==> s.duration > 0.0 && s.uncertainty >= 0.0
  }

  predicate PlausibleBlocks(blocks: map<int, Block>) {
    forall k :: k in blocks ==> PlausibleSide(blocks[k].baseline) && PlausibleSide(blocks[k].candidate)
  }

  predicate PlausibleTables(t: Tables) {
    forall s :: s in t.groups ==> PlausibleBlocks(t.groups[s])
  }

  lemma AddedPlausible(roles: Roles, t: Tables, a: Artifact)
    requires Accepted(roles, t, a) && PlausibleTables(t)
    ensures PlausibleTables(Added(roles, t, a))
  {
    hide FactsOf, Agree, Tallied, Noted, Carried;
    if Compared(roles, a) {
      assert PlausibleSide(SideOf(a.outcome));
      assert PlausibleBlocks(BlocksOf(t.groups, a.stratum));
    }
  }

  // Every duration that the fold collects is positive, and no uncertainty is negative.
  lemma {:induction false} FoldPlausible(roles: Roles, s: seq<Artifact>)
    requires Fold(roles, s).Folded?
    ensures PlausibleTables(Fold(roles, s).tables)
  {
    hide Accepted, Added, PlausibleTables;
    if |s| == 0 {
      NothingPlausible();
    } else {
      FoldPlausible(roles, s[..|s| - 1]);
      AddedPlausible(roles, Fold(roles, s[..|s| - 1]).tables, s[|s| - 1]);
    }
  }

  lemma NothingPlausible()
    ensures PlausibleTables(NO_TABLES)
  {
  }

  // The byte counts of one client over a stratum, and the sum of a census field, read off the
  // artifacts themselves.
  function BytesIn(artifacts: seq<Artifact>, p: Product): seq<nat> {
    if |artifacts| == 0 then []
    else
      var a := artifacts[|artifacts| - 1];
      BytesIn(artifacts[..|artifacts| - 1], p) +
      if Product(a.stratum, a.client) == p && Shaped(a.outcome) then [a.outcome.transfer.bytes] else []
  }

  function SumIn(artifacts: seq<Artifact>, p: Product, field: Census -> nat): nat {
    if |artifacts| == 0 then 0
    else
      var a := artifacts[|artifacts| - 1];
      SumIn(artifacts[..|artifacts| - 1], p, field) +
      if Product(a.stratum, a.client) == p && Shaped(a.outcome) && a.outcome.transfer.census.Some?
      then field(a.outcome.transfer.census.value) else 0
  }

  function Each(): Census -> nat {
    (c: Census) => 1
  }

  function Requests(): Census -> nat {
    (c: Census) => c.requests
  }

  function DistinctRequests(): Census -> nat {
    (c: Census) => c.distinct
  }

  function Repeats(): Census -> nat {
    (c: Census) => c.repeated
  }

  function TotalIn(artifacts: seq<Artifact>, p: Product): Transfers {
    Transfers(multiset(BytesIn(artifacts, p)), SumIn(artifacts, p, Each()), SumIn(artifacts, p, Requests()),
              SumIn(artifacts, p, DistinctRequests()), SumIn(artifacts, p, Repeats()))
  }

  lemma TotalNext(artifacts: seq<Artifact>, p: Product)
    requires |artifacts| > 0
    ensures var a := artifacts[|artifacts| - 1];
            TotalIn(artifacts, p) ==
              if Product(a.stratum, a.client) == p && Shaped(a.outcome)
              then Taken(TotalIn(artifacts[..|artifacts| - 1], p), a.outcome.transfer)
              else TotalIn(artifacts[..|artifacts| - 1], p)
  {
  }

  // The transfers of a compared client are those of its artifacts, each taken once.
  lemma {:induction false} FoldCarries(roles: Roles, artifacts: seq<Artifact>, p: Product)
    requires Fold(roles, artifacts).Folded? && (p.client == roles.baseline || p.client == roles.candidate)
    ensures TransfersOf(Fold(roles, artifacts).tables.transfers, p) == TotalIn(artifacts, p)
  {
    hide Accepted, FactsOf, Put, Tallied, Noted, TotalIn, Taken, Shaped;
    if |artifacts| == 0 {
      NothingCarried(p);
    } else {
      FoldCarries(roles, artifacts[..|artifacts| - 1], p);
      TotalNext(artifacts, p);
    }
  }

  lemma NothingCarried(p: Product)
    ensures TotalIn([], p) == NO_TRANSFERS
  {
  }
}
