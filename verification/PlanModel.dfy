// The benchmark schedule of internal/benchmark/plan.go: what a plan declares, and which run
// tuples and run metadata that allows.
module PlanModel {
  import opened Sequences
  import opened Text

  // --- Declared values ------------------------------------------------------------------------------

  datatype Client = Weaver | SABnzbd | NZBGet | NZBFast | OtherClient(name: string)
  datatype Toolchain = Vanilla | Rarpar | OtherToolchain(name: string)
  datatype Transport = Plaintext | TLS | OtherTransport(name: string)
  datatype Target = DockerLinux | MacOSNative | WindowsNative | OtherTarget(name: string)
  datatype Validation = NotApplicable | CAVerified | NotValidated | PublicRoots | OtherValidation(name: string)
  datatype Profile = Unset | Stock | EquivalentThroughput | OtherProfile(name: string)

  // The profiles of link.go, storage.go and article.go. Whether a profile has the declared
  // values of its identifier is decided there, and is a fact about the value here.
  datatype ServerLink = ServerLink(id: string, declared: bool)
  datatype Storage = Storage(id: string, declared: bool, nfs: bool)
  datatype Article = Article(id: string, declared: bool)

  const EXTERNAL := "external"

  datatype ClientProfile = ClientProfile(client: Client, validation: Validation, caption: string)
  datatype Exclusion = Exclusion(client: Client, fixture: string, reason: string)

  datatype Options = Options(
    fixtures: seq<string>,
    clients: seq<Client>,
    profiles: seq<ClientProfile>,
    toolchains: seq<Toolchain>,
    transports: seq<Transport>,
    targets: seq<Target>,
    profile: Profile,
    link: ServerLink,
    storage: Storage,
    article: Article,
    repetitions: int,
    seed: int,
    passes: int,
    exclusions: seq<Exclusion>)

  datatype Run = Run(
    id: string,
    order: int,
    fixture: string,
    client: Client,
    toolchain: Toolchain,
    transport: Transport,
    target: Target,
    validation: Validation,
    caption: string,
    profile: Profile,
    link: ServerLink,
    storage: Storage,
    article: Article,
    repetition: int,
    freshState: bool,
    primary: bool)

  // A saved plan repeats its options and lists every run.
  datatype Plan = Plan(schema: int, options: Options, runs: seq<Run>)

  const SCHEMA := 7

  datatype Tuple = Tuple(
    fixture: string, transport: Transport, target: Target, repetition: int, client: Client, toolchain: Toolchain)

  function TupleOf(run: Run): Tuple {
    Tuple(run.fixture, run.transport, run.target, run.repetition, run.client, run.toolchain)
  }

  function Tuples(runs: seq<Run>): (ts: seq<Tuple>)
    ensures |ts| == |runs|
    ensures forall i :: 0 <= i < |runs| ==> ts[i] == TupleOf(runs[i])
  {
    seq(|runs|, i requires 0 <= i < |runs| => TupleOf(runs[i]))
  }

  // --- Rules on the declared values -----------------------------------------------------------------

  predicate KnownClient(client: Client) {
    !client.OtherClient?
  }

  predicate ValidForTLS(v: Validation) {
    v == CAVerified || v == NotValidated || v == PublicRoots
  }

  // The characters that Go's strings.TrimSpace removes.
  predicate IsSpace(c: char) {
    var n := c as int;
    9 <= n <= 13 || n == 0x20 || n == 0x85 || n == 0xa0 || n == 0x1680 || 0x2000 <= n <= 0x200a ||
    n == 0x2028 || n == 0x2029 || n == 0x202f || n == 0x205f || n == 0x3000
  }

  predicate Blank(s: string) {
    forall i :: 0 <= i < |s| ==> IsSpace(s[i])
  }

  predicate ToolchainAllowed(client: Client, toolchain: Toolchain, target: Target) {
    toolchain == Vanilla || (toolchain == Rarpar && target == DockerLinux && (client == SABnzbd || client == NZBGet))
  }

  predicate Excluded(exclusions: seq<Exclusion>, client: Client, fixture: string) {
    exists e :: e in exclusions && e.client == client && e.fixture == fixture
  }

  // The profile of a client: the first one listed for it.
  function ProfileFor(profiles: seq<ClientProfile>, client: Client): ClientProfile {
    if |profiles| == 0 then ClientProfile(OtherClient(""), OtherValidation(""), "")
    else if profiles[0].client == client then profiles[0]
    else ProfileFor(profiles[1..], client)
  }

  // Exactly one usable profile per client.
  ghost predicate ValidProfiles(clients: seq<Client>, profiles: seq<ClientProfile>) {
    && |profiles| == |clients|
    && (forall i, j :: 0 <= i < j < |profiles| ==> profiles[i].client != profiles[j].client)
    && (forall p :: p in profiles ==> ValidForTLS(p.validation) && !Blank(p.caption))
    && (forall c :: c in clients ==> exists p :: p in profiles && p.client == c)
  }

  function ExcludedOn(exclusions: seq<Exclusion>, fixture: string): nat {
    if |exclusions| == 0 then 0
    else ExcludedOn(exclusions[..|exclusions| - 1], fixture) +
         if exclusions[|exclusions| - 1].fixture == fixture then 1 else 0
  }

  // Exclusions name declared pairs once, with a reason, and leave a client on every fixture.
  ghost predicate ValidExclusions(o: Options) {
    && (forall e :: e in o.exclusions ==> !Blank(e.reason) && e.client in o.clients && e.fixture in o.fixtures)
    && (forall i, j :: 0 <= i < j < |o.exclusions| ==>
          o.exclusions[i].client != o.exclusions[j].client || o.exclusions[i].fixture != o.exclusions[j].fixture)
    && (forall e :: e in o.exclusions ==> ExcludedOn(o.exclusions, e.fixture) < |o.clients|)
  }

  ghost predicate ValidOptions(o: Options) {
    && |o.fixtures| > 0 && |o.clients| > 0 && |o.toolchains| > 0 && |o.transports| > 0 && |o.targets| > 0
    && o.repetitions >= 1
    && (o.profile == Stock || o.profile == EquivalentThroughput)
    && o.passes >= 0
    && (o.passes > 0 ==> o.passes == o.repetitions && o.link.id == EXTERNAL)
    && o.article.declared && o.link.declared && o.storage.declared
    && (forall t :: t in o.targets ==> !t.OtherTarget?)
    && (o.storage.nfs ==> forall t :: t in o.targets ==> t == DockerLinux)
    && NoDup(o.targets) && NoDup(o.fixtures) && NoDup(o.clients) && NoDup(o.toolchains) && NoDup(o.transports)
    && ValidProfiles(o.clients, o.profiles)
    && ValidExclusions(o)
    && (forall c :: c in o.clients ==> KnownClient(c))
    && (forall t :: t in o.toolchains ==> !t.OtherToolchain?)
    && Vanilla in o.toolchains
    && (forall t :: t in o.transports ==> !t.OtherTransport?)
  }

  // --- What a plan must contain ---------------------------------------------------------------------

  // Every allowed combination of declared values that the plan does not exclude.
  ghost predicate Planned(o: Options, t: Tuple) {
    && t.fixture in o.fixtures && t.transport in o.transports && t.target in o.targets
    && 1 <= t.repetition <= o.repetitions
    && t.client in o.clients && t.toolchain in o.toolchains
    && ToolchainAllowed(t.client, t.toolchain, t.target)
    && !Excluded(o.exclusions, t.client, t.fixture)
  }

  predicate PolicyOk(o: Options, run: Run) {
    var p := ProfileFor(o.profiles, run.client);
    && (run.transport == Plaintext ==> run.validation == NotApplicable && run.caption == "plaintext")
    && (run.transport != Plaintext ==> run.validation == p.validation && run.caption == p.caption)
    && (run.transport == TLS ==> (run.validation == PublicRoots <==> o.link.id == EXTERNAL))
  }

  // The part of a run that its tuple, its position and the plan determine.
  predicate RunOk(o: Options, run: Run, position: nat) {
    && run.order == position + 1 && run.id == RunID(position + 1)
    && run.freshState && run.primary && run.profile == o.profile && run.link == o.link
    && run.storage == o.storage && run.article == o.article
    && PolicyOk(o, run)
  }

  // --- Run identifiers --------------------------------------------------------------------------------

  // "%04d"
  function Padded4(n: nat): string {
    var s := Decimal(n);
    seq(if |s| < 4 then 4 - |s| else 0, i => '0') + s
  }

  function RunID(n: nat): string {
    "run-" + Padded4(n)
  }

  lemma {:induction false} ValueZeros(k: nat, s: string)
    ensures Value(seq(k, i => '0') + s) == Value(s)
  {
    var zeros := seq(k, i => '0');
    if |s| == 0 {
      assert zeros + s == zeros;
      if k != 0 {
        var fewer := seq(k - 1, i => '0');
        assert zeros[..k - 1] == fewer;
        ValueZeros(k - 1, s);
        assert fewer + s == fewer;
      }
    } else {
      assert (zeros + s)[..|zeros + s| - 1] == zeros + s[..|s| - 1];
      ValueZeros(k, s[..|s| - 1]);
    }
  }

  lemma PaddedValue(n: nat)
    ensures Value(Padded4(n)) == n
  {
    DecimalValue(n);
    ValueZeros(if |Decimal(n)| < 4 then 4 - |Decimal(n)| else 0, Decimal(n));
  }

  lemma RunIDInjective(m: nat, n: nat)
    requires RunID(m) == RunID(n)
    ensures m == n
  {
    assert Padded4(m) == RunID(m)[4..] && Padded4(n) == RunID(n)[4..];
    PaddedValue(m);
    PaddedValue(n);
  }

  // --- The uniqueness key -------------------------------------------------------------------------------

  function TransportName(t: Transport): string {
    match t
    case Plaintext => "plaintext"
    case TLS => "tls"
    case OtherTransport(name) => name
  }

  function TargetName(t: Target): string {
    match t
    case DockerLinux => "docker-linux"
    case MacOSNative => "macos-native"
    case WindowsNative => "windows-native"
    case OtherTarget(name) => name
  }

  function ClientName(c: Client): string {
    match c
    case Weaver => "weaver"
    case SABnzbd => "sabnzbd"
    case NZBGet => "nzbget"
    case NZBFast => "nzbfast"
    case OtherClient(name) => name
  }

  function ToolchainName(t: Toolchain): string {
    match t
    case Vanilla => "vanilla"
    case Rarpar => "rarpar"
    case OtherToolchain(name) => name
  }

  const NUL := [0 as char]

  // The components joined with NUL. The repetition is positive when the key is built.
  function Key(t: Tuple): string
    requires t.repetition >= 0
  {
    t.fixture + NUL + TransportName(t.transport) + NUL + TargetName(t.target) + NUL + Decimal(t.repetition) + NUL +
    ClientName(t.client) + NUL + ToolchainName(t.toolchain)
  }

  predicate NoNul(s: string) {
    0 as char !in s
  }

  lemma LastNul(a: string, b: string, a': string, b': string)
    requires a + NUL + b == a' + NUL + b' && NoNul(b)
    ensures |a'| <= |a|
  {
    var s := a + NUL + b;
    assert (a' + NUL + b')[|a'|] == 0 as char;
    assert forall k :: |a| < k < |s| ==> s[k] == b[k - |a| - 1] && s[k] in b;
  }

  // What precedes the last NUL and what follows it are determined.
  lemma SplitLast(a: string, b: string, a': string, b': string)
    requires a + NUL + b == a' + NUL + b' && NoNul(b) && NoNul(b')
    ensures a == a' && b == b'
  {
    LastNul(a, b, a', b');
    LastNul(a', b', a, b);
    var s := a + NUL + b;
    assert a == s[..|a|] && a' == s[..|a'|];
    assert b == s[|a| + 1..] && b' == s[|a'| + 1..];
  }

  // The names that a valid plan can mention.
  predicate KnownNames(t: Tuple) {
    !t.transport.OtherTransport? && !t.target.OtherTarget? && !t.client.OtherClient? && !t.toolchain.OtherToolchain?
  }

  lemma NamesHaveNoNul(t: Tuple)
    requires KnownNames(t) && t.repetition >= 0
    ensures NoNul(TransportName(t.transport)) && NoNul(TargetName(t.target)) && NoNul(Decimal(t.repetition))
    ensures NoNul(ClientName(t.client)) && NoNul(ToolchainName(t.toolchain))
  {
    ClientHasNoNul(t.client);
    ToolchainHasNoNul(t.toolchain);
    hide ClientName, ToolchainName;
    DecimalValue(t.repetition);
  }

  lemma ClientHasNoNul(c: Client)
    requires !c.OtherClient?
    ensures NoNul(ClientName(c))
  {
  }

  lemma ToolchainHasNoNul(t: Toolchain)
    requires !t.OtherToolchain?
    ensures NoNul(ToolchainName(t))
  {
  }

  // Fixture identifiers are arbitrary, NUL included, and still no two tuples share a key.
  lemma KeyInjective(t: Tuple, u: Tuple)
    requires KnownNames(t) && KnownNames(u) && t.repetition >= 0 && u.repetition >= 0
    requires Key(t) == Key(u)
    ensures t == u
  {
    NamesHaveNoNul(t);
    NamesHaveNoNul(u);
    var t1 := t.fixture + NUL + TransportName(t.transport);
    var t2 := t1 + NUL + TargetName(t.target);
    var t3 := t2 + NUL + Decimal(t.repetition);
    var t4 := t3 + NUL + ClientName(t.client);
    var u1 := u.fixture + NUL + TransportName(u.transport);
    var u2 := u1 + NUL + TargetName(u.target);
    var u3 := u2 + NUL + Decimal(u.repetition);
    var u4 := u3 + NUL + ClientName(u.client);
    SplitLast(t4, ToolchainName(t.toolchain), u4, ToolchainName(u.toolchain));
    SplitLast(t3, ClientName(t.client), u3, ClientName(u.client));
    SplitLast(t2, Decimal(t.repetition), u2, Decimal(u.repetition));
    SplitLast(t1, TargetName(t.target), u1, TargetName(u.target));
    SplitLast(t.fixture, TransportName(t.transport), u.fixture, TransportName(u.transport));
    NamesDiffer(t, u);
    DecimalValue(t.repetition);
    DecimalValue(u.repetition);
  }

  lemma NamesDiffer(t: Tuple, u: Tuple)
    requires KnownNames(t) && KnownNames(u)
    ensures TransportName(t.transport) == TransportName(u.transport) ==> t.transport == u.transport
    ensures TargetName(t.target) == TargetName(u.target) ==> t.target == u.target
    ensures ClientName(t.client) == ClientName(u.client) ==> t.client == u.client
    ensures ToolchainName(t.toolchain) == ToolchainName(u.toolchain) ==> t.toolchain == u.toolchain
  {
    assert TransportName(Plaintext)[0] != TransportName(TLS)[0];
    assert TargetName(DockerLinux)[0] == 'd' && TargetName(MacOSNative)[0] == 'm' && TargetName(WindowsNative)[0] == 'w';
    assert ClientName(Weaver)[0] == 'w' && ClientName(SABnzbd)[0] == 's';
    assert ClientName(NZBGet)[3] == 'g' && ClientName(NZBFast)[3] == 'f';
    assert ToolchainName(Vanilla)[0] != ToolchainName(Rarpar)[0];
  }
}
