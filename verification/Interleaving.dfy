// All interleavings of the responder's connections: internal/adversarial/server.go. A run is
// a sequence of atomic actions; between two actions of one connection any other connection
// may act.
module Interleaving {
  import opened Responder

  const LINES_PER_CONNECTION := 512
  const CONNECTION_BUDGET := 2048
  const SLOTS := 64
  const GREETING := "200 usenet-bench adversarial responder\r\n"
  const NO_SUCH_ARTICLE := "430 no such article\r\n"

  // Where a connection is inside one call of Server.write.
  datatype Io = Load(length: nat) | Swap(length: nat, seen: nat) | Send(length: nat)

  // What a connection does after a write.
  datatype Resume =
    | Greet
    | Answer(last: bool)
    | Article(call: Call, reply: Reply, rest: seq<nat>)

  datatype Phase =
    | Reading
    | Counting
    | Choosing
    | Locking(id: string)
    | Writing(io: Io, after: Resume)
    | Recording(call: Call, reply: Reply, completed: bool)
    | Closed

  datatype Worker = Worker(lines: nat, phase: Phase)

  // The fault kind and the articles do not change. The lengths of successful reservations
  // and the article calls in order are history: no action depends on them.
  datatype State = State(
    kind: string, articles: set<string>, shared: Shared, workers: seq<Worker>, connections: nat, serving: bool,
    grants: seq<nat>, calls: seq<Call>)

  // What the client and the network decide.
  datatype Command = Blank | Quit(length: nat) | Other(length: nat) | Fetch(id: string)

  datatype Action =
    | Accept
    | Receive(w: nat, arrived: bool)
    | CountRequest(w: nat)
    | Choose(w: nat, command: Command)
    | TakeAttempt(w: nat, sizes: seq<nat>, completed: bool)
    | Reserve(w: nat)
    | CompareAndSwap(w: nat)
    | Deliver(w: nat, sent: nat, ok: bool, completed: bool)
    | Record(w: nat)

  function Initial(kind: string, articles: set<string>): State {
    State(kind, articles, Shared(0, 0, map[], [], 0, 0, 0), [], 0, true, [], [])
  }

  // --- One action --------------------------------------------------------------------------------------

  predicate At(s: State, w: nat) {
    w < |s.workers|
  }

  predicate Enabled(s: State, a: Action) {
    match a
    case Accept => s.serving
    case Receive(w, arrived) => At(s, w) && s.workers[w].phase.Reading?
    case CountRequest(w) => At(s, w) && s.workers[w].phase.Counting?
    case Choose(w, command) =>
      At(s, w) && s.workers[w].phase.Choosing? && (command.Fetch? ==> command.id in s.articles)
    case TakeAttempt(w, sizes, completed) => At(s, w) && s.workers[w].phase.Locking?
    case Reserve(w) => At(s, w) && s.workers[w].phase.Writing? && s.workers[w].phase.io.Load?
    case CompareAndSwap(w) => At(s, w) && s.workers[w].phase.Writing? && s.workers[w].phase.io.Swap?
    case Deliver(w, sent, ok, completed) =>
      At(s, w) && s.workers[w].phase.Writing? && s.workers[w].phase.io.Send? &&
      sent <= s.workers[w].phase.io.length && (ok ==> sent == s.workers[w].phase.io.length)
    case Record(w) => At(s, w) && s.workers[w].phase.Recording?
  }

  function Move(s: State, w: nat, phase: Phase): State
    requires At(s, w)
  {
    s.(workers := s.workers[w := s.workers[w].(phase := phase)])
  }

  // The loop goes on to its next command line.
  function NextLine(s: State, w: nat): State
    requires At(s, w)
  {
    s.(workers := s.workers[w := Worker(s.workers[w].lines + 1, Reading)])
  }

  function Finish(s: State, w: nat, after: Resume, ok: bool, completed: bool): State
    requires At(s, w)
  {
    match after
    case Greet => if ok then Move(s, w, Reading) else Move(s, w, Closed)
    case Answer(last) => if ok && !last then NextLine(s, w) else Move(s, w, Closed)
    case Article(call, reply, rest) =>
      if !ok then Move(s, w, Recording(call, reply, false))
      else if |rest| == 0 || !completed then Move(s, w, Recording(call, reply, completed))
      else Move(s, w, Writing(Load(rest[0]), Article(call, reply, rest[1..])))
  }

  function Open(workers: seq<Worker>): nat {
    Total(workers, OpenSlots)
  }

  function Enter(s: State): State {
    var s := s.(connections := s.connections + 1);
    if s.connections > CONNECTION_BUDGET then s.(serving := false)
    else if Open(s.workers) == SLOTS then s
    else s.(workers := s.workers + [Worker(0, Writing(Load(|GREETING|), Greet))])
  }

  function Chosen(s: State, w: nat, command: Command): State
    requires At(s, w)
  {
    match command
    case Blank => Move(s, w, Closed)
    case Quit(length) => Move(s, w, Writing(Load(length), Answer(true)))
    case Other(length) => Move(s, w, Writing(Load(length), Answer(false)))
    case Fetch(id) =>
      Move(s.(shared := CountArticle(s.shared)), w, Locking(id))
  }

  // The attempt number decides the reply, and the reply the lengths of the writes.
  function Taken(s: State, w: nat, id: string, sizes: seq<nat>, completed: bool): State
    requires At(s, w)
  {
    var shared := Take(s.shared, id);
    var call := Call(id, Attempts(shared, id));
    var reply := ReplyTo(s.kind, call.attempt);
    var sizes := if reply.Missing? then [|NO_SUCH_ARTICLE|] else if reply.Hangup? then [] else sizes;
    var s := s.(shared := shared, calls := s.calls + [call]);
    if |sizes| == 0 then Move(s, w, Recording(call, reply, completed && !reply.Hangup?))
    else Move(s, w, Writing(Load(sizes[0]), Article(call, reply, sizes[1..])))
  }

  function Reserved(s: State, w: nat, length: nat, after: Resume): State
    requires At(s, w)
  {
    if !Affords(s.shared, length) then Finish(s, w, after, false, false)
    else Move(s, w, Writing(Swap(length, s.shared.wireReserved), after))
  }

  function Swapped(s: State, w: nat, length: nat, seen: nat, after: Resume): State
    requires At(s, w)
  {
    if Unmoved(s.shared, seen) then
      Move(s.(shared := Granted(s.shared, length), grants := s.grants + [length]),
           w, Writing(Send(length), after))
    else Move(s, w, Writing(Load(length), after))
  }

  function Delivered(s: State, w: nat, sent: nat, after: Resume, ok: bool, completed: bool): State
    requires At(s, w)
  {
    Finish(s.(shared := Wrote(s.shared, sent)), w, after, ok, completed)
  }

  function Logged(s: State, w: nat, e: Event): State
    requires At(s, w)
  {
    var s := s.(shared := Responder.Recorded(s.shared, e));
    if e.completed then NextLine(s, w) else Move(s, w, Closed)
  }

  function Apply(s: State, a: Action): State
    requires Enabled(s, a)
  {
    match a
    case Accept => Enter(s)
    case Receive(w, arrived) =>
      if arrived && s.workers[w].lines < LINES_PER_CONNECTION then Move(s, w, Counting) else Move(s, w, Closed)
    case CountRequest(w) =>
      var s := s.(shared := Count(s.shared));
      if s.shared.requests > REQUEST_BUDGET then Move(s, w, Closed) else Move(s, w, Choosing)
    case Choose(w, command) => Chosen(s, w, command)
    case TakeAttempt(w, sizes, completed) => Taken(s, w, s.workers[w].phase.id, sizes, completed)
    case Reserve(w) => Reserved(s, w, s.workers[w].phase.io.length, s.workers[w].phase.after)
    case CompareAndSwap(w) =>
      Swapped(s, w, s.workers[w].phase.io.length, s.workers[w].phase.io.seen, s.workers[w].phase.after)
    case Deliver(w, sent, ok, completed) => Delivered(s, w, sent, s.workers[w].phase.after, ok, completed)
    case Record(w) =>
      var p := s.workers[w].phase;
      Logged(s, w, Event(p.call, p.reply, p.completed))
  }

  // --- Runs ------------------------------------------------------------------------------------------------

  predicate IsRun(s: State, run: seq<Action>)
    decreases |run|, 0
  {
    |run| == 0 || (IsRun(s, run[..|run| - 1]) && Enabled(After(s, run[..|run| - 1]), run[|run| - 1]))
  }

  function After(s: State, run: seq<Action>): State
    requires IsRun(s, run)
    decreases |run|, 1
  {
    if |run| == 0 then s else Apply(After(s, run[..|run| - 1]), run[|run| - 1])
  }

  // --- Totals over the connections ------------------------------------------------------------------------

  datatype Measure = Pending | Tokens | Locks | Calling | OpenSlots

  function Weight(w: Worker, m: Measure): nat {
    match m
    case Pending => if w.phase.Writing? && w.phase.io.Send? then w.phase.io.length else 0
    case Tokens => if w.phase.Choosing? || w.phase.Locking? then 1 else 0
    case Locks => if w.phase.Locking? then 1 else 0
    case Calling => |Held(w)|
    case OpenSlots => if w.phase.Closed? then 0 else 1
  }

  // The article call that a connection is in.
  function Held(w: Worker): multiset<Call> {
    if w.phase.Recording? then multiset{w.phase.call}
    else if w.phase.Writing? && w.phase.after.Article? then multiset{w.phase.after.call}
    else multiset{}
  }

  function Total(workers: seq<Worker>, m: Measure): nat {
    if |workers| == 0 then 0 else Total(workers[..|workers| - 1], m) + Weight(workers[|workers| - 1], m)
  }

  function InFlight(workers: seq<Worker>): multiset<Call> {
    if |workers| == 0 then multiset{} else InFlight(workers[..|workers| - 1]) + Held(workers[|workers| - 1])
  }

  lemma {:induction false} TotalUpdate(workers: seq<Worker>, w: nat, v: Worker, m: Measure)
    requires w < |workers|
    ensures Total(workers[w := v], m) + Weight(workers[w], m) == Total(workers, m) + Weight(v, m)
    ensures Total(workers, m) >= Weight(workers[w], m)
  {
    hide Weight;
    var n := |workers| - 1;
    if w < n {
      TotalUpdate(workers[..n], w, v, m);
      assert workers[w := v][..n] == workers[..n][w := v];
    } else {
      assert workers[w := v][..n] == workers[..n];
    }
  }

  lemma SumOnBoth<T>(a: multiset<T>, b: multiset<T>, c: multiset<T>, d: multiset<T>, x: multiset<T>)
    requires a + b == c + d
    ensures a + x + b == c + x + d
  {
    assert a + x + b == (a + b) + x;
    assert c + x + d == (c + d) + x;
  }

  lemma {:induction false} InFlightUpdate(workers: seq<Worker>, w: nat, v: Worker)
    requires w < |workers|
    ensures InFlight(workers[w := v]) + Held(workers[w]) == InFlight(workers) + Held(v)
  {
    var n := |workers| - 1;
    if w < n {
      InFlightUpdate(workers[..n], w, v);
      assert workers[w := v][..n] == workers[..n][w := v];
      SumOnBoth(InFlight(workers[..n][w := v]), Held(workers[w]), InFlight(workers[..n]), Held(v), Held(workers[n]));
    } else {
      assert workers[w := v][..n] == workers[..n];
    }
  }

  lemma {:induction false} InFlightSize(workers: seq<Worker>)
    ensures |InFlight(workers)| == Total(workers, Calling)
  {
    if |workers| != 0 {
      InFlightSize(workers[..|workers| - 1]);
    }
  }

  lemma TotalAppend(workers: seq<Worker>, v: Worker, m: Measure)
    ensures Total(workers + [v], m) == Total(workers, m) + Weight(v, m)
  {
    assert (workers + [v])[..|workers|] == workers;
  }

  lemma InFlightAppend(workers: seq<Worker>, v: Worker)
    ensures InFlight(workers + [v]) == InFlight(workers) + Held(v)
  {
    assert (workers + [v])[..|workers|] == workers;
  }

  // Every action replaces one connection's state, or adds a connection, or leaves them alone.
  function Acting(s: State, a: Action): nat
    requires Enabled(s, a)
  {
    if a.Accept? then |s.workers| else a.w
  }

  lemma OneWorker(s: State, a: Action)
    requires Enabled(s, a)
    ensures var t := Apply(s, a);
            var w := Acting(s, a);
            && (!a.Accept? ==> At(s, w) && |t.workers| == |s.workers| && t.workers == s.workers[w := t.workers[w]])
            && (a.Accept? ==>
                  || t.workers == s.workers
                  || t.workers == s.workers + [Worker(0, Writing(Load(|GREETING|), Greet))])
            && t.kind == s.kind && t.articles == s.articles
  {
  }

  lemma TotalStep(s: State, a: Action, m: Measure)
    requires Enabled(s, a)
    ensures var t := Apply(s, a);
            && (!a.Accept? ==>
                  At(s, a.w) && At(t, a.w) && Total(s.workers, m) >= Weight(s.workers[a.w], m) &&
                  Total(t.workers, m) + Weight(s.workers[a.w], m) == Total(s.workers, m) + Weight(t.workers[a.w], m))
            && (a.Accept? && m != OpenSlots ==> Total(t.workers, m) == Total(s.workers, m))
  {
    var t := Apply(s, a);
    OneWorker(s, a);
    if a.Accept? {
      TotalAppend(s.workers, Worker(0, Writing(Load(|GREETING|), Greet)), m);
    } else {
      TotalUpdate(s.workers, a.w, t.workers[a.w], m);
    }
  }

  lemma InFlightStep(s: State, a: Action)
    requires Enabled(s, a)
    ensures var t := Apply(s, a);
            && (!a.Accept? ==>
                  At(s, a.w) && At(t, a.w) &&
                  InFlight(t.workers) + Held(s.workers[a.w]) == InFlight(s.workers) + Held(t.workers[a.w]))
            && (a.Accept? ==> InFlight(t.workers) == InFlight(s.workers))
  {
    var t := Apply(s, a);
    OneWorker(s, a);
    if a.Accept? {
      InFlightAppend(s.workers, Worker(0, Writing(Load(|GREETING|), Greet)));
    } else {
      InFlightUpdate(s.workers, a.w, t.workers[a.w]);
    }
  }

  // --- The byte budget ----------------------------------------------------------------------------------

  // A reservation between its two halves was made against a value that fitted, and the
  // counter has not gone back since.
  predicate Fits(reserved: nat, w: Worker) {
    w.phase.Writing? && w.phase.io.Swap? ==>
      w.phase.io.seen <= reserved && w.phase.io.seen + w.phase.io.length <= BYTE_BUDGET
  }

  predicate AllFit(reserved: nat, workers: seq<Worker>) {
    forall w :: 0 <= w < |workers| ==> Fits(reserved, workers[w])
  }

  predicate WithinBudget(s: State) {
    && s.shared.wireReserved == SumOf(s.grants) <= BYTE_BUDGET
    && s.shared.wireBytes + Total(s.workers, Pending) <= s.shared.wireReserved
    && AllFit(s.shared.wireReserved, s.workers)
  }

  lemma SumOfAppend(grants: seq<nat>, n: nat)
    ensures SumOf(grants + [n]) == SumOf(grants) + n
  {
    assert (grants + [n])[..|grants|] == grants;
  }

  lemma BudgetStep(s: State, a: Action)
    requires Enabled(s, a) && WithinBudget(s)
    ensures WithinBudget(Apply(s, a))
  {
    hide Total, SumOf;
    TotalStep(s, a, Pending);
    if a.CompareAndSwap? {
      SumOfAppend(s.grants, s.workers[a.w].phase.io.length);
    }
    OneWorker(s, a);
    FitStep(s, a);
  }

  lemma FitStep(s: State, a: Action)
    requires Enabled(s, a) && AllFit(s.shared.wireReserved, s.workers)
    ensures AllFit(Apply(s, a).shared.wireReserved, Apply(s, a).workers)
    ensures Apply(s, a).shared.wireReserved >= s.shared.wireReserved
  {
    hide Total;
    var t := Apply(s, a);
    OneWorker(s, a);
    if !a.Accept? {
      assert Fits(s.shared.wireReserved, s.workers[a.w]);
      assert Fits(t.shared.wireReserved, t.workers[a.w]);
    }
  }

  // In every interleaving the bytes written stay within the bytes reserved, which are the
  // sum of the successful reservations and stay within the budget.
  lemma {:induction false} BudgetHolds(kind: string, articles: set<string>, run: seq<Action>)
    requires IsRun(Initial(kind, articles), run)
    ensures WithinBudget(After(Initial(kind, articles), run))
    decreases |run|
  {
    if |run| != 0 {
      BudgetHolds(kind, articles, run[..|run| - 1]);
      BudgetStep(After(Initial(kind, articles), run[..|run| - 1]), run[|run| - 1]);
    }
  }

  // A compare-and-swap fails only when another connection has reserved bytes since the load:
  // some connection always makes progress.
  lemma SwapFailsOnProgress(kind: string, articles: set<string>, run: seq<Action>, w: nat)
    requires IsRun(Initial(kind, articles), run)
    requires Enabled(After(Initial(kind, articles), run), CompareAndSwap(w))
    ensures var s := After(Initial(kind, articles), run);
            var io := s.workers[w].phase.io;
            Apply(s, CompareAndSwap(w)).workers[w].phase.io == Load(io.length) <==> SumOf(s.grants) > io.seen
  {
    BudgetHolds(kind, articles, run);
    var s := After(Initial(kind, articles), run);
    assert Fits(s.shared.wireReserved, s.workers[w]);
  }

  // --- The request budget and the transcript -------------------------------------------------------------

  function EventCalls(transcript: seq<Event>): seq<Call> {
    if |transcript| == 0 then []
    else EventCalls(transcript[..|transcript| - 1]) + [transcript[|transcript| - 1].call]
  }

  lemma {:induction false} EventCallsLength(transcript: seq<Event>)
    ensures |EventCalls(transcript)| == |transcript|
  {
    if |transcript| != 0 {
      EventCallsLength(transcript[..|transcript| - 1]);
    }
  }

  lemma EventCallsAppend(transcript: seq<Event>, e: Event)
    ensures EventCalls(transcript + [e]) == EventCalls(transcript) + [e.call]
  {
    assert (transcript + [e])[..|transcript|] == transcript;
  }

  // Every article call is finished and recorded, or in flight; every one was let through
  // by the request budget.
  predicate Accounted(s: State) {
    && |s.calls| + Total(s.workers, Locks) == s.shared.bodyRequests
    && |s.calls| + Total(s.workers, Tokens) <= s.shared.requests
    && |s.calls| + Total(s.workers, Tokens) <= REQUEST_BUDGET
    && multiset(EventCalls(s.shared.transcript)) + InFlight(s.workers) == multiset(s.calls)
    && s.shared.droppedEvents == 0
  }

  lemma CallsSplit(s: State)
    requires Accounted(s)
    ensures |s.shared.transcript| + Total(s.workers, Calling) == |s.calls|
  {
    EventCallsLength(s.shared.transcript);
    InFlightSize(s.workers);
    var e := multiset(EventCalls(s.shared.transcript));
    assert |e| == |s.shared.transcript|;
    assert |e + InFlight(s.workers)| == |e| + |InFlight(s.workers)|;
    assert |multiset(s.calls)| == |s.calls|;
  }

  // Calls that are started move from the connections to the transcript.
  lemma Balance<T>(e: multiset<T>, f: multiset<T>, c: multiset<T>, e': multiset<T>, f': multiset<T>, c': multiset<T>,
                   h: multiset<T>, h': multiset<T>)
    requires e + f == c && f' + h == f + h' && e' + h' + c == e + h + c'
    ensures e' + f' == c'
  {
    forall x: T
      ensures e'[x] + f'[x] == c'[x]
    {
      assert (e + f)[x] == c[x];
      assert (f' + h)[x] == (f + h')[x];
      assert (e' + h' + c)[x] == (e + h + c')[x];
    }
  }

  // A write that is over leaves its connection outside of any write's second half, inside
  // the call it was in.
  lemma FinishEffect(s: State, w: nat, after: Resume, ok: bool, completed: bool)
    requires At(s, w)
    ensures var t := Finish(s, w, after, ok, completed);
            At(t, w) && t == s.(workers := s.workers[w := t.workers[w]]) && Rested(after, t.workers[w])
  {
    match after
    case Greet =>
    case Answer(last) =>
    case Article(call, reply, rest) =>
  }

  predicate Rested(after: Resume, v: Worker) {
    && (v.phase.Reading? || v.phase.Closed? || v.phase.Recording? || (v.phase.Writing? && v.phase.io.Load?))
    && Held(v) == (if after.Article? then multiset{after.call} else multiset{})
    && (v.phase.Recording? ==> after.Article? && v.phase.call == after.call && v.phase.reply == after.reply)
    && (v.phase.Writing? && v.phase.after.Article? ==>
          after.Article? && v.phase.after.call == after.call && v.phase.after.reply == after.reply)
  }

  // A write that starts or ends touches no counter but the bytes written.
  lemma WriteStep(s: State, a: Action)
    requires Enabled(s, a) && (a.Reserve? || a.Deliver?)
    ensures At(s, a.w) && At(Apply(s, a), a.w)
    ensures var t := Apply(s, a);
            var after := s.workers[a.w].phase.after;
            && t == s.(shared := s.shared.(wireBytes := t.shared.wireBytes), workers := s.workers[a.w := t.workers[a.w]])
            && (Rested(after, t.workers[a.w]) || SwapsNext(after, t.workers[a.w]))
  {
    hide Finish, Held, Rested;
    if a.Reserve? {
      ReserveStep(s, a.w);
    } else {
      DeliverStep(s, a.w, a.sent, a.ok, a.completed);
    }
  }

  predicate SwapsNext(after: Resume, v: Worker) {
    v.phase.Writing? && v.phase.io.Swap? && v.phase.after == after
  }

  lemma ReserveStep(s: State, w: nat)
    requires Enabled(s, Reserve(w))
    ensures var t := Apply(s, Reserve(w));
            var after := s.workers[w].phase.after;
            && At(t, w) && t == s.(workers := s.workers[w := t.workers[w]])
            && (Rested(after, t.workers[w]) || SwapsNext(after, t.workers[w]))
  {
    hide Finish, Held, Rested;
    FinishEffect(s, w, s.workers[w].phase.after, false, false);
  }

  lemma DeliverStep(s: State, w: nat, sent: nat, ok: bool, completed: bool)
    requires Enabled(s, Deliver(w, sent, ok, completed))
    ensures var t := Apply(s, Deliver(w, sent, ok, completed));
            && At(t, w) && Rested(s.workers[w].phase.after, t.workers[w])
            && t == s.(shared := s.shared.(wireBytes := t.shared.wireBytes), workers := s.workers[w := t.workers[w]])
  {
    hide Finish, Held, Rested;
    var s' := s.(shared := Wrote(s.shared, sent));
    FinishEffect(s', w, s.workers[w].phase.after, ok, completed);
  }

  // What an action does to the calls: it starts one, records one, or leaves them alone.
  lemma RecordEffect(s: State, w: nat)
    requires Enabled(s, Record(w)) && |s.shared.transcript| < TRANSCRIPT_LIMIT
    ensures var t := Apply(s, Record(w));
            var p := s.workers[w].phase;
            && t.shared.transcript == s.shared.transcript + [Event(p.call, p.reply, p.completed)]
            && t.calls == s.calls && At(t, w)
            && Held(s.workers[w]) == multiset{p.call} && Held(t.workers[w]) == multiset{}
  {
  }

  lemma TakeEffect(s: State, w: nat, sizes: seq<nat>, completed: bool)
    requires Enabled(s, TakeAttempt(w, sizes, completed))
    ensures var t := Apply(s, TakeAttempt(w, sizes, completed));
            var call := Call(s.workers[w].phase.id, Attempts(t.shared, s.workers[w].phase.id));
            && t.shared.transcript == s.shared.transcript && t.calls == s.calls + [call] && At(t, w)
            && Held(s.workers[w]) == multiset{} && Held(t.workers[w]) == multiset{call}
  {
  }

  lemma QuietEffect(s: State, a: Action)
    requires Enabled(s, a) && !a.Accept? && !a.Record? && !a.TakeAttempt?
    ensures var t := Apply(s, a);
            && t.shared.transcript == s.shared.transcript && t.shared.attempts == s.shared.attempts && t.calls == s.calls
            && At(s, a.w) && At(t, a.w) && Held(t.workers[a.w]) == Held(s.workers[a.w])
  {
    hide Finish, Chosen, Swapped;
    if a.Reserve? || a.Deliver? {
      WriteQuiet(s, a);
    } else if a.Choose? {
      ChooseQuiet(s, a.w, a.command);
    } else if a.CompareAndSwap? {
      SwapQuiet(s, a.w);
    }
  }

  lemma ChooseQuiet(s: State, w: nat, command: Command)
    requires Enabled(s, Choose(w, command))
    ensures var t := Apply(s, Choose(w, command));
            && t.shared.transcript == s.shared.transcript && t.shared.attempts == s.shared.attempts
            && t.calls == s.calls && At(t, w) && Held(t.workers[w]) == Held(s.workers[w])
  {
  }

  lemma SwapQuiet(s: State, w: nat)
    requires Enabled(s, CompareAndSwap(w))
    ensures var t := Apply(s, CompareAndSwap(w));
            && t.shared.transcript == s.shared.transcript && t.shared.attempts == s.shared.attempts
            && t.calls == s.calls && At(t, w) && Held(t.workers[w]) == Held(s.workers[w])
  {
  }

  lemma WriteQuiet(s: State, a: Action)
    requires Enabled(s, a) && (a.Reserve? || a.Deliver?)
    ensures var t := Apply(s, a);
            && t.shared.transcript == s.shared.transcript && t.shared.attempts == s.shared.attempts && t.calls == s.calls
            && At(s, a.w) && At(t, a.w) && Held(t.workers[a.w]) == Held(s.workers[a.w])
  {
    hide Apply;
    WriteStep(s, a);
  }

  lemma BalanceStep(s: State, a: Action)
    requires Enabled(s, a)
    requires multiset(EventCalls(s.shared.transcript)) + InFlight(s.workers) == multiset(s.calls)
    requires a.Record? ==> |s.shared.transcript| < TRANSCRIPT_LIMIT
    ensures var t := Apply(s, a);
            multiset(EventCalls(t.shared.transcript)) + InFlight(t.workers) == multiset(t.calls)
  {
    hide Total, InFlight, EventCalls, Held;
    InFlightStep(s, a);
    if !a.Accept? {
      hide Apply;
      var t := Apply(s, a);
      var e, e' := multiset(EventCalls(s.shared.transcript)), multiset(EventCalls(t.shared.transcript));
      var c, c' := multiset(s.calls), multiset(t.calls);
      var h, h' := Held(s.workers[a.w]), Held(t.workers[a.w]);
      if a.Record? {
        RecordEffect(s, a.w);
        var p := s.workers[a.w].phase;
        EventCallsAppend(s.shared.transcript, Event(p.call, p.reply, p.completed));
        assert e' == e + h;
      } else if a.TakeAttempt? {
        TakeEffect(s, a.w, a.sizes, a.completed);
        assert c' == c + h';
      } else {
        QuietEffect(s, a);
      }
      Balance(e, InFlight(s.workers), c, e', InFlight(t.workers), c', h, h');
    }
  }

  // How an action moves the counters against the connection that acts.
  predicate Counted(s: State, t: State, u: Worker, v: Worker) {
    && |t.calls| + Weight(v, Locks) + s.shared.bodyRequests == |s.calls| + Weight(u, Locks) + t.shared.bodyRequests
    && |t.calls| + Weight(v, Tokens) + s.shared.requests <= |s.calls| + Weight(u, Tokens) + t.shared.requests
    && (|t.calls| + Weight(v, Tokens) <= |s.calls| + Weight(u, Tokens) || t.shared.requests <= REQUEST_BUDGET)
    && t.shared.droppedEvents == s.shared.droppedEvents
  }

  lemma CountedStep(s: State, a: Action)
    requires Enabled(s, a) && !a.Accept?
    requires a.Record? ==> |s.shared.transcript| < TRANSCRIPT_LIMIT
    ensures At(s, a.w) && At(Apply(s, a), a.w)
    ensures Counted(s, Apply(s, a), s.workers[a.w], Apply(s, a).workers[a.w])
  {
    hide Finish;
    if a.Reserve? || a.Deliver? {
      WriteCounted(s, a);
    }
  }

  lemma WriteCounted(s: State, a: Action)
    requires Enabled(s, a) && (a.Reserve? || a.Deliver?)
    ensures At(s, a.w) && At(Apply(s, a), a.w)
    ensures Counted(s, Apply(s, a), s.workers[a.w], Apply(s, a).workers[a.w])
  {
    hide Apply, Held;
    WriteStep(s, a);
  }

  lemma AccountedStep(s: State, a: Action)
    requires Enabled(s, a) && Accounted(s)
    ensures Accounted(Apply(s, a))
  {
    hide Total, InFlight, EventCalls, Held;
    TotalStep(s, a, Locks);
    TotalStep(s, a, Tokens);
    TotalStep(s, a, Calling);
    CallsSplit(s);
    if a.Record? {
      HeldWeight(s, a);
    }
    BalanceStep(s, a);
    if !a.Accept? {
      hide Apply, Weight;
      CountedStep(s, a);
    }
  }

  lemma HeldWeight(s: State, a: Action)
    requires Enabled(s, a) && a.Record?
    ensures Weight(s.workers[a.w], Calling) == 1
  {
  }

  lemma {:induction false} AccountedHolds(kind: string, articles: set<string>, run: seq<Action>)
    requires IsRun(Initial(kind, articles), run)
    ensures Accounted(After(Initial(kind, articles), run))
    decreases |run|
  {
    if |run| != 0 {
      AccountedHolds(kind, articles, run[..|run| - 1]);
      AccountedStep(After(Initial(kind, articles), run[..|run| - 1]), run[|run| - 1]);
    }
  }

  // In every interleaving at most 8192 article calls start, no transcript entry is dropped,
  // and when no connection is inside a call the transcript has one entry for every body request.
  lemma NothingDropped(kind: string, articles: set<string>, run: seq<Action>)
    requires IsRun(Initial(kind, articles), run)
    ensures var s := After(Initial(kind, articles), run);
            && |s.calls| <= REQUEST_BUDGET && s.shared.droppedEvents == 0
            && |s.shared.transcript| + Total(s.workers, Calling) + Total(s.workers, Locks) == s.shared.bodyRequests
  {
    AccountedHolds(kind, articles, run);
    CallsSplit(After(Initial(kind, articles), run));
  }

  // --- Attempt numbers -------------------------------------------------------------------------------------

  function CallsOf(calls: seq<Call>, id: string): nat {
    if |calls| == 0 then 0
    else CallsOf(calls[..|calls| - 1], id) + if calls[|calls| - 1].id == id then 1 else 0
  }

  predicate Numbered(calls: seq<Call>) {
    |calls| == 0 ||
    var last := |calls| - 1;
    calls[last].attempt == CallsOf(calls, calls[last].id) && Numbered(calls[..last])
  }

  // Within numbered calls the attempts of one article are 1, 2, 3, and so on, each once.
  lemma {:induction false} NumberedOnce(calls: seq<Call>, id: string, k: nat)
    requires Numbered(calls)
    ensures multiset(calls)[Call(id, k)] == if 1 <= k <= CallsOf(calls, id) then 1 else 0
  {
    if |calls| != 0 {
      var last := |calls| - 1;
      NumberedOnce(calls[..last], id, k);
      assert calls == calls[..last] + [calls[last]];
    }
  }

  // The attempt map counts the calls, and every reply is the one for its attempt.
  ghost predicate Attempted(s: State) {
    && Numbered(s.calls)
    && (forall id :: Attempts(s.shared, id) == CallsOf(s.calls, id))
    && (forall i :: 0 <= i < |s.shared.transcript| ==> Faithful(s.kind, s.shared.transcript[i]))
    && (forall w :: 0 <= w < |s.workers| ==> Replying(s.kind, s.workers[w]))
  }

  predicate Faithful(kind: string, e: Event) {
    e.reply == ReplyTo(kind, e.call.attempt)
  }

  predicate Replying(kind: string, w: Worker) {
    && (w.phase.Recording? ==> w.phase.reply == ReplyTo(kind, w.phase.call.attempt))
    && (w.phase.Writing? && w.phase.after.Article? ==> w.phase.after.reply == ReplyTo(kind, w.phase.after.call.attempt))
  }

  lemma ReplyingStep(s: State, a: Action)
    requires Enabled(s, a) && !a.Accept?
    requires Replying(s.kind, s.workers[a.w])
    ensures At(Apply(s, a), a.w) && Replying(s.kind, Apply(s, a).workers[a.w])
  {
    hide Finish, Held;
    if a.Reserve? || a.Deliver? {
      WriteReplies(s, a);
    }
  }

  lemma WriteReplies(s: State, a: Action)
    requires Enabled(s, a) && (a.Reserve? || a.Deliver?)
    requires Replying(s.kind, s.workers[a.w])
    ensures At(Apply(s, a), a.w) && Replying(s.kind, Apply(s, a).workers[a.w])
  {
    hide Apply, Held;
    WriteStep(s, a);
  }

  lemma GreetingReplies(kind: string)
    ensures Replying(kind, Worker(0, Writing(Load(|GREETING|), Greet)))
  {
  }

  lemma AcceptEffect(s: State)
    requires Enabled(s, Accept)
    ensures Apply(s, Accept).shared == s.shared && Apply(s, Accept).calls == s.calls
  {
  }

  lemma AttemptedStep(s: State, a: Action)
    requires Enabled(s, a) && Attempted(s)
    ensures Attempted(Apply(s, a))
  {
    hide Total, Replying, Held;
    OneWorker(s, a);
    if a.Accept? {
      hide Apply;
      GreetingReplies(s.kind);
      AcceptEffect(s);
    } else {
      ReplyingStep(s, a);
      if a.TakeAttempt? {
        TakeEffect(s, a.w, a.sizes, a.completed);
        NumberedTake(s, a.w, a.sizes, a.completed);
      } else {
        hide Apply;
        if a.Record? {
          RecordFaithful(s, a.w);
        } else {
          QuietEffect(s, a);
        }
      }
    }
  }

  lemma RecordFaithful(s: State, w: nat)
    requires Enabled(s, Record(w)) && Replying(s.kind, s.workers[w])
    requires forall i :: 0 <= i < |s.shared.transcript| ==> Faithful(s.kind, s.shared.transcript[i])
    ensures var t := Apply(s, Record(w));
            && t.shared.attempts == s.shared.attempts && t.calls == s.calls
            && forall i :: 0 <= i < |t.shared.transcript| ==> Faithful(s.kind, t.shared.transcript[i])
  {
    hide Replying;
    var p := s.workers[w].phase;
    assert Faithful(s.kind, Event(p.call, p.reply, p.completed)) by {
      RecordingFaithful(s.kind, s.workers[w]);
    }
  }

  lemma RecordingFaithful(kind: string, w: Worker)
    requires Replying(kind, w) && w.phase.Recording?
    ensures Faithful(kind, Event(w.phase.call, w.phase.reply, w.phase.completed))
  {
  }

  lemma NumberedTake(s: State, w: nat, sizes: seq<nat>, completed: bool)
    requires At(s, w) && s.workers[w].phase.Locking? && Numbered(s.calls)
    requires forall id :: Attempts(s.shared, id) == CallsOf(s.calls, id)
    ensures var t := Taken(s, w, s.workers[w].phase.id, sizes, completed);
            Numbered(t.calls) && forall id :: Attempts(t.shared, id) == CallsOf(t.calls, id)
  {
    var id := s.workers[w].phase.id;
    var t := Taken(s, w, id, sizes, completed);
    assert t.calls[..|s.calls|] == s.calls;
    assert Attempts(s.shared, id) == CallsOf(s.calls, id);
    forall other
      ensures Attempts(t.shared, other) == CallsOf(t.calls, other)
    {
      assert Attempts(s.shared, other) == CallsOf(s.calls, other);
    }
  }

  lemma {:induction false} AttemptedHolds(kind: string, articles: set<string>, run: seq<Action>)
    requires IsRun(Initial(kind, articles), run)
    ensures Attempted(After(Initial(kind, articles), run))
    decreases |run|
  {
    if |run| != 0 {
      AttemptedHolds(kind, articles, run[..|run| - 1]);
      AttemptedStep(After(Initial(kind, articles), run[..|run| - 1]), run[|run| - 1]);
    }
  }

  // In every interleaving, the calls of an article that have finished or are in flight carry
  // the attempt numbers 1 to n, each exactly once.
  lemma AttemptsConsecutive(kind: string, articles: set<string>, run: seq<Action>, id: string, k: nat)
    requires IsRun(Initial(kind, articles), run)
    ensures var s := After(Initial(kind, articles), run);
            multiset(EventCalls(s.shared.transcript))[Call(id, k)] + InFlight(s.workers)[Call(id, k)] ==
              if 1 <= k <= Attempts(s.shared, id) then 1 else 0
  {
    var s := After(Initial(kind, articles), run);
    AccountedHolds(kind, articles, run);
    AttemptedHolds(kind, articles, run);
    NumberedOnce(s.calls, id, k);
    assert Attempts(s.shared, id) == CallsOf(s.calls, id);
    assert (multiset(EventCalls(s.shared.transcript)) + InFlight(s.workers))[Call(id, k)] == multiset(s.calls)[Call(id, k)];
  }

  // How many recorded calls of an article got a reply.
  function RepliesOf(transcript: seq<Event>, id: string, reply: Reply): nat {
    if |transcript| == 0 then 0
    else
      var e := transcript[|transcript| - 1];
      RepliesOf(transcript[..|transcript| - 1], id, reply) + if e.call.id == id && e.reply == reply then 1 else 0
  }

  lemma {:induction false} FirstReplies(kind: string, transcript: seq<Event>, id: string, reply: Reply)
    requires forall i :: 0 <= i < |transcript| ==> Faithful(kind, transcript[i])
    requires forall k: nat :: ReplyTo(kind, k) == reply <==> k == 1
    ensures RepliesOf(transcript, id, reply) == multiset(EventCalls(transcript))[Call(id, 1)]
  {
    if |transcript| != 0 {
      var last := |transcript| - 1;
      FirstReplies(kind, transcript[..last], id, reply);
      assert Faithful(kind, transcript[last]);
    }
  }

  // A fault of the first attempt hits exactly one call of every requested article: the
  // recorded call with that reply, or the first call while it is still in flight.
  lemma FirstAttemptOnly(kind: string, articles: set<string>, run: seq<Action>, id: string)
    requires IsRun(Initial(kind, articles), run)
    requires kind == "first-missing" || kind == "first-corrupt"
    ensures var s := After(Initial(kind, articles), run);
            var reply := if kind == "first-missing" then Missing else Corrupted;
            RepliesOf(s.shared.transcript, id, reply) + InFlight(s.workers)[Call(id, 1)] ==
              if Attempts(s.shared, id) >= 1 then 1 else 0
  {
    var s := After(Initial(kind, articles), run);
    var reply := if kind == "first-missing" then Missing else Corrupted;
    AttemptsConsecutive(kind, articles, run, id, 1);
    AttemptedHolds(kind, articles, run);
    RunKeepsKind(kind, articles, run);
    FirstReplies(kind, s.shared.transcript, id, reply);
  }

  lemma {:induction false} RunKeepsKind(kind: string, articles: set<string>, run: seq<Action>)
    requires IsRun(Initial(kind, articles), run)
    ensures After(Initial(kind, articles), run).kind == kind
    decreases |run|
  {
    if |run| != 0 {
      RunKeepsKind(kind, articles, run[..|run| - 1]);
      OneWorker(After(Initial(kind, articles), run[..|run| - 1]), run[|run| - 1]);
    }
  }

  // --- Connections -------------------------------------------------------------------------------------------

  predicate Slotted(s: State) {
    && Open(s.workers) <= SLOTS && |s.workers| <= CONNECTION_BUDGET
    && |s.workers| <= s.connections <= CONNECTION_BUDGET + 1 && (s.serving ==> s.connections <= CONNECTION_BUDGET)
  }

  lemma SlottedStep(s: State, a: Action)
    requires Enabled(s, a) && Slotted(s)
    ensures Slotted(Apply(s, a))
  {
    hide Total;
    TotalStep(s, a, OpenSlots);
    OneWorker(s, a);
    if a.Accept? {
      TotalAppend(s.workers, Worker(0, Writing(Load(|GREETING|), Greet)), OpenSlots);
    }
  }

  // At most 64 connections are open at once, and at most 2048 are ever served.
  lemma {:induction false} SlotsHold(kind: string, articles: set<string>, run: seq<Action>)
    requires IsRun(Initial(kind, articles), run)
    ensures Slotted(After(Initial(kind, articles), run))
    decreases |run|
  {
    if |run| != 0 {
      SlotsHold(kind, articles, run[..|run| - 1]);
      SlottedStep(After(Initial(kind, articles), run[..|run| - 1]), run[|run| - 1]);
    }
  }
}
