// What the responder's counters and limits are after any run, in numbers:
// internal/adversarial/server.go.
module ResponderRuns {
  import opened Interleaving
  import opened Responder

  function CountOf(run: seq<Action>, p: Action -> bool): nat {
    if |run| == 0 then 0 else CountOf(run[..|run| - 1], p) + if p(run[|run| - 1]) then 1 else 0
  }

  // The bytes that the sockets took.
  function SentIn(run: seq<Action>): nat {
    if |run| == 0 then 0
    else
      var a := run[|run| - 1];
      SentIn(run[..|run| - 1]) + if a.Deliver? then a.sent else 0
  }

  function Requests(): Action -> bool {
    (a: Action) => a.CountRequest?
  }

  function Fetches(): Action -> bool {
    (a: Action) => a.Choose? && a.command.Fetch?
  }

  function Attempted(): Action -> bool {
    (a: Action) => a.TakeAttempt?
  }

  function Records(): Action -> bool {
    (a: Action) => a.Record?
  }

  function Accepts(): Action -> bool {
    (a: Action) => a.Accept?
  }

  // What one action adds to the counters.
  lemma StepCounts(s: State, a: Action)
    requires Enabled(s, a)
    ensures var t := Apply(s, a);
            && t.shared.wireBytes == s.shared.wireBytes + (if a.Deliver? then a.sent else 0)
            && t.shared.requests == s.shared.requests + (if a.CountRequest? then 1 else 0)
            && t.shared.bodyRequests == s.shared.bodyRequests + (if a.Choose? && a.command.Fetch? then 1 else 0)
            && |t.calls| == |s.calls| + (if a.TakeAttempt? then 1 else 0)
            && |t.shared.transcript| + t.shared.droppedEvents ==
               |s.shared.transcript| + s.shared.droppedEvents + (if a.Record? then 1 else 0)
            && t.connections == s.connections + (if a.Accept? then 1 else 0)
  {
    hide Total, Attempts, ReplyTo, Finish;
    if a.Reserve? {
      FinishKeeps(s, a.w, s.workers[a.w].phase.after, false, false);
    } else if a.Deliver? {
      FinishKeeps(s.(shared := Wrote(s.shared, a.sent)), a.w, s.workers[a.w].phase.after, a.ok, a.completed);
    }
  }

  lemma FinishKeeps(s: State, w: nat, after: Resume, ok: bool, completed: bool)
    requires At(s, w)
    ensures var t := Finish(s, w, after, ok, completed);
            t.shared == s.shared && t.calls == s.calls && t.connections == s.connections
  {
  }

  // Every counter counts its own events, in every interleaving.
  lemma {:induction false} RunCounts(kind: string, articles: set<string>, run: seq<Action>)
    requires IsRun(Initial(kind, articles), run)
    ensures var s := After(Initial(kind, articles), run);
            && s.shared.wireBytes == SentIn(run)
            && s.shared.requests == CountOf(run, Requests())
            && s.shared.bodyRequests == CountOf(run, Fetches())
            && |s.calls| == CountOf(run, Attempted())
            && |s.shared.transcript| + s.shared.droppedEvents == CountOf(run, Records())
            && s.connections == CountOf(run, Accepts())
    decreases |run|
  {
    hide Apply;
    if |run| != 0 {
      RunCounts(kind, articles, run[..|run| - 1]);
      StepCounts(After(Initial(kind, articles), run[..|run| - 1]), run[|run| - 1]);
    }
  }

  // --- Lines of a connection -----------------------------------------------------------------------------

  // A connection that is inside a command has read fewer than 512 lines before it.
  predicate LinesFit(w: Worker) {
    && w.lines <= 512
    && (w.phase.Counting? || w.phase.Choosing? || w.phase.Locking? || w.phase.Recording? ==> w.lines < 512)
    && (w.phase.Writing? ==> if w.phase.after.Greet? then w.lines == 0 else w.lines < 512)
  }

  predicate AllLinesFit(workers: seq<Worker>) {
    forall w :: 0 <= w < |workers| ==> LinesFit(workers[w])
  }

  lemma LinesStep(s: State, a: Action)
    requires Enabled(s, a) && AllLinesFit(s.workers)
    ensures AllLinesFit(Apply(s, a).workers)
  {
    OneWorker(s, a);
    if !a.Accept? {
      assert LinesFit(s.workers[Acting(s, a)]);
      ActorLines(s, a);
    }
    hide Apply;
  }

  lemma ActorLines(s: State, a: Action)
    requires Enabled(s, a) && !a.Accept? && LinesFit(s.workers[Acting(s, a)])
    ensures Acting(s, a) < |Apply(s, a).workers| && LinesFit(Apply(s, a).workers[Acting(s, a)])
  {
  }

  lemma {:induction false} LinesHold(kind: string, articles: set<string>, run: seq<Action>)
    requires IsRun(Initial(kind, articles), run)
    ensures AllLinesFit(After(Initial(kind, articles), run).workers)
    decreases |run|
  {
    hide Apply, LinesFit;
    if |run| != 0 {
      LinesHold(kind, articles, run[..|run| - 1]);
      LinesStep(After(Initial(kind, articles), run[..|run| - 1]), run[|run| - 1]);
    }
  }

  // --- Limits --------------------------------------------------------------------------------------------

  // The limits in numbers: 512 MiB written or reserved, 8192 article calls, 64 connections at
  // once, 2048 served, 512 lines each.
  lemma RunLimits(kind: string, articles: set<string>, run: seq<Action>)
    requires IsRun(Initial(kind, articles), run)
    ensures var s := After(Initial(kind, articles), run);
            && s.shared.wireBytes <= s.shared.wireReserved <= 536870912
            && |s.calls| <= 8192 && s.shared.droppedEvents == 0
            && Open(s.workers) <= 64 && |s.workers| <= 2048
            && forall w :: 0 <= w < |s.workers| ==> s.workers[w].lines <= 512
  {
    hide Total;
    BudgetHolds(kind, articles, run);
    NothingDropped(kind, articles, run);
    SlotsHold(kind, articles, run);
    LinesHold(kind, articles, run);
    var s := After(Initial(kind, articles), run);
    forall w | 0 <= w < |s.workers|
      ensures s.workers[w].lines <= 512
    {
      assert LinesFit(s.workers[w]);
    }
  }

  // And none of them refuses earlier: a connection is served while 64 are not open and no more
  // than 2048 came, a line is read while fewer than 512 were, a request is served up to number
  // 8192, and a write reserves while 512 MiB suffice.
  lemma LimitsExact(s: State, a: Action)
    requires Enabled(s, a)
    ensures var t := Apply(s, a);
            && (a.Accept? ==>
                  && (|t.workers| == |s.workers| + 1 <==> s.connections < 2048 && Open(s.workers) != 64)
                  && (t.serving <==> s.connections < 2048))
            && (a.Receive? ==>
                  (t.workers[a.w].phase.Counting? <==> a.arrived && s.workers[a.w].lines < 512))
            && (a.CountRequest? ==> (t.workers[a.w].phase.Choosing? <==> s.shared.requests < 8192))
            && (a.Reserve? ==>
                  (t.workers[a.w].phase.Writing? && t.workers[a.w].phase.io.Swap? <==>
                     s.shared.wireReserved + s.workers[a.w].phase.io.length <= 536870912))
  {
    hide Total;
  }

  // --- Replies -------------------------------------------------------------------------------------------

  // Every recorded call got the reply that the fault kind asks for.
  lemma RepliesFit(kind: string, articles: set<string>, run: seq<Action>, i: nat)
    requires IsRun(Initial(kind, articles), run)
    requires i < |After(Initial(kind, articles), run).shared.transcript|
    ensures var e := After(Initial(kind, articles), run).shared.transcript[i];
            && (e.reply == Missing <==>
                  kind == "always-missing" || (kind == "first-missing" && e.call.attempt == 1))
            && (e.reply == Hangup <==> kind == "disconnect")
            && (e.reply == Corrupted <==> kind == "first-corrupt" && e.call.attempt == 1)
  {
    hide After, IsRun;
    AttemptedHolds(kind, articles, run);
    RunKeepsKind(kind, articles, run);
    var s := After(Initial(kind, articles), run);
    assert Faithful(s.kind, s.shared.transcript[i]);
  }
}
