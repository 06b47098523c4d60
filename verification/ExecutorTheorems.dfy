/** What holds of every recipe run, for every sandbox behaviour. */
module ExecutorTheorems {
  import opened Records
  import opened Executor
  import Shell
  import Expand

  // ---- Runs compose ----

  lemma RebaseNothing(notices: seq<Notice>)
    ensures Rebase([], notices) == notices
  {
    forall i | 0 <= i < |notices| ensures Rebase([], notices)[i] == notices[i] {
      if notices[i].Progress? { assert [] + notices[i].entries == notices[i].entries; }
    }
  }

  lemma RebaseTwice(a: seq<Entry>, b: seq<Entry>, notices: seq<Notice>)
    ensures Rebase(a, Rebase(b, notices)) == Rebase(a + b, notices)
  {
    forall i | 0 <= i < |notices| ensures Rebase(a, Rebase(b, notices))[i] == Rebase(a + b, notices)[i] {
      if notices[i].Progress? { assert a + (b + notices[i].entries) == a + b + notices[i].entries; }
    }
  }

  lemma RebaseAppend(a: seq<Entry>, s: seq<Notice>, t: seq<Notice>)
    ensures Rebase(a, s + t) == Rebase(a, s) + Rebase(a, t)
  {
  }

  lemma ThenAssociative(x: Outcome, y: Outcome, z: Outcome)
    ensures Then(Then(x, y), z) == Then(x, Then(y, z))
  {
    if x.ok && y.ok {
      assert x.entries + y.entries + z.entries == x.entries + (y.entries + z.entries);
      RebaseTwice(x.entries, y.entries, z.notices);
      RebaseAppend(x.entries, y.notices, Rebase(y.entries, z.notices));
      hide Rebase;
      var s, t, u := x.notices, Rebase(x.entries, y.notices), Rebase(x.entries + y.entries, z.notices);
      assert s + t + u == s + (t + u);
    }
  }

  lemma EmptyThen(w: World, cfg: Config, n: int, ctx: Shell.Context, asked: seq<Request>, y: Outcome)
    ensures Then(Execute(w, cfg, [], n, ctx, asked), y) == y
  {
    RebaseNothing(y.notices);
    assert [] + y.entries == y.entries && [] + y.notices == y.notices;
  }

  /** Running a and then, if it succeeded, b from the counter and context it returned is running a + b. */
  lemma {:induction false} ExecuteAppend(w: World, cfg: Config, a: seq<Step>, b: seq<Step>, n: int,
                                         ctx: Shell.Context, asked: seq<Request>)
    ensures var x := Execute(w, cfg, a, n, ctx, asked);
            Execute(w, cfg, a + b, n, ctx, asked) == Then(x, Execute(w, cfg, b, x.next, x.ctx, x.asked))
    decreases |a|
  {
    if a == [] {
      assert a + b == b;
      EmptyThen(w, cfg, n, ctx, asked, Execute(w, cfg, b, n, ctx, asked));
    } else {
      hide One, Then;
      assert (a + b)[1..] == a[1..] + b;
      var first := One(w, cfg, a[0], n, ctx, asked);
      var x := Execute(w, cfg, a[1..], first.next, first.ctx, first.asked);
      var y := Execute(w, cfg, b, x.next, x.ctx, x.asked);
      ExecuteAppend(w, cfg, a[1..], b, first.next, first.ctx, first.asked);
      assert Execute(w, cfg, a + b, n, ctx, asked) == Then(first, Then(x, y));
      ThenAssociative(first, x, y);
      ThenFailed(first, x, y, Execute(w, cfg, b, Then(first, x).next, Then(first, x).ctx, Then(first, x).asked));
    }
  }

  lemma ThenFailed(first: Outcome, x: Outcome, y: Outcome, z: Outcome)
    requires first.ok ==> z == y
    ensures Then(Then(first, x), y) == Then(Then(first, x), z)
  {
  }

  // ---- Entries ----

  function Oks(entries: seq<Entry>): nat {
    if entries == [] || !entries[0].ok then 0 else 1 + Oks(entries[1..])
  }

  predicate Numbered(cfg: Config, steps: seq<Step>, n: int, entries: seq<Entry>) {
    && |entries| <= |steps|
    && forall i :: 0 <= i < |entries| ==>
         entries[i].step == n + 1 + i && entries[i].phase == cfg.phase && entries[i].cmd == steps[i].raw
  }

  lemma NumberedCons(cfg: Config, steps: seq<Step>, n: int, e: Entry, entries: seq<Entry>)
    requires steps != [] && Numbered(cfg, steps[1..], n + 1, entries)
    requires e.step == n + 1 && e.phase == cfg.phase && e.cmd == steps[0].raw
    ensures Numbered(cfg, steps, n, [e] + entries)
  {
  }

  /** All but possibly the last entry are Ok; `ok` says that every step has an Ok entry. */
  predicate StopsAtFailure(entries: seq<Entry>, count: nat, ok: bool) {
    && (forall i :: 0 <= i < |entries| - 1 ==> entries[i].ok)
    && (ok <==> |entries| == count && forall i :: 0 <= i < |entries| ==> entries[i].ok)
    && (!ok ==> entries != [] && !entries[|entries| - 1].ok)
  }

  lemma StopsCons(e: Entry, entries: seq<Entry>, count: nat, ok: bool)
    requires e.ok && StopsAtFailure(entries, count, ok)
    ensures StopsAtFailure([e] + entries, count + 1, ok)
  {
    var all := [e] + entries;
    assert forall i :: 0 <= i < |entries| ==> all[i + 1] == entries[i];
  }

  lemma ExecuteCons(w: World, cfg: Config, steps: seq<Step>, n: int, ctx: Shell.Context, asked: seq<Request>)
    requires steps != []
    ensures var x := One(w, cfg, steps[0], n, ctx, asked);
            var y := Execute(w, cfg, steps[1..], x.next, x.ctx, x.asked);
            var r := Execute(w, cfg, steps, n, ctx, asked);
            && r.ok == (x.ok && y.ok)
            && r.entries == (if x.ok then x.entries + y.entries else x.entries)
            && r.next == (if x.ok then y.next else x.next)
            && r.ctx == (if x.ok then y.ctx else x.ctx)
            && r.asked == (if x.ok then y.asked else x.asked)
  {
    hide One;
  }

  /** Entries are numbered from n + 1 with no gap and name their steps, all but possibly the last are Ok, and the run
      is ok exactly when every step ran Ok. */
  lemma {:induction false} EntriesOfRun(w: World, cfg: Config, steps: seq<Step>, n: int, ctx: Shell.Context,
                                        asked: seq<Request>)
    ensures var r := Execute(w, cfg, steps, n, ctx, asked);
            r.next == n + |r.entries| && Numbered(cfg, steps, n, r.entries) && StopsAtFailure(r.entries, |steps|, r.ok)
    decreases |steps|
  {
    hide One, Execute, Numbered, StopsAtFailure, Apply, Sends;
    if steps == [] {
      EmptyRecipe(w, cfg, n, ctx, asked);
    } else {
      var x := One(w, cfg, steps[0], n, ctx, asked);
      var y := Execute(w, cfg, steps[1..], x.next, x.ctx, x.asked);
      EntryOfStep(w, cfg, steps[0], n, ctx, asked);
      EntriesOfRun(w, cfg, steps[1..], x.next, x.ctx, x.asked);
      ExecuteCons(w, cfg, steps, n, ctx, asked);
      var e := x.entries[0];
      assert x.entries == [e];
      if x.ok {
        NumberedCons(cfg, steps, n, e, y.entries);
        StopsCons(e, y.entries, |steps| - 1, y.ok);
      } else {
        FailedEntry(cfg, steps, n, e);
      }
    }
  }

  lemma EmptyRecipe(w: World, cfg: Config, n: int, ctx: Shell.Context, asked: seq<Request>)
    ensures Execute(w, cfg, [], n, ctx, asked) == Outcome([], n, true, ctx, asked, [])
    ensures Numbered(cfg, [], n, []) && StopsAtFailure([], 0, true)
  {
  }

  lemma FailedEntry(cfg: Config, steps: seq<Step>, n: int, e: Entry)
    requires steps != [] && !e.ok && e.step == n + 1 && e.phase == cfg.phase && e.cmd == steps[0].raw
    ensures Numbered(cfg, steps, n, [e]) && StopsAtFailure([e], |steps|, false)
  {
    assert ![e][0].ok;
  }

  /** An attempt's entry keeps the number, phase and command it started with. */
  predicate Labelled(e: Entry, cfg: Config, st: Step, n: int) {
    e.step == n && e.phase == cfg.phase && e.cmd == st.raw
  }

  lemma StreamIsLabelled(blank: Entry, stream: Stream, cfg: Config, st: Step, n: int)
    requires Labelled(blank, cfg, st, n)
    ensures Labelled(FromStream(blank, stream).entry, cfg, st, n)
  {
    hide BeforeError, Outputs, Concat, LastExit;
  }

  lemma AttemptIsLabelled(w: World, cfg: Config, st: Step, n: int, asked: seq<Request>)
    ensures Labelled(Try(w, cfg, st, n, asked).entry, cfg, st, n)
  {
    StreamIsLabelled(Blank(cfg, st, n), w.stream(asked), cfg, st, n);
    hide FromStream, PlanCopy;
  }

  lemma EntryOfStep(w: World, cfg: Config, st: Step, n: int, ctx: Shell.Context, asked: seq<Request>)
    ensures var x := One(w, cfg, st, n, ctx, asked);
            && x.next == n + 1 && |x.entries| == 1 && x.ok == x.entries[0].ok
            && x.entries[0].step == n + 1 && x.entries[0].phase == cfg.phase && x.entries[0].cmd == st.raw
            && x.ctx == (if x.ok then Apply(st, ctx) else ctx)
            && x.asked == asked + Sends(cfg, st, ctx)
  {
    hide Sends, Apply, Try, Told;
    AttemptIsLabelled(w, cfg, st, n + 1, asked + Sends(cfg, st, ctx));
  }

  /** The context after a run is the one its successful steps make, so a failed step leaves no trace in it. */
  lemma {:induction false} ContextOfRun(w: World, cfg: Config, steps: seq<Step>, n: int, ctx: Shell.Context,
                                        asked: seq<Request>)
    ensures var r := Execute(w, cfg, steps, n, ctx, asked);
            && Oks(r.entries) <= |steps| && Oks(r.entries) == |r.entries| - (if r.ok then 0 else 1)
            && r.ctx == ApplyAll(steps[..Oks(r.entries)], ctx)
    decreases |steps|
  {
    if steps != [] {
      var x := One(w, cfg, steps[0], n, ctx, asked);
      var y := Execute(w, cfg, steps[1..], x.next, x.ctx, x.asked);
      var r := Execute(w, cfg, steps, n, ctx, asked);
      EntryOfStep(w, cfg, steps[0], n, ctx, asked);
      ContextOfRun(w, cfg, steps[1..], x.next, x.ctx, x.asked);
      hide One, Execute, Apply, Sends;
      ExecuteCons(w, cfg, steps, n, ctx, asked);
      if x.ok {
        assert r.entries[1..] == y.entries;
        var k := Oks(y.entries);
        assert steps[..k + 1][1..] == steps[1..][..k];
      }
    }
  }

  ghost function AllSent(cfg: Config, steps: seq<Step>, ctx: Shell.Context): seq<Request>
    decreases |steps|
  {
    if steps == [] then [] else Sends(cfg, steps[0], ctx) + AllSent(cfg, steps[1..], Apply(steps[0], ctx))
  }

  lemma AllSentCons(cfg: Config, steps: seq<Step>, k: nat, ctx: Shell.Context, asked: seq<Request>)
    requires k < |steps|
    ensures asked + AllSent(cfg, steps[..k + 1], ctx)
         == asked + Sends(cfg, steps[0], ctx) + AllSent(cfg, steps[1..][..k], Apply(steps[0], ctx))
  {
    hide Sends, Apply;
    assert steps[..k + 1][1..] == steps[1..][..k];
  }

  /** What is asked of the sandbox is fixed by the recipe; its answers only decide how far the run gets. */
  lemma {:induction false} RequestsOfRun(w: World, cfg: Config, steps: seq<Step>, n: int, ctx: Shell.Context,
                                         asked: seq<Request>)
    ensures var r := Execute(w, cfg, steps, n, ctx, asked);
            |r.entries| <= |steps| && r.asked == asked + AllSent(cfg, steps[..|r.entries|], ctx)
    decreases |steps|
  {
    if steps == [] {
      assert asked + [] == asked;
    } else {
      hide One, Execute, Apply, Sends;
      var x := One(w, cfg, steps[0], n, ctx, asked);
      var y := Execute(w, cfg, steps[1..], x.next, x.ctx, x.asked);
      EntryOfStep(w, cfg, steps[0], n, ctx, asked);
      ExecuteCons(w, cfg, steps, n, ctx, asked);
      RequestsOfRun(w, cfg, steps[1..], x.next, x.ctx, x.asked);
      AllSentCons(cfg, steps, if x.ok then |y.entries| else 0, ctx, asked);
      if !x.ok {
        assert AllSent(cfg, steps[1..][..0], Apply(steps[0], ctx)) == [];
        assert x.asked + [] == x.asked;
      }
    }
  }

  // ---- Progress reports ----

  function Reports(notices: seq<Notice>): seq<Notice> {
    if notices == [] then []
    else (if notices[0].Progress? then [notices[0]] else []) + Reports(notices[1..])
  }

  lemma ReportsCons(f: Notice, rest: seq<Notice>)
    ensures Reports([f] + rest) == (if f.Progress? then [f] else []) + Reports(rest)
  {
    assert ([f] + rest)[1..] == rest;
  }

  lemma {:induction false} ReportsAppend(a: seq<Notice>, b: seq<Notice>)
    ensures Reports(a + b) == Reports(a) + Reports(b)
    decreases |a|
  {
    if a == [] {
      assert a + b == b;
      return;
    }
    hide Reports;
    assert a == [a[0]] + a[1..] && a + b == [a[0]] + (a[1..] + b);
    ReportsCons(a[0], a[1..]);
    ReportsCons(a[0], a[1..] + b);
    ReportsAppend(a[1..], b);
    var head := if a[0].Progress? then [a[0]] else [];
    assert head + Reports(a[1..]) + Reports(b) == head + (Reports(a[1..]) + Reports(b));
  }

  lemma {:induction false} ReportsRebase(entries: seq<Entry>, notices: seq<Notice>)
    ensures Reports(Rebase(entries, notices)) == Rebase(entries, Reports(notices))
    decreases |notices|
  {
    if notices != [] {
      assert Rebase(entries, notices)[1..] == Rebase(entries, notices[1..]);
      ReportsRebase(entries, notices[1..]);
      var head := if notices[0].Progress? then [notices[0]] else [];
      RebaseAppend(entries, head, Reports(notices[1..]));
    }
  }

  lemma {:induction false} OutputIsNoReport(notices: seq<Notice>)
    requires forall i :: 0 <= i < |notices| ==> !notices[i].Progress?
    ensures Reports(notices) == []
    decreases |notices|
  {
    if notices != [] { OutputIsNoReport(notices[1..]); }
  }

  lemma ReportsOfStep(w: World, cfg: Config, st: Step, n: int, ctx: Shell.Context, asked: seq<Request>)
    ensures var x := One(w, cfg, st, n, ctx, asked);
            && |x.entries| == 1
            && Reports(x.notices) == if x.ok then [Progress(n + 1, [x.entries[0]])] else []
  {
    hide Sends, Apply, Try;
    var a := Try(w, cfg, st, n + 1, asked + Sends(cfg, st, ctx));
    var quiet := [Began(n + 1, cfg.phase, st.raw)] + Told(n + 1, a.output);
    OutputIsNoReport(quiet);
    var last := [Progress(n + 1, [a.entry])];
    ReportsAppend(quiet, last);
    assert last[1..] == [];
    assert Reports(last) == last;
  }

  function ReportsFor(entries: seq<Entry>, n: int, count: nat): seq<Notice>
    requires count <= |entries|
  {
    seq(count, i requires 0 <= i < count => Progress(n + 1 + i, entries[..i + 1]))
  }

  /** Progress is reported once per step that ran Ok, in order, each time with every entry so far: the entry of a
      failing step is never reported. */
  lemma {:induction false} ReportsOfRun(w: World, cfg: Config, steps: seq<Step>, n: int, ctx: Shell.Context,
                                        asked: seq<Request>)
    ensures var r := Execute(w, cfg, steps, n, ctx, asked);
            && Oks(r.entries) <= |r.entries|
            && Reports(r.notices) == ReportsFor(r.entries, n, Oks(r.entries))
    decreases |steps|
  {
    hide One, Execute, Apply, Sends, Reports, ReportsFor, Rebase, Oks;
    if steps != [] {
      var x := One(w, cfg, steps[0], n, ctx, asked);
      var y := Execute(w, cfg, steps[1..], x.next, x.ctx, x.asked);
      EntryOfStep(w, cfg, steps[0], n, ctx, asked);
      ReportsOfStep(w, cfg, steps[0], n, ctx, asked);
      ReportsOfRun(w, cfg, steps[1..], x.next, x.ctx, x.asked);
      ExecuteCons(w, cfg, steps, n, ctx, asked);
      NoticesCons(w, cfg, steps, n, ctx, asked);
      var e := x.entries[0];
      assert x.entries == [e];
      OksCons(e, y.entries);
      if x.ok {
        ReportsAppend(x.notices, Rebase(x.entries, y.notices));
        ReportsRebase(x.entries, y.notices);
        ReportsShift(e, y.entries, n, Oks(y.entries));
      } else {
        OksCons(e, []);
        assert x.entries == [e] + [];
        NoReports([e], n);
      }
    } else {
      EmptyReports(w, cfg, n, ctx, asked);
      NoReports([], n);
    }
  }

  lemma EmptyReports(w: World, cfg: Config, n: int, ctx: Shell.Context, asked: seq<Request>)
    ensures var r := Execute(w, cfg, [], n, ctx, asked); r.entries == [] && Reports(r.notices) == [] && Oks([]) == 0
  {
  }

  lemma NoticesCons(w: World, cfg: Config, steps: seq<Step>, n: int, ctx: Shell.Context, asked: seq<Request>)
    requires steps != []
    ensures var x := One(w, cfg, steps[0], n, ctx, asked);
            var y := Execute(w, cfg, steps[1..], x.next, x.ctx, x.asked);
            Execute(w, cfg, steps, n, ctx, asked).notices == if x.ok then x.notices + Rebase(x.entries, y.notices)
              else x.notices
  {
    hide One, Rebase;
  }

  lemma OksCons(e: Entry, entries: seq<Entry>)
    ensures Oks([e] + entries) == if e.ok then 1 + Oks(entries) else 0
  {
    assert ([e] + entries)[1..] == entries;
  }

  lemma NoReports(entries: seq<Entry>, n: int)
    ensures ReportsFor(entries, n, 0) == []
  {
  }

  lemma ReportsShift(e: Entry, entries: seq<Entry>, n: int, count: nat)
    requires count <= |entries|
    ensures [Progress(n + 1, [e])] + Rebase([e], ReportsFor(entries, n + 1, count))
            == ReportsFor([e] + entries, n, count + 1)
  {
    var whole := ReportsFor([e] + entries, n, count + 1);
    var rest := Rebase([e], ReportsFor(entries, n + 1, count));
    assert ([e] + entries)[..1] == [e];
    forall i | 0 <= i < count ensures rest[i] == whole[i + 1] {
      assert ([e] + entries)[..i + 2] == [e] + entries[..i + 1];
    }
  }

  // ---- ENV steps ----

  function Assignments(steps: seq<Step>): seq<Expand.Assignment>
    requires forall i :: 0 <= i < |steps| ==> steps[i].ENV?
  {
    seq(|steps|, i requires 0 <= i < |steps| => Expand.Assignment(steps[i].key, steps[i].value))
  }

  /** A run of ENV steps asks nothing of the sandbox, cannot fail, and is sequential assignment. */
  lemma {:induction false} EnvSteps(w: World, cfg: Config, steps: seq<Step>, n: int, ctx: Shell.Context,
                                    asked: seq<Request>)
    requires forall i :: 0 <= i < |steps| ==> steps[i].ENV?
    ensures var r := Execute(w, cfg, steps, n, ctx, asked);
            r.ok && r.asked == asked && r.ctx == ctx.(env := Expand.Assign(ctx.env, Assignments(steps)))
    decreases |steps|
  {
    if steps != [] {
      var x := One(w, cfg, steps[0], n, ctx, asked);
      assert x.ok && x.ctx == Apply(steps[0], ctx) && x.asked == asked + [];
      EnvSteps(w, cfg, steps[1..], x.next, x.ctx, x.asked);
      assert Assignments(steps)[1..] == Assignments(steps[1..]);
    }
  }

  // ---- Streaming RUN steps ----

  lemma {:induction false} BeforeErrorIsAll(chunks: seq<Chunk>)
    ensures |BeforeError(chunks)| <= |chunks| && BeforeError(chunks) == chunks[..|BeforeError(chunks)|]
    ensures |BeforeError(chunks)| == |chunks| <==> forall i :: 0 <= i < |chunks| ==> chunks[i].err.None?
    ensures |BeforeError(chunks)| < |chunks| ==> chunks[|BeforeError(chunks)|].err.Some?
    ensures forall i :: 0 <= i < |BeforeError(chunks)| ==> chunks[i].err.None?
  {
    if chunks != [] {
      BeforeErrorIsAll(chunks[1..]);
      assert chunks == [chunks[0]] + chunks[1..];
    }
  }

  lemma {:induction false} LastExitMeaning(chunks: seq<Chunk>)
    ensures LastExit(chunks).None? <==> forall i :: 0 <= i < |chunks| ==> !chunks[i].done
    ensures LastExit(chunks).Some? ==> exists i ::
              0 <= i < |chunks| && chunks[i].done && LastExit(chunks).value == chunks[i].exit
              && forall j :: i < j < |chunks| ==> !chunks[j].done
  {
    if chunks != [] && !chunks[|chunks| - 1].done {
      var front := chunks[..|chunks| - 1];
      LastExitMeaning(front);
      assert chunks == front + [chunks[|chunks| - 1]];
    } else if chunks != [] {
      assert chunks[|chunks| - 1].done;
    }
  }

  /** A streamed step is Ok exactly when no chunk is an error and the last completion among its chunks exited zero;
      in particular a stream that just ends is a failure. */
  lemma StreamOkIff(blank: Entry, stream: Stream)
    requires !blank.ok
    ensures FromStream(blank, stream).entry.ok <==>
              (stream.Opened?
              && (forall i :: 0 <= i < |stream.chunks| ==> stream.chunks[i].err.None?)
              && exists i :: 0 <= i < |stream.chunks| && stream.chunks[i].done && stream.chunks[i].exit == 0
                             && forall j :: i < j < |stream.chunks| ==> !stream.chunks[j].done)
  {
    hide BeforeError, LastExit, Outputs, Concat;
    if stream.Opened? {
      var chunks := stream.chunks;
      BeforeErrorIsAll(chunks);
      LastExitMeaning(chunks);
      assert chunks[..|chunks|] == chunks;
    }
  }

  // ---- What makes a step Ok ----

  predicate Answered(reply: Reply) {
    reply.Replied? && reply.exit == 0
  }

  /** No error, and the last completion exited zero. */
  predicate Completed(stream: Stream) {
    && stream.Opened?
    && (forall i :: 0 <= i < |stream.chunks| ==> stream.chunks[i].err.None?)
    && exists i :: 0 <= i < |stream.chunks| && stream.chunks[i].done && stream.chunks[i].exit == 0
                   && forall j :: i < j < |stream.chunks| ==> !stream.chunks[j].done
  }

  /** The sandbox, last asked the request at the end of `asked`, lets the step succeed. */
  predicate Succeeds(w: World, cfg: Config, st: Step, asked: seq<Request>) {
    || st.ENV?
    || (st.RUN? && cfg.streaming && Completed(w.stream(asked)))
    || (!st.ENV? && !(st.RUN? && cfg.streaming) && (st.COPY? ==> PlanCopy(st.srcs).Sources?) && Answered(w.exec(asked)))
  }

  /** A step is Ok exactly when it is an ENV step, or a streamed RUN whose stream completes, or another step that is
      sent, answered and exits zero: a call that fails, like a refused COPY, is a failed step. */
  lemma StepOkIff(w: World, cfg: Config, st: Step, n: int, asked: seq<Request>)
    ensures Try(w, cfg, st, n, asked).entry.ok <==> Succeeds(w, cfg, st, asked)
  {
    hide FromStream, PlanCopy, Completed;
    StreamCompletes(Blank(cfg, st, n), w.stream(asked));
  }

  lemma StreamCompletes(blank: Entry, stream: Stream)
    requires !blank.ok
    ensures FromStream(blank, stream).entry.ok <==> Completed(stream)
  {
    hide FromStream;
    StreamOkIff(blank, stream);
  }

  /** A run is ok exactly when the sandbox lets every step succeed, each asked after the requests of all the steps
      before it. */
  lemma {:induction false} RunOkIff(w: World, cfg: Config, steps: seq<Step>, n: int, ctx: Shell.Context,
                                    asked: seq<Request>)
    ensures Execute(w, cfg, steps, n, ctx, asked).ok <==>
              forall i :: 0 <= i < |steps| ==> Succeeds(w, cfg, steps[i], asked + AllSent(cfg, steps[..i + 1], ctx))
    decreases |steps|
  {
    if steps == [] {
      return;
    }
    hide One, Execute, Apply, Sends, Succeeds, AllSent;
    var x := One(w, cfg, steps[0], n, ctx, asked);
    var rest := steps[1..];
    EntryOfStep(w, cfg, steps[0], n, ctx, asked);
    ExecuteCons(w, cfg, steps, n, ctx, asked);
    OneOkIff(w, cfg, steps[0], n, ctx, asked);
    forall i | 0 <= i < |steps|
      ensures asked + AllSent(cfg, steps[..i + 1], ctx)
           == asked + Sends(cfg, steps[0], ctx) + AllSent(cfg, rest[..i], Apply(steps[0], ctx))
    {
      AllSentCons(cfg, steps, i, ctx, asked);
    }
    NothingSent(cfg, rest, Apply(steps[0], ctx));
    assert x.asked + [] == x.asked;
    assert asked + AllSent(cfg, steps[..1], ctx) == x.asked;
    if x.ok {
      RunOkIff(w, cfg, rest, x.next, x.ctx, x.asked);
      assert forall i :: 0 <= i < |rest| ==> rest[i] == steps[i + 1];
    } else {
      assert !Succeeds(w, cfg, steps[0], asked + AllSent(cfg, steps[..0 + 1], ctx));
    }
  }

  lemma NothingSent(cfg: Config, steps: seq<Step>, ctx: Shell.Context)
    ensures AllSent(cfg, steps[..0], ctx) == []
  {
  }

  lemma OneOkIff(w: World, cfg: Config, st: Step, n: int, ctx: Shell.Context, asked: seq<Request>)
    ensures One(w, cfg, st, n, ctx, asked).ok <==> Succeeds(w, cfg, st, asked + Sends(cfg, st, ctx))
  {
    hide Sends, Apply, Try, Told, Succeeds;
    StepOkIff(w, cfg, st, n + 1, asked + Sends(cfg, st, ctx));
  }

  // ---- What the log says of a step ----

  /** A step that is one plain call logs what was replied, or that the call failed and why; nothing is forwarded. */
  lemma CallIsLogged(w: World, cfg: Config, st: Step, n: int, asked: seq<Request>)
    requires !st.ENV? && !(st.RUN? && cfg.streaming) && (st.COPY? ==> PlanCopy(st.srcs).Sources?)
    ensures var a, reply := Try(w, cfg, st, n, asked), w.exec(asked);
            && a.output == []
            && (reply.Failed? ==>
                  && a.entry.stdout == "" && a.entry.exit == 0
                  && a.entry.stderr == (if st.START? then "start" else "exec") + " error: " + reply.error)
            && (reply.Replied? ==> a.entry.exit == reply.exit)
            && (reply.Replied? && !st.START? ==> a.entry.stdout == reply.stdout && a.entry.stderr == reply.stderr)
            && (reply.Replied? && st.START? ==>
                  && a.entry.stdout == ""
                  && a.entry.stderr == if reply.exit == 0 then ""
                     else "start failed with exit code " + cfg.decimal(reply.exit) + ": " + reply.stderr)
  {
    hide PlanCopy;
  }

  lemma {:induction false} OutputsAppend(a: seq<Chunk>, b: seq<Chunk>)
    ensures Outputs(a + b) == Outputs(a) + Outputs(b)
    decreases |a|
  {
    if a == [] {
      assert a + b == b;
    } else {
      assert (a + b)[1..] == a[1..] + b;
      OutputsAppend(a[1..], b);
    }
  }

  lemma OutputsOne(c: Chunk)
    ensures Outputs([c]) == if c.done then [] else [c.data]
  {
    assert [c][1..] == [];
  }

  lemma {:induction false} ConcatAppend(a: seq<string>, b: seq<string>)
    ensures Concat(a + b) == Concat(a) + Concat(b)
    decreases |a|
  {
    if a == [] {
      assert a + b == b;
      return;
    }
    hide Concat;
    assert a == [a[0]] + a[1..] && a + b == [a[0]] + (a[1..] + b);
    ConcatCons(a[0], a[1..]);
    ConcatCons(a[0], a[1..] + b);
    ConcatAppend(a[1..], b);
    Associative(a[0], Concat(a[1..]), Concat(b));
  }

  lemma ConcatCons(s: string, rest: seq<string>)
    ensures Concat([s] + rest) == s + Concat(rest)
  {
    assert ([s] + rest)[1..] == rest;
  }

  /** What chunks forward, chunk by chunk: the data of every chunk that is no completion. */
  lemma OutputsSplit(a: seq<Chunk>, c: Chunk, b: seq<Chunk>)
    ensures Outputs(a + [c] + b) == Outputs(a) + (if c.done then [] else [c.data]) + Outputs(b)
    ensures Concat(Outputs(a + [c] + b)) == Concat(Outputs(a)) + (if c.done then "" else c.data) + Concat(Outputs(b))
  {
    hide Outputs, Concat;
    var data := if c.done then [] else [c.data];
    OutputsAppend(a + [c], b);
    OutputsAppend(a, [c]);
    OutputsOne(c);
    ConcatAppend(Outputs(a) + data, Outputs(b));
    ConcatAppend(Outputs(a), data);
    ConcatData(c);
  }

  lemma ConcatData(c: Chunk)
    ensures Concat(if c.done then [] else [c.data]) == if c.done then "" else c.data
  {
    assert [c.data][1..] == [];
  }

  /** Completion `i` is the last among the first `k` chunks. */
  predicate LastDone(chunks: seq<Chunk>, k: nat, i: int)
    requires k <= |chunks|
  {
    0 <= i < k && chunks[i].done && forall j :: i < j < k ==> !chunks[j].done
  }

  /** A streamed step, up to its first error: the data is forwarded chunk by chunk, the log holds all of it, the exit
      code is that of the last completion, and the log says why the step failed if it did not just exit. */
  lemma StreamIsLogged(w: World, cfg: Config, st: Step, n: int, asked: seq<Request>, chunks: seq<Chunk>, k: nat)
    requires st.RUN? && cfg.streaming && w.stream(asked) == Opened(chunks) && k <= |chunks|
    requires (forall i :: 0 <= i < k ==> chunks[i].err.None?) && (k < |chunks| ==> chunks[k].err.Some?)
    ensures var a := Try(w, cfg, st, n, asked);
            var none := forall i :: 0 <= i < k ==> !chunks[i].done;
            && a.output == Outputs(chunks[..k]) && a.entry.stdout == Concat(a.output)
            && (none ==> a.entry.exit == 0)
            && (forall i :: 0 <= i < k && LastDone(chunks, k, i) ==> a.entry.exit == chunks[i].exit)
            && a.entry.stderr == if k < |chunks| then "exec error: " + chunks[k].err.value
                                 else if none then "exec error: build step stream ended without completion" else ""
  {
    hide Outputs, LastExit, BeforeError, Concat, LastDone;
    BeforeErrorIsAll(chunks);
    var seen := BeforeError(chunks);
    assert |seen| == k && seen == chunks[..k];
    LastExitMeaning(seen);
    assert forall i :: 0 <= i < k ==> seen[i] == chunks[i];
    forall i | 0 <= i < k && LastDone(chunks, k, i)
      ensures LastExit(seen) == Some(chunks[i].exit)
    {
      LastExitIs(chunks, k, i);
    }
  }

  lemma LastExitIs(chunks: seq<Chunk>, k: nat, i: int)
    requires k <= |chunks| && LastDone(chunks, k, i)
    ensures LastExit(chunks[..k]) == Some(chunks[i].exit)
  {
    var seen := chunks[..k];
    LastExitMeaning(seen);
    hide LastExit;
    assert seen[i].done && forall j :: i < j < k ==> !seen[j].done;
  }

  /** A stream that does not open is a failed step with nothing forwarded. */
  lemma UnopenedIsLogged(w: World, cfg: Config, st: Step, n: int, asked: seq<Request>)
    requires st.RUN? && cfg.streaming && w.stream(asked).NotStarted?
    ensures var a := Try(w, cfg, st, n, asked);
            && a.output == [] && !a.entry.ok && a.entry.stdout == ""
            && a.entry.stderr == "exec error: " + w.stream(asked).error
  {
  }

  // ---- What the context holds ----

  function LastWorkDir(steps: seq<Step>, before: string): string {
    if steps == [] then before
    else if steps[|steps| - 1].WORKDIR? then steps[|steps| - 1].path
    else LastWorkDir(steps[..|steps| - 1], before)
  }

  function LastUser(steps: seq<Step>, before: string): string {
    if steps == [] then before
    else if steps[|steps| - 1].USER? then steps[|steps| - 1].name
    else LastUser(steps[..|steps| - 1], before)
  }

  lemma {:induction false} ApplySnoc(steps: seq<Step>, st: Step, ctx: Shell.Context)
    ensures ApplyAll(steps + [st], ctx) == Apply(st, ApplyAll(steps, ctx))
    decreases |steps|
  {
    hide Apply;
    if steps == [] {
      assert ([] + [st])[1..] == [];
    } else {
      assert (steps + [st])[1..] == steps[1..] + [st];
      ApplySnoc(steps[1..], st, Apply(steps[0], ctx));
    }
  }

  /** Commands run in the directory of the last WORKDIR step and as the user of the last USER step. */
  lemma {:induction false} LastStepsDecide(steps: seq<Step>, ctx: Shell.Context)
    ensures ApplyAll(steps, ctx).workDir == LastWorkDir(steps, ctx.workDir)
    ensures ApplyAll(steps, ctx).user == LastUser(steps, ctx.user)
    decreases |steps|
  {
    if steps != [] {
      var front, last := steps[..|steps| - 1], steps[|steps| - 1];
      assert steps == front + [last];
      LastStepsDecide(front, ctx);
      ApplySnoc(front, last, ctx);
    }
  }

  predicate Assigns(st: Step, key: string) {
    (st.ENV? && st.key == key) || (st.USER? && key == "HOME")
  }

  lemma {:induction false} UnassignedKept(steps: seq<Step>, ctx: Shell.Context, key: string)
    requires forall i :: 0 <= i < |steps| ==> !Assigns(steps[i], key)
    ensures key in ApplyAll(steps, ctx).env <==> key in ctx.env
    ensures key in ctx.env ==> ApplyAll(steps, ctx).env[key] == ctx.env[key]
    decreases |steps|
  {
    if steps != [] {
      assert !Assigns(steps[0], key);
      UnassignedKept(steps[1..], Apply(steps[0], ctx), key);
    }
  }

  lemma {:induction false} ApplyAppend(a: seq<Step>, b: seq<Step>, ctx: Shell.Context)
    ensures ApplyAll(a + b, ctx) == ApplyAll(b, ApplyAll(a, ctx))
    decreases |a|
  {
    hide Apply;
    if a == [] {
      assert a + b == b;
    } else {
      assert (a + b)[1..] == a[1..] + b;
      ApplyAppend(a[1..], b, Apply(a[0], ctx));
    }
  }

  /** The last step that assigns a variable decides: ENV gives the text expanded in the context before it, and USER
      gives HOME. */
  lemma LastAssignerDecides(before: seq<Step>, st: Step, after: seq<Step>, ctx: Shell.Context, key: string)
    requires Assigns(st, key) && forall i :: 0 <= i < |after| ==> !Assigns(after[i], key)
    ensures var env := ApplyAll(before + [st] + after, ctx).env;
            && key in env
            && env[key] == if st.ENV? then Expand.Expand(st.value, ApplyAll(before, ctx).env)
                           else if st.name == "root" then "/root" else "/home/" + st.name
  {
    ApplyAppend(before + [st], after, ctx);
    ApplySnoc(before, st, ctx);
    UnassignedKept(after, ApplyAll(before + [st], ctx), key);
  }

  // ---- What a step asks ----

  /** ENV steps and refused COPY steps send nothing and every other step one request, with its deadline; only a streamed
      RUN asks for a terminal. A RUN without a timeout gets the default of its phase, or else ten minutes. */
  lemma RequestOfStep(cfg: Config, st: Step, ctx: Shell.Context)
    ensures Sends(cfg, st, ctx) == [] <==> st.ENV? || (st.COPY? && PlanCopy(st.srcs).Reject?)
    ensures Sends(cfg, st, ctx) != [] ==>
      var request := Sends(cfg, st, ctx)[0];
      && |Sends(cfg, st, ctx)| == 1
      && (request.pty <==> st.RUN? && cfg.streaming)
      && request.timeout == match st
                            case WORKDIR(_, _) => 10 * SECOND
                            case START(_, _) => 10 * SECOND
                            case USER(_, _) => 30 * SECOND
                            case COPY(_, _, _) => 60 * SECOND
                            case RUN(_, _, t) => if t > 0 then t
                              else if cfg.defaultTimeout > 0 then cfg.defaultTimeout else 600 * SECOND
                            case ENV(_, _, _) => 0
  {
    hide PlanCopy, CopyScript, UserScript, Shell.Wrapped, Shell.Started, Shell.Shellescape;
  }

  // ---- The transcript of a run ----

  /** The attempt at step `i`, asked after the requests of all the steps before it. */
  ghost function AttemptAt(w: World, cfg: Config, steps: seq<Step>, n: int, ctx: Shell.Context, asked: seq<Request>,
                           i: nat): Attempt
    requires i < |steps|
  {
    Try(w, cfg, steps[i], n + 1 + i, asked + AllSent(cfg, steps[..i + 1], ctx))
  }

  /** What the callbacks are told of one step: that it begins, each piece of its output, and, if it went well, every
      entry so far. */
  function Story(cfg: Config, st: Step, number: int, output: seq<string>, entries: seq<Entry>): seq<Notice>
    requires entries != []
  {
    [Began(number, cfg.phase, st.raw)]
    + seq(|output|, i requires 0 <= i < |output| => Output(number, output[i]))
    + if entries[|entries| - 1].ok then [Progress(number, entries)] else []
  }

  ghost function Transcript(w: World, cfg: Config, steps: seq<Step>, n: int, ctx: Shell.Context, asked: seq<Request>,
                            k: nat): seq<Notice>
    requires k <= |steps|
  {
    if k == 0 then []
    else
      var attempts := seq(k, i requires 0 <= i < k => AttemptAt(w, cfg, steps, n, ctx, asked, i).entry);
      Transcript(w, cfg, steps, n, ctx, asked, k - 1)
      + Story(cfg, steps[k - 1], n + k, AttemptAt(w, cfg, steps, n, ctx, asked, k - 1).output, attempts)
  }

  /** The transcript up to `k` looks at the first `k` steps only. */
  lemma {:induction false} TranscriptPrefix(w: World, cfg: Config, a: seq<Step>, b: seq<Step>, n: int,
                                            ctx: Shell.Context, asked: seq<Request>, k: nat)
    requires k <= |a|
    ensures Transcript(w, cfg, a + b, n, ctx, asked, k) == Transcript(w, cfg, a, n, ctx, asked, k)
    ensures forall i :: 0 <= i < k ==>
      AttemptAt(w, cfg, a + b, n, ctx, asked, i) == AttemptAt(w, cfg, a, n, ctx, asked, i)
  {
    hide Story, Try, AllSent;
    forall i | 0 <= i < k
      ensures AttemptAt(w, cfg, a + b, n, ctx, asked, i) == AttemptAt(w, cfg, a, n, ctx, asked, i)
    {
      assert (a + b)[..i + 1] == a[..i + 1];
    }
    if k > 0 {
      TranscriptPrefix(w, cfg, a, b, n, ctx, asked, k - 1);
      hide AttemptAt;
      assert seq(k, i requires 0 <= i < k => AttemptAt(w, cfg, a + b, n, ctx, asked, i).entry)
          == seq(k, i requires 0 <= i < k => AttemptAt(w, cfg, a, n, ctx, asked, i).entry);
    }
  }

  /** What one more step adds to a run that went well. */
  lemma OneMoreStep(w: World, cfg: Config, a: seq<Step>, st: Step, n: int, ctx: Shell.Context, asked: seq<Request>)
    requires Execute(w, cfg, a, n, ctx, asked).ok
    ensures var x, r := Execute(w, cfg, a, n, ctx, asked), Execute(w, cfg, a + [st], n, ctx, asked);
            var e := AttemptAt(w, cfg, a + [st], n, ctx, asked, |a|);
            && |x.entries| == |a| && r.entries == x.entries + [e.entry]
            && r.notices == x.notices + Story(cfg, st, n + |a| + 1, e.output, r.entries)
  {
    hide Execute, Try, Sends, Apply, AllSent;
    var x, r := Execute(w, cfg, a, n, ctx, asked), Execute(w, cfg, a + [st], n, ctx, asked);
    var one := One(w, cfg, st, x.next, x.ctx, x.asked);
    ExecuteAppend(w, cfg, a, [st], n, ctx, asked);
    ExecuteSingle(w, cfg, st, x.next, x.ctx, x.asked);
    EntriesOfRun(w, cfg, a, n, ctx, asked);
    RequestsOfRun(w, cfg, a + [st], n, ctx, asked);
    assert r.entries == x.entries + one.entries && r.notices == x.notices + Rebase(x.entries, one.notices);
    assert (a + [st])[..|a| + 1] == a + [st];
    StoryOfOne(w, cfg, st, x.next, x.ctx, x.asked, x.entries);
  }

  lemma ExecuteSingle(w: World, cfg: Config, st: Step, n: int, ctx: Shell.Context, asked: seq<Request>)
    ensures Execute(w, cfg, [st], n, ctx, asked) == One(w, cfg, st, n, ctx, asked)
  {
    hide One;
    var x := One(w, cfg, st, n, ctx, asked);
    assert [st][1..] == [];
    assert x.entries + [] == x.entries && Rebase(x.entries, []) == [] && x.notices + [] == x.notices;
  }

  lemma StoryOfOne(w: World, cfg: Config, st: Step, n: int, ctx: Shell.Context, asked: seq<Request>,
                   before: seq<Entry>)
    ensures var one := One(w, cfg, st, n, ctx, asked);
            var e := Try(w, cfg, st, n + 1, asked + Sends(cfg, st, ctx));
            && one.entries == [e.entry] && one.asked == asked + Sends(cfg, st, ctx)
            && Rebase(before, one.notices) == Story(cfg, st, n + 1, e.output, before + [e.entry])
  {
    hide Try, Sends, Apply;
    var e := Try(w, cfg, st, n + 1, asked + Sends(cfg, st, ctx));
    var begin, told, last := [Began(n + 1, cfg.phase, st.raw)], Told(n + 1, e.output), [Progress(n + 1, [e.entry])];
    RebaseAppend(before, begin + told, last);
    RebaseAppend(before, begin, told);
    assert Rebase(before, begin) == begin && Rebase(before, told) == told;
    assert Rebase(before, last) == [Progress(n + 1, before + [e.entry])];
    assert begin + told + [] == begin + told;
  }

  /** Every run in full: its entries are those of the attempts at its steps, each asked after all the requests before
      it, and its callbacks are told their stories one after the other. */
  lemma {:induction false} TranscriptOfRun(w: World, cfg: Config, steps: seq<Step>, n: int, ctx: Shell.Context,
                                           asked: seq<Request>)
    ensures var r := Execute(w, cfg, steps, n, ctx, asked);
            && |r.entries| <= |steps|
            && (forall i :: 0 <= i < |r.entries| ==> r.entries[i] == AttemptAt(w, cfg, steps, n, ctx, asked, i).entry)
            && r.notices == Transcript(w, cfg, steps, n, ctx, asked, |r.entries|)
    decreases |steps|
  {
    hide Execute, AttemptAt, Story, Transcript;
    if steps == [] {
      EmptyTranscript(w, cfg, n, ctx, asked);
      return;
    }
    var a, st := steps[..|steps| - 1], steps[|steps| - 1];
    assert steps == a + [st];
    var x, r := Execute(w, cfg, a, n, ctx, asked), Execute(w, cfg, steps, n, ctx, asked);
    TranscriptOfRun(w, cfg, a, n, ctx, asked);
    TranscriptPrefix(w, cfg, a, [st], n, ctx, asked, |x.entries|);
    if x.ok {
      OneMoreStep(w, cfg, a, st, n, ctx, asked);
      TranscriptSnoc(w, cfg, steps, n, ctx, asked, r.entries);
    } else {
      ExecuteAppend(w, cfg, a, [st], n, ctx, asked);
    }
  }

  lemma EmptyTranscript(w: World, cfg: Config, n: int, ctx: Shell.Context, asked: seq<Request>)
    ensures var r := Execute(w, cfg, [], n, ctx, asked);
            r.entries == [] && r.notices == Transcript(w, cfg, [], n, ctx, asked, 0)
  {
  }

  lemma TranscriptSnoc(w: World, cfg: Config, steps: seq<Step>, n: int, ctx: Shell.Context, asked: seq<Request>,
                       entries: seq<Entry>)
    requires 0 < |entries| <= |steps|
    requires forall i :: 0 <= i < |entries| ==> entries[i] == AttemptAt(w, cfg, steps, n, ctx, asked, i).entry
    ensures var k := |entries|;
            Transcript(w, cfg, steps, n, ctx, asked, k)
            == Transcript(w, cfg, steps, n, ctx, asked, k - 1)
               + Story(cfg, steps[k - 1], n + k, AttemptAt(w, cfg, steps, n, ctx, asked, k - 1).output, entries)
  {
    hide AttemptAt, Story;
    var k := |entries|;
    assert entries == seq(k, i requires 0 <= i < k => AttemptAt(w, cfg, steps, n, ctx, asked, i).entry);
  }

  // ---- Refused COPY steps ----

  /** A refused COPY step sends nothing, fails, and says which source was refused. */
  lemma RefusedCopyIsLogged(w: World, cfg: Config, st: Step, n: int, ctx: Shell.Context, asked: seq<Request>)
    requires st.COPY? && PlanCopy(st.srcs).Reject?
    ensures Sends(cfg, st, ctx) == []
    ensures var a := Try(w, cfg, st, n, asked);
            && a.output == []
            && a.entry == Entry(n, cfg.phase, st.raw, "", "COPY source must be a relative path within the archive: "
                                + cfg.quote(PlanCopy(st.srcs).src), 0, false)
  {
    hide PlanCopy;
  }
}
