/** The recipe executor as it runs: a context updated in place, one method per kind of step. */
module RecipeRunner {
  import opened Records
  import opened Executor
  import opened ExecutorTheorems
  import Paths
  import Shell
  import Expand

  class ExecContext {
    var workDir: string
    var envVars: map<string, string>
    var user: string

    function View(): Shell.Context
      reads this
    {
      Shell.Context(workDir, envVars, user)
    }
  }

  class Runner {
    const world: World
    const cfg: Config
    var asked: seq<Request>
    var notices: seq<Notice>

    constructor (world: World, cfg: Config)
      ensures this.world == world && this.cfg == cfg && asked == [] && notices == []
    {
      this.world, this.cfg := world, cfg;
      asked, notices := [], [];
    }

    method Exec(cmd: string, timeout: int) returns (reply: Reply)
      modifies this`asked
      ensures asked == old(asked) + [Request(cmd, timeout, false)] && reply == world.exec(asked)
    {
      asked := asked + [Request(cmd, timeout, false)];
      reply := world.exec(asked);
    }

    method ExecRawShell(st: Step, n: int, timeout: int, script: string) returns (entry: Entry)
      modifies this`asked
      ensures asked == old(asked) + [Request(script, timeout, false)]
      ensures entry == FromReply(Blank(cfg, st, n), world.exec(asked))
    {
      var reply := Exec(script, timeout);
      entry := Blank(cfg, st, n);
      if reply.Failed? {
        entry := entry.(stderr := "exec error: " + reply.error);
        return;
      }
      entry := entry.(stdout := reply.stdout, stderr := reply.stderr, exit := reply.exit);
      entry := entry.(ok := reply.exit == 0);
    }

    method ExecRun(st: Step, n: int, timeout: int, bctx: ExecContext) returns (entry: Entry)
      requires st.RUN?
      modifies this`asked
      ensures asked == old(asked) + [Request(Shell.Wrapped(bctx.View(), st.shell), timeout, false)]
      ensures entry == FromReply(Blank(cfg, st, n), world.exec(asked))
    {
      var text := Shell.WrappedCommand(bctx.View(), st.shell);
      entry := ExecRawShell(st, n, timeout, text);
    }

    /** Output chunks are passed on as they arrive; a Done chunk does not end the loop, an error chunk does. */
    method Drain(chunks: seq<Chunk>, n: int) returns (out: string, exit: int, gotDone: bool, err: Option<string>)
      modifies this`notices
      ensures var seen := BeforeError(chunks);
              && out == Concat(Outputs(seen)) && gotDone == LastExit(seen).Some?
              && exit == (if gotDone then LastExit(seen).value else 0)
              && notices == old(notices) + Told(n, Outputs(seen))
              && err == (if |seen| < |chunks| then Some(ErrorAt(chunks, |seen|)) else None)
    {
      hide BeforeError, Outputs, Concat, LastExit, Told;
      NoChunks(n);
      assert notices + [] == notices && chunks[..0] == [];
      out, exit, gotDone := "", 0, false;
      for i := 0 to |chunks|
        invariant BeforeError(chunks[..i]) == chunks[..i]
        invariant out == Concat(Outputs(chunks[..i])) && gotDone == LastExit(chunks[..i]).Some?
        invariant exit == if gotDone then LastExit(chunks[..i]).value else 0
        invariant notices == old(notices) + Told(n, Outputs(chunks[..i]))
      {
        NextChunk(chunks, i, n);
        if chunks[i].err.Some? {
          err := chunks[i].err;
          return;
        }
        if chunks[i].done {
          exit, gotDone := chunks[i].exit, true;
          continue;
        }
        out := out + chunks[i].data;
        notices := notices + [Output(n, chunks[i].data)];
      }
      assert chunks[..|chunks|] == chunks;
      err := None;
    }

    method ExecRunStreaming(st: Step, n: int, timeout: int, bctx: ExecContext) returns (entry: Entry)
      requires st.RUN?
      modifies this
      ensures asked == old(asked) + [Request(Shell.Wrapped(bctx.View(), st.shell), timeout, true)]
      ensures var a := FromStream(Blank(cfg, st, n), world.stream(asked));
              entry == a.entry && notices == old(notices) + Told(n, a.output)
    {
      hide BeforeError, Outputs, Concat, LastExit, Told;
      entry := Blank(cfg, st, n);
      var text := Shell.WrappedCommand(bctx.View(), st.shell);
      asked := asked + [Request(text, timeout, true)];
      var stream := world.stream(asked);
      if stream.NotStarted? {
        entry := entry.(stderr := "exec error: " + stream.error);
        NoChunks(n);
        assert notices + [] == notices;
        return;
      }
      BeforeErrorIsAll(stream.chunks);
      var out, exit, gotDone, err := Drain(stream.chunks, n);
      entry := entry.(stdout := out, exit := exit);
      if err.Some? {
        entry := entry.(stderr := "exec error: " + err.value);
        return;
      }
      if !gotDone {
        entry := entry.(stderr := NO_COMPLETION);
        return;
      }
      entry := entry.(ok := entry.exit == 0);
    }

    method ExecUser(st: Step, n: int, bctx: ExecContext) returns (entry: Entry)
      requires st.USER?
      modifies this`asked, bctx
      ensures asked == old(asked) + Sends(cfg, st, old(bctx.View())) && entry == Try(world, cfg, st, n, asked).entry
      ensures bctx.View() == if entry.ok then Apply(st, old(bctx.View())) else old(bctx.View())
    {
      entry := ExecRawShell(st, n, 30 * SECOND, UserScript(st.name));
      if entry.ok {
        bctx.user := st.name;
        if st.name == "root" {
          bctx.envVars := bctx.envVars["HOME" := "/root"];
        } else {
          bctx.envVars := bctx.envVars["HOME" := "/home/" + st.name];
        }
      }
    }

    /** The first source path that would leave the archive stops the step before anything is sent. */
    method ExecCopy(st: Step, n: int, bctx: ExecContext) returns (entry: Entry)
      requires st.COPY?
      modifies this`asked
      ensures asked == old(asked) + Sends(cfg, st, bctx.View()) && entry == Try(world, cfg, st, n, asked).entry
    {
      hide CopyScript, FromReply, Joined, SourceWord, Paths.Clean;
      var words := [];
      for i := 0 to |st.srcs|
        invariant PlanCopy(st.srcs[..i]) == Sources(words)
        invariant asked == old(asked)
      {
        PlanSnoc(st.srcs, i);
        var cleaned := Paths.Clean(st.srcs[i]);
        if ".." <= cleaned || "/" <= cleaned {
          entry := Blank(cfg, st, n).(stderr := "COPY source must be a relative path within the archive: "
            + cfg.quote(st.srcs[i]));
          assert asked + [] == asked;
          return;
        }
        words := words + [SourceWord(st.srcs[i])];
      }
      assert st.srcs[..|st.srcs|] == st.srcs;
      entry := ExecRawShell(st, n, 60 * SECOND, CopyScript(words, st.dst, bctx.View()));
    }

    method ExecStart(st: Step, n: int, bctx: ExecContext) returns (entry: Entry)
      requires st.START?
      modifies this`asked
      ensures asked == old(asked) + Sends(cfg, st, bctx.View()) && entry == Try(world, cfg, st, n, asked).entry
    {
      var text := Shell.StartCommand(bctx.View(), st.shell);
      var reply := Exec(text, 10 * SECOND);
      entry := Blank(cfg, st, n);
      if reply.Failed? {
        entry := entry.(stderr := "start error: " + reply.error);
        return;
      }
      entry := entry.(exit := reply.exit, ok := reply.exit == 0);
      if !entry.ok {
        entry := entry.(stderr := "start failed with exit code " + cfg.decimal(reply.exit) + ": " + reply.stderr);
      }
    }

    /** One step, by kind; only a step that succeeds changes the context. */
    method ExecStep(st: Step, n: int, bctx: ExecContext) returns (entry: Entry)
      modifies this, bctx
      ensures asked == old(asked) + Sends(cfg, st, old(bctx.View()))
      ensures var a := Try(world, cfg, st, n, asked); entry == a.entry && notices == old(notices) + Told(n, a.output)
      ensures bctx.View() == if entry.ok then Apply(st, old(bctx.View())) else old(bctx.View())
    {
      hide FromReply, FromStream, FromStart, PlanCopy, Concat, LastExit, Outputs, BeforeError;
      assert notices + Told(n, []) == notices;
      match st
      case ENV(_, key, value) =>
        bctx.envVars := bctx.envVars[key := Expand.Expand(value, bctx.envVars)];
        entry := Blank(cfg, st, n).(ok := true);
        assert asked + [] == asked;
      case WORKDIR(_, path) =>
        entry := ExecRawShell(st, n, 10 * SECOND, "mkdir -p " + Shell.Shellescape(path));
        if entry.ok {
          bctx.workDir := path;
        }
      case USER(_, _) =>
        entry := ExecUser(st, n, bctx);
      case COPY(_, _, _) =>
        entry := ExecCopy(st, n, bctx);
      case START(_, _) =>
        entry := ExecStart(st, n, bctx);
      case RUN(_, _, timeout) =>
        var limit := if timeout > 0 then timeout else if cfg.defaultTimeout <= 0 then 10 * MINUTE
          else cfg.defaultTimeout;
        if cfg.streaming {
          entry := ExecRunStreaming(st, n, limit, bctx);
        } else {
          entry := ExecRun(st, n, limit, bctx);
        }
    }

    /** `Execute`: stop at the first step that fails. */
    method Execute(steps: seq<Step>, startStep: int, bctx: ExecContext)
      returns (entries: seq<Entry>, nextStep: int, ok: bool)
      modifies this, bctx
      ensures old(notices) <= notices
      ensures Executor.Execute(world, cfg, steps, startStep, old(bctx.View()), old(asked))
           == Outcome(entries, nextStep, ok, bctx.View(), asked, notices[|old(notices)|..])
    {
      hide One, Executor.Execute, Then, Rebase, Try, Sends, Apply, Told, Blank;
      ghost var ctx0, asked0 := bctx.View(), asked;
      ghost var run := Executor.Execute(world, cfg, steps[..0], startStep, ctx0, asked0);
      NoSteps(world, cfg, steps, startStep, ctx0, asked0);
      entries := [];
      var step := startStep;
      assert notices + [] == notices;
      for i := 0 to |steps|
        invariant run == Executor.Execute(world, cfg, steps[..i], startStep, ctx0, asked0)
        invariant notices == old(notices) + run.notices
        invariant run.ok && run.entries == entries && run.next == step && run.ctx == bctx.View() && run.asked == asked
      {
        step := step + 1;
        notices := notices + [Began(step, cfg.phase, steps[i].raw)];
        var entry := ExecStep(steps[i], step, bctx);
        AfterStep(world, cfg, steps[i], run);
        OneMore(world, cfg, steps, i, startStep, ctx0, asked0);
        run := Executor.Execute(world, cfg, steps[..i + 1], startStep, ctx0, asked0);
        entries := entries + [entry];
        if !entry.ok {
          assert notices == old(notices) + run.notices;
          FailedPrefix(world, cfg, steps, i + 1, startStep, ctx0, asked0);
          return entries, step, false;
        }
        notices := notices + [Progress(step, entries)];
        assert notices == old(notices) + run.notices;
      }
      assert steps[..|steps|] == steps;
      nextStep, ok := step, true;
    }
  }

  lemma NoSteps(w: World, cfg: Config, steps: seq<Step>, n: int, ctx: Shell.Context, asked: seq<Request>)
    ensures Executor.Execute(w, cfg, steps[..0], n, ctx, asked) == Outcome([], n, true, ctx, asked, [])
  {
  }

  lemma OneMore(w: World, cfg: Config, steps: seq<Step>, i: nat, n: int, ctx: Shell.Context, asked: seq<Request>)
    requires i < |steps|
    ensures var x := Executor.Execute(w, cfg, steps[..i], n, ctx, asked);
            Executor.Execute(w, cfg, steps[..i + 1], n, ctx, asked)
              == Then(x, One(w, cfg, steps[i], x.next, x.ctx, x.asked))
  {
    var x := Executor.Execute(w, cfg, steps[..i], n, ctx, asked);
    assert steps[..i + 1] == steps[..i] + [steps[i]];
    ExecuteAppend(w, cfg, steps[..i], [steps[i]], n, ctx, asked);
    OneStep(w, cfg, steps[i], x.next, x.ctx, x.asked);
  }

  lemma OneStep(w: World, cfg: Config, st: Step, n: int, ctx: Shell.Context, asked: seq<Request>)
    ensures Executor.Execute(w, cfg, [st], n, ctx, asked) == One(w, cfg, st, n, ctx, asked)
  {
    var x := One(w, cfg, st, n, ctx, asked);
    hide One;
    assert [st][1..] == [];
    ThenEmpty(x);
  }

  lemma ThenEmpty(x: Outcome)
    ensures Then(x, Outcome([], x.next, true, x.ctx, x.asked, [])) == x
  {
    assert x.entries + [] == x.entries && Rebase(x.entries, []) == [] && x.notices + [] == x.notices;
  }

  lemma FailedPrefix(w: World, cfg: Config, steps: seq<Step>, k: nat, n: int, ctx: Shell.Context, asked: seq<Request>)
    requires k <= |steps| && !Executor.Execute(w, cfg, steps[..k], n, ctx, asked).ok
    ensures Executor.Execute(w, cfg, steps, n, ctx, asked) == Executor.Execute(w, cfg, steps[..k], n, ctx, asked)
  {
    hide Executor.Execute, One;
    assert steps == steps[..k] + steps[k..];
    ExecuteAppend(w, cfg, steps[..k], steps[k..], n, ctx, asked);
  }

  /** The run so far, joined with one more step. */
  lemma AfterStep(w: World, cfg: Config, st: Step, run: Outcome)
    requires run.ok
    ensures var n := run.next + 1;
            var asked := run.asked + Sends(cfg, st, run.ctx);
            var a := Try(w, cfg, st, n, asked);
            var entries := run.entries + [a.entry];
            Then(run, One(w, cfg, st, run.next, run.ctx, run.asked)) ==
              Outcome(entries, n, a.entry.ok, if a.entry.ok then Apply(st, run.ctx) else run.ctx, asked,
                      run.notices + [Began(n, cfg.phase, st.raw)] + Told(n, a.output)
                      + (if a.entry.ok then [Progress(n, entries)] else []))
  {
    hide Try, Sends, Apply;
    var n := run.next + 1;
    var x := One(w, cfg, st, run.next, run.ctx, run.asked);
    var a := Try(w, cfg, st, n, run.asked + Sends(cfg, st, run.ctx));
    var quiet := [Began(n, cfg.phase, st.raw)] + Told(n, a.output);
    assert Rebase(run.entries, quiet) == quiet;
    if a.entry.ok {
      RebaseAppend(run.entries, quiet, [Progress(n, [a.entry])]);
      assert Rebase(run.entries, [Progress(n, [a.entry])]) == [Progress(n, run.entries + [a.entry])];
    }
  }

  lemma NoChunks(n: int)
    ensures BeforeError([]) == [] && Outputs([]) == [] && Concat([]) == "" && LastExit([]) == None && Told(n, []) == []
  {
  }

  lemma {:induction false} OutputsSnoc(chunks: seq<Chunk>, c: Chunk)
    ensures Outputs(chunks + [c]) == if c.done then Outputs(chunks) else Outputs(chunks) + [c.data]
  {
    if chunks == [] {
      assert [c][1..] == [];
    } else {
      assert (chunks + [c])[1..] == chunks[1..] + [c];
      OutputsSnoc(chunks[1..], c);
    }
  }

  lemma {:induction false} ConcatSnoc(parts: seq<string>, s: string)
    ensures Concat(parts + [s]) == Concat(parts) + s
  {
    if parts == [] {
      assert [s][1..] == [];
      assert "" + s == s + "" == s;
    } else {
      assert (parts + [s])[1..] == parts[1..] + [s];
      ConcatSnoc(parts[1..], s);
    }
  }

  lemma {:induction false} BeforeErrorStops(chunks: seq<Chunk>, i: nat)
    requires i < |chunks| && BeforeError(chunks[..i]) == chunks[..i]
    ensures chunks[i].err.Some? ==> BeforeError(chunks) == chunks[..i]
    ensures chunks[i].err.None? ==> BeforeError(chunks[..i + 1]) == chunks[..i + 1]
  {
    BeforeErrorIsAll(chunks[..i]);
    BeforeErrorIsAll(chunks[..i + 1]);
    BeforeErrorIsAll(chunks);
    var k := |BeforeError(chunks)|;
    assert forall j :: 0 <= j < i ==> chunks[..i][j] == chunks[j];
    if chunks[i].err.Some? {
      assert k == i by { BeforeErrorPrefix(chunks, i); }
    }
  }

  lemma {:induction false} BeforeErrorPrefix(chunks: seq<Chunk>, i: nat)
    requires i < |chunks| && chunks[i].err.Some? && forall j :: 0 <= j < i ==> chunks[j].err.None?
    ensures |BeforeError(chunks)| == i
  {
    if i > 0 { BeforeErrorPrefix(chunks[1..], i - 1); }
  }

  lemma LastExitSnoc(chunks: seq<Chunk>, c: Chunk)
    ensures LastExit(chunks + [c]) == if c.done then Some(c.exit) else LastExit(chunks)
  {
    assert (chunks + [c])[..|chunks|] == chunks;
  }

  lemma ToldSnoc(n: int, output: seq<string>, data: string)
    ensures Told(n, output + [data]) == Told(n, output) + [Output(n, data)]
  {
  }

  /** How one more chunk changes what the loop has gathered. */
  lemma NextChunk(chunks: seq<Chunk>, i: nat, n: int)
    requires i < |chunks| && BeforeError(chunks[..i]) == chunks[..i]
    ensures chunks[i].err.Some? ==> BeforeError(chunks) == chunks[..i]
    ensures chunks[i].err.None? ==> BeforeError(chunks[..i + 1]) == chunks[..i + 1]
    ensures var was, now := Outputs(chunks[..i]), Outputs(chunks[..i + 1]);
            if chunks[i].done
            then now == was
            else Concat(now) == Concat(was) + chunks[i].data
                 && Told(n, now) == Told(n, was) + [Output(n, chunks[i].data)]
    ensures LastExit(chunks[..i + 1]) == if chunks[i].done then Some(chunks[i].exit) else LastExit(chunks[..i])
  {
    hide *;
    BeforeErrorStops(chunks, i);
    assert chunks[..i + 1] == chunks[..i] + [chunks[i]];
    OutputsSnoc(chunks[..i], chunks[i]);
    LastExitSnoc(chunks[..i], chunks[i]);
    var was := Outputs(chunks[..i]);
    assert was + [] == was;
    ConcatSnoc(was, chunks[i].data);
    ToldSnoc(n, was, chunks[i].data);
  }

  lemma {:induction false} PlanAppend(a: seq<string>, b: seq<string>)
    requires PlanCopy(a).Sources?
    ensures PlanCopy(a + b) == match PlanCopy(b)
                               case Reject(src) => Reject(src)
                               case Sources(words) => Sources(PlanCopy(a).words + words)
    decreases |a|
  {
    hide Paths.Clean, Escapes, SourceWord;
    if a == [] {
      assert a + b == b;
    } else {
      assert (a + b)[1..] == a[1..] + b;
      PlanAppend(a[1..], b);
    }
  }

  lemma PlanSnoc(srcs: seq<string>, i: nat)
    requires i < |srcs| && PlanCopy(srcs[..i]).Sources?
    ensures Escapes(Paths.Clean(srcs[i])) ==> PlanCopy(srcs) == Reject(srcs[i])
    ensures !Escapes(Paths.Clean(srcs[i])) ==>
      PlanCopy(srcs[..i + 1]) == Sources(PlanCopy(srcs[..i]).words + [SourceWord(srcs[i])])
  {
    hide Paths.Clean, Escapes, SourceWord;
    assert srcs[..i + 1] == srcs[..i] + [srcs[i]];
    assert srcs == srcs[..i] + srcs[i..];
    PlanAppend(srcs[..i], [srcs[i]]);
    PlanAppend(srcs[..i], srcs[i..]);
    assert [srcs[i]][1..] == [];
  }
}
