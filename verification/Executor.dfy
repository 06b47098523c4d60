/** Running a recipe: each step is attempted in the context its predecessors left behind. */
module Executor {
  import opened Records
  import Shell
  import Expand
  import Paths

  datatype Step =
    | RUN(raw: string, shell: string, timeout: int)
    | START(raw: string, shell: string)
    | ENV(raw: string, key: string, value: string)
    | WORKDIR(raw: string, path: string)
    | USER(raw: string, name: string)
    | COPY(raw: string, srcs: seq<string>, dst: string)

  datatype Entry = Entry(step: int, phase: string, cmd: string, stdout: string, stderr: string, exit: int, ok: bool)

  /** One call into the sandbox, with its deadline. */
  datatype Request = Request(cmd: string, timeout: int, pty: bool)
  datatype Reply = Failed(error: string) | Replied(stdout: string, stderr: string, exit: int)
  datatype Chunk = Chunk(data: string, done: bool, exit: int, err: Option<string>)
  datatype Stream = NotStarted(error: string) | Opened(chunks: seq<Chunk>)

  /** The sandbox: what it answers may depend on everything it was asked before; the last request is the current one. */
  datatype World = World(exec: seq<Request> -> Reply, stream: seq<Request> -> Stream)

  /** `quote` and `decimal` render a string and a number in messages. */
  datatype Config = Config(phase: string, defaultTimeout: int, streaming: bool,
                           quote: string -> string, decimal: int -> string)

  /** What the callbacks are told. */
  datatype Notice = Began(step: int, phase: string, raw: string) | Output(step: int, data: string)
    | Progress(step: int, entries: seq<Entry>)

  // ---- What a step sends ----

  const BUILD_FILES_DIR := "/tmp/build-files"

  function Timeout(cfg: Config, timeout: int): int {
    if timeout > 0 then timeout else if cfg.defaultTimeout <= 0 then 10 * MINUTE else cfg.defaultTimeout
  }

  const ADD_USER := "adduser " + ("--disabled-password " + "--gecos ") + "'' " + ("--shell " + "/bin/bash ")
  const SUDOERS_LINE := "%s ALL=(ALL) NOPASSWD:ALL\\n"
  const PRINT_LINE := "&& " + "printf " + ("'" + SUDOERS_LINE + "' ")

  const APPEND_LINE := ">> " + "/etc/sudoers" + ")"

  function UserScript(name: string): string {
    var q := Shell.Shellescape(name) + " ";
    ("id " + (q + Shell.QUIET) + "|| (") + ((ADD_USER + q) + ((PRINT_LINE + q) + APPEND_LINE))
  }

  predicate Escapes(cleaned: string) {
    ".." <= cleaned || "/" <= cleaned
  }

  datatype Plan = Reject(src: string) | Sources(words: seq<string>)

  function SourceWord(src: string): string {
    Shell.Shellescape(BUILD_FILES_DIR + "/" + Paths.Clean(src))
  }

  function PlanCopy(srcs: seq<string>): Plan {
    if srcs == [] then Sources([])
    else if Escapes(Paths.Clean(srcs[0])) then Reject(srcs[0])
    else
      match PlanCopy(srcs[1..])
      case Reject(src) => Reject(src)
      case Sources(words) => Sources([SourceWord(srcs[0])] + words)
  }

  function Joined(words: seq<string>): string {
    if words == [] then "" else if |words| == 1 then words[0] else words[0] + " " + Joined(words[1..])
  }

  function CopyScript(words: seq<string>, dst: string, ctx: Shell.Context): string {
    var path := if dst != "" && dst[0] != '/' && ctx.workDir != "" then ctx.workDir + "/" + dst else dst;
    var target := Shell.Shellescape(path);
    var owner := Shell.Shellescape(if ctx.user != "" then ctx.user else "root");
    "cp -r " + Joined(words) + " " + target + " && chown -R " + owner + ":" + owner + " " + target
  }

  /** The calls a step makes; they depend on the context, never on the sandbox. */
  ghost function Sends(cfg: Config, st: Step, ctx: Shell.Context): seq<Request> {
    match st
    case ENV(_, _, _) => []
    case WORKDIR(_, path) => [Request("mkdir -p " + Shell.Shellescape(path), 10 * SECOND, false)]
    case USER(_, name) => [Request(UserScript(name), 30 * SECOND, false)]
    case COPY(_, srcs, dst) =>
      var plan := PlanCopy(srcs);
      if plan.Reject? then [] else [Request(CopyScript(plan.words, dst, ctx), 60 * SECOND, false)]
    case START(_, shell) => [Request(Shell.Started(ctx, shell), 10 * SECOND, false)]
    case RUN(_, shell, timeout) => [Request(Shell.Wrapped(ctx, shell), Timeout(cfg, timeout), cfg.streaming)]
  }

  // ---- What a step reports ----

  datatype Attempt = Attempt(entry: Entry, output: seq<string>)

  function Blank(cfg: Config, st: Step, n: int): Entry {
    Entry(n, cfg.phase, st.raw, "", "", 0, false)
  }

  function FromReply(blank: Entry, reply: Reply): Entry {
    match reply
    case Failed(error) => blank.(stderr := "exec error: " + error)
    case Replied(stdout, stderr, exit) => blank.(stdout := stdout, stderr := stderr, exit := exit, ok := exit == 0)
  }

  function FromStart(cfg: Config, blank: Entry, reply: Reply): Entry {
    match reply
    case Failed(error) => blank.(stderr := "start error: " + error)
    case Replied(_, stderr, exit) =>
      blank.(exit := exit, ok := exit == 0,
             stderr := if exit == 0 then "" else "start failed with exit code " + cfg.decimal(exit) + ": " + stderr)
  }

  /** The chunks before the first error. */
  function BeforeError(chunks: seq<Chunk>): seq<Chunk> {
    if chunks == [] || chunks[0].err.Some? then [] else [chunks[0]] + BeforeError(chunks[1..])
  }

  function Outputs(chunks: seq<Chunk>): seq<string> {
    if chunks == [] then [] else (if chunks[0].done then [] else [chunks[0].data]) + Outputs(chunks[1..])
  }

  function Concat(parts: seq<string>): string {
    if parts == [] then "" else parts[0] + Concat(parts[1..])
  }

  /** The exit code of the last Done chunk, if there is one. */
  function LastExit(chunks: seq<Chunk>): Option<int> {
    if chunks == [] then None
    else if chunks[|chunks| - 1].done then Some(chunks[|chunks| - 1].exit)
    else LastExit(chunks[..|chunks| - 1])
  }

  const NO_COMPLETION := "exec error: build step stream ended without completion"

  function FromStream(blank: Entry, stream: Stream): Attempt {
    match stream
    case NotStarted(error) => Attempt(blank.(stderr := "exec error: " + error), [])
    case Opened(chunks) =>
      var seen := BeforeError(chunks);
      var last := LastExit(seen);
      var entry := blank.(stdout := Concat(Outputs(seen)), exit := if last.Some? then last.value else 0);
      if |seen| < |chunks| then Attempt(entry.(stderr := "exec error: " + ErrorAt(chunks, |seen|)), Outputs(seen))
      else if last.None? then Attempt(entry.(stderr := NO_COMPLETION), Outputs(seen))
      else Attempt(entry.(ok := last.value == 0), Outputs(seen))
  }

  function ErrorAt(chunks: seq<Chunk>, i: nat): string {
    if i < |chunks| && chunks[i].err.Some? then chunks[i].err.value else ""
  }

  /** `asked` is every request so far, this step's included. */
  function Try(w: World, cfg: Config, st: Step, n: int, asked: seq<Request>): Attempt {
    var blank := Blank(cfg, st, n);
    match st
    case ENV(_, _, _) => Attempt(blank.(ok := true), [])
    case COPY(_, srcs, _) =>
      var plan := PlanCopy(srcs);
      if plan.Reject?
      then Attempt(blank.(stderr := "COPY source must be a relative path within the archive: "
        + cfg.quote(plan.src)), [])
      else Attempt(FromReply(blank, w.exec(asked)), [])
    case START(_, _) => Attempt(FromStart(cfg, blank, w.exec(asked)), [])
    case RUN(_, _, _) =>
      if cfg.streaming then FromStream(blank, w.stream(asked)) else Attempt(FromReply(blank, w.exec(asked)), [])
    case WORKDIR(_, _) => Attempt(FromReply(blank, w.exec(asked)), [])
    case USER(_, _) => Attempt(FromReply(blank, w.exec(asked)), [])
  }

  /** What a step that succeeded does to the context. */
  function Apply(st: Step, ctx: Shell.Context): Shell.Context {
    match st
    case ENV(_, key, value) => ctx.(env := ctx.env[key := Expand.Expand(value, ctx.env)])
    case WORKDIR(_, path) => ctx.(workDir := path)
    case USER(_, name) => ctx.(user := name,
      env := ctx.env["HOME" := if name == "root" then "/root" else "/home/" + name])
    case _ => ctx
  }

  function ApplyAll(steps: seq<Step>, ctx: Shell.Context): Shell.Context
    decreases |steps|
  {
    if steps == [] then ctx else ApplyAll(steps[1..], Apply(steps[0], ctx))
  }

  // ---- A run ----

  datatype Outcome = Outcome(entries: seq<Entry>, next: int, ok: bool, ctx: Shell.Context, asked: seq<Request>,
                             notices: seq<Notice>)

  function Told(n: int, output: seq<string>): seq<Notice> {
    seq(|output|, i requires 0 <= i < |output| => Output(n, output[i]))
  }

  /** Progress reports carry every entry since the call began. */
  function Rebase(entries: seq<Entry>, notices: seq<Notice>): seq<Notice> {
    seq(|notices|, i requires 0 <= i < |notices| =>
      if notices[i].Progress? then Progress(notices[i].step, entries + notices[i].entries) else notices[i])
  }

  ghost function One(w: World, cfg: Config, st: Step, n: int, ctx: Shell.Context, asked: seq<Request>): Outcome {
    var asked' := asked + Sends(cfg, st, ctx);
    var a := Try(w, cfg, st, n + 1, asked');
    var notices := [Began(n + 1, cfg.phase, st.raw)] + Told(n + 1, a.output);
    if a.entry.ok then Outcome([a.entry], n + 1, true, Apply(st, ctx), asked', notices + [Progress(n + 1, [a.entry])])
    else Outcome([a.entry], n + 1, false, ctx, asked', notices)
  }

  function Then(x: Outcome, y: Outcome): Outcome {
    if x.ok
    then Outcome(x.entries + y.entries, y.next, y.ok, y.ctx, y.asked, x.notices + Rebase(x.entries, y.notices))
    else x
  }

  ghost function Execute(w: World, cfg: Config, steps: seq<Step>, n: int, ctx: Shell.Context,
                         asked: seq<Request>): Outcome
    decreases |steps|
  {
    if steps == [] then Outcome([], n, true, ctx, asked, [])
    else
      var x := One(w, cfg, steps[0], n, ctx, asked);
      Then(x, Execute(w, cfg, steps[1..], x.next, x.ctx, x.asked))
  }
}
