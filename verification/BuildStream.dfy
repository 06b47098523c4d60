/** The live build console: replay of the logged steps, then the live tail. */
module BuildStream {
  import opened Records
  import opened Executor
  import opened ExecutorTheorems
  import Shell

  /** Frames to the client; live events are forwarded as they are. */
  datatype Frame =
    | StepStart(step: int, phase: string, cmd: string)
    | StepOutput(step: int, data: string)
    | StepEnd(step: int, phase: string, cmd: string, exit: int, ok: bool)
    | BuildStatus(status: string)
    | Ping

  /** What the live loop wakes up for. */
  datatype Input = Cancelled | Tick | Closed | Live(event: Frame)

  /** `log` is None when there is no log or it does not parse. */
  datatype Build = Build(log: Option<seq<Entry>>, status: string)

  predicate Terminal(status: string) {
    status in {"success", "failed", "cancelled"}
  }

  predicate Final(f: Frame) {
    f.BuildStatus? && Terminal(f.status)
  }

  function End(e: Entry): Frame {
    StepEnd(e.step, e.phase, e.cmd, e.exit, e.ok)
  }

  function ReplayOne(e: Entry): seq<Frame> {
    [StepStart(e.step, e.phase, e.cmd)]
    + (if e.stdout + e.stderr != "" then [StepOutput(e.step, e.stdout + e.stderr)] else [])
    + [End(e)]
  }

  function Replay(entries: seq<Entry>): seq<Frame> {
    if entries == [] then [] else Replay(entries[..|entries| - 1]) + ReplayOne(entries[|entries| - 1])
  }

  function Logged(build: Build): seq<Entry> {
    if build.log.Some? then build.log.value else []
  }

  /** The highest step number, and at least zero. */
  function LastStep(entries: seq<Entry>): (last: int)
    ensures last >= 0 && forall e :: e in entries ==> e.step <= last
    ensures last == 0 || exists e :: e in entries && e.step == last
  {
    if entries == [] then 0
    else
      var front, e := entries[..|entries| - 1], entries[|entries| - 1];
      assert entries == front + [e];
      if e.step > LastStep(front) then e.step else LastStep(front)
  }

  function StepOf(f: Frame): int {
    match f
    case StepStart(step, _, _) => step
    case StepOutput(step, _) => step
    case StepEnd(step, _, _, _, _) => step
    case _ => 0
  }

  /** Already covered by the replay. */
  predicate Skipped(f: Frame, last: int) {
    !f.BuildStatus? && 0 < StepOf(f) <= last
  }

  function Tail(inputs: seq<Input>, last: int): seq<Frame> {
    if inputs == [] || inputs[0].Cancelled? || inputs[0].Closed? then []
    else if inputs[0].Tick? then [Ping] + Tail(inputs[1..], last)
    else if Skipped(inputs[0].event, last) then Tail(inputs[1..], last)
    else [inputs[0].event] + if Final(inputs[0].event) then [] else Tail(inputs[1..], last)
  }

  function Frames(build: Build, inputs: seq<Input>): seq<Frame> {
    Replay(Logged(build)) + [BuildStatus(build.status)]
    + if Terminal(build.status) then [] else Tail(inputs, LastStep(Logged(build)))
  }

  class Console {
    var sent: seq<Frame>

    method Write(f: Frame)
      modifies this
      ensures sent == old(sent) + [f]
    {
      sent := sent + [f];
    }

    method WriteEntry(e: Entry)
      modifies this
      ensures sent == old(sent) + ReplayOne(e)
    {
      Write(StepStart(e.step, e.phase, e.cmd));
      var out := e.stdout + e.stderr;
      if out != "" {
        Write(StepOutput(e.step, out));
      }
      Write(End(e));
    }

    method ReplayBuildHistory(build: Build) returns (lastStep: int)
      modifies this
      ensures sent == old(sent) + Replay(Logged(build)) && lastStep == LastStep(Logged(build))
    {
      assert sent == sent + [];
      if build.log.None? {
        return 0;
      }
      var entries := build.log.value;
      lastStep := 0;
      assert entries[..0] == [];
      for i := 0 to |entries|
        invariant sent == old(sent) + Replay(entries[..i])
        invariant lastStep == LastStep(entries[..i])
      {
        hide Replay, ReplayOne, LastStep;
        var e := entries[i];
        WriteEntry(e);
        if e.step > lastStep {
          lastStep := e.step;
        }
        ReplaySnoc(entries, i);
        Associative(old(sent), Replay(entries[..i]), ReplayOne(e));
      }
      assert entries[..|entries|] == entries;
    }

    method RunStream(build: Build, inputs: seq<Input>)
      modifies this
      ensures sent == old(sent) + Frames(build, inputs)
    {
      var lastStep := ReplayBuildHistory(build);
      Write(BuildStatus(build.status));
      ghost var head := old(sent) + Replay(Logged(build)) + [BuildStatus(build.status)];
      if Terminal(build.status) {
        return;
      }
      assert head + Tail(inputs, lastStep) == old(sent) + Frames(build, inputs);
      hide Replay, LastStep, Frames, Logged, Terminal;
      var i := 0;
      assert inputs[0..] == inputs;
      while i < |inputs|
        invariant 0 <= i <= |inputs|
        invariant sent + Tail(inputs[i..], lastStep) == head + Tail(inputs, lastStep)
      {
        var input := inputs[i];
        assert inputs[i..][1..] == inputs[i + 1..];
        ghost var rest := Tail(inputs[i + 1..], lastStep);
        i := i + 1;
        assert sent + [] == sent;
        label Here:
        match input {
          case Cancelled => return;
          case Closed => return;
          case Tick =>
            Write(Ping);
            Associative(old@Here(sent), [Ping], rest);
          case Live(event) =>
            if Skipped(event, lastStep) { continue; }
            Write(event);
            if Final(event) {
              assert [event] + [] == [event];
              return;
            }
            Associative(old@Here(sent), [event], rest);
        }
      }
    }
  }

  lemma ReplaySnoc(entries: seq<Entry>, i: nat)
    requires i < |entries|
    ensures Replay(entries[..i + 1]) == Replay(entries[..i]) + ReplayOne(entries[i])
    ensures LastStep(entries[..i + 1])
         == if entries[i].step > LastStep(entries[..i]) then entries[i].step else LastStep(entries[..i])
  {
    assert entries[..i + 1][..i] == entries[..i];
  }

  // ---- Nothing follows the end ----

  predicate OnlyLastFinal(frames: seq<Frame>) {
    forall i :: 0 <= i < |frames| - 1 ==> !Final(frames[i])
  }

  lemma {:induction false} TailEndsOnce(inputs: seq<Input>, last: int)
    ensures OnlyLastFinal(Tail(inputs, last))
  {
    if inputs != [] { TailEndsOnce(inputs[1..], last); }
  }

  lemma {:induction false} ReplayIsNotFinal(entries: seq<Entry>)
    ensures forall i :: 0 <= i < |Replay(entries)| ==> !Final(Replay(entries)[i])
  {
    if entries != [] { ReplayIsNotFinal(entries[..|entries| - 1]); }
  }

  /** A terminal status, replayed or live, is the last frame the client gets. */
  lemma NothingAfterTerminal(build: Build, inputs: seq<Input>)
    ensures OnlyLastFinal(Frames(build, inputs))
  {
    ReplayIsNotFinal(Logged(build));
    TailEndsOnce(inputs, LastStep(Logged(build)));
  }

  // ---- Every frame of the stream ----

  function Sifted(frames: seq<Frame>, keep: Frame -> bool): seq<Frame> {
    if frames == [] then [] else (if keep(frames[0]) then [frames[0]] else []) + Sifted(frames[1..], keep)
  }

  /** Everything the live loop wakes up for, a tick being a ping, up to the status that ends the build. */
  function Woken(inputs: seq<Input>): seq<Frame> {
    if inputs == [] || inputs[0].Cancelled? || inputs[0].Closed? then []
    else if inputs[0].Tick? then [Ping] + Woken(inputs[1..])
    else [inputs[0].event] + if Over(inputs[0].event) then [] else Woken(inputs[1..])
  }

  predicate Over(f: Frame) {
    f.BuildStatus? && f.status in {"success", "failed", "cancelled"}
  }

  /** The frame belongs to a numbered step no later than one in the log. */
  predicate Covered(build: Build, f: Frame) {
    (f.StepStart? || f.StepOutput? || f.StepEnd?) && f.step > 0 && exists e :: e in Logged(build) && f.step <= e.step
  }

  lemma CoveredIsSkipped(build: Build, f: Frame)
    ensures Skipped(f, LastStep(Logged(build))) <==> Covered(build, f)
  {
    hide LastStep;
  }

  lemma SiftedCons(f: Frame, rest: seq<Frame>, keep: Frame -> bool)
    ensures Sifted([f] + rest, keep) == (if keep(f) then [f] else []) + Sifted(rest, keep)
  {
    assert ([f] + rest)[1..] == rest;
  }

  lemma {:induction false} TailIsSifted(build: Build, inputs: seq<Input>)
    ensures Tail(inputs, LastStep(Logged(build))) == Sifted(Woken(inputs), f => !Covered(build, f))
    decreases |inputs|
  {
    if inputs == [] || inputs[0].Cancelled? || inputs[0].Closed? {
      return;
    }
    var keep := f => !Covered(build, f);
    TailIsSifted(build, inputs[1..]);
    if inputs[0].Tick? {
      SiftedCons(Ping, Woken(inputs[1..]), keep);
    } else {
      CoveredIsSkipped(build, inputs[0].event);
      SiftedCons(inputs[0].event, Woken(inputs[1..]), keep);
      SiftedCons(inputs[0].event, [], keep);
    }
  }

  /** The client of a build that is not over gets the replay, the status, and then everything the loop wakes up for, in
      order, without exactly the frames of steps the log already covers. */
  lemma LiveFrames(build: Build, inputs: seq<Input>)
    requires build.status !in {"success", "failed", "cancelled"}
    ensures Frames(build, inputs) == Replay(Logged(build)) + [BuildStatus(build.status)]
                                     + Sifted(Woken(inputs), f => !Covered(build, f))
  {
    hide Replay, Tail, LastStep, Logged, Covered;
    TailIsSifted(build, inputs);
  }

  /** The client of a build that is over gets the replay and the status. */
  lemma FinishedFrames(build: Build, inputs: seq<Input>)
    requires build.status in {"success", "failed", "cancelled"}
    ensures Frames(build, inputs) == Replay(Logged(build)) + [BuildStatus(build.status)]
  {
    hide Replay, Tail, LastStep, Logged;
  }

  lemma {:induction false} ReplayAppend(a: seq<Entry>, b: seq<Entry>)
    ensures Replay(a + b) == Replay(a) + Replay(b)
    decreases |b|
  {
    if b == [] {
      assert a + b == a;
      return;
    }
    hide ReplayOne;
    var front, last := b[..|b| - 1], b[|b| - 1];
    assert (a + b)[..|a + b| - 1] == a + front;
    ReplayAppend(a, front);
    Associative(Replay(a), Replay(front), ReplayOne(last));
  }

  /** Each entry of the log, wherever it stands, is replayed as its start, its output if there is any, and its end. */
  lemma EntryIsReplayed(a: seq<Entry>, e: Entry, b: seq<Entry>)
    ensures var output := e.stdout + e.stderr;
            Replay(a + [e] + b)
            == Replay(a)
               + ([StepStart(e.step, e.phase, e.cmd)] + (if output != "" then [StepOutput(e.step, output)] else [])
                  + [StepEnd(e.step, e.phase, e.cmd, e.exit, e.ok)])
               + Replay(b)
  {
    ReplayAppend(a + [e], b);
    ReplayAppend(a, [e]);
    assert Replay([e]) == ReplayOne(e) by {
      assert [e][..0] == [];
      assert [] + ReplayOne(e) == ReplayOne(e);
    }
    hide Replay;
  }

  // ---- Step ends ----

  function StepEnds(frames: seq<Frame>): seq<Frame> {
    if frames == [] then [] else (if frames[0].StepEnd? then [frames[0]] else []) + StepEnds(frames[1..])
  }

  function Ends(entries: seq<Entry>): seq<Frame> {
    seq(|entries|, i requires 0 <= i < |entries| => End(entries[i]))
  }

  /** The live events up to the one that ends the loop. */
  function Heard(inputs: seq<Input>): seq<Frame> {
    if inputs == [] || inputs[0].Cancelled? || inputs[0].Closed? then []
    else if inputs[0].Tick? then Heard(inputs[1..])
    else [inputs[0].event] + if Final(inputs[0].event) then [] else Heard(inputs[1..])
  }

  function Beyond(ends: seq<Frame>, last: int): seq<Frame> {
    if ends == [] then [] else (if Skipped(ends[0], last) then [] else [ends[0]]) + Beyond(ends[1..], last)
  }

  lemma StepEndsCons(f: Frame, rest: seq<Frame>)
    ensures StepEnds([f] + rest) == (if f.StepEnd? then [f] else []) + StepEnds(rest)
  {
    assert ([f] + rest)[1..] == rest;
  }

  lemma {:induction false} StepEndsAppend(a: seq<Frame>, b: seq<Frame>)
    ensures StepEnds(a + b) == StepEnds(a) + StepEnds(b)
    decreases |a|
  {
    if a == [] {
      assert a + b == b;
      return;
    }
    hide StepEnds;
    assert a == [a[0]] + a[1..] && a + b == [a[0]] + (a[1..] + b);
    StepEndsCons(a[0], a[1..]);
    StepEndsCons(a[0], a[1..] + b);
    StepEndsAppend(a[1..], b);
    Associative(if a[0].StepEnd? then [a[0]] else [], StepEnds(a[1..]), StepEnds(b));
  }

  lemma StepEndsOne(f: Frame)
    ensures StepEnds([f]) == if f.StepEnd? then [f] else []
  {
    assert [f][1..] == [];
  }

  lemma BeyondCons(f: Frame, ends: seq<Frame>, last: int)
    ensures Beyond([f] + ends, last) == if Skipped(f, last) then Beyond(ends, last) else [f] + Beyond(ends, last)
  {
    assert ([f] + ends)[1..] == ends;
  }

  lemma {:induction false} TailStepEnds(inputs: seq<Input>, last: int)
    ensures StepEnds(Tail(inputs, last)) == Beyond(StepEnds(Heard(inputs)), last)
  {
    if inputs == [] || inputs[0].Cancelled? || inputs[0].Closed? {
      return;
    }
    var rest := inputs[1..];
    TailStepEnds(rest, last);
    if inputs[0].Tick? {
      StepEndsCons(Ping, Tail(rest, last));
      return;
    }
    hide StepEnds, Beyond;
    LiveStepEnds(inputs[0].event, Tail(rest, last), Heard(rest), last);
  }

  /** One live event in front of a tail and of what was heard. */
  lemma LiveStepEnds(f: Frame, tail: seq<Frame>, heard: seq<Frame>, last: int)
    requires StepEnds(tail) == Beyond(StepEnds(heard), last)
    ensures StepEnds(if Skipped(f, last) then tail else [f] + tail) == Beyond(StepEnds([f] + heard), last)
    ensures Final(f) ==> StepEnds([f] + []) == Beyond(StepEnds([f] + []), last)
  {
    StepEndsOne(f);
    StepEndsCons(f, tail);
    StepEndsCons(f, heard);
    assert [f] + [] == [f] && [] + StepEnds(heard) == StepEnds(heard) && [] + StepEnds(tail) == StepEnds(tail);
    BeyondCons(f, StepEnds(heard), last);
  }

  lemma StepEndsOfReplayOne(e: Entry)
    ensures StepEnds(ReplayOne(e)) == [End(e)]
  {
    var start, end := [StepStart(e.step, e.phase, e.cmd)], [End(e)];
    var out := if e.stdout + e.stderr != "" then [StepOutput(e.step, e.stdout + e.stderr)] else [];
    StepEndsOne(start[0]);
    StepEndsOne(end[0]);
    if out != [] { StepEndsOne(out[0]); }
    StepEndsAppend(start, out);
    StepEndsAppend(start + out, end);
  }

  lemma {:induction false} ReplayStepEnds(entries: seq<Entry>)
    ensures StepEnds(Replay(entries)) == Ends(entries)
  {
    if entries != [] {
      var front, e := entries[..|entries| - 1], entries[|entries| - 1];
      ReplayStepEnds(front);
      StepEndsAppend(Replay(front), ReplayOne(e));
      StepEndsOfReplayOne(e);
      assert Ends(entries) == Ends(front) + [End(e)];
    }
  }

  lemma {:induction false} BeyondAppend(a: seq<Frame>, b: seq<Frame>, last: int)
    ensures Beyond(a + b, last) == Beyond(a, last) + Beyond(b, last)
    decreases |a|
  {
    if a == [] {
      assert a + b == b;
      return;
    }
    hide Beyond, Skipped;
    assert a == [a[0]] + a[1..] && a + b == [a[0]] + (a[1..] + b);
    BeyondCons(a[0], a[1..], last);
    BeyondCons(a[0], a[1..] + b, last);
    BeyondAppend(a[1..], b, last);
    if !Skipped(a[0], last) { Associative([a[0]], Beyond(a[1..], last), Beyond(b, last)); }
  }

  lemma {:induction false} BeyondLength(ends: seq<Frame>, last: int)
    ensures |Beyond(ends, last)| <= |ends|
    ensures Beyond(ends, last) == ends <==> forall i :: 0 <= i < |ends| ==> !Skipped(ends[i], last)
    ensures |Beyond(ends, last)| == |ends| <==> Beyond(ends, last) == ends
    ensures (forall i :: 0 <= i < |ends| ==> Skipped(ends[i], last)) ==> Beyond(ends, last) == []
  {
    if ends != [] {
      BeyondLength(ends[1..], last);
      assert ends == [ends[0]] + ends[1..];
      assert forall i :: 0 < i < |ends| ==> ends[i] == ends[1..][i - 1];
    }
  }

  /** The client of a running build: entries `all` in log order, the ends of the first `m` published, the first `p` in
      the log snapshot, the live tail starting at entry `q`. */
  ghost predicate Follows(all: seq<Entry>, m: nat, p: nat, q: nat, build: Build, inputs: seq<Input>) {
    && p <= |all| && q <= m <= |all|
    && (forall i :: 0 <= i < |all| ==> all[i].step > 0)
    && !Terminal(build.status) && Logged(build) == all[..p]
    && StepEnds(Heard(inputs)) == Ends(all[q..m])
  }

  lemma MergedStepEnds(all: seq<Entry>, m: nat, p: nat, q: nat, build: Build, inputs: seq<Input>)
    requires Follows(all, m, p, q, build, inputs)
    ensures StepEnds(Frames(build, inputs)) == Ends(all[..p]) + Beyond(Ends(all[q..m]), LastStep(all[..p]))
  {
    hide StepEnds, Replay, Tail, Beyond, Ends, LastStep, Heard;
    var last := LastStep(all[..p]);
    var status := [BuildStatus(build.status)];
    ReplayStepEnds(all[..p]);
    TailStepEnds(inputs, last);
    StepEndsOne(status[0]);
    StepEndsAppend(Replay(all[..p]), status);
    StepEndsAppend(Replay(all[..p]) + status, Tail(inputs, last));
    assert Ends(all[..p]) + [] == Ends(all[..p]);
  }

  ghost predicate LaterStepsAreHigher(all: seq<Entry>, p: nat)
    requires p <= |all|
  {
    forall i :: p <= i < |all| ==> all[i].step > LastStep(all[..p])
  }

  /** Replay and tail together deliver every step end exactly once and in order, exactly when the tail starts no
      later than just after the snapshot, every entry after the snapshot has a higher number than those in it, and
      whatever is never published is in the snapshot. */
  lemma MergeExactIff(all: seq<Entry>, m: nat, p: nat, q: nat, build: Build, inputs: seq<Input>)
    requires Follows(all, m, p, q, build, inputs)
    ensures StepEnds(Frames(build, inputs)) == Ends(all)
       <==> q <= p && LaterStepsAreHigher(all, p) && (m == |all| || p == |all|)
  {
    MergedStepEnds(all, m, p, q, build, inputs);
    assert q <= m <= |all| && p <= |all| && forall i :: 0 <= i < |all| ==> all[i].step > 0;
    hide *;
    if p == |all| {
      WholeSnapshot(all, m, p, q);
    } else if q > p || m < |all| {
      TailIsShort(all, m, p, q);
    } else {
      assert all[q..m] == all[q..];
      OverlappingMergeIff(all, p, q);
    }
  }

  lemma WholeSnapshot(all: seq<Entry>, m: nat, p: nat, q: nat)
    requires q <= m <= |all| == p && forall i :: 0 <= i < |all| ==> all[i].step > 0
    ensures Ends(all[..p]) + Beyond(Ends(all[q..m]), LastStep(all[..p])) == Ends(all) && LaterStepsAreHigher(all, p)
  {
    hide Beyond, LastStep;
    SnapshotIsSkipped(all, m, p, q);
    assert all[..p] == all && Ends(all) + [] == Ends(all);
  }

  /** Entries in the snapshot add nothing when the tail repeats them. */
  lemma TailIsShort(all: seq<Entry>, m: nat, p: nat, q: nat)
    requires q <= m <= |all| && p < |all| && forall i :: 0 <= i < |all| ==> all[i].step > 0
    requires q > p || m < |all|
    ensures Ends(all[..p]) + Beyond(Ends(all[q..m]), LastStep(all[..p])) != Ends(all)
  {
    hide Beyond, LastStep;
    var last := LastStep(all[..p]);
    if q > p {
      BeyondLength(Ends(all[q..m]), last);
    } else if m <= p {
      SnapshotIsSkipped(all, m, p, q);
    } else {
      SnapshotIsSkipped(all, p, p, q);
      assert Ends(all[q..m]) == Ends(all[q..p]) + Ends(all[p..m]);
      BeyondAppend(Ends(all[q..p]), Ends(all[p..m]), last);
      BeyondLength(Ends(all[p..m]), last);
    }
    assert |Ends(all[..p])| + |Beyond(Ends(all[q..m]), last)| < |Ends(all)|;
  }

  lemma OverlappingMergeIff(all: seq<Entry>, p: nat, q: nat)
    requires q <= p <= |all| && forall i :: 0 <= i < |all| ==> all[i].step > 0
    ensures Ends(all[..p]) + Beyond(Ends(all[q..]), LastStep(all[..p])) == Ends(all) <==> LaterStepsAreHigher(all, p)
  {
    hide *;
    var last, front, seen, later := LastStep(all[..p]), Ends(all[..p]), Ends(all[q..p]), Ends(all[p..]);
    EndsSplit(all, p, q);
    NewStepsPass(all, p);
    SnapshotIsSkipped(all, p, p, q);
    BeyondAppend(seen, later, last);
    BeyondLength(later, last);
    assert [] + Beyond(later, last) == Beyond(later, last);
    SameTail(front, Beyond(later, last), later);
  }

  lemma EndsSplit(all: seq<Entry>, p: nat, q: nat)
    requires q <= p <= |all|
    ensures Ends(all[q..]) == Ends(all[q..p]) + Ends(all[p..]) && Ends(all) == Ends(all[..p]) + Ends(all[p..])
  {
  }

  lemma SameTail(front: seq<Frame>, a: seq<Frame>, b: seq<Frame>)
    ensures front + a == front + b <==> a == b
  {
    assert (front + a)[|front|..] == a && (front + b)[|front|..] == b;
  }

  lemma SnapshotIsSkipped(all: seq<Entry>, m: nat, p: nat, q: nat)
    requires q <= m <= p <= |all| && forall i :: 0 <= i < |all| ==> all[i].step > 0
    ensures Beyond(Ends(all[q..m]), LastStep(all[..p])) == []
  {
    hide Beyond;
    assert forall i :: q <= i < m ==> all[i] == all[..p][i] && all[i] in all[..p];
    BeyondLength(Ends(all[q..m]), LastStep(all[..p]));
  }

  lemma NewStepsPass(all: seq<Entry>, p: nat)
    requires p <= |all| && forall i :: 0 <= i < |all| ==> all[i].step > 0
    ensures (forall i :: 0 <= i < |Ends(all[p..])| ==> !Skipped(Ends(all[p..])[i], LastStep(all[..p])))
       <==> LaterStepsAreHigher(all, p)
  {
    var later := Ends(all[p..]);
    assert forall i :: p <= i < |all| ==> later[i - p] == End(all[i]);
  }

  /** Consecutive numbering, which the phases of a build produce, leaves only the conditions on where the tail
      starts and on what is never published. */
  lemma ConsecutiveMergeIff(all: seq<Entry>, m: nat, p: nat, q: nat, build: Build, inputs: seq<Input>)
    requires Follows(all, m, p, q, build, inputs) && Consecutive(all, 0)
    ensures StepEnds(Frames(build, inputs)) == Ends(all) <==> q <= p && (m == |all| || p == |all|)
  {
    hide Frames, StepEnds, Ends;
    MergeExactIff(all, m, p, q, build, inputs);
    assert forall e :: e in all[..p] ==> e.step <= p;
  }

  /** The row is read before the subscription is made: a step that ends in between is neither in the snapshot nor in
      the tail, although the next one is delivered. */
  lemma StepEndingBeforeSubscribeIsLost(first: Entry, second: Entry, third: Entry)
    requires first.step == 1 && second.step == 2 && third.step == 3
    ensures var build := Build(Some([first]), "running");
            var inputs := [Live(End(third)), Live(BuildStatus("success"))];
            && StepEnds(Frames(build, inputs)) == [End(first), End(third)]
            && StepEnds(Frames(build, inputs)) != Ends([first, second, third])
  {
    var all, build := [first, second, third], Build(Some([first]), "running");
    var inputs := [Live(End(third)), Live(BuildStatus("success"))];
    hide StepEnds, Frames, Heard, Beyond, Ends, LastStep;
    HeardThird(third);
    assert all[..1] == [first] && all[2..3] == [third];
    EndsOne(first);
    EndsOne(third);
    assert Follows(all, 3, 1, 2, build, inputs);
    MergedStepEnds(all, 3, 1, 2, build, inputs);
    ThirdPasses(first, third);
    EndsLength(all);
  }

  lemma HeardThird(third: Entry)
    ensures StepEnds(Heard([Live(End(third)), Live(BuildStatus("success"))])) == [End(third)]
  {
    var inputs := [Live(End(third)), Live(BuildStatus("success"))];
    assert inputs[1..] == [Live(BuildStatus("success"))] && inputs[1..][1..] == [];
    assert Heard(inputs) == [End(third)] + [BuildStatus("success")];
    hide StepEnds, Heard;
    StepEndsAppend([End(third)], [BuildStatus("success")]);
    StepEndsOne(End(third));
    StepEndsOne(BuildStatus("success"));
  }

  lemma EndsOne(e: Entry)
    ensures Ends([e]) == [End(e)]
  {
  }

  lemma EndsLength(entries: seq<Entry>)
    ensures |Ends(entries)| == |entries|
  {
  }

  lemma ThirdPasses(first: Entry, third: Entry)
    requires first.step == 1 && third.step == 3
    ensures Beyond([End(third)], LastStep([first])) == [End(third)]
  {
    assert [first][..0] == [] && LastStep([first]) == 1;
    assert [End(third)][1..] == [];
  }

  /** Whatever the log holds when the build is over is replayed in full. */
  lemma FinishedBuildIsReplayed(build: Build, inputs: seq<Input>)
    requires Terminal(build.status)
    ensures StepEnds(Frames(build, inputs)) == Ends(Logged(build))
  {
    hide StepEnds, Replay, Ends, Logged;
    ReplayStepEnds(Logged(build));
    StepEndsOne(BuildStatus(build.status));
    StepEndsAppend(Replay(Logged(build)), [BuildStatus(build.status)]);
    assert Frames(build, inputs) == Replay(Logged(build)) + [BuildStatus(build.status)];
    assert Ends(Logged(build)) + [] == Ends(Logged(build));
  }

  /** One phase of a build; its context is whatever the worker hands it. */
  datatype Phase = Phase(cfg: Config, steps: seq<Step>, ctx: Shell.Context)

  /** The entries of phases run one after the other, stopping at the first that fails. */
  ghost function PhaseEntries(w: World, phases: seq<Phase>, n: int, asked: seq<Request>): seq<Entry>
    decreases |phases|
  {
    if phases == [] then []
    else
      var r := Execute(w, phases[0].cfg, phases[0].steps, n, phases[0].ctx, asked);
      r.entries + if r.ok then PhaseEntries(w, phases[1..], r.next, r.asked) else []
  }

  /** Numbered n + 1, n + 2 and so on. */
  predicate Consecutive(entries: seq<Entry>, n: int) {
    forall i :: 0 <= i < |entries| ==> entries[i].step == n + 1 + i
  }

  lemma ConsecutiveAppend(a: seq<Entry>, b: seq<Entry>, n: int)
    requires Consecutive(a, n) && Consecutive(b, n + |a|)
    ensures Consecutive(a + b, n)
  {
  }

  lemma RunIsConsecutive(w: World, phase: Phase, n: int, asked: seq<Request>)
    ensures var r := Execute(w, phase.cfg, phase.steps, n, phase.ctx, asked);
            Consecutive(r.entries, n) && r.next == n + |r.entries|
  {
    hide Execute;
    EntriesOfRun(w, phase.cfg, phase.steps, n, phase.ctx, asked);
  }

  /** Any number of phases, each with its own settings and context, number their entries consecutively. */
  lemma {:induction false} PhasesAreConsecutive(w: World, phases: seq<Phase>, n: int, asked: seq<Request>)
    ensures Consecutive(PhaseEntries(w, phases, n, asked), n)
    decreases |phases|
  {
    hide Execute;
    if phases == [] {
      assert Consecutive([], n);
    } else {
      hide Consecutive;
      var r := Execute(w, phases[0].cfg, phases[0].steps, n, phases[0].ctx, asked);
      RunIsConsecutive(w, phases[0], n, asked);
      PhasesAreConsecutive(w, phases[1..], r.next, r.asked);
      ConsecutiveAppend(r.entries, PhaseEntries(w, phases[1..], r.next, r.asked), n);
      assert r.entries + [] == r.entries;
    }
  }

  /** The healthcheck takes the number after the last step yet runs before the post-build steps: a client whose
      snapshot already holds it misses every post-build step that is still to come. The post-build phase may still
      have steps to run, or have stopped at one that is never published. */
  lemma HealthcheckMergeIff(before: seq<Entry>, check: Entry, after: seq<Entry>, m: nat, p: nat, q: nat, build: Build,
                            inputs: seq<Input>)
    requires Follows(before + [check] + after, m, p, q, build, inputs)
    requires forall i :: 0 <= i < |before| ==> before[i].step == 1 + i
    requires check.step > |before| + |after|
    requires forall i :: 0 <= i < |after| ==> after[i].step == |before| + 1 + i
    ensures var all := before + [check] + after;
            StepEnds(Frames(build, inputs)) == Ends(all) <==> q <= p && (p == |all| || (p <= |before| && m == |all|))
  {
    hide Frames, StepEnds;
    var all := before + [check] + after;
    MergeExactIff(all, m, p, q, build, inputs);
    if p <= |before| {
      assert forall e :: e in all[..p] ==> e.step <= p;
    } else if p < |all| {
      assert all[..p][|before|] == check;
      assert all[p].step < check.step;
    }
  }

  // ---- What the live tail carries ----

  function Published(notices: seq<Notice>): seq<Frame>
    requires forall i :: 0 <= i < |notices| ==> notices[i].Progress? && notices[i].entries != []
  {
    seq(|notices|, i requires 0 <= i < |notices| => End(notices[i].entries[|notices[i].entries| - 1]))
  }

  /** Live step ends come from progress reports, so the step a run fails at has none: its end can only be replayed. */
  lemma PublishedEndsAreOkSteps(w: World, cfg: Config, steps: seq<Step>, n: int, ctx: Shell.Context,
                                asked: seq<Request>)
    ensures var r := Execute(w, cfg, steps, n, ctx, asked);
            && Oks(r.entries) == |r.entries| - (if r.ok then 0 else 1)
            && (forall i :: 0 <= i < |Reports(r.notices)| ==>
                  Reports(r.notices)[i].Progress? && Reports(r.notices)[i].entries != [])
            && Published(Reports(r.notices)) == Ends(r.entries[..Oks(r.entries)])
  {
    hide Execute;
    var r := Execute(w, cfg, steps, n, ctx, asked);
    ContextOfRun(w, cfg, steps, n, ctx, asked);
    ReportsOfRun(w, cfg, steps, n, ctx, asked);
  }

  ghost predicate PhasesOk(w: World, phases: seq<Phase>, n: int, asked: seq<Request>)
    decreases |phases|
  {
    phases == [] ||
    var r := Execute(w, phases[0].cfg, phases[0].steps, n, phases[0].ctx, asked);
    r.ok && PhasesOk(w, phases[1..], r.next, r.asked)
  }

  /** The step ends that the phases publish. */
  ghost function PhaseEnds(w: World, phases: seq<Phase>, n: int, asked: seq<Request>): seq<Frame>
    decreases |phases|
  {
    if phases == [] then []
    else
      var r := Execute(w, phases[0].cfg, phases[0].steps, n, phases[0].ctx, asked);
      PublishedEndsAreOkSteps(w, phases[0].cfg, phases[0].steps, n, phases[0].ctx, asked);
      Published(Reports(r.notices)) + if r.ok then PhaseEnds(w, phases[1..], r.next, r.asked) else []
  }

  /** How many of the phases' entries are published: all of them, or all but the one the build fails at. */
  ghost function PublishedCount(w: World, phases: seq<Phase>, n: int, asked: seq<Request>): nat {
    var logged := |PhaseEntries(w, phases, n, asked)|;
    if PhasesOk(w, phases, n, asked) || logged == 0 then logged else logged - 1
  }

  /** A build publishes the end of every step it logs except the one it fails at. */
  lemma {:induction false} PhasesPublishAllButTheFailure(w: World, phases: seq<Phase>, n: int, asked: seq<Request>)
    ensures !PhasesOk(w, phases, n, asked) ==> PhaseEntries(w, phases, n, asked) != []
    ensures PhaseEnds(w, phases, n, asked)
         == Ends(PhaseEntries(w, phases, n, asked)[..PublishedCount(w, phases, n, asked)])
    decreases |phases|
  {
    hide Execute, Oks, Ends, PhaseEnds, PhaseEntries, PhasesOk;
    if phases == [] {
      NoPhases(w, n, asked);
      return;
    }
    var r := Execute(w, phases[0].cfg, phases[0].steps, n, phases[0].ctx, asked);
    FirstPhase(w, phases, n, asked);
    if r.ok {
      var rest := PhaseEntries(w, phases[1..], r.next, r.asked);
      PhasesPublishAllButTheFailure(w, phases[1..], r.next, r.asked);
      assert r.entries[..|r.entries|] == r.entries;
      EndsOfMore(r.entries, rest, PublishedCount(w, phases[1..], r.next, r.asked));
    }
  }

  lemma NoPhases(w: World, n: int, asked: seq<Request>)
    ensures PhasesOk(w, [], n, asked) && PhaseEntries(w, [], n, asked) == [] && PhaseEnds(w, [], n, asked) == Ends([])
  {
  }

  /** What the first phase contributes. */
  lemma FirstPhase(w: World, phases: seq<Phase>, n: int, asked: seq<Request>)
    requires phases != []
    ensures var r := Execute(w, phases[0].cfg, phases[0].steps, n, phases[0].ctx, asked);
            var more := PhaseEnds(w, phases[1..], r.next, r.asked);
            && Oks(r.entries) == |r.entries| - (if r.ok then 0 else 1)
            && PhasesOk(w, phases, n, asked) == (r.ok && PhasesOk(w, phases[1..], r.next, r.asked))
            && PhaseEntries(w, phases, n, asked)
               == (if r.ok then r.entries + PhaseEntries(w, phases[1..], r.next, r.asked) else r.entries)
            && PhaseEnds(w, phases, n, asked)
               == (if r.ok then Ends(r.entries[..Oks(r.entries)]) + more else Ends(r.entries[..Oks(r.entries)]))
  {
    hide Execute, Oks, Published, Reports, Ends;
    var r := Execute(w, phases[0].cfg, phases[0].steps, n, phases[0].ctx, asked);
    PublishedEndsAreOkSteps(w, phases[0].cfg, phases[0].steps, n, phases[0].ctx, asked);
    assert r.entries + [] == r.entries && Ends(r.entries[..Oks(r.entries)]) + [] == Ends(r.entries[..Oks(r.entries)]);
  }

  lemma EndsOfMore(a: seq<Entry>, b: seq<Entry>, k: nat)
    requires k <= |b|
    ensures Ends(a) + Ends(b[..k]) == Ends((a + b)[..|a| + k])
  {
    assert (a + b)[..|a| + k] == a + b[..k];
  }

  /** The console of a build of any phases that succeeds or fails, read at any moment while it runs: every step end
      arrives once and in order exactly when the tail starts no later than just after the snapshot and, if the build
      fails, the snapshot already holds the step it fails at. */
  lemma BuildMergeIff(w: World, phases: seq<Phase>, p: nat, q: nat, build: Build, inputs: seq<Input>)
    requires p <= |PhaseEntries(w, phases, 0, [])| && q <= |PhaseEnds(w, phases, 0, [])|
    requires !Terminal(build.status) && Logged(build) == PhaseEntries(w, phases, 0, [])[..p]
    requires StepEnds(Heard(inputs)) == PhaseEnds(w, phases, 0, [])[q..]
    ensures var all := PhaseEntries(w, phases, 0, []);
            StepEnds(Frames(build, inputs)) == Ends(all) <==> q <= p && (PhasesOk(w, phases, 0, []) || p == |all|)
  {
    hide PhasesOk, PhaseEnds, PhaseEntries, StepEnds, Heard, Frames, Logged;
    var all, m := PhaseEntries(w, phases, 0, []), PublishedCount(w, phases, 0, []);
    PhasesPublishAllButTheFailure(w, phases, 0, []);
    PhasesAreConsecutive(w, phases, 0, []);
    assert Ends(all[..m])[q..] == Ends(all[q..m]);
    ConsecutiveMergeIff(all, m, p, q, build, inputs);
  }

  /** A recipe of one command that exits 1: the entry is logged, and no end of it is ever published. */
  lemma FailingStepHasNoLiveEnd(cfg: Config, ctx: Shell.Context)
    requires !cfg.streaming
    ensures var w := World(asked => Replied("", "", 1), asked => NotStarted(""));
            var r := Execute(w, cfg, [RUN("make", "make", 0)], 0, ctx, []);
            !r.ok && |r.entries| == 1 && Reports(r.notices) == []
  {
    var w := World(asked => Replied("", "", 1), asked => NotStarted(""));
    var st := RUN("make", "make", 0);
    ExecuteCons(w, cfg, [st], 0, ctx, []);
    NoticesCons(w, cfg, [st], 0, ctx, []);
    ReportsOfStep(w, cfg, st, 0, ctx, []);
    assert !One(w, cfg, st, 0, ctx, []).ok;
  }

  /** Two steps in all, the second a post-build step, and a healthcheck before it: a console that connects when the
      healthcheck is logged never sees the post-build step end. */
  lemma LateConsoleMissesPostBuild(first: Entry, check: Entry, last: Entry)
    requires first.step == 1 && check.step == 3 && last.step == 2
    ensures var build := Build(Some([first, check]), "running");
            StepEnds(Frames(build, [Live(End(last))])) != Ends([first] + [check] + [last])
  {
    var all := [first] + [check] + [last];
    var build := Build(Some([first, check]), "running");
    var inputs := [Live(End(last))];
    assert inputs[1..] == [] && Heard(inputs) == [End(last)];
    StepEndsOne(End(last));
    assert all[2..3] == [last] && all[..2] == [first, check];
    assert Ends([last]) == [End(last)];
    assert Follows(all, 3, 2, 2, build, inputs);
    HealthcheckMergeIff([first], check, [last], 3, 2, 2, build, inputs);
  }
}
