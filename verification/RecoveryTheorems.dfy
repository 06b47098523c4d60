/** Volumes freed by a monitor pass, and what a host outage followed by recovery restores. */
module RecoveryTheorems {
  import opened Records
  import Volumes
  import opened Reconcile
  import opened ReconcileTheorems

  // ---- Volumes over one pass ----

  /** The pass copies a terminal label from the report into a live row without freeing its volumes. */
  predicate CopiesTerminalLabel(id: SandboxId, row: Sandbox, h: HostId, alive: Alive) {
    row.host == h && row.status in {Missing, Running} && id in alive && alive[id] in {Some(Stopped), Some(Error)}
  }

  lemma PassFrees(id: SandboxId, row: Sandbox, h: HostId, alive: Alive, gone: set<SandboxId>, now: Time)
    ensures var e := PassEffect(id, row, h, alive, gone, now);
            && (e.frees ==> row.host == h && (id !in alive || id in gone) && e.to in {Some(Stopped), Some(Error)})
            && (e.to in {Some(Stopped), Some(Error)} ==> e.frees || CopiesTerminalLabel(id, row, h, alive))
            && (CopiesTerminalLabel(id, row, h, alive) ==> e.to == alive[id] && !e.frees)
  {
  }

  /** A pass frees a volume only when the sandbox holding it is absent from that pass's report, or its
      destroy succeeded or answered NotFound in that pass; and then the sandbox is stopped or errored. */
  lemma PassFreesOnlyGoneSandboxes(st: State, h: HostId, alive: Alive, gone: set<SandboxId>, now: Time, v: VolumeId)
    requires Coerced(alive) && v in st.volumes
    ensures var after := Run(st, ActivePass(h, alive, gone, now));
            && v in after.volumes
            && (after.volumes[v] != st.volumes[v] ==>
                  && st.volumes[v].sandbox.Some?
                  && var id := st.volumes[v].sandbox.value;
                  && id in st.sandboxes && st.sandboxes[id].host == h
                  && (id !in alive || id in gone)
                  && id in after.sandboxes && after.sandboxes[id].status in {Stopped, Error}
                  && after.volumes[v].status == Volumes.Detached && after.volumes[v].sandbox.None?)
  {
    PassIsOneRound(st, h, alive, gone, now);
    hide Run;
    if st.volumes[v].sandbox.Some? && st.volumes[v].sandbox.value in st.sandboxes {
      PassFrees(st.volumes[v].sandbox.value, st.sandboxes[st.volumes[v].sandbox.value], h, alive, gone, now);
    }
  }

  /** One sandbox and one volume after a round of effects: the volume still names the sandbox exactly when it
      did before and the sandbox's effect does not free it. */
  lemma ApplyAt(st: State, effs: map<SandboxId, Effect>, now: Time, id: SandboxId, v: VolumeId)
    requires effs.Keys == st.sandboxes.Keys && Volumes.AllOk(st.volumes)
    ensures var after := ApplyAll(st, effs, now);
            && (id in after.sandboxes <==> id in st.sandboxes)
            && (id in st.sandboxes ==>
                  && after.sandboxes[id] == Write(st.sandboxes[id], effs[id], now)
                  && ((v in after.volumes && after.volumes[v].sandbox == Some(id))
                      <==> (v in st.volumes && st.volumes[v].sandbox == Some(id) && !effs[id].frees)))
  {
    if v in st.volumes { assert Volumes.RowOk(st.volumes[v]); }
  }

  /** The pass moved `id` to stopped or error and yet volume `v` still names it. */
  ghost predicate Stranded(st: State, after: State, id: SandboxId, v: VolumeId) {
    && id in st.sandboxes && st.sandboxes[id].status !in {Stopped, Error}
    && id in after.sandboxes && after.sandboxes[id].status in {Stopped, Error}
    && v in after.volumes && after.volumes[v].sandbox == Some(id)
  }

  /** A pass leaves a volume on a sandbox it has just stopped or errored exactly when the report itself
      gives that missing or running sandbox the label stopped or error. */
  lemma PassStrandsIff(st: State, h: HostId, alive: Alive, gone: set<SandboxId>, now: Time, id: SandboxId, v: VolumeId)
    requires Coerced(alive) && Volumes.AllOk(st.volumes)
    ensures Stranded(st, Run(st, ActivePass(h, alive, gone, now)), id, v)
       <==> (&& id in st.sandboxes && CopiesTerminalLabel(id, st.sandboxes[id], h, alive)
             && v in st.volumes && st.volumes[v].sandbox == Some(id))
  {
    hide Run, ApplyAll, PassEffect;
    var effs := PassEffects(st, h, alive, gone, now);
    PassIsOneRound(st, h, alive, gone, now);
    ApplyAt(st, effs, now, id, v);
    if id in st.sandboxes {
      PassFrees(id, st.sandboxes[id], h, alive, gone, now);
    }
  }

  /** A running sandbox with an attached volume, reported in error as the agent does after a failed pause: the row
      ends in error and the volume stays claimed. */
  lemma ErrorLabelStrands(id: SandboxId, h: HostId, v: VolumeId, team: TeamId, now: Time)
    ensures var volume := Volumes.Volume(team, Some(h), Volumes.Attached, Some(id), "/mnt", Some(now), now);
            var st := OneSandbox(id, Sandbox(h, Running, None)).(volumes := map[v := volume]);
            Stranded(st, Run(st, ActivePass(h, AliveOf([Entry(id, Error)]), {}, now)), id, v)
  {
    var volume := Volumes.Volume(team, Some(h), Volumes.Attached, Some(id), "/mnt", Some(now), now);
    var st := OneSandbox(id, Sandbox(h, Running, None)).(volumes := map[v := volume]);
    OneEntry(id, Error);
    AliveIsCoerced([Entry(id, Error)]);
    assert Volumes.AllOk(st.volumes);
    assert CopiesTerminalLabel(id, st.sandboxes[id], h, AliveOf([Entry(id, Error)]));
    hide Run, Stranded, ActivePass;
    PassStrandsIff(st, h, AliveOf([Entry(id, Error)]), {}, now, id, v);
  }

  // ---- Outage and recovery ----

  /** Something that happens while a host is unreachable: a check of any host, a consumed event, a heartbeat, what
      users do to the two tables, or a sweep of the volume reaper. */
  datatype Tick =
    | Check(h: HostId, report: Option<seq<Entry>>, gone: set<SandboxId>, now: Time)
    | Consume(event: Event, now: Time)
    | Beat(h: HostId, now: Time)
    | Operate(sandboxes: map<SandboxId, Sandbox>, volumes: Volumes.Rows)
    | Sweep(cutoff: Time, now: Time)

  function Reported(report: Option<seq<Entry>>): Option<Alive> {
    if report.Some? then Some(AliveOf(report.value)) else None
  }

  ghost function CheckHost(st: State, h: HostId, report: Option<seq<Entry>>, gone: set<SandboxId>, now: Time): State {
    if h in st.hosts then Run(st, CheckSteps(st, h, Reported(report), gone, now)) else st
  }

  ghost function TickExec(st: State, t: Tick): State {
    match t
    case Check(h, report, gone, now) => CheckHost(st, h, report, gone, now)
    case Consume(e, now) => Exec(st, Deliver(e, now))
    case Beat(h, now) => Exec(st, Heartbeat(h, now))
    case Operate(sandboxes, volumes) => Exec(st, Users(sandboxes, volumes))
    case Sweep(cutoff, now) => st.(volumes := Volumes.Exec(st.volumes, Volumes.ReleaseStale(cutoff), now))
  }

  ghost function Ticks(st: State, ticks: seq<Tick>): State
    decreases |ticks|
  {
    if ticks == [] then st else Ticks(TickExec(st, ticks[0]), ticks[1..])
  }

  /** Rows that no reconciler touches while their host is down. */
  predicate Dormant(row: Sandbox) {
    row.status in {Missing, Paused, Stopped, Error}
  }

  /** Every volume that names `id` before is the same after. */
  predicate KeepsVolumes(before: Volumes.Rows, after: Volumes.Rows, id: SandboxId) {
    forall v :: v in before && before[v].sandbox == Some(id) ==> v in after && after[v] == before[v]
  }

  /** The tick is no heartbeat of `h`, and users leave the row of `id` and its volumes alone. */
  predicate Spares(st: State, t: Tick, h: HostId, id: SandboxId) {
    && (t.Beat? ==> t.h != h)
    && (t.Operate? ==> RowAt(t.sandboxes, id) == RowAt(st.sandboxes, id) && KeepsVolumes(st.volumes, t.volumes, id))
  }

  ghost predicate AllSpare(st: State, ticks: seq<Tick>, h: HostId, id: SandboxId)
    decreases |ticks|
  {
    ticks == [] || (Spares(st, ticks[0], h, id) && AllSpare(TickExec(st, ticks[0]), ticks[1..], h, id))
  }

  predicate Names(t: Tick, id: SandboxId) {
    t.Consume? && t.event.sandbox == Some(id)
  }

  lemma RunOne(st: State, s: Step)
    ensures Run(st, [s]) == Exec(st, s)
  {
    assert [s][1..] == [];
  }

  lemma OtherHostsPass(id: SandboxId, row: Sandbox, g: HostId, alive: Alive, gone: set<SandboxId>, now: Time)
    requires row.host != g
    ensures PassEffect(id, row, g, alive, gone, now) == NOTHING
  {
  }

  lemma ConsumeKeepsDormant(st: State, e: Event, now: Time, id: SandboxId)
    requires id in st.sandboxes && Dormant(st.sandboxes[id])
    ensures var after := Exec(st, Deliver(e, now));
            && after.hosts == st.hosts
            && id in after.sandboxes && after.sandboxes[id] == st.sandboxes[id]
            && (e.sandbox != Some(id) ==> forall v :: v in st.volumes && st.volumes[v].sandbox == Some(id) ==>
                  v in after.volumes && after.volumes[v] == st.volumes[v])
  {
    hide HandlerEffect, Exec;
    var s := Deliver(e, now);
    ExecReconciles(st, s);
    ExecOne(st, s, id);
    DormantUntouched(st.sandboxes[id], e);
    ConsumeFrees(st, e, now);
    hide Effects, WriteAll, AppendRows, AppendEvents, Freed;
  }

  lemma ConsumeFrees(st: State, e: Event, now: Time)
    ensures forall id :: id in Freed(Effects(st, Deliver(e, now))) ==> e.sandbox == Some(id)
  {
    hide HandlerEffect;
  }

  lemma DormantUntouched(row: Sandbox, e: Event)
    requires Dormant(row)
    ensures HandlerEffect(Some(row), e).to.None?
  {
  }

  lemma CheckKeepsDormant(st: State, g: HostId, report: Option<seq<Entry>>, gone: set<SandboxId>, now: Time,
                          h: HostId, id: SandboxId)
    requires h in st.hosts && st.hosts[h].status == Unreachable
    requires id in st.sandboxes && st.sandboxes[id].host == h && Dormant(st.sandboxes[id])
    ensures var after := CheckHost(st, g, report, gone, now);
            && h in after.hosts && after.hosts[h] == st.hosts[h]
            && id in after.sandboxes && after.sandboxes[id] == st.sandboxes[id]
            && forall v :: v in st.volumes && st.volumes[v].sandbox == Some(id) ==>
                 v in after.volumes && after.volumes[v] == st.volumes[v]
  {
    if g in st.hosts {
      var steps := CheckSteps(st, g, Reported(report), gone, now);
      if steps == [] {
      } else if Stale(st.hosts[g], now) && st.hosts[g].status != Unreachable {
        RunOne(st, MarkDown(g, now));
      } else {
        AliveIsCoerced(report.value);
        PassIsOneRound(st, g, AliveOf(report.value), gone, now);
        OtherHostsPass(id, st.sandboxes[id], g, AliveOf(report.value), gone, now);
        hide Run;
      }
    }
  }

  lemma TickKeepsDormant(st: State, t: Tick, h: HostId, id: SandboxId)
    requires h in st.hosts && st.hosts[h].status == Unreachable && Spares(st, t, h, id)
    requires id in st.sandboxes && st.sandboxes[id].host == h && Dormant(st.sandboxes[id])
    ensures var after := TickExec(st, t);
            && h in after.hosts && after.hosts[h] == st.hosts[h]
            && id in after.sandboxes && after.sandboxes[id] == st.sandboxes[id]
            && (!Names(t, id) ==> KeepsVolumes(st.volumes, after.volumes, id))
  {
    match t {
      case Check(g, report, gone, now) =>
        hide CheckHost, Exec;
        CheckKeepsDormant(st, g, report, gone, now, h, id);
      case Consume(e, now) =>
        hide CheckHost, Exec;
        ConsumeKeepsDormant(st, e, now, id);
      case _ =>
        hide CheckHost, Exec;
        ElsewhereKeepsDormant(st, t, h, id);
    }
  }

  lemma ElsewhereKeepsDormant(st: State, t: Tick, h: HostId, id: SandboxId)
    requires !t.Check? && !t.Consume? && Spares(st, t, h, id) && h in st.hosts && id in st.sandboxes
    ensures var after := TickExec(st, t);
            && h in after.hosts && after.hosts[h] == st.hosts[h]
            && id in after.sandboxes && after.sandboxes[id] == st.sandboxes[id]
            && KeepsVolumes(st.volumes, after.volumes, id)
  {
    hide CheckHost, ApplyAll, Effects;
  }

  /** While host `h` is unreachable its missing and settled rows keep still, however many checks of this and other
      hosts run, whatever events are consumed, and whatever other hosts and other sandboxes' users do. */
  lemma {:induction false} UnreachableHostIsFrozen(st: State, ticks: seq<Tick>, h: HostId, id: SandboxId)
    requires h in st.hosts && st.hosts[h].status == Unreachable && AllSpare(st, ticks, h, id)
    requires id in st.sandboxes && st.sandboxes[id].host == h && Dormant(st.sandboxes[id])
    ensures var after := Ticks(st, ticks);
            && h in after.hosts && after.hosts[h] == st.hosts[h]
            && id in after.sandboxes && after.sandboxes[id] == st.sandboxes[id]
            && ((forall k :: 0 <= k < |ticks| ==> !Names(ticks[k], id)) ==> KeepsVolumes(st.volumes, after.volumes, id))
    decreases |ticks|
  {
    if ticks != [] {
      hide TickExec, Spares;
      TickKeepsDormant(st, ticks[0], h, id);
      UnreachableHostIsFrozen(TickExec(st, ticks[0]), ticks[1..], h, id);
    }
  }

  /** The whole story: the check at `down` finds the heartbeat stale, `ticks` happen, the host beats again
      at `beat` and is reconciled at `back` against `report`. */
  ghost function Outage(st: State, h: HostId, down: Time, ticks: seq<Tick>, beat: Time, back: Time,
                        report: seq<Entry>, gone: set<SandboxId>): State
  {
    var unreachable := CheckHost(st, h, None, {}, down);
    var beating := Exec(Ticks(unreachable, ticks), Heartbeat(h, beat));
    CheckHost(beating, h, Some(report), gone, back)
  }

  lemma Recover(st: State, h: HostId, beat: Time, back: Time, report: seq<Entry>, gone: set<SandboxId>, id: SandboxId)
    requires h in st.hosts && st.hosts[h].status == Unreachable && back - beat <= UNREACHABLE_AFTER
    requires id in st.sandboxes && st.sandboxes[id].host == h
    ensures var after := CheckHost(Exec(st, Heartbeat(h, beat)), h, Some(report), gone, back);
            var e := PassEffect(id, st.sandboxes[id], h, AliveOf(report), gone, back);
            && id in after.sandboxes && after.sandboxes[id] == Write(st.sandboxes[id], e, back)
            && (!e.frees ==> KeepsVolumes(st.volumes, after.volumes, id))
  {
    var beating := Exec(st, Heartbeat(h, beat));
    var alive := AliveOf(report);
    assert beating.sandboxes == st.sandboxes && beating.volumes == st.volumes;
    BeatingIsReconciled(st, h, beat, back, report, gone);
    AliveIsCoerced(report);
    hide *;
    PassIsOneRound(beating, h, alive, gone, back);
    RoundAt(beating, h, alive, gone, back, id);
  }

  lemma BeatingIsReconciled(st: State, h: HostId, beat: Time, back: Time, report: seq<Entry>, gone: set<SandboxId>)
    requires h in st.hosts && st.hosts[h].status == Unreachable && back - beat <= UNREACHABLE_AFTER
    ensures var beating := Exec(st, Heartbeat(h, beat));
            CheckHost(beating, h, Some(report), gone, back) == Run(beating, ActivePass(h, AliveOf(report), gone, back))
  {
    hide Run, ActivePass;
  }

  lemma RoundAt(st: State, h: HostId, alive: Alive, gone: set<SandboxId>, now: Time, id: SandboxId)
    requires id in st.sandboxes
    ensures var after := ApplyAll(st, PassEffects(st, h, alive, gone, now), now);
            var e := PassEffect(id, st.sandboxes[id], h, alive, gone, now);
            && id in after.sandboxes && after.sandboxes[id] == Write(st.sandboxes[id], e, now)
            && (!e.frees ==> KeepsVolumes(st.volumes, after.volumes, id))
  {
    hide PassEffect;
  }

  /** What a running row has become once the host is back. */
  function Recovered(seen: Alive, id: SandboxId): Status {
    if id !in seen then Stopped
    else if seen[id].None? then Missing
    else seen[id].value
  }

  lemma GoesDown(st: State, h: HostId, down: Time)
    requires h in st.hosts && st.hosts[h].status == Online && Stale(st.hosts[h], down)
    ensures var after := CheckHost(st, h, None, {}, down);
            && after.volumes == st.volumes
            && h in after.hosts && after.hosts[h].status == Unreachable
            && forall id :: id in st.sandboxes ==>
                 id in after.sandboxes && after.sandboxes[id] == MarkMissing(st.sandboxes[id], h, down)
  {
    RunOne(st, MarkDown(h, down));
  }

  lemma RecoveredRow(id: SandboxId, row: Sandbox, h: HostId, alive: Alive, gone: set<SandboxId>, now: Time)
    requires row.host == h && row.status in {Missing, Paused}
    ensures var e := PassEffect(id, row, h, alive, gone, now);
            && Write(row, e, now).host == h
            && (row.status == Paused ==> Write(row, e, now) == row && !e.frees)
            && (row.status == Missing ==> Write(row, e, now).status == Recovered(alive, id))
            && (row.status == Missing && id in alive ==> !e.frees)
  {
  }

  /** Outage then recovery, for every row of the host that was running or paused when the outage began:
      a paused row is untouched; a running row comes back with exactly the status its host reports (running if
      it kept running, paused if the host paused it meanwhile, stopped only if the host no longer has it);
      and as long as the host still has the sandbox and no event named it, its volumes are untouched. */
  lemma OutageThenRecovery(st: State, h: HostId, down: Time, ticks: seq<Tick>, beat: Time, back: Time,
                           report: seq<Entry>, gone: set<SandboxId>, id: SandboxId)
    requires h in st.hosts && st.hosts[h].status == Online && Stale(st.hosts[h], down)
    requires back - beat <= UNREACHABLE_AFTER
    requires id in st.sandboxes && st.sandboxes[id].host == h && st.sandboxes[id].status in {Running, Paused}
    requires AllSpare(CheckHost(st, h, None, {}, down), ticks, h, id)
    ensures var after := Outage(st, h, down, ticks, beat, back, report, gone);
            && id in after.sandboxes && after.sandboxes[id].host == h
            && (st.sandboxes[id].status == Paused ==> after.sandboxes[id] == st.sandboxes[id])
            && (st.sandboxes[id].status == Running ==> after.sandboxes[id].status == Recovered(AliveOf(report), id))
            && ((st.sandboxes[id].status == Paused || id in AliveOf(report))
                && (forall k :: 0 <= k < |ticks| ==> !Names(ticks[k], id)) ==>
                  KeepsVolumes(st.volumes, after.volumes, id))
  {
    var unreachable := CheckHost(st, h, None, {}, down);
    var back1 := Ticks(unreachable, ticks);
    var row := st.sandboxes[id];
    OutageUnfold(st, h, down, ticks, beat, back, report, gone);
    DownRow(row, h, down);
    hide *;
    var after := Outage(st, h, down, ticks, beat, back, report, gone);
    GoesDown(st, h, down);
    UnreachableHostIsFrozen(unreachable, ticks, h, id);
    Recover(back1, h, beat, back, report, gone, id);
    RecoveredRow(id, MarkMissing(row, h, down), h, AliveOf(report), gone, back);
    KeepsVolumesTwice(unreachable.volumes, back1.volumes, after.volumes, id);
  }

  lemma OutageUnfold(st: State, h: HostId, down: Time, ticks: seq<Tick>, beat: Time, back: Time,
                     report: seq<Entry>, gone: set<SandboxId>)
    ensures Outage(st, h, down, ticks, beat, back, report, gone)
         == CheckHost(Exec(Ticks(CheckHost(st, h, None, {}, down), ticks), Heartbeat(h, beat)), h, Some(report),
           gone, back)
  {
    hide CheckHost, Exec, Ticks;
  }

  lemma DownRow(row: Sandbox, h: HostId, down: Time)
    requires row.host == h && row.status in {Running, Paused}
    ensures var marked := MarkMissing(row, h, down);
            && marked.host == h && Dormant(marked)
            && (row.status == Running ==> marked.status == Missing)
            && (row.status == Paused ==> marked == row)
            && marked.status in {Missing, Paused}
  {
  }

  lemma KeepsVolumesTwice(a: Volumes.Rows, b: Volumes.Rows, c: Volumes.Rows, id: SandboxId)
    ensures KeepsVolumes(a, b, id) && KeepsVolumes(b, c, id) ==> KeepsVolumes(a, c, id)
  {
  }
}
