/** What each reconciliation step does to a row, in terms of the row and of what was reported or delivered alone. */
module StepTheorems {
  import opened Records
  import Volumes
  import opened Reconcile
  import opened ReconcileTheorems
  import opened RecoveryTheorems

  // ---- One sandbox before and after ----

  /** Sandbox `id` after a step: the status written, if any, what is appended to its logs, and whether the volumes it
      holds are given up. */
  ghost predicate Becomes(st: State, after: State, id: SandboxId, to: Option<Status>, rows: seq<AuditRow>,
                          events: seq<Event>, freed: bool, now: Time)
    requires id in st.sandboxes
  {
    && id in after.sandboxes
    && after.sandboxes[id]
       == (if to.Some? then Sandbox(st.sandboxes[id].host, to.value, Some(now)) else st.sandboxes[id])
    && after.audit[id] == st.audit[id] + rows
    && after.sent[id] == st.sent[id] + events
    && forall v :: v in st.volumes && st.volumes[v].sandbox == Some(id) ==>
         && v in after.volumes
         && after.volumes[v] == if freed && st.volumes[v].status in {Volumes.Attached, Volumes.Attaching}
              then st.volumes[v].(status := Volumes.Detached, sandbox := None, mountPath := "", lastUpdated := now)
              else st.volumes[v]
  }

  ghost predicate Untouched(st: State, after: State, id: SandboxId)
    requires id in st.sandboxes
  {
    && id in after.sandboxes && after.sandboxes[id] == st.sandboxes[id]
    && after.audit[id] == st.audit[id] && after.sent[id] == st.sent[id]
    && KeepsVolumes(st.volumes, after.volumes, id)
  }

  lemma UntouchedIsNothing(st: State, after: State, id: SandboxId, now: Time)
    requires id in st.sandboxes
    ensures Becomes(st, after, id, None, [], [], false, now) <==> Untouched(st, after, id)
  {
    assert st.audit[id] + [] == st.audit[id] && st.sent[id] + [] == st.sent[id];
  }

  lemma EffectBecomes(st: State, effs: map<SandboxId, Effect>, id: SandboxId, now: Time)
    requires id in st.sandboxes && id in effs
    ensures Becomes(st, ApplyAll(st, effs, now), id, effs[id].to, effs[id].rows, effs[id].events, effs[id].frees, now)
  {
  }

  lemma PhaseBecomes(st: State, s: Step, id: SandboxId)
    requires MonitorPhase(s) && id in st.sandboxes
    ensures var e := EffectOn(id, st.sandboxes[id], s);
            Becomes(st, Exec(st, s), id, e.to, e.rows, e.events, e.frees, s.now)
  {
    hide EffectOn, ApplyAll, Becomes, Exec;
    ExecReconciles(st, s);
    EffectBecomes(st, Effects(st, s), id, s.now);
  }

  // ---- The transient phase ----

  const TRANSIENT := {Starting, Resuming, Pausing, Stopping, Snapshotting}

  predicate Aged(row: Sandbox, age: Time, now: Time) {
    row.lastUpdated.Some? && now - row.lastUpdated.value >= age
  }

  /** The status inferred for a sandbox that its host no longer has. */
  function Settled(status: Status): Status {
    if status == Pausing then Paused else if status == Stopping then Stopped else Error
  }

  function SettledRow(status: Status): AuditRow {
    match status
    case Pausing => AuditRow(PauseRow, Info, TransientTimeoutInferred)
    case Stopping => AuditRow(DestroyRow, Warning, TransientTimeoutInferred)
    case Snapshotting => AuditRow(SnapshotRow, Failed, TransientTimeout)
    case _ => AuditRow(ErrorRow, Failed, TransientTimeout)
  }

  function SettledEvents(id: SandboxId, status: Status): seq<Event> {
    match status
    case Pausing => [Event(Pause, Success, System, Some(id), TransientTimeoutInferred)]
    case Stopping => [Event(Destroy, Success, System, Some(id), TransientTimeoutInferred)]
    case Starting => [Event(Create, Failure, System, Some(id), TransientTimeout)]
    case Resuming => [Event(Resume, Failure, System, Some(id), TransientTimeout)]
    case _ => []
  }

  /** A transient row whose sandbox is missing from the report is left alone exactly while it is younger than two
      minutes; a row without a timestamp has no such grace. Otherwise it is settled, announced and, unless it is
      inferred paused, its volumes are freed. */
  lemma TransientAbsentIff(st: State, h: HostId, alive: Alive, gone: set<SandboxId>, now: Time, id: SandboxId)
    requires id in st.sandboxes && st.sandboxes[id].host == h && st.sandboxes[id].status in TRANSIENT && id !in alive
    ensures var row, after := st.sandboxes[id], Exec(st, Transient(h, alive, gone, now));
            var young := row.lastUpdated.Some? && now - row.lastUpdated.value < 2 * MINUTE;
            && id in after.sandboxes
            && (after.sandboxes[id] == row <==> young)
            && (young ==> Untouched(st, after, id))
            && (!young ==> Becomes(st, after, id, Some(Settled(row.status)), [SettledRow(row.status)],
                                   SettledEvents(id, row.status), row.status != Pausing, now))
  {
    AbsentEffect(id, st.sandboxes[id], h, alive, gone, now);
    hide TransientEffect, SettledRow, SettledEvents, Exec, Becomes, Untouched;
    TransientBecomes(st, h, alive, gone, now, id);
    if st.sandboxes[id].lastUpdated.None? || now - st.sandboxes[id].lastUpdated.value >= 2 * MINUTE {
      BecomesRow(st, Exec(st, Transient(h, alive, gone, now)), id, Some(Settled(st.sandboxes[id].status)),
                 [SettledRow(st.sandboxes[id].status)], SettledEvents(id, st.sandboxes[id].status),
                 st.sandboxes[id].status != Pausing, now);
    } else {
      UntouchedRow(st, Exec(st, Transient(h, alive, gone, now)), id);
    }
  }

  lemma AbsentEffect(id: SandboxId, row: Sandbox, h: HostId, alive: Alive, gone: set<SandboxId>, now: Time)
    requires row.host == h && row.status in TRANSIENT && id !in alive
    ensures TransientEffect(id, row, h, alive, gone, now)
         == if row.lastUpdated.Some? && now - row.lastUpdated.value < 2 * MINUTE then NOTHING
            else Effect(Some(Settled(row.status)), [SettledRow(row.status)], SettledEvents(id, row.status),
                        row.status != Pausing)
  {
  }

  lemma TransientBecomes(st: State, h: HostId, alive: Alive, gone: set<SandboxId>, now: Time, id: SandboxId)
    requires id in st.sandboxes
    ensures var e := TransientEffect(id, st.sandboxes[id], h, alive, gone, now);
            var after := Exec(st, Transient(h, alive, gone, now));
            && Becomes(st, after, id, e.to, e.rows, e.events, e.frees, now)
            && (e == NOTHING ==> Untouched(st, after, id))
  {
    hide TransientEffect, Exec, Becomes, Untouched;
    var s := Transient(h, alive, gone, now);
    PhaseBecomes(st, s, id);
    UntouchedIsNothing(st, Exec(st, s), id, now);
  }

  lemma BecomesRow(st: State, after: State, id: SandboxId, to: Option<Status>, rows: seq<AuditRow>,
                   events: seq<Event>, freed: bool, now: Time)
    requires id in st.sandboxes && Becomes(st, after, id, to, rows, events, freed, now)
    ensures id in after.sandboxes
    ensures to.Some? && to.value != st.sandboxes[id].status ==> after.sandboxes[id] != st.sandboxes[id]
  {
  }

  lemma UntouchedRow(st: State, after: State, id: SandboxId)
    requires id in st.sandboxes && Untouched(st, after, id)
    ensures id in after.sandboxes && after.sandboxes[id] == st.sandboxes[id]
  {
  }

  /** A transient row whose sandbox is in the report: starting and resuming become running at once; stopping is stopped
      exactly when it is two minutes old and the repeated destroy finds the sandbox gone; snapshotting returns to the
      reported state exactly when it is fifteen minutes old; pausing is left alone. */
  lemma TransientAliveIff(st: State, h: HostId, alive: Alive, gone: set<SandboxId>, now: Time, id: SandboxId)
    requires id in st.sandboxes && st.sandboxes[id].host == h && st.sandboxes[id].status in TRANSIENT && id in alive
    ensures var row, after := st.sandboxes[id], Exec(st, Transient(h, alive, gone, now));
            && id in after.sandboxes
            && (after.sandboxes[id] != row <==>
                  || row.status in {Starting, Resuming}
                  || (row.status == Stopping && Aged(row, 2 * MINUTE, now) && id in gone)
                  || (row.status == Snapshotting && Aged(row, 15 * MINUTE, now)))
            && (after.sandboxes[id] == row ==> Untouched(st, after, id))
            && (after.sandboxes[id] != row ==>
                  match row.status
                  case Stopping =>
                    Becomes(st, after, id, Some(Stopped), [AuditRow(DestroyRow, Warning, DestroyRetry)],
                            [Event(Destroy, Success, System, Some(id), DestroyRetry)], true, now)
                  case Snapshotting =>
                    Becomes(st, after, id, Some(if alive[id] == Some(Paused) then Paused else Running),
                            [AuditRow(SnapshotRow, Info, SnapshotRecovered)], [], false, now)
                  case _ => Becomes(st, after, id, Some(Running), [], [], false, now))
  {
    var row, after := st.sandboxes[id], Exec(st, Transient(h, alive, gone, now));
    var e := TransientEffect(id, row, h, alive, gone, now);
    AliveEffect(id, row, h, alive, gone, now);
    hide TransientEffect, Exec, Becomes, Untouched;
    TransientBecomes(st, h, alive, gone, now, id);
    BecomesRow(st, after, id, e.to, e.rows, e.events, e.frees, now);
    if e == NOTHING {
      UntouchedRow(st, after, id);
    }
  }

  lemma AliveEffect(id: SandboxId, row: Sandbox, h: HostId, alive: Alive, gone: set<SandboxId>, now: Time)
    requires row.host == h && row.status in TRANSIENT && id in alive
    ensures TransientEffect(id, row, h, alive, gone, now)
         == if row.status in {Starting, Resuming} then Effect(Some(Running), [], [], false)
            else if row.status == Stopping && Aged(row, 2 * MINUTE, now) && id in gone
            then Effect(Some(Stopped), [AuditRow(DestroyRow, Warning, DestroyRetry)],
                        [Event(Destroy, Success, System, Some(id), DestroyRetry)], true)
            else if row.status == Snapshotting && Aged(row, 15 * MINUTE, now)
            then Effect(Some(if alive[id] == Some(Paused) then Paused else Running),
                        [AuditRow(SnapshotRow, Info, SnapshotRecovered)], [], false)
            else NOTHING
  {
  }

  // ---- A whole pass ----

  /** Entry `i` is the last one of the report for `id`. */
  predicate LastEntry(report: seq<Entry>, id: SandboxId, i: int) {
    0 <= i < |report| && report[i].id == id && forall j :: i < j < |report| ==> report[j].id != id
  }

  /** What is taken from a report: a sandbox is present exactly when it is listed, and its last entry decides; the four
      transient labels and the empty one say no more than that. */
  lemma {:induction false} AliveMeaning(report: seq<Entry>, id: SandboxId)
    ensures id in AliveOf(report) <==> exists i :: LastEntry(report, id, i)
    ensures forall i :: LastEntry(report, id, i) ==>
              AliveOf(report)[id]
              == if report[i].reported in {Pausing, Resuming, Starting, Stopping, Other("")} then None
                 else Some(report[i].reported)
  {
    if report == [] {
      return;
    }
    var front, last := report[..|report| - 1], |report| - 1;
    AliveMeaning(front, id);
    if report[last].id == id {
      assert LastEntry(report, id, last);
    } else {
      assert forall i :: LastEntry(front, id, i) <==> LastEntry(report, id, i);
    }
  }

  /** One whole pass, row by row: another host's row and a settled row that is no zombie are left alone; a missing or
      running row is stopped if its sandbox is gone and otherwise takes the reported label. */
  lemma PassOutcome(st: State, h: HostId, report: seq<Entry>, gone: set<SandboxId>, now: Time, id: SandboxId)
    requires id in st.sandboxes && st.sandboxes[id].status !in TRANSIENT
    ensures var row, seen := st.sandboxes[id], AliveOf(report);
            var after := Run(st, ActivePass(h, seen, gone, now));
            if row.host != h then Untouched(st, after, id)
            else if row.status == Stopped then
              if id in seen && seen[id] == Some(Paused) && id in gone
              then Becomes(st, after, id, None, [AuditRow(DestroyRow, Warning, PausedZombieCleanup)],
                           [Event(Destroy, Success, System, Some(id), PausedZombieCleanup)], false, now)
              else Untouched(st, after, id)
            else if row.status !in {Missing, Running} then Untouched(st, after, id)
            else if id !in seen
            then Becomes(st, after, id, Some(Stopped), [AuditRow(DestroyRow, Warning, Orphaned)],
                         [Event(Destroy, Success, System, Some(id), Orphaned)], true, now)
            else if seen[id] in {None, Some(row.status)} && (seen[id].None? || row.status == Running)
            then Untouched(st, after, id)
            else if seen[id] == Some(Paused)
            then
              var why := if row.status == Missing then RestoredAfterHostRecovery else HostStateSync;
              Becomes(st, after, id, Some(Paused), [AuditRow(PauseRow, Info, why)],
                      [Event(Pause, Success, System, Some(id), why)], false, now)
            else Becomes(st, after, id, seen[id], [], [], false, now)
  {
    hide Run, Untouched, Becomes, AliveOf, ActivePass;
    PassBecomes(st, h, report, gone, now, id);
  }

  lemma PassBecomes(st: State, h: HostId, report: seq<Entry>, gone: set<SandboxId>, now: Time, id: SandboxId)
    requires id in st.sandboxes
    ensures var e := PassEffect(id, st.sandboxes[id], h, AliveOf(report), gone, now);
            var after := Run(st, ActivePass(h, AliveOf(report), gone, now));
            && Becomes(st, after, id, e.to, e.rows, e.events, e.frees, now)
            && (e == NOTHING ==> Untouched(st, after, id))
  {
    hide Run, ApplyAll, Untouched, Becomes, AliveOf, ActivePass, PassEffect;
    var effs := PassEffects(st, h, AliveOf(report), gone, now);
    AliveIsCoerced(report);
    PassIsOneRound(st, h, AliveOf(report), gone, now);
    EffectBecomes(st, effs, id, now);
    UntouchedIsNothing(st, ApplyAll(st, effs, now), id, now);
  }

  /** A transient row of the host meets only the transient phase. */
  lemma PassLeavesTransientToItsPhase(st: State, h: HostId, report: seq<Entry>, gone: set<SandboxId>, now: Time,
                                      id: SandboxId)
    requires id in st.sandboxes && st.sandboxes[id].status in TRANSIENT
    ensures var seen := AliveOf(report);
            var one, all := Exec(st, Transient(h, seen, gone, now)), Run(st, ActivePass(h, seen, gone, now));
            && id in one.sandboxes && id in all.sandboxes && all.sandboxes[id] == one.sandboxes[id]
            && all.audit[id] == one.audit[id] && all.sent[id] == one.sent[id]
            && (st.sandboxes[id].host != h ==> Untouched(st, all, id))
  {
    var s := Transient(h, AliveOf(report), gone, now);
    assert PassEffect(id, st.sandboxes[id], h, s.alive, gone, now) == EffectOn(id, st.sandboxes[id], s);
    assert st.sandboxes[id].host != h ==> EffectOn(id, st.sandboxes[id], s) == NOTHING;
    hide Run, Exec, Untouched, AliveOf, ActivePass, PassEffect, EffectOn;
    PassBecomes(st, h, report, gone, now, id);
    PhaseBecomes(st, s, id);
  }

  // ---- Checks, outages and heartbeats ----

  /** What one check of a host does: it marks the host down exactly when its last heartbeat is more than ninety seconds
      old, or there never was one, and it is not marked already; otherwise it reconciles exactly when the host is online
      and answers. */
  lemma CheckDecides(st: State, h: HostId, report: Option<seq<Entry>>, gone: set<SandboxId>, now: Time)
    requires h in st.hosts
    ensures var host := st.hosts[h];
            var silent := host.heartbeat.Some? ==> now - host.heartbeat.value > 90 * SECOND;
            CheckHost(st, h, report, gone, now)
            == if silent && host.status != Unreachable then Exec(st, MarkDown(h, now))
               else if host.status == Online && report.Some? then
                 Run(st, ActivePass(h, AliveOf(report.value), gone, now))
               else st
  {
    RunOne(st, MarkDown(h, now));
    hide Exec, ActivePass, AliveOf;
  }

  /** Marking a host down: the host becomes unreachable; of its rows exactly the running, starting, pending, pausing,
      resuming and stopping ones become missing; nothing else changes. */
  lemma MarkDownOutcome(st: State, h: HostId, now: Time)
    requires h in st.hosts
    ensures var after := Exec(st, MarkDown(h, now));
            && after.hosts == st.hosts[h := Host(Unreachable, st.hosts[h].heartbeat)]
            && after.volumes == st.volumes && after.audit == st.audit && after.sent == st.sent
            && after.sandboxes.Keys == st.sandboxes.Keys
            && forall id :: id in st.sandboxes ==>
                 && (after.sandboxes[id].status == Missing <==>
                       || st.sandboxes[id].status == Missing
                       || (st.sandboxes[id].host == h
                           && st.sandboxes[id].status in {Running, Starting, Pending, Pausing, Resuming, Stopping}))
                 && (after.sandboxes[id] == st.sandboxes[id] || after.sandboxes[id] == Sandbox(h, Missing, Some(now)))
                 && (st.sandboxes[id].status == Missing ==> after.sandboxes[id] == st.sandboxes[id])
  {
    hide ApplyAll, Effects;
  }

  /** A heartbeat: the time is taken, an unreachable host is online again, and nothing else changes. */
  lemma HeartbeatOutcome(st: State, h: HostId, now: Time)
    ensures var after := Exec(st, Heartbeat(h, now));
            && after == st.(hosts := after.hosts) && after.hosts.Keys == st.hosts.Keys
            && (forall g :: g in st.hosts && g != h ==> after.hosts[g] == st.hosts[g])
            && (h in st.hosts ==>
                  && after.hosts[h].heartbeat == Some(now)
                  && (st.hosts[h].status == Unreachable ==> after.hosts[h].status == Online)
                  && (st.hosts[h].status != Unreachable ==> after.hosts[h].status == st.hosts[h].status))
  {
    hide ApplyAll, Effects;
  }

  // ---- Consumed events ----

  /** The state with one sandbox's row replaced. */
  ghost function Rewritten(st: State, id: SandboxId, to: Status, now: Time): State
    requires id in st.sandboxes
  {
    st.(sandboxes := st.sandboxes[id := Sandbox(st.sandboxes[id].host, to, Some(now))])
  }

  /** The log with more appended for one sandbox. */
  ghost function Appended<T>(log: Log<T>, id: SandboxId, more: seq<T>): Log<T> {
    log[id := log[id] + more]
  }

  lemma DeliverOne(st: State, e: Event, now: Time, id: SandboxId)
    requires Relevant(e) && e.sandbox == Some(id)
    ensures var x := HandlerEffect(RowAt(st.sandboxes, id), e);
            Exec(st, Deliver(e, now))
            == State(st.hosts,
                     if id in st.sandboxes then st.sandboxes[id := Write(st.sandboxes[id], x, now)] else st.sandboxes,
                     if x.frees then FreeVolumes(st.volumes, {id}, now) else st.volumes,
                     Appended(st.audit, id, x.rows),
                     Appended(st.sent, id, x.events))
  {
    var effs := Effects(st, Deliver(e, now));
    var x := HandlerEffect(RowAt(st.sandboxes, id), e);
    assert id in effs && effs[id] == x && forall other :: other in effs && other != id ==> effs[other] == NOTHING;
    hide Effects, HandlerEffect, Exec;
    DeliverIsApply(st, e, now);
    OwnFrees(st.volumes, effs, id, now);
    OneRow(st.sandboxes, effs, id, now);
    OneLog(st, effs, id);
    hide WriteAll, FreeVolumes, AppendRows, AppendEvents, Freed, Appended;
  }

  lemma OneRow(rows: map<SandboxId, Sandbox>, effs: map<SandboxId, Effect>, id: SandboxId, now: Time)
    requires id in effs && forall other :: other in effs && other != id ==> effs[other] == NOTHING
    ensures WriteAll(rows, effs, now) == if id in rows then rows[id := Write(rows[id], effs[id], now)] else rows
  {
  }

  lemma OneLog(st: State, effs: map<SandboxId, Effect>, id: SandboxId)
    requires id in effs && forall other :: other in effs && other != id ==> effs[other] == NOTHING
    ensures AppendRows(st.audit, effs) == Appended(st.audit, id, effs[id].rows)
    ensures AppendEvents(st.sent, effs) == Appended(st.sent, id, effs[id].events)
  {
    forall other | other != id
      ensures AppendRows(st.audit, effs)[other] == st.audit[other]
      ensures AppendEvents(st.sent, effs)[other] == st.sent[other]
    {
      assert st.audit[other] + [] == st.audit[other] && st.sent[other] + [] == st.sent[other];
    }
  }

  lemma SameLogs(st: State, id: SandboxId)
    ensures Appended(st.audit, id, []) == st.audit && Appended(st.sent, id, []) == st.sent
  {
    assert st.audit[id] + [] == st.audit[id] && st.sent[id] + [] == st.sent[id];
  }

  /** A create confirmed by the host moves exactly a starting row to running, a resume exactly a resuming one; any other
      row, and everything else, is left alone. */
  lemma ConfirmedStart(st: State, e: Event, now: Time, id: SandboxId)
    requires e.kind in {Create, Resume} && e.outcome == Success && e.actor == System && e.sandbox == Some(id)
    ensures Exec(st, Deliver(e, now))
         == if InStatus(st, id, {if e.kind == Create then Starting else Resuming}) then Rewritten(st, id, Running, now)
            else st
  {
    DeliverOne(st, e, now, id);
    SameLogs(st, id);
    hide Exec, Appended;
    if id in st.sandboxes && !InStatus(st, id, {if e.kind == Create then Starting else Resuming}) {
      assert st.sandboxes[id := st.sandboxes[id]] == st.sandboxes;
    }
  }

  const ABLE_TO_FAIL := {Running, Starting, Pausing, Resuming, Snapshotting}

  /** A failed create or resume puts the row in error from exactly five statuses, gives up the volumes of the sandbox in
      any case, and adds exactly one audit row, unless it is the monitor's own timeout, which has been recorded. */
  lemma FailedStart(st: State, e: Event, now: Time, id: SandboxId)
    requires e.kind in {Create, Resume} && e.outcome != Success && e.actor == System && e.sandbox == Some(id)
    ensures var after := Exec(st, Deliver(e, now));
            var row := AuditRow(ErrorRow, Failed, if e.reason != NoReason then e.reason
                                                  else if e.kind == Create then CreateFailed else ResumeFailed);
            && after.hosts == st.hosts && after.sent == st.sent
            && after.sandboxes == (if InStatus(st, id, ABLE_TO_FAIL) then Rewritten(st, id, Error, now).sandboxes
                                   else st.sandboxes)
            && after.volumes == Volumes.Exec(st.volumes, Volumes.DetachBySandboxes({id}), now)
            && after.audit == (if e.reason == TransientTimeout then st.audit else Appended(st.audit, id, [row]))
  {
    DeliverOne(st, e, now, id);
    SameLogs(st, id);
    FreeVolumesIsStatement(st.volumes, {id}, now);
    hide Exec, Appended;
    if id in st.sandboxes && !InStatus(st, id, ABLE_TO_FAIL) {
      assert st.sandboxes[id := st.sandboxes[id]] == st.sandboxes;
    }
  }

  /** A confirmed pause moves exactly a running or pausing row to paused and then adds exactly one audit row. */
  lemma ConfirmedPause(st: State, e: Event, now: Time, id: SandboxId)
    requires e.kind == Pause && e.outcome == Success && e.actor == System && e.sandbox == Some(id)
    ensures var row := AuditRow(PauseRow, Info, if e.reason == NoReason then TtlExpired else e.reason);
            Exec(st, Deliver(e, now))
            == if InStatus(st, id, {Running, Pausing})
               then Rewritten(st, id, Paused, now).(audit := Appended(st.audit, id, [row])) else st
  {
    DeliverOne(st, e, now, id);
    SameLogs(st, id);
    hide Exec, Appended;
    if id in st.sandboxes && !InStatus(st, id, {Running, Pausing}) {
      assert st.sandboxes[id := st.sandboxes[id]] == st.sandboxes;
    }
  }

  /** A confirmed destroy gives up the volumes in any case and stops exactly a stopping or running row. */
  lemma ConfirmedDestroy(st: State, e: Event, now: Time, id: SandboxId)
    requires e.kind == Destroy && e.outcome == Success && e.actor == System && e.sandbox == Some(id)
    ensures var freed := st.(volumes := Volumes.Exec(st.volumes, Volumes.DetachBySandboxes({id}), now));
            Exec(st, Deliver(e, now))
            == if InStatus(st, id, {Stopping, Running}) then Rewritten(freed, id, Stopped, now) else freed
  {
    DeliverOne(st, e, now, id);
    SameLogs(st, id);
    FreeVolumesIsStatement(st.volumes, {id}, now);
    hide Exec, Appended;
    if id in st.sandboxes && !InStatus(st, id, {Stopping, Running}) {
      assert st.sandboxes[id := st.sandboxes[id]] == st.sandboxes;
    }
  }

  /** Every other event changes nothing: other kinds, other actors, no sandbox, and a pause or destroy that did not
      succeed. */
  lemma OtherEventsChangeNothing(st: State, e: Event, now: Time)
    requires || e.kind == OtherKind || e.actor != System || e.sandbox.None?
             || (e.kind in {Pause, Destroy} && e.outcome != Success)
    ensures Exec(st, Deliver(e, now)) == st
  {
    ApplyNothing(st, Effects(st, Deliver(e, now)), now);
  }
}
