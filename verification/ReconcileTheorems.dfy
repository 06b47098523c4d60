/** What every interleaving of the reconciliation protocol keeps. */
module ReconcileTheorems {
  import opened Records
  import Volumes
  import opened Reconcile

  // ---- Looking at one sandbox ----

  lemma EffectsAt(st: State, s: Step, id: SandboxId)
    requires Reconciles(s) && id in st.sandboxes
    ensures var e := EffectOn(id, st.sandboxes[id], s);
            if id in Effects(st, s) then Effects(st, s)[id] == e else e == NOTHING
  {
  }

  lemma ApplyRow(st: State, effs: map<SandboxId, Effect>, now: Time, id: SandboxId, e: Effect)
    requires id in st.sandboxes && if id in effs then effs[id] == e else e == NOTHING
    ensures id in ApplyAll(st, effs, now).sandboxes
    ensures ApplyAll(st, effs, now).sandboxes[id] == Write(st.sandboxes[id], e, now)
    ensures ApplyAll(st, effs, now).audit[id] == st.audit[id] + e.rows
    ensures ApplyAll(st, effs, now).sent[id] == st.sent[id] + e.events
  {
  }

  lemma ExecReconciles(st: State, s: Step)
    requires Reconciles(s)
    ensures Exec(st, s) == ApplyAll(st, Effects(st, s), s.now)
  {
  }

  /** A reconciler step changes a sandbox's row and logs by that sandbox's own effect. */
  lemma ExecOne(st: State, s: Step, id: SandboxId)
    requires Reconciles(s) && id in st.sandboxes
    ensures id in Exec(st, s).sandboxes
    ensures Exec(st, s).sandboxes[id] == Write(st.sandboxes[id], EffectOn(id, st.sandboxes[id], s), s.now)
    ensures Exec(st, s).audit[id] == st.audit[id] + EffectOn(id, st.sandboxes[id], s).rows
    ensures Exec(st, s).sent[id] == st.sent[id] + EffectOn(id, st.sandboxes[id], s).events
  {
    assert !s.Users?;
    hide *;
    ExecReconciles(st, s);
    EffectsAt(st, s, id);
    ApplyRow(st, Effects(st, s), s.now, id, EffectOn(id, st.sandboxes[id], s));
  }

  // ---- Every write descends ----

  function Rank(s: Status): nat {
    match s
    case Running => 1
    case Paused => 0
    case Stopped => 0
    case Error => 0
    case _ => 2
  }

  function RankOf(st: State, id: SandboxId): nat {
    if id in st.sandboxes then Rank(st.sandboxes[id].status) else 0
  }

  predicate SettledLabel(s: Status) {
    s in {Running, Paused, Stopped, Error}
  }

  /** The labels of the report that reach the database name settled statuses. */
  predicate SettledStep(s: Step) {
    s.Restore? || s.Sync? ==>
      forall id :: id in s.alive && s.alive[id].Some? ==> SettledLabel(s.alive[id].value)
  }

  lemma WritesDescend(id: SandboxId, row: Sandbox, s: Step)
    requires Reconciles(s) && SettledStep(s)
    ensures EffectOn(id, row, s).to.Some? ==> Rank(EffectOn(id, row, s).to.value) < Rank(row.status)
  {
  }

  /** The rows that a label-copying phase lists. */
  predicate Listed(row: Sandbox, s: Step)
    requires s.Restore? || s.Sync?
  {
    row.host == s.h && row.status == if s.Restore? then Missing else Running
  }

  /** The two phases that copy labels into the database descend on every row exactly when the
      report gives no unsettled label to a row of the phase. */
  lemma LabelPhaseDescendsIff(st: State, s: Step)
    requires s.Restore? || s.Sync?
    ensures (forall id :: id in st.sandboxes && EffectOn(id, st.sandboxes[id], s).to.Some? ==>
               Rank(EffectOn(id, st.sandboxes[id], s).to.value) < Rank(st.sandboxes[id].status))
       <==> (forall id :: id in st.sandboxes && Listed(st.sandboxes[id], s) && id in s.alive && s.alive[id].Some? ==>
               SettledLabel(s.alive[id].value))
  {
    forall id | id in st.sandboxes
      ensures (EffectOn(id, st.sandboxes[id], s).to.Some? ==>
                 Rank(EffectOn(id, st.sandboxes[id], s).to.value) < Rank(st.sandboxes[id].status))
         <==> (Listed(st.sandboxes[id], s) && id in s.alive && s.alive[id].Some? ==>
                 SettledLabel(s.alive[id].value))
    {
    }
  }

  /** The database with one sandbox and nothing else. */
  ghost function OneSandbox(id: SandboxId, row: Sandbox): State {
    State(map[], map[id := row], map[], imap i: SandboxId :: RowsOf(map[], i), imap i: SandboxId :: EventsOf(map[], i))
  }

  /** A running sandbox reported snapshotting is moved up to that label. */
  lemma SnapshottingLabelRaises(id: SandboxId, h: HostId, now: Time)
    ensures var row := Sandbox(h, Running, None);
            var e := EffectOn(id, row, Sync(h, AliveOf([Entry(id, Snapshotting)]), now));
            e.to == Some(Snapshotting) && Rank(Snapshotting) > Rank(row.status)
  {
    OneEntry(id, Snapshotting);
  }

  lemma OneEntry(id: SandboxId, reported: Status)
    ensures AliveOf([Entry(id, reported)]) == map[id := Coerce(reported)]
  {
    assert [Entry(id, reported)][..0] == [];
  }

  /** Status writes by monitor and consumer to sandbox `id` during a run. */
  ghost function WritesTo(st: State, run: seq<Step>, id: SandboxId): nat
    decreases |run|
  {
    if run == [] then 0
    else (if Reconciles(run[0]) && id in st.sandboxes && EffectOn(id, st.sandboxes[id], run[0]).to.Some? then 1 else 0)
         + WritesTo(Exec(st, run[0]), run[1..], id)
  }

  function RowAt(rows: map<SandboxId, Sandbox>, id: SandboxId): Option<Sandbox> {
    if id in rows then Some(rows[id]) else None
  }

  /** A user operation that changes the row of `id`, which includes inserting or deleting it. */
  predicate ActsOn(st: State, s: Step, id: SandboxId) {
    s.Users? && RowAt(s.sandboxes, id) != RowAt(st.sandboxes, id)
  }

  /** What may raise the row's rank again: a user operation on the row, or an outage marking that reaches it. */
  predicate Disturbs(st: State, s: Step, id: SandboxId) {
    || ActsOn(st, s, id)
    || (s.MarkDown? && id in st.sandboxes && MarkMissing(st.sandboxes[id], s.h, s.now) != st.sandboxes[id])
  }

  ghost function Disturbances(st: State, run: seq<Step>, id: SandboxId): nat
    decreases |run|
  {
    if run == [] then 0
    else (if Disturbs(st, run[0], id) then 1 else 0) + Disturbances(Exec(st, run[0]), run[1..], id)
  }

  lemma StepSpendsRank(st: State, s: Step, id: SandboxId)
    requires SettledStep(s)
    ensures (if Reconciles(s) && id in st.sandboxes && EffectOn(id, st.sandboxes[id], s).to.Some? then 1 else 0)
            + RankOf(Exec(st, s), id) <= RankOf(st, id) + (if Disturbs(st, s, id) then 2 else 0)
  {
    if Reconciles(s) && id in st.sandboxes {
      hide Exec, EffectOn;
      ExecOne(st, s, id);
      WritesDescend(id, st.sandboxes[id], s);
    }
  }

  /** Over any interleaving, monitor and consumer write a row at most twice between disturbances of that row; what
      happens to other sandboxes and other hosts does not matter. */
  lemma {:induction false} WritesAreBounded(st: State, run: seq<Step>, id: SandboxId)
    requires forall k :: 0 <= k < |run| ==> SettledStep(run[k])
    ensures WritesTo(st, run, id) + RankOf(Run(st, run), id) <= RankOf(st, id) + 2 * Disturbances(st, run, id)
    decreases |run|
  {
    if run != [] {
      hide Exec, EffectOn, RankOf, Disturbs;
      var s := run[0];
      WritesAreBounded(Exec(st, s), run[1..], id);
      StepSpendsRank(st, s, id);
    }
  }

  predicate Terminal(s: Status) {
    s in {Paused, Stopped, Error}
  }

  lemma TerminalRowUntouched(id: SandboxId, row: Sandbox, s: Step)
    requires Reconciles(s) && Terminal(row.status)
    ensures EffectOn(id, row, s).to.None?
  {
  }

  lemma TerminalRowKept(st: State, s: Step, id: SandboxId)
    requires id in st.sandboxes && Terminal(st.sandboxes[id].status) && !ActsOn(st, s, id)
    ensures id in Exec(st, s).sandboxes && Exec(st, s).sandboxes[id] == st.sandboxes[id]
  {
    if Reconciles(s) {
      hide Exec;
      ExecOne(st, s, id);
      TerminalRowUntouched(id, st.sandboxes[id], s);
    }
  }

  /** No user operation of the run changes the row of `id`. */
  ghost predicate LeftAlone(st: State, run: seq<Step>, id: SandboxId)
    decreases |run|
  {
    run == [] || (!ActsOn(st, run[0], id) && LeftAlone(Exec(st, run[0]), run[1..], id))
  }

  /** Until a user acts on it, a paused, stopped or errored row is never left, whatever the hosts report, whatever is
      delivered and whatever users do elsewhere. */
  lemma {:induction false} SettledRowsNeverLeft(st: State, run: seq<Step>, id: SandboxId)
    requires id in st.sandboxes && Terminal(st.sandboxes[id].status) && LeftAlone(st, run, id)
    ensures id in Run(st, run).sandboxes && Run(st, run).sandboxes[id] == st.sandboxes[id]
    decreases |run|
  {
    hide Exec, ActsOn;
    if run != [] {
      TerminalRowKept(st, run[0], id);
      SettledRowsNeverLeft(Exec(st, run[0]), run[1..], id);
    }
  }

  // ---- Audit rows ----

  function PauseRows(rows: seq<AuditRow>): nat {
    if rows == [] then 0
    else (if rows[|rows| - 1].action == PauseRow then 1 else 0) + PauseRows(rows[..|rows| - 1])
  }

  lemma {:induction false} PauseRowsAdd(a: seq<AuditRow>, b: seq<AuditRow>)
    ensures PauseRows(a + b) == PauseRows(a) + PauseRows(b)
    decreases |b|
  {
    if b == [] {
      assert a + b == a;
    } else {
      assert (a + b)[..|a + b| - 1] == a + b[..|b| - 1];
      PauseRowsAdd(a, b[..|b| - 1]);
    }
  }

  /** Step `s` moves the sandbox into paused, other than by recovering a stuck snapshot. */
  ghost predicate Flips(st: State, s: Step, id: SandboxId) {
    && Reconciles(s)
    && id in st.sandboxes && st.sandboxes[id].status in {Running, Pausing, Missing}
    && id in Exec(st, s).sandboxes && Exec(st, s).sandboxes[id].status == Paused
  }

  lemma FlipsIff(st: State, s: Step, id: SandboxId)
    requires Reconciles(s) && id in st.sandboxes
    ensures Flips(st, s, id) <==>
            (st.sandboxes[id].status in {Running, Pausing, Missing}
            && EffectOn(id, st.sandboxes[id], s).to == Some(Paused))
  {
    ExecOne(st, s, id);
  }

  ghost function FlipCount(st: State, run: seq<Step>, id: SandboxId): nat
    decreases |run|
  {
    if run == [] then 0
    else (if Flips(st, run[0], id) then 1 else 0) + FlipCount(Exec(st, run[0]), run[1..], id)
  }

  /** A pause row is written exactly for a move into paused from running, pausing or missing. */
  lemma PauseRowIffFlip(id: SandboxId, row: Sandbox, s: Step)
    requires Reconciles(s)
    ensures var e := EffectOn(id, row, s);
            && |e.rows| <= 1
            && ((e.rows != [] && e.rows[0].action == PauseRow)
                <==> (row.status in {Running, Pausing, Missing} && e.to == Some(Paused)))
  {
  }

  lemma NoPauseRowWithoutSandbox(st: State, s: Step, id: SandboxId)
    requires Reconciles(s) && id !in st.sandboxes
    ensures PauseRows(Exec(st, s).audit[id]) == PauseRows(st.audit[id])
  {
    hide HandlerEffect, EffectOn;
    var added := RowsOf(Effects(st, s), id);
    assert Exec(st, s).audit[id] == st.audit[id] + added;
    PauseRowsAdd(st.audit[id], added);
    assert PauseRows([]) == 0;
    if added != [] {
      UnknownSandboxRows(s.event);
    }
  }

  lemma UnknownSandboxRows(e: Event)
    ensures PauseRows(HandlerEffect(None, e).rows) == 0
  {
    var rows := HandlerEffect(None, e).rows;
    if rows != [] {
      assert rows[..|rows| - 1] == [];
    }
  }

  lemma PauseRowPerFlip(st: State, s: Step, id: SandboxId)
    ensures PauseRows(Exec(st, s).audit[id]) == PauseRows(st.audit[id]) + (if Flips(st, s, id) then 1 else 0)
  {
    if Reconciles(s) {
      if id in st.sandboxes {
        ExecOne(st, s, id);
        PauseRowIffFlip(id, st.sandboxes[id], s);
        PauseRowsAdd(st.audit[id], EffectOn(id, st.sandboxes[id], s).rows);
      } else {
        NoPauseRowWithoutSandbox(st, s, id);
      }
    }
  }

  /** Exactly-once audit: over every run, whatever is redelivered or reordered and whatever users do in
      between, the system pause rows added for a sandbox are as many as its flips into paused. */
  lemma {:induction false} PauseAuditExactlyOnce(st: State, run: seq<Step>, id: SandboxId)
    ensures PauseRows(Run(st, run).audit[id]) == PauseRows(st.audit[id]) + FlipCount(st, run, id)
    decreases |run|
  {
    if run != [] {
      PauseRowPerFlip(st, run[0], id);
      PauseAuditExactlyOnce(Exec(st, run[0]), run[1..], id);
    }
  }

  lemma ApplyNothing(st: State, effs: map<SandboxId, Effect>, now: Time)
    requires forall id :: id in effs ==> effs[id].to.None? && effs[id].rows == [] && effs[id].events == []
    ensures ApplyAll(st, effs, now) ==
            st.(volumes := FreeVolumes(st.volumes, Freed(effs), now))
    ensures Freed(effs) == {} ==> ApplyAll(st, effs, now) == st
  {
    WriteNothing(st.sandboxes, effs, now);
    AppendNothing(st, effs);
    if Freed(effs) == {} {
      assert FreeVolumes(st.volumes, {}, now) == st.volumes;
    }
    hide WriteAll, FreeVolumes, AppendRows, AppendEvents;
  }

  lemma WriteNothing(rows: map<SandboxId, Sandbox>, effs: map<SandboxId, Effect>, now: Time)
    requires forall id :: id in effs ==> effs[id].to.None?
    ensures WriteAll(rows, effs, now) == rows
  {
    forall id | id in rows ensures WriteAll(rows, effs, now)[id] == rows[id] {
    }
  }

  lemma AppendNothing(st: State, effs: map<SandboxId, Effect>)
    requires forall id :: id in effs ==> effs[id].rows == [] && effs[id].events == []
    ensures AppendRows(st.audit, effs) == st.audit && AppendEvents(st.sent, effs) == st.sent
  {
    forall id ensures AppendRows(st.audit, effs)[id] == st.audit[id] {
      assert st.audit[id] + [] == st.audit[id];
    }
    forall id ensures AppendEvents(st.sent, effs)[id] == st.sent[id] {
      assert st.sent[id] + [] == st.sent[id];
    }
  }

  predicate MonitorPhase(s: Step) {
    s.Restore? || s.Sync? || s.Zombie? || s.Transient?
  }

  /** The row that a monitor phase leaves behind when it publishes an event for it. */
  predicate Announced(e: Event, s: Status) {
    && Relevant(e)
    && match e.kind
       case Pause => s == Paused
       case Destroy => s == Stopped
       case _ => s == Error && e.outcome != Success && e.reason == TransientTimeout
  }

  lemma OwnEventMeetsSettledRow(id: SandboxId, row: Sandbox, s: Step, e: Event)
    requires MonitorPhase(s) && e in EffectOn(id, row, s).events
    ensures e.sandbox == Some(id) && Announced(e, Write(row, EffectOn(id, row, s), s.now).status)
  {
  }

  lemma OwnEventFindsNothingToDo(st: State, id: SandboxId, e: Event, now: Time)
    requires id in st.sandboxes && e.sandbox == Some(id) && Announced(e, st.sandboxes[id].status)
    ensures var after := Exec(st, Deliver(e, now));
            && after.sandboxes == st.sandboxes && after.audit == st.audit && after.sent == st.sent
            && (e.kind == Pause ==> after == st)
  {
    ApplyNothing(st, Effects(st, Deliver(e, now)), now);
  }

  /** The events a monitor phase publishes come back through the stream. Until a user acts on the
      sandbox, consuming such an event any number of steps later touches no sandbox row, adds no audit
      row and publishes nothing; a republished pause leaves the whole state as it was. */
  lemma OwnEventsAddNothing(st: State, s: Step, run: seq<Step>, id: SandboxId, e: Event, now: Time)
    requires MonitorPhase(s) && id in st.sandboxes && e in EffectOn(id, st.sandboxes[id], s).events
    requires LeftAlone(Exec(st, s), run, id)
    ensures var later := Run(Exec(st, s), run);
            var after := Exec(later, Deliver(e, now));
            && after.sandboxes == later.sandboxes && after.audit == later.audit && after.sent == later.sent
            && (e.kind == Pause ==> after == later)
  {
    hide Exec, LeftAlone, EffectOn;
    ExecOne(st, s, id);
    var row := st.sandboxes[id];
    OwnEventMeetsSettledRow(id, row, s, e);
    SettledRowsNeverLeft(Exec(st, s), run, id);
    var later := Run(Exec(st, s), run);
    OwnEventFindsNothingToDo(later, id, e, now);
  }

  /** Consuming a timeout failure never adds an audit row, in any state. */
  lemma TimeoutEventsNeverAudited(st: State, e: Event, now: Time)
    requires e.reason == TransientTimeout && e.kind in {Create, Resume}
    ensures Exec(st, Deliver(e, now)).audit == st.audit
  {
    var effs := Effects(st, Deliver(e, now));
    assert forall id :: RowsOf(effs, id) == [];
    assert forall id :: st.audit[id] + [] == st.audit[id];
  }

  predicate InStatus(st: State, id: SandboxId, statuses: set<Status>) {
    id in st.sandboxes && st.sandboxes[id].status in statuses
  }

  /** The exact limit of `OwnEventsAddNothing`: whatever happens between the monitor's pause and the consumption of
      its republished event, the event pauses the sandbox again if and only if it finds the row running or pausing. */
  lemma LatePauseEvent(st: State, s: Step, run: seq<Step>, id: SandboxId, e: Event, now: Time)
    requires MonitorPhase(s) && id in st.sandboxes && e in EffectOn(id, st.sandboxes[id], s).events && e.kind == Pause
    ensures var later := Run(Exec(st, s), run);
            Flips(later, Deliver(e, now), id) <==> InStatus(later, id, {Running, Pausing})
  {
    OwnPauseWasFlip(id, st.sandboxes[id], s, e);
    hide *;
    PauseEventFlipsIff(Run(Exec(st, s), run), e, now, id);
  }

  lemma PauseEventFlipsIff(st: State, e: Event, now: Time, id: SandboxId)
    requires Relevant(e) && e.sandbox == Some(id) && e.kind == Pause && e.outcome == Success
    ensures Flips(st, Deliver(e, now), id) <==> InStatus(st, id, {Running, Pausing})
  {
    hide Exec;
    if id in st.sandboxes {
      FlipsIff(st, Deliver(e, now), id);
    }
  }

  /** Such a run: the monitor pauses a running sandbox, a user resumes it, the resume is confirmed, and only then the
      monitor's own event arrives. The sandbox is paused again and a second pause row is written. */
  lemma ResumedThenPausedAgain(id: SandboxId, h: HostId, now: Time)
    ensures var st := OneSandbox(id, Sandbox(h, Running, None));
            var pause := Sync(h, AliveOf([Entry(id, Paused)]), now);
            var resume := Users(map[id := Sandbox(h, Resuming, None)], map[]);
            var confirm := Deliver(Event(Resume, Success, System, Some(id), NoReason), now);
            var own := Deliver(Event(Pause, Success, System, Some(id), HostStateSync), now);
            PauseRows(Run(st, [pause] + [resume, confirm] + [own]).audit[id]) == 2
  {
    var st := OneSandbox(id, Sandbox(h, Running, None));
    var pause := Sync(h, AliveOf([Entry(id, Paused)]), now);
    var e := Event(Pause, Success, System, Some(id), HostStateSync);
    var resume := Users(map[id := Sandbox(h, Resuming, None)], map[]);
    var confirm := Deliver(Event(Resume, Success, System, Some(id), NoReason), now);
    OneEntry(id, Paused);
    assert EffectOn(id, st.sandboxes[id], pause) == AutoPaused(id, HostStateSync);
    LatePauseRows(st, pause, [resume, confirm], id, e, now);
    ResumeConfirmed(Exec(st, pause), id, h, resume, confirm);
  }

  lemma UsersStep(st: State, s: Step, id: SandboxId)
    requires s.Users?
    ensures Exec(st, s) == st.(sandboxes := s.sandboxes, volumes := s.volumes) && !Flips(st, s, id)
  {
    hide ApplyAll, Effects;
  }

  lemma ResumeConfirmed(st: State, id: SandboxId, h: HostId, resume: Step, confirm: Step)
    requires resume.Users? && RowAt(resume.sandboxes, id) == Some(Sandbox(h, Resuming, None))
    requires confirm.Deliver? && confirm.event == Event(Resume, Success, System, Some(id), NoReason)
    ensures InStatus(Run(st, [resume, confirm]), id, {Running, Pausing}) && FlipCount(st, [resume, confirm], id) == 0
  {
    hide Exec, Flips, Run, FlipCount;
    var mid := Exec(st, resume);
    UsersStep(st, resume, id);
    FlipsIff(mid, confirm, id);
    ExecOne(mid, confirm, id);
    assert [resume, confirm] == [resume] + [confirm];
    FlipCountAppend(st, [resume], [confirm], id);
    OneFlipCount(st, resume, id);
    OneFlipCount(mid, confirm, id);
  }

  lemma {:induction false} FlipCountAppend(st: State, a: seq<Step>, b: seq<Step>, id: SandboxId)
    ensures Run(st, a + b) == Run(Run(st, a), b)
    ensures FlipCount(st, a + b, id) == FlipCount(st, a, id) + FlipCount(Run(st, a), b, id)
    decreases |a|
  {
    hide Exec, Flips;
    if a == [] {
      assert a + b == b;
    } else {
      assert (a + b)[1..] == a[1..] + b;
      FlipCountAppend(Exec(st, a[0]), a[1..], b, id);
    }
  }

  lemma OneFlipCount(st: State, s: Step, id: SandboxId)
    ensures FlipCount(st, [s], id) == (if Flips(st, s, id) then 1 else 0) && Run(st, [s]) == Exec(st, s)
  {
    hide Exec, Flips;
    assert [s][1..] == [];
  }

  /** Pause rows over such a run: one for the monitor's pause, one for each flip in between, and one more exactly when
      the late event finds the row running or pausing. */
  lemma LatePauseRows(st: State, s: Step, run: seq<Step>, id: SandboxId, e: Event, now: Time)
    requires MonitorPhase(s) && id in st.sandboxes && e in EffectOn(id, st.sandboxes[id], s).events && e.kind == Pause
    ensures var later := Run(Exec(st, s), run);
            PauseRows(Run(st, [s] + run + [Deliver(e, now)]).audit[id])
            == PauseRows(st.audit[id]) + 1 + FlipCount(Exec(st, s), run, id)
               + (if InStatus(later, id, {Running, Pausing}) then 1 else 0)
  {
    OwnPauseWasFlip(id, st.sandboxes[id], s, e);
    FlipsIff(st, s, id);
    hide *;
    var last := [Deliver(e, now)];
    PauseAuditExactlyOnce(st, [s] + run + last, id);
    FlipCountAppend(st, [s] + run, last, id);
    FlipCountAppend(st, [s], run, id);
    OneFlipCount(st, s, id);
    OneFlipCount(Run(Exec(st, s), run), Deliver(e, now), id);
    LatePauseEvent(st, s, run, id, e, now);
  }

  lemma OwnPauseWasFlip(id: SandboxId, row: Sandbox, s: Step, e: Event)
    requires MonitorPhase(s) && e in EffectOn(id, row, s).events && e.kind == Pause
    ensures row.status in {Running, Pausing, Missing} && EffectOn(id, row, s).to == Some(Paused)
    ensures e.outcome == Success && Relevant(e) && e.sandbox == Some(id)
  {
  }

  // ---- Every event of the monitor, consumed late ----

  /** What the monitor publishes about a sandbox. */
  predicate Own(e: Event, id: SandboxId) {
    && Relevant(e) && e.sandbox == Some(id)
    && match e.kind
       case Pause => e.outcome == Success
       case Destroy => e.outcome == Success
       case _ => e.kind in {Create, Resume} && e.outcome != Success && e.reason == TransientTimeout
  }

  /** The statuses such an event overwrites, and the one it writes. */
  function Overwritten(e: Event): set<Status> {
    match e.kind
    case Pause => {Running, Pausing}
    case Destroy => {Stopping, Running}
    case _ => {Running, Starting, Pausing, Resuming, Snapshotting}
  }

  function Written(e: Event): Status {
    match e.kind
    case Pause => Paused
    case Destroy => Stopped
    case _ => Error
  }

  predicate HoldsVolume(volumes: Volumes.Rows, id: SandboxId) {
    exists v :: v in volumes && volumes[v].sandbox == Some(id)
             && volumes[v].status in {Volumes.Attached, Volumes.Attaching}
  }

  lemma PhasesPublishOwn(id: SandboxId, row: Sandbox, s: Step, e: Event)
    requires MonitorPhase(s) && e in EffectOn(id, row, s).events
    ensures Own(e, id)
  {
  }

  lemma FreeingChangesIff(volumes: Volumes.Rows, id: SandboxId, now: Time)
    ensures FreeVolumes(volumes, {id}, now) == volumes <==> !HoldsVolume(volumes, id)
  {
    if v :| v in volumes && volumes[v].sandbox == Some(id)
            && volumes[v].status in {Volumes.Attached, Volumes.Attaching} {
      assert FreeVolumes(volumes, {id}, now)[v].status == Volumes.Detached;
    }
  }

  /** The whole of what such an event does, in any state. */
  function OwnWrites(rows: map<SandboxId, Sandbox>, id: SandboxId, e: Event, now: Time): map<SandboxId, Sandbox> {
    if id in rows && rows[id].status in Overwritten(e)
    then rows[id := rows[id].(status := Written(e), lastUpdated := Some(now))] else rows
  }

  lemma OwnHandlerEffect(row: Option<Sandbox>, e: Event, id: SandboxId)
    requires Own(e, id)
    ensures var x := HandlerEffect(row, e);
            && x.to == IfStatusIn(row, Overwritten(e), Written(e)) && x.events == []
            && x.frees == (e.kind != Pause) && (x.rows == [] <==> e.kind != Pause || x.to.None?)
  {
  }

  /** Each handler acts on the sandbox it names alone. */
  lemma OwnEffects(st: State, id: SandboxId, e: Event, now: Time)
    requires Own(e, id)
    ensures var effs := Effects(st, Deliver(e, now));
            && id in effs && effs[id] == HandlerEffect(RowAt(st.sandboxes, id), e)
            && (forall other :: other in effs && other != id ==> effs[other] == NOTHING)
  {
    hide HandlerEffect;
  }

  lemma DeliverOwn(st: State, id: SandboxId, e: Event, now: Time)
    requires Own(e, id)
    ensures var after := Exec(st, Deliver(e, now));
            && after.hosts == st.hosts && after.sent == st.sent
            && after.sandboxes == OwnWrites(st.sandboxes, id, e, now)
            && after.volumes == (if e.kind == Pause then st.volumes else FreeVolumes(st.volumes, {id}, now))
            && (after.audit == st.audit <==> e.kind != Pause || !InStatus(st, id, Overwritten(e)))
  {
    var effs := Effects(st, Deliver(e, now));
    OwnHandlerEffect(RowAt(st.sandboxes, id), e, id);
    OwnEffects(st, id, e, now);
    hide Effects, HandlerEffect, Overwritten, Written, Own, Exec, WriteAll, AppendRows, AppendEvents, OwnWrites, Freed,
      FreeVolumes;
    DeliverIsApply(st, e, now);
    OwnRow(st.sandboxes, effs, id, e, now);
    OwnLogs(st, effs, id);
    OwnFrees(st.volumes, effs, id, now);
  }

  lemma DeliverIsApply(st: State, e: Event, now: Time)
    ensures Exec(st, Deliver(e, now)) == ApplyAll(st, Effects(st, Deliver(e, now)), now)
  {
    hide Effects, ApplyAll;
  }

  lemma OwnFrees(volumes: Volumes.Rows, effs: map<SandboxId, Effect>, id: SandboxId, now: Time)
    requires id in effs && forall other :: other in effs && other != id ==> effs[other] == NOTHING
    ensures FreeVolumes(volumes, Freed(effs), now)
         == if effs[id].frees then FreeVolumes(volumes, {id}, now) else volumes
  {
    assert Freed(effs) == if effs[id].frees then {id} else {};
  }

  lemma OwnRow(rows: map<SandboxId, Sandbox>, effs: map<SandboxId, Effect>, id: SandboxId, e: Event, now: Time)
    requires id in effs && effs[id].to == IfStatusIn(RowAt(rows, id), Overwritten(e), Written(e))
    requires forall other :: other in effs && other != id ==> effs[other] == NOTHING
    ensures WriteAll(rows, effs, now) == OwnWrites(rows, id, e, now)
  {
    hide Overwritten, Written;
  }

  lemma OwnLogs(st: State, effs: map<SandboxId, Effect>, id: SandboxId)
    requires id in effs && effs[id].events == []
    requires forall other :: other in effs && other != id ==> effs[other] == NOTHING
    ensures AppendEvents(st.sent, effs) == st.sent
    ensures AppendRows(st.audit, effs) == st.audit <==> effs[id].rows == []
  {
    forall any ensures AppendEvents(st.sent, effs)[any] == st.sent[any] {
      assert st.sent[any] + [] == st.sent[any];
    }
    if effs[id].rows == [] {
      forall any ensures AppendRows(st.audit, effs)[any] == st.audit[any] {
        assert st.audit[any] + [] == st.audit[any];
      }
    } else {
      assert |AppendRows(st.audit, effs)[id]| > |st.audit[id]|;
    }
  }

  /** The exact limit of `OwnEventsAddNothing` for every event the monitor publishes, whatever happens before it is
      consumed: a row is overwritten if and only if the sandbox is then in one of the statuses that kind of event
      overwrites, volumes are freed if and only if the event is not a pause and the sandbox then holds some, and the
      event leaves everything as it was if and only if neither is the case. */
  lemma LateOwnEvent(st: State, s: Step, run: seq<Step>, id: SandboxId, e: Event, now: Time)
    requires MonitorPhase(s) && id in st.sandboxes && e in EffectOn(id, st.sandboxes[id], s).events
    ensures var later := Run(Exec(st, s), run);
            var after := Exec(later, Deliver(e, now));
            && after.sandboxes == OwnWrites(later.sandboxes, id, e, now)
            && (after.sandboxes == later.sandboxes <==> !InStatus(later, id, Overwritten(e)))
            && (after.volumes == later.volumes <==> e.kind == Pause || !HoldsVolume(later.volumes, id))
            && (after == later <==> !InStatus(later, id, Overwritten(e))
                                    && (e.kind == Pause || !HoldsVolume(later.volumes, id)))
  {
    PhasesPublishOwn(id, st.sandboxes[id], s, e);
    var later := Run(Exec(st, s), run);
    WrittenIsNew(e);
    hide EffectOn, Exec, Run, Own, Overwritten, Written, FreeVolumes, HoldsVolume;
    DeliverOwn(later, id, e, now);
    FreeingChangesIff(later.volumes, id, now);
  }

  lemma WrittenIsNew(e: Event)
    ensures Written(e) !in Overwritten(e)
  {
  }

  // ---- One pass is one simultaneous write ----

  /** What a whole pass does to one row: the phase that lists the row's status decides. */
  function PassEffect(id: SandboxId, row: Sandbox, h: HostId, alive: Alive, gone: set<SandboxId>, now: Time): Effect {
    match row.status
    case Missing => RestoreEffect(id, row, h, alive)
    case Running => SyncEffect(id, row, h, alive)
    case Stopped => ZombieEffect(id, row, h, alive, gone)
    case _ => TransientEffect(id, row, h, alive, gone, now)
  }

  function PassEffects(st: State, h: HostId, alive: Alive, gone: set<SandboxId>, now: Time): map<SandboxId, Effect> {
    map id | id in st.sandboxes :: PassEffect(id, st.sandboxes[id], h, alive, gone, now)
  }

  function Merge(a: map<SandboxId, Effect>, b: map<SandboxId, Effect>): map<SandboxId, Effect> {
    map id | id in a :: if id in b && a[id] == NOTHING then b[id] else a[id]
  }

  lemma DetachTwice(rows: Volumes.Rows, a: set<SandboxId>, b: set<SandboxId>, now: Time)
    ensures FreeVolumes(FreeVolumes(rows, a, now), b, now) == FreeVolumes(rows, a + b, now)
  {
  }

  /** Two rounds of effects that never touch the same sandbox act as one round. */
  lemma ApplyTwice(st: State, a: map<SandboxId, Effect>, b: map<SandboxId, Effect>, now: Time)
    requires a.Keys == b.Keys == st.sandboxes.Keys
    requires forall id :: id in a ==> a[id] == NOTHING || b[id] == NOTHING
    ensures ApplyAll(ApplyAll(st, a, now), b, now) == ApplyAll(st, Merge(a, b), now)
  {
    var m := Merge(a, b);
    MergeWrites(st.sandboxes, a, b, now);
    MergeFrees(st.volumes, a, b, now);
    MergeRows(st.audit, a, b);
    MergeEvents(st.sent, a, b);
    hide WriteAll, FreeVolumes, AppendRows, AppendEvents, Merge, Freed;
  }

  lemma MergeWrites(rows: map<SandboxId, Sandbox>, a: map<SandboxId, Effect>, b: map<SandboxId, Effect>, now: Time)
    requires a.Keys == b.Keys
    requires forall id :: id in a ==> a[id] == NOTHING || b[id] == NOTHING
    ensures WriteAll(WriteAll(rows, a, now), b, now) == WriteAll(rows, Merge(a, b), now)
  {
    var twice, once := WriteAll(WriteAll(rows, a, now), b, now), WriteAll(rows, Merge(a, b), now);
    forall id | id in rows ensures twice[id] == once[id] {
      if id in a { assert a[id] == NOTHING || b[id] == NOTHING; }
    }
  }

  lemma MergeFrees(rows: Volumes.Rows, a: map<SandboxId, Effect>, b: map<SandboxId, Effect>, now: Time)
    requires a.Keys == b.Keys
    requires forall id :: id in a ==> a[id] == NOTHING || b[id] == NOTHING
    ensures FreeVolumes(FreeVolumes(rows, Freed(a), now), Freed(b), now) == FreeVolumes(rows, Freed(Merge(a, b)), now)
  {
    DetachTwice(rows, Freed(a), Freed(b), now);
    forall id | id in a ensures Merge(a, b)[id].frees == (a[id].frees || b[id].frees) {
      assert a[id] == NOTHING || b[id] == NOTHING;
    }
    assert Freed(Merge(a, b)) == Freed(a) + Freed(b);
  }

  lemma MergeAt(a: map<SandboxId, Effect>, b: map<SandboxId, Effect>, id: SandboxId)
    requires a.Keys == b.Keys
    requires forall i :: i in a ==> a[i] == NOTHING || b[i] == NOTHING
    ensures RowsOf(a, id) + RowsOf(b, id) == RowsOf(Merge(a, b), id)
    ensures EventsOf(a, id) + EventsOf(b, id) == EventsOf(Merge(a, b), id)
  {
    if id in a { assert a[id] == NOTHING || b[id] == NOTHING; }
  }

  lemma MergeRows(log: Log<AuditRow>, a: map<SandboxId, Effect>, b: map<SandboxId, Effect>)
    requires a.Keys == b.Keys
    requires forall id :: id in a ==> a[id] == NOTHING || b[id] == NOTHING
    ensures AppendRows(AppendRows(log, a), b) == AppendRows(log, Merge(a, b))
  {
    hide RowsOf, Merge;
    forall id ensures AppendRows(AppendRows(log, a), b)[id] == AppendRows(log, Merge(a, b))[id] {
      MergeAt(a, b, id);
      assert log[id] + RowsOf(a, id) + RowsOf(b, id) == log[id] + (RowsOf(a, id) + RowsOf(b, id));
    }
  }

  lemma MergeEvents(log: Log<Event>, a: map<SandboxId, Effect>, b: map<SandboxId, Effect>)
    requires a.Keys == b.Keys
    requires forall id :: id in a ==> a[id] == NOTHING || b[id] == NOTHING
    ensures AppendEvents(AppendEvents(log, a), b) == AppendEvents(log, Merge(a, b))
  {
    hide EventsOf, Merge;
    forall id ensures AppendEvents(AppendEvents(log, a), b)[id] == AppendEvents(log, Merge(a, b))[id] {
      MergeAt(a, b, id);
      assert log[id] + EventsOf(a, id) + EventsOf(b, id) == log[id] + (EventsOf(a, id) + EventsOf(b, id));
    }
  }

  /** Reports as the monitor stores them: no transient label survives coercion. */
  predicate Coerced(alive: Alive) {
    forall id :: id in alive && alive[id].Some? ==> Coerce(alive[id].value) == alive[id]
  }

  lemma {:induction false} AliveIsCoerced(report: seq<Entry>)
    ensures Coerced(AliveOf(report))
  {
    if report != [] {
      AliveIsCoerced(report[..|report| - 1]);
    }
  }

  function First(a: Effect, b: Effect): Effect {
    if a == NOTHING then b else a
  }

  /** At most one of the four phases acts on a row, even though each sees what the earlier ones wrote. */
  lemma OnePhaseActs(id: SandboxId, row: Sandbox, h: HostId, alive: Alive, gone: set<SandboxId>, now: Time)
    requires Coerced(alive)
    ensures var x1 := RestoreEffect(id, row, h, alive);
            var r1 := Write(row, x1, now);
            var x2 := SyncEffect(id, r1, h, alive);
            var r2 := Write(r1, x2, now);
            var x3 := ZombieEffect(id, r2, h, alive, gone);
            var r3 := Write(r2, x3, now);
            var x4 := TransientEffect(id, r3, h, alive, gone, now);
            && (x1 == NOTHING || x2 == NOTHING)
            && (First(x1, x2) == NOTHING || x3 == NOTHING)
            && (First(First(x1, x2), x3) == NOTHING || x4 == NOTHING)
            && First(First(First(x1, x2), x3), x4) == PassEffect(id, row, h, alive, gone, now)
  {
  }

  lemma FourSteps(st: State, a: Step, b: Step, c: Step, d: Step)
    ensures Run(st, [a, b, c, d]) == Exec(Exec(Exec(Exec(st, a), b), c), d)
  {
    assert [a, b, c, d][1..] == [b, c, d] && [b, c, d][1..] == [c, d] && [c, d][1..] == [d] && [d][1..] == [];
    assert Run(Exec(Exec(st, a), b), [c, d]) == Exec(Exec(Exec(Exec(st, a), b), c), d) by {
      assert Run(Exec(Exec(Exec(st, a), b), c), [d]) == Exec(Exec(Exec(Exec(st, a), b), c), d);
    }
  }

  lemma PhaseExec(st: State, s: Step)
    requires MonitorPhase(s)
    ensures Exec(st, s) == ApplyAll(st, Effects(st, s), s.now)
    ensures Effects(st, s).Keys == st.sandboxes.Keys == Exec(st, s).sandboxes.Keys
  {
    assert Effects(st, s).Keys == st.sandboxes.Keys;
    assert WriteAll(st.sandboxes, Effects(st, s), s.now).Keys == st.sandboxes.Keys;
    hide Effects, WriteAll, FreeVolumes, AppendRows, AppendEvents;
  }

  lemma PhaseExecAt(st: State, s: Step, id: SandboxId)
    requires MonitorPhase(s) && id in st.sandboxes
    ensures id in Effects(st, s) && Effects(st, s)[id] == EffectOn(id, st.sandboxes[id], s)
    ensures id in Exec(st, s).sandboxes
    ensures Exec(st, s).sandboxes[id] == Write(st.sandboxes[id], Effects(st, s)[id], s.now)
  {
    ExecOne(st, s, id);
  }

  lemma OnePhaseActsAt(st: State, s1: Step, s2: Step, s3: Step, s4: Step, id: SandboxId)
    requires s1.Restore? && s3.Zombie? && Coerced(s1.alive) && id in st.sandboxes
    requires [s1, s2, s3, s4] == ActivePass(s1.h, s1.alive, s3.gone, s1.now)
    ensures var st1 := Exec(st, s1);
            var st2 := Exec(st1, s2);
            var st3 := Exec(st2, s3);
            && id in Effects(st, s1) && id in Effects(st1, s2) && id in Effects(st2, s3) && id in Effects(st3, s4)
            && var e1, e2, e3, e4 := Effects(st, s1)[id], Effects(st1, s2)[id], Effects(st2, s3)[id],
              Effects(st3, s4)[id];
            && (e1 == NOTHING || e2 == NOTHING)
            && (First(e1, e2) == NOTHING || e3 == NOTHING)
            && (First(First(e1, e2), e3) == NOTHING || e4 == NOTHING)
            && First(First(First(e1, e2), e3), e4) == PassEffect(id, st.sandboxes[id], s1.h, s1.alive, s3.gone, s1.now)
  {
    hide Exec, Effects, RestoreEffect, SyncEffect, ZombieEffect, TransientEffect, PassEffect, First, Write;
    var st1 := Exec(st, s1);
    var st2 := Exec(st1, s2);
    var st3 := Exec(st2, s3);
    assert s1 == [s1, s2, s3, s4][0] && s2 == [s1, s2, s3, s4][1];
    assert s3 == [s1, s2, s3, s4][2] && s4 == [s1, s2, s3, s4][3];
    PhaseExecAt(st, s1, id);
    PhaseExecAt(st1, s2, id);
    PhaseExecAt(st2, s3, id);
    PhaseExecAt(st3, s4, id);
    OnePhaseActs(id, st.sandboxes[id], s1.h, s1.alive, s3.gone, s1.now);
  }

  lemma PhasesDoNotOverlap(st: State, s1: Step, s2: Step, s3: Step, s4: Step)
    requires s1.Restore? && s3.Zombie? && Coerced(s1.alive)
    requires [s1, s2, s3, s4] == ActivePass(s1.h, s1.alive, s3.gone, s1.now)
    ensures var st1 := Exec(st, s1);
            var st2 := Exec(st1, s2);
            var st3 := Exec(st2, s3);
            var e1, e2, e3, e4 := Effects(st, s1), Effects(st1, s2), Effects(st2, s3), Effects(st3, s4);
            && e1.Keys == e2.Keys == e3.Keys == e4.Keys == st.sandboxes.Keys
            && (forall id :: id in e1 ==> e1[id] == NOTHING || e2[id] == NOTHING)
            && (forall id :: id in e1 ==> First(e1[id], e2[id]) == NOTHING || e3[id] == NOTHING)
            && (forall id :: id in e1 ==> First(First(e1[id], e2[id]), e3[id]) == NOTHING || e4[id] == NOTHING)
            && (forall id :: id in e1 ==>
                  First(First(First(e1[id], e2[id]), e3[id]), e4[id])
                  == PassEffect(id, st.sandboxes[id], s1.h, s1.alive, s3.gone, s1.now))
  {
    hide Exec, Effects, PassEffect, First, Coerced;
    assert s1 == [s1, s2, s3, s4][0] && s2 == [s1, s2, s3, s4][1];
    assert s3 == [s1, s2, s3, s4][2] && s4 == [s1, s2, s3, s4][3];
    var st1 := Exec(st, s1);
    var st2 := Exec(st1, s2);
    var st3 := Exec(st2, s3);
    PhaseExec(st, s1);
    PhaseExec(st1, s2);
    PhaseExec(st2, s3);
    PhaseExec(st3, s4);
    forall id | id in st.sandboxes
      ensures var e1, e2, e3, e4 := Effects(st, s1)[id], Effects(st1, s2)[id], Effects(st2, s3)[id],
              Effects(st3, s4)[id];
              && (e1 == NOTHING || e2 == NOTHING)
              && (First(e1, e2) == NOTHING || e3 == NOTHING)
              && (First(First(e1, e2), e3) == NOTHING || e4 == NOTHING)
              && First(First(First(e1, e2), e3), e4)
                == PassEffect(id, st.sandboxes[id], s1.h, s1.alive, s3.gone, s1.now)
    {
      OnePhaseActsAt(st, s1, s2, s3, s4, id);
    }
  }

  /** Fusion: the four list-then-write phases of a pass, run back to back, do what one simultaneous round
      of per-row decisions on the rows before the pass does. */
  lemma PassIsOneRound(st: State, h: HostId, alive: Alive, gone: set<SandboxId>, now: Time)
    requires Coerced(alive)
    ensures Run(st, ActivePass(h, alive, gone, now)) == ApplyAll(st, PassEffects(st, h, alive, gone, now), now)
  {
    var s1, s2 := Restore(h, alive, now), Sync(h, alive, now);
    var s3, s4 := Zombie(h, alive, gone, now), Transient(h, alive, gone, now);
    assert [s1, s2, s3, s4] == ActivePass(h, alive, gone, now);
    hide *;
    FourSteps(st, s1, s2, s3, s4);
    PhasesFuse(st, s1, s2, s3, s4);
  }

  lemma PhasesFuse(st: State, s1: Step, s2: Step, s3: Step, s4: Step)
    requires s1.Restore? && s3.Zombie? && Coerced(s1.alive)
    requires [s1, s2, s3, s4] == ActivePass(s1.h, s1.alive, s3.gone, s1.now)
    ensures Exec(Exec(Exec(Exec(st, s1), s2), s3), s4)
         == ApplyAll(st, PassEffects(st, s1.h, s1.alive, s3.gone, s1.now), s1.now)
  {
    assert s1 == [s1, s2, s3, s4][0] && s2 == [s1, s2, s3, s4][1];
    assert s3 == [s1, s2, s3, s4][2] && s4 == [s1, s2, s3, s4][3];
    var st1 := Exec(st, s1);
    var st2 := Exec(st1, s2);
    var st3 := Exec(st2, s3);
    var st4 := Exec(st3, s4);
    var e1, e2, e3, e4 := Effects(st, s1), Effects(st1, s2), Effects(st2, s3), Effects(st3, s4);
    var all := PassEffects(st, s1.h, s1.alive, s3.gone, s1.now);
    PassEffectsAt(st, s1.h, s1.alive, s3.gone, s1.now);
    assert MonitorPhase(s1) && MonitorPhase(s2) && MonitorPhase(s3) && MonitorPhase(s4);
    hide *;
    PhaseExec(st, s1);
    PhaseExec(st1, s2);
    PhaseExec(st2, s3);
    PhaseExec(st3, s4);
    PhasesDoNotOverlap(st, s1, s2, s3, s4);
    FuseFour(st, e1, e2, e3, e4, all, s1.now);
  }

  lemma PassEffectsAt(st: State, h: HostId, alive: Alive, gone: set<SandboxId>, now: Time)
    ensures PassEffects(st, h, alive, gone, now).Keys == st.sandboxes.Keys
    ensures forall id :: id in st.sandboxes ==>
      PassEffects(st, h, alive, gone, now)[id] == PassEffect(id, st.sandboxes[id], h, alive, gone, now)
  {
  }

  lemma MergeIsFirst(a: map<SandboxId, Effect>, b: map<SandboxId, Effect>)
    requires a.Keys == b.Keys
    ensures Merge(a, b).Keys == a.Keys
    ensures forall id :: id in a ==> Merge(a, b)[id] == First(a[id], b[id])
  {
  }

  lemma MergeAll(e1: map<SandboxId, Effect>, e2: map<SandboxId, Effect>, e3: map<SandboxId, Effect>,
                 e4: map<SandboxId, Effect>, all: map<SandboxId, Effect>)
    requires e1.Keys == e2.Keys == e3.Keys == e4.Keys == all.Keys
    requires forall id :: id in e1 ==> First(First(First(e1[id], e2[id]), e3[id]), e4[id]) == all[id]
    ensures Merge(Merge(Merge(e1, e2), e3), e4) == all
  {
    hide Merge, First;
    MergeIsFirst(e1, e2);
    MergeIsFirst(Merge(e1, e2), e3);
    MergeIsFirst(Merge(Merge(e1, e2), e3), e4);
    forall id | id in all ensures Merge(Merge(Merge(e1, e2), e3), e4)[id] == all[id] {
    }
  }

  lemma FuseFour(st: State, e1: map<SandboxId, Effect>, e2: map<SandboxId, Effect>, e3: map<SandboxId, Effect>,
                 e4: map<SandboxId, Effect>, all: map<SandboxId, Effect>, now: Time)
    requires e1.Keys == e2.Keys == e3.Keys == e4.Keys == all.Keys == st.sandboxes.Keys
    requires forall id :: id in e1 ==> e1[id] == NOTHING || e2[id] == NOTHING
    requires forall id :: id in e1 ==> First(e1[id], e2[id]) == NOTHING || e3[id] == NOTHING
    requires forall id :: id in e1 ==> First(First(e1[id], e2[id]), e3[id]) == NOTHING || e4[id] == NOTHING
    requires forall id :: id in e1 ==> First(First(First(e1[id], e2[id]), e3[id]), e4[id]) == all[id]
    ensures ApplyAll(ApplyAll(ApplyAll(ApplyAll(st, e1, now), e2, now), e3, now), e4, now) == ApplyAll(st, all, now)
  {
    hide ApplyAll, Merge, First;
    var m2 := Merge(e1, e2);
    var m3 := Merge(m2, e3);
    MergeIsFirst(e1, e2);
    MergeIsFirst(m2, e3);
    ApplyTwice(st, e1, e2, now);
    ApplyTwice(st, m2, e3, now);
    ApplyTwice(st, m3, e4, now);
    MergeAll(e1, e2, e3, e4, all);
  }
}
