/** The consumer of the unified event stream and the volume reaper, proved against the protocol. */
module EventConsumer {
  import opened Records
  import Volumes
  import opened Reconcile
  import opened ReconcileTheorems
  import opened ControlPlane
  import opened HostMonitor

  function RowOf(st: State, id: SandboxId): Option<Sandbox> {
    RowAt(st.sandboxes, id)
  }

  /** One sandbox's effect, whether or not the sandbox has a row. */
  ghost function Handled(st: State, id: SandboxId, e: Effect, now: Time): State {
    State(st.hosts,
          if id in st.sandboxes then st.sandboxes[id := Write(st.sandboxes[id], e, now)] else st.sandboxes,
          if e.frees then FreeVolumes(st.volumes, {id}, now) else st.volumes,
          st.audit[id := st.audit[id] + e.rows],
          st.sent[id := st.sent[id] + e.events])
  }

  lemma DeliverIsHandled(st: State, e: Event, now: Time)
    requires Relevant(e)
    ensures Exec(st, Deliver(e, now)) == Handled(st, e.sandbox.value, HandlerEffect(RowOf(st, e.sandbox.value), e), now)
  {
    var id := e.sandbox.value;
    var effs := Effects(st, Deliver(e, now));
    var eff := HandlerEffect(RowOf(st, id), e);
    if id in st.sandboxes {
      assert Only(effs, {id}) == effs;
      ApplyOne(st, effs, id, now);
    } else {
      hide HandlerEffect;
      assert effs == map[id := eff];
      assert Freed(effs) == if eff.frees then {id} else {};
      HandledUnknown(st, id, eff, now);
    }
  }

  lemma HandledUnknown(st: State, id: SandboxId, e: Effect, now: Time)
    requires id !in st.sandboxes
    ensures ApplyAll(st, map[id := e], now) == Handled(st, id, e, now)
  {
    var effs := map[id := e];
    assert WriteAll(st.sandboxes, effs, now) == st.sandboxes;
    assert Freed(effs) == if e.frees then {id} else {};
    assert FreeVolumes(st.volumes, {}, now) == st.volumes;
    RowsAt(st.audit, effs, id);
    EventsAt(st.sent, effs, id);
    hide WriteAll, FreeVolumes, AppendRows, AppendEvents, Freed;
  }

  lemma StoppedEffect(row: Option<Sandbox>)
    ensures forall e: Event :: e.kind == Destroy && e.outcome == Success ==>
      HandlerEffect(row, e) == Effect(IfStatusIn(row, {Stopping, Running}, Stopped), [], [], true)
  {
  }

  lemma PausedEffect(row: Option<Sandbox>, reason: Reason)
    ensures var to := IfStatusIn(row, {Running, Pausing}, Paused);
            var audit := AuditRow(PauseRow, Info, if reason == NoReason then TtlExpired else reason);
            forall e: Event :: e.kind == Pause && e.outcome == Success && e.reason == reason ==>
              HandlerEffect(row, e) == Effect(to, if to.Some? then [audit] else [], [], false)
  {
  }

  lemma HandledNothing(st: State, id: SandboxId, now: Time)
    ensures Handled(st, id, NOTHING, now) == st
  {
    AppendNone(st.audit, id);
    AppendNone(st.sent, id);
  }

  class EventConsumer {
    const db: Database

    constructor (db: Database)
      ensures this.db == db
    {
      this.db := db;
    }

    /** Try each expected status in turn until one conditional update applies. */
    method UpdateFromAny(id: SandboxId, from: seq<Status>, to: Status, now: Time) returns (ok: bool)
      requires to !in from
      modifies db`sandboxes
      ensures ok <==> id in old(db.sandboxes) && old(db.sandboxes)[id].status in from
      ensures db.sandboxes == if ok
              then old(db.sandboxes)[id := old(db.sandboxes)[id].(status := to, lastUpdated := Some(now))]
                              else old(db.sandboxes)
    {
      for i := 0 to |from|
        invariant db.sandboxes == old(db.sandboxes)
        invariant id in db.sandboxes ==> db.sandboxes[id].status !in from[..i]
      {
        ok := db.UpdateStatusIf(id, from[i], to, now);
        if ok {
          return;
        }
      }
      ok := false;
    }

    method HandleStarted(id: SandboxId, from: Status, now: Time)
      modifies db
      ensures db.View() == Handled(old(db.View()), id,
              Effect(IfStatusIn(RowOf(old(db.View()), id), {from}, Running), [], [], false), now)
    {
      hide LogOf;
      AppendNone(LogOf(db.audit), id);
      AppendNone(LogOf(db.sent), id);
      var _ := db.UpdateStatusIf(id, from, Running, now);
    }

    /** The audit row is written only if the flip applied, and nothing is republished. */
    method HandleAutoPaused(id: SandboxId, reason: Reason, now: Time)
      modifies db
      ensures forall e: Event :: e.kind == Pause && e.outcome == Success && e.reason == reason ==>
        db.View() == Handled(old(db.View()), id, HandlerEffect(RowOf(old(db.View()), id), e), now)
    {
      hide LogOf, HandlerEffect;
      PausedEffect(RowOf(db.View(), id), reason);
      AppendNone(LogOf(db.audit), id);
      AppendNone(LogOf(db.sent), id);
      assert forall s: Status :: s in [Running, Pausing] <==> s in {Running, Pausing};
      var ok := UpdateFromAny(id, [Running, Pausing], Paused, now);
      if ok {
        db.Log(id, AuditRow(PauseRow, Info, if reason == NoReason then TtlExpired else reason));
      }
    }

    method HandleStopped(id: SandboxId, now: Time)
      modifies db
      ensures forall e: Event :: e.kind == Destroy && e.outcome == Success ==>
        db.View() == Handled(old(db.View()), id, HandlerEffect(RowOf(old(db.View()), id), e), now)
    {
      hide LogOf, FreeVolumes, HandlerEffect;
      StoppedEffect(RowOf(db.View(), id));
      AppendNone(LogOf(db.audit), id);
      AppendNone(LogOf(db.sent), id);
      db.DetachVolumesBySandboxIDs({id}, now);
      var ok := db.UpdateStatusIf(id, Stopping, Stopped, now);
      if !ok {
        ok := db.UpdateStatusIf(id, Running, Stopped, now);
      }
    }

    /** A failure the monitor inferred was audited when it was inferred; every other one is audited here. */
    method AuditFailure(id: SandboxId, kind: Kind, reason: Reason)
      requires kind in {Create, Resume}
      modifies db`audit
      ensures LogOf(db.audit) == LogOf(old(db.audit))[id := LogOf(old(db.audit))[id]
        + FailedEffect(None, reason, if kind == Create then CreateFailed else ResumeFailed).rows]
    {
      hide LogOf;
      if reason == TransientTimeout {
        AppendNone(LogOf(db.audit), id);
      } else {
        var phase := if kind == Resume then ResumeFailed else CreateFailed;
        db.Log(id, AuditRow(ErrorRow, Failed, if reason == NoReason then phase else reason));
      }
    }

    method HandleFailed(id: SandboxId, kind: Kind, reason: Reason, now: Time)
      requires kind in {Create, Resume}
      modifies db
      ensures db.View() == Handled(old(db.View()), id,
        FailedEffect(RowOf(old(db.View()), id), reason, if kind == Create then CreateFailed else ResumeFailed), now)
    {
      ghost var before := db.View();
      ghost var e := FailedEffect(RowOf(before, id), reason, if kind == Create then CreateFailed else ResumeFailed);
      FailedParts(RowOf(before, id), reason, if kind == Create then CreateFailed else ResumeFailed);
      hide LogOf, FreeVolumes, FailedEffect, IfStatusIn, Write;
      AppendNone(LogOf(db.sent), id);
      db.DetachVolumesBySandboxIDs({id}, now);
      FailRow(id, e, now);
      AuditFailure(id, kind, reason);
    }

    /** The first matching conditional update moves the row to error. */
    method FailRow(id: SandboxId, ghost e: Effect, now: Time)
      requires e.to == IfStatusIn(if id in db.sandboxes then Some(db.sandboxes[id]) else None,
                                  {Running, Starting, Pausing, Resuming, Snapshotting}, Error)
      modifies db`sandboxes
      ensures db.sandboxes ==
        if id in old(db.sandboxes) then old(db.sandboxes)[id := Write(old(db.sandboxes)[id], e, now)]
        else old(db.sandboxes)
    {
      FailFrom(if id in db.sandboxes then Some(db.sandboxes[id]) else None);
      hide IfStatusIn;
      var _ := UpdateFromAny(id, [Running, Starting, Pausing, Resuming, Snapshotting], Error, now);
    }

    /** The handler for a relevant event. */
    method Dispatch(e: Event, now: Time)
      requires Relevant(e)
      modifies db
      ensures db.View() == Exec(old(db.View()), Deliver(e, now))
    {
      hide Handled, LogOf, Exec, FailedEffect;
      var id := e.sandbox.value;
      DeliverIsHandled(db.View(), e, now);
      HandledNothing(db.View(), id, now);
      match e.kind {
        case Create =>
          if e.outcome == Success {
            HandleStarted(id, Starting, now);
          } else {
            HandleFailed(id, Create, e.reason, now);
          }
        case Resume =>
          if e.outcome == Success {
            HandleStarted(id, Resuming, now);
          } else {
            HandleFailed(id, Resume, e.reason, now);
          }
        case Pause =>
          if e.outcome == Success { HandleAutoPaused(id, e.reason, now); }
        case Destroy =>
          if e.outcome == Success { HandleStopped(id, now); }
      }
    }

    /** Handle one message; `payload` is `None` when it is missing or does not decode, and `hooksFail` says of
        each extension hook whether it returns an error. A message is left unacknowledged, and so redelivered,
        exactly when a hook fails on a successful lifecycle event. */
    method HandleMessage(payload: Option<Event>, hooksFail: seq<bool>, now: Time) returns (ack: bool)
      modifies db
      ensures db.View() == if payload.Some? then Exec(old(db.View()), Deliver(payload.value, now)) else old(db.View())
      ensures !ack <==>
        payload.Some? && Relevant(payload.value) && payload.value.outcome == Success && true in hooksFail
    {
      hide LogOf, Exec;
      ack := true;
      if payload.None? {
        return;
      }
      var e := payload.value;
      if e.kind == OtherKind || e.actor != System || e.sandbox.None? {
        Irrelevant(db.View(), e, now);
        return;
      }
      Dispatch(e, now);
      if e.outcome == Success {
        for i := 0 to |hooksFail|
          invariant ack && true !in hooksFail[..i]
        {
          if hooksFail[i] {
            ack := false;
            return;
          }
        }
      }
    }
  }

  lemma FailedParts(row: Option<Sandbox>, reason: Reason, phase: Reason)
    ensures var e := FailedEffect(row, reason, phase);
            && e.frees && e.events == [] && e.rows == FailedEffect(None, reason, phase).rows
            && e.to == IfStatusIn(row, {Running, Starting, Pausing, Resuming, Snapshotting}, Error)
  {
  }

  lemma FailFrom(row: Option<Sandbox>)
    ensures IfStatusIn(row, {Running, Starting, Pausing, Resuming, Snapshotting}, Error)
         == if row.Some? && row.value.status in [Running, Starting, Pausing, Resuming, Snapshotting] then Some(Error)
           else None
  {
  }

  lemma Irrelevant(st: State, e: Event, now: Time)
    requires !Relevant(e)
    ensures Exec(st, Deliver(e, now)) == st
  {
    ApplyNothing(st, Effects(st, Deliver(e, now)), now);
  }

  /** Frees reservations and delete claims whose owning operation died before it reached a host. */
  class VolumeReaper {
    const db: Database
    const staleAfter: Time

    constructor (db: Database, staleAfter: Time)
      ensures this.db == db && this.staleAfter == staleAfter
    {
      this.db, this.staleAfter := db, staleAfter;
    }

    method Run(now: Time) returns (n: nat)
      modifies db`volumes
      ensures db.volumes == Volumes.Exec(old(db.volumes), Volumes.ReleaseStale(now - staleAfter), now)
      ensures n == |set v | v in old(db.volumes) && db.volumes[v] != old(db.volumes)[v]|
    {
      n := db.ReleaseStaleVolumeReservations(now - staleAfter, now);
    }
  }
}
