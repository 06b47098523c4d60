/** The host monitor as the imperative code it is, proved against the protocol. */
module HostMonitor {
  import opened Records
  import Volumes
  import opened Reconcile
  import opened ReconcileTheorems
  import RecoveryTheorems
  import opened ControlPlane

  /** The answer to a destroy call. */
  datatype Rpc = Ok | NotFound | Unavailable

  function Gone(agent: SandboxId -> Rpc, ids: set<SandboxId>): set<SandboxId> {
    set id | id in ids && agent(id) != Unavailable
  }

  // ---- Putting effects together piece by piece ----

  /** The effects on the given sandboxes alone. */
  function Only(effs: map<SandboxId, Effect>, ids: set<SandboxId>): map<SandboxId, Effect> {
    map id | id in effs :: if id in ids then effs[id] else NOTHING
  }

  lemma ApplyMore(st: State, effs: map<SandboxId, Effect>, done: set<SandboxId>, more: set<SandboxId>, now: Time)
    requires effs.Keys == st.sandboxes.Keys && done !! more
    ensures ApplyAll(ApplyAll(st, Only(effs, done), now), Only(effs, more), now)
            == ApplyAll(st, Only(effs, done + more), now)
  {
    assert Merge(Only(effs, done), Only(effs, more)) == Only(effs, done + more);
    hide ApplyAll, Merge;
    ApplyTwice(st, Only(effs, done), Only(effs, more), now);
  }

  lemma ApplyNoneYet(st: State, effs: map<SandboxId, Effect>, now: Time)
    ensures ApplyAll(st, Only(effs, {}), now) == st
  {
    ApplyNothing(st, Only(effs, {}), now);
  }

  /** One sandbox's effect, as an update of each table. */
  ghost function WithEffect(st: State, id: SandboxId, e: Effect, now: Time): State
    requires id in st.sandboxes
  {
    State(st.hosts,
          st.sandboxes[id := Write(st.sandboxes[id], e, now)],
          if e.frees then FreeVolumes(st.volumes, {id}, now) else st.volumes,
          st.audit[id := st.audit[id] + e.rows],
          st.sent[id := st.sent[id] + e.events])
  }

  lemma ApplyOne(st: State, effs: map<SandboxId, Effect>, id: SandboxId, now: Time)
    requires id in st.sandboxes && effs.Keys == st.sandboxes.Keys
    ensures ApplyAll(st, Only(effs, {id}), now) == WithEffect(st, id, effs[id], now)
  {
    GroupFrees(st.volumes, effs, {id}, effs[id].frees, now);
    WriteOne(st.sandboxes, effs, id, now);
    LogOne(st, effs, id);
    hide WriteAll, AppendRows, AppendEvents, Only, FreeVolumes, Freed, Write;
  }

  lemma WriteOne(rows: map<SandboxId, Sandbox>, effs: map<SandboxId, Effect>, id: SandboxId, now: Time)
    requires id in rows && effs.Keys == rows.Keys
    ensures WriteAll(rows, Only(effs, {id}), now) == rows[id := Write(rows[id], effs[id], now)]
  {
  }

  lemma LogOne(st: State, effs: map<SandboxId, Effect>, id: SandboxId)
    requires id in effs
    ensures AppendRows(st.audit, Only(effs, {id})) == st.audit[id := st.audit[id] + effs[id].rows]
    ensures AppendEvents(st.sent, Only(effs, {id})) == st.sent[id := st.sent[id] + effs[id].events]
  {
    var one := Only(effs, {id});
    assert RowsOf(one, id) == effs[id].rows && EventsOf(one, id) == effs[id].events;
    forall i | i != id ensures RowsOf(one, i) == [] && EventsOf(one, i) == [] {
    }
    hide Only, RowsOf, EventsOf;
    RowsAt(st.audit, one, id);
    EventsAt(st.sent, one, id);
  }

  lemma RowsAt(log: Log<AuditRow>, one: map<SandboxId, Effect>, id: SandboxId)
    requires forall i :: i != id ==> RowsOf(one, i) == []
    ensures AppendRows(log, one) == log[id := log[id] + RowsOf(one, id)]
  {
    hide RowsOf;
    forall i ensures AppendRows(log, one)[i] == log[id := log[id] + RowsOf(one, id)][i] {
      assert log[i] + [] == log[i];
    }
  }

  lemma EventsAt(log: Log<Event>, one: map<SandboxId, Effect>, id: SandboxId)
    requires forall i :: i != id ==> EventsOf(one, i) == []
    ensures AppendEvents(log, one) == log[id := log[id] + EventsOf(one, id)]
  {
    hide EventsOf;
    forall i ensures AppendEvents(log, one)[i] == log[id := log[id] + EventsOf(one, id)][i] {
      assert log[i] + [] == log[i];
    }
  }

  /** A label copied into the database; only paused is announced. */
  function RestoredAs(id: SandboxId, to: Status, reason: Reason): Effect {
    if to == Paused then AutoPaused(id, reason) else Effect(Some(to), [], [], false)
  }

  // The statements a phase issues for one group of rows, as effects of that group.

  lemma GroupWrites(rows: map<SandboxId, Sandbox>, effs: map<SandboxId, Effect>, ids: set<SandboxId>, to: Status,
                    now: Time)
    requires ids <= effs.Keys == rows.Keys
    requires forall id :: id in ids ==> effs[id].to == Some(to)
    ensures WriteAll(rows, Only(effs, ids), now) == WithStatus(rows, ids, to, now)
  {
    forall id | id in rows ensures WriteAll(rows, Only(effs, ids), now)[id] == WithStatus(rows, ids, to, now)[id] {
      if id in ids { assert effs[id].to == Some(to); }
    }
  }

  lemma GroupFrees(rows: Volumes.Rows, effs: map<SandboxId, Effect>, ids: set<SandboxId>, frees: bool, now: Time)
    requires ids <= effs.Keys
    requires forall id :: id in ids ==> effs[id].frees == frees
    ensures FreeVolumes(rows, Freed(Only(effs, ids)), now) == if frees then FreeVolumes(rows, ids, now) else rows
  {
    var freed := Freed(Only(effs, ids));
    forall id | id in ids ensures id in freed <==> frees {
      assert effs[id].frees == frees;
    }
    assert freed == if frees then ids else {};
  }

  lemma GroupLogs(audit: Log<AuditRow>, sent: Log<Event>, effs: map<SandboxId, Effect>, ids: set<SandboxId>,
                  row: AuditRow, kind: Kind, reason: Reason)
    requires ids <= effs.Keys
    requires forall id :: id in ids ==> effs[id].rows == [row]
    requires forall id :: id in ids ==> effs[id].events == [Event(kind, Success, System, Some(id), reason)]
    ensures AppendRows(audit, Only(effs, ids)) == RowForEach(audit, ids, row)
    ensures AppendEvents(sent, Only(effs, ids)) == EventForEach(sent, ids, kind, reason)
  {
    var only := Only(effs, ids);
    forall id
      ensures RowsOf(only, id) == OneIf(ids, id, row)
      ensures EventsOf(only, id) == OneIf(ids, id, Event(kind, Success, System, Some(id), reason))
    {
    }
    hide RowsOf, EventsOf, OneIf, Only;
    SameRows(audit, only, ids, row);
    SameEvents(sent, only, ids, kind, reason);
  }

  lemma SameRows(log: Log<AuditRow>, effs: map<SandboxId, Effect>, ids: set<SandboxId>, row: AuditRow)
    requires forall id :: RowsOf(effs, id) == OneIf(ids, id, row)
    ensures AppendRows(log, effs) == RowForEach(log, ids, row)
  {
    hide RowsOf, OneIf;
    forall id ensures AppendRows(log, effs)[id] == RowForEach(log, ids, row)[id] {
    }
  }

  lemma SameEvents(log: Log<Event>, effs: map<SandboxId, Effect>, ids: set<SandboxId>, kind: Kind, reason: Reason)
    requires forall id :: EventsOf(effs, id) == OneIf(ids, id, Event(kind, Success, System, Some(id), reason))
    ensures AppendEvents(log, effs) == EventForEach(log, ids, kind, reason)
  {
    hide EventsOf, OneIf;
    forall id ensures AppendEvents(log, effs)[id] == EventForEach(log, ids, kind, reason)[id] {
    }
  }

  lemma GroupSilent(st: State, effs: map<SandboxId, Effect>, ids: set<SandboxId>)
    requires ids <= effs.Keys
    requires forall id :: id in ids ==> effs[id].rows == [] && effs[id].events == []
    ensures AppendRows(st.audit, Only(effs, ids)) == st.audit && AppendEvents(st.sent, Only(effs, ids)) == st.sent
  {
    AppendNothing(st, Only(effs, ids));
  }

  lemma AllMissing(rows: map<SandboxId, Sandbox>, ids: set<SandboxId>)
    requires forall id :: id in ids ==> id in rows && rows[id].status == Missing
    ensures MissingAmong(rows, ids) == ids
  {
  }

  lemma ApplyElsewhere(st: State, effs: map<SandboxId, Effect>, done: set<SandboxId>, now: Time)
    requires effs.Keys == st.sandboxes.Keys
    ensures ApplyAll(st, Only(effs, done), now).sandboxes.Keys == st.sandboxes.Keys
    ensures forall id :: id in st.sandboxes && id !in done ==>
      ApplyAll(st, Only(effs, done), now).sandboxes[id] == st.sandboxes[id]
  {
  }

  /** What a label-copying phase does to the rows it lists, and that it leaves the others alone. */
  ghost predicate CopiesLabels(effs: map<SandboxId, Effect>, listed: set<SandboxId>, alive: Alive, skip: set<Status>,
                               reason: Reason) {
    && (forall id :: id in listed && id !in alive ==>
          id in effs && effs[id] == DestroyedBySystem(id, Some(Stopped), Orphaned, true))
    && (forall id :: id in listed && id in alive && alive[id].Some? && alive[id].value !in skip ==>
          id in effs && effs[id] == RestoredAs(id, alive[id].value, reason))
    && (forall id ::
          id in effs && !(id in listed && (id !in alive || (alive[id].Some? && alive[id].value !in skip))) ==>
            effs[id] == NOTHING)
  }

  lemma RestoreCopiesLabels(st: State, h: HostId, alive: Alive, now: Time, listed: set<SandboxId>)
    requires forall id :: id in listed <==>
      id in st.sandboxes && st.sandboxes[id].host == h && st.sandboxes[id].status == Missing
    ensures CopiesLabels(Effects(st, Restore(h, alive, now)), listed, alive, {}, RestoredAfterHostRecovery)
  {
  }

  lemma SyncCopiesLabels(st: State, h: HostId, alive: Alive, now: Time, listed: set<SandboxId>)
    requires forall id :: id in listed <==>
      id in st.sandboxes && st.sandboxes[id].host == h && st.sandboxes[id].status == Running
    ensures CopiesLabels(Effects(st, Sync(h, alive, now)), listed, alive, {Running}, HostStateSync)
  {
  }

  /** `groups` sorts the sandboxes of `ids` whose report carries a label outside `skip` by that label. */
  ghost predicate Grouped(groups: map<Status, set<SandboxId>>, ids: set<SandboxId>, alive: Alive, skip: set<Status>) {
    && groups.Keys !! skip
    && (forall s :: s in groups ==> forall id :: id in groups[s] <==> id in ids && id in alive && alive[id] == Some(s))
    && (forall id :: id in ids && id in alive && alive[id].Some? && alive[id].value !in skip ==>
      alive[id].value in groups)
  }

  /** The listed sandboxes whose label is one of `labels`. */
  ghost function InGroups(ids: set<SandboxId>, alive: Alive, labels: set<Status>): set<SandboxId> {
    set id | id in ids && id in alive && alive[id].Some? && alive[id].value in labels
  }

  lemma OrphansStopped(st: State, effs: map<SandboxId, Effect>, ids: set<SandboxId>, now: Time)
    requires ids <= effs.Keys == st.sandboxes.Keys
    requires forall id :: id in ids ==> effs[id] == DestroyedBySystem(id, Some(Stopped), Orphaned, true)
    ensures ApplyAll(st, Only(effs, ids), now) == State(
              st.hosts, WithStatus(st.sandboxes, ids, Stopped, now), FreeVolumes(st.volumes, ids, now),
              RowForEach(st.audit, ids, AuditRow(DestroyRow, Warning, Orphaned)),
              EventForEach(st.sent, ids, Destroy, Orphaned))
  {
    hide WriteAll, WithStatus, FreeVolumes, AppendRows, AppendEvents, RowForEach, EventForEach, Only, Freed;
    GroupWrites(st.sandboxes, effs, ids, Stopped, now);
    GroupFrees(st.volumes, effs, ids, true, now);
    GroupLogs(st.audit, st.sent, effs, ids, AuditRow(DestroyRow, Warning, Orphaned), Destroy, Orphaned);
  }

  /** Orphans and label groups together are exactly the rows a label-copying phase acts on. */
  lemma GroupsCover(effs: map<SandboxId, Effect>, listed: set<SandboxId>, alive: Alive, skip: set<Status>,
                    reason: Reason,
                    orphans: set<SandboxId>, groups: map<Status, set<SandboxId>>)
    requires CopiesLabels(effs, listed, alive, skip, reason) && Grouped(groups, listed, alive, skip)
    requires forall id :: id in orphans <==> id in listed && id !in alive
    ensures orphans <= effs.Keys && InGroups(listed, alive, groups.Keys) !! orphans
    ensures forall id :: id in orphans ==> effs[id] == DestroyedBySystem(id, Some(Stopped), Orphaned, true)
    ensures Only(effs, InGroups(listed, alive, groups.Keys) + orphans) == effs
  {
    var acted := InGroups(listed, alive, groups.Keys) + orphans;
    forall id | id in effs ensures Only(effs, acted)[id] == effs[id] {
    }
  }

  lemma NoGroups(listed: set<SandboxId>, alive: Alive)
    ensures InGroups(listed, alive, {}) == {}
  {
  }

  /** One more group. */
  lemma NextGroup(effs: map<SandboxId, Effect>, listed: set<SandboxId>, alive: Alive, skip: set<Status>, reason: Reason,
                  groups: map<Status, set<SandboxId>>, labels: set<Status>, s: Status)
    requires CopiesLabels(effs, listed, alive, skip, reason) && Grouped(groups, listed, alive, skip)
    requires s in groups && s !in labels
    ensures groups[s] <= effs.Keys && groups[s] <= listed && InGroups(listed, alive, labels) !! groups[s]
    ensures forall id :: id in groups[s] ==> effs[id] == RestoredAs(id, s, reason)
    ensures InGroups(listed, alive, labels + {s}) == InGroups(listed, alive, labels) + groups[s]
  {
  }

  class HostMonitor {
    const db: Database

    constructor (db: Database)
      ensures this.db == db
    {
      this.db := db;
    }

    /** Bulk-write one label and announce it if it is paused; `guarded` picks the statement that skips rows
        that are no longer missing. */
    method CopyLabel(ids: set<SandboxId>, to: Status, guarded: bool, reason: Reason, now: Time,
                     ghost effs: map<SandboxId, Effect>)
      requires ids <= effs.Keys == db.sandboxes.Keys
      requires guarded ==> forall id :: id in ids ==> db.sandboxes[id].status == Missing
      requires forall id :: id in ids ==> effs[id] == RestoredAs(id, to, reason)
      modifies db
      ensures db.View() == ApplyAll(old(db.View()), Only(effs, ids), now)
    {
      hide WriteAll, WithStatus, FreeVolumes, AppendRows, AppendEvents, RowForEach, EventForEach, LogOf, Only,
        MissingAmong, Freed;
      ghost var before := db.View();
      if guarded {
        db.BulkRestoreMissingToStatus(ids, to, now);
        AllMissing(before.sandboxes, ids);
      } else {
        db.BulkUpdateStatusByIDs(ids, to, now);
      }
      GroupWrites(before.sandboxes, effs, ids, to, now);
      GroupFrees(before.volumes, effs, ids, false, now);
      if to == Paused {
        var row := AuditRow(PauseRow, Info, reason);
        db.LogEach(ids, row, Pause, reason);
        GroupLogs(before.audit, before.sent, effs, ids, row, Pause, reason);
      } else {
        GroupSilent(before, effs, ids);
      }
    }

    /** Stop the sandboxes the host no longer has, free their volumes and record the destroys. */
    method StopOrphans(ids: set<SandboxId>, now: Time, ghost effs: map<SandboxId, Effect>)
      requires ids <= effs.Keys == db.sandboxes.Keys
      requires forall id :: id in ids ==> effs[id] == DestroyedBySystem(id, Some(Stopped), Orphaned, true)
      modifies db
      ensures db.View() == ApplyAll(old(db.View()), Only(effs, ids), now)
    {
      hide ApplyAll, WithStatus, FreeVolumes, RowForEach, EventForEach, LogOf, Only, DestroyedBySystem;
      ghost var before := db.View();
      if ids == {} {
        ApplyNoneYet(before, effs, now);
      } else {
        var row := AuditRow(DestroyRow, Warning, Orphaned);
        db.BulkUpdateStatusByIDs(ids, Stopped, now);
        db.DetachVolumesBySandboxIDs(ids, now);
        db.LogEach(ids, row, Destroy, Orphaned);
        OrphansStopped(before, effs, ids, now);
      }
    }

    /** Sort listed rows into those the host no longer has and those to copy a label into, by label; labels in
        `skip` and rows of which only the presence is known stay as they are. */
    method Classify(ids: set<SandboxId>, alive: Alive, skip: set<Status>)
      returns (orphans: set<SandboxId>, groups: map<Status, set<SandboxId>>)
      ensures forall id :: id in orphans <==> id in ids && id !in alive
      ensures Grouped(groups, ids, alive, skip)
    {
      orphans, groups := {}, map[];
      var todo := ids;
      while todo != {}
        invariant todo <= ids
        invariant forall id :: id in orphans <==> id in ids - todo && id !in alive
        invariant Grouped(groups, ids - todo, alive, skip)
        decreases |todo|
      {
        var id := Pick(todo);
        if id !in alive {
          orphans := orphans + {id};
        } else if alive[id].Some? && alive[id].value !in skip {
          var s := alive[id].value;
          groups := groups[s := (if s in groups then groups[s] else {}) + {id}];
        }
        todo := todo - {id};
      }
    }

    /** Copy every group of labels into the database. */
    method CopyLabels(listed: set<SandboxId>, alive: Alive, skip: set<Status>, groups: map<Status, set<SandboxId>>,
                      guarded: bool, reason: Reason, now: Time, ghost effs: map<SandboxId, Effect>)
      requires Grouped(groups, listed, alive, skip) && CopiesLabels(effs, listed, alive, skip, reason)
      requires effs.Keys == db.sandboxes.Keys
      requires guarded ==> forall id :: id in listed ==> id in db.sandboxes && db.sandboxes[id].status == Missing
      modifies db
      ensures db.View() == ApplyAll(old(db.View()), Only(effs, InGroups(listed, alive, groups.Keys)), now)
    {
      hide ApplyAll, Only, InGroups, Grouped, CopiesLabels, RestoredAs, LogOf;
      ghost var before := db.View();
      var todo := groups.Keys;
      ghost var done := {};
      NoGroups(listed, alive);
      assert groups.Keys - todo == {};
      ApplyNoneYet(before, effs, now);
      while todo != {}
        invariant todo <= groups.Keys && done == InGroups(listed, alive, groups.Keys - todo)
        invariant db.View() == ApplyAll(before, Only(effs, done), now)
        decreases |todo|
      {
        var s := Pick(todo);
        NextGroup(effs, listed, alive, skip, reason, groups, groups.Keys - todo, s);
        ApplyElsewhere(before, effs, done, now);
        CopyLabel(groups[s], s, guarded, reason, now, effs);
        ApplyMore(before, effs, done, groups[s], now);
        done := done + groups[s];
        assert groups.Keys - (todo - {s}) == groups.Keys - todo + {s};
        todo := todo - {s};
      }
      assert groups.Keys - todo == groups.Keys;
    }

    /** Phase one. */
    method RestoreMissing(h: HostId, alive: Alive, now: Time)
      modifies db
      ensures db.View() == Exec(old(db.View()), Restore(h, alive, now))
    {
      hide Exec, Effects, ApplyAll, Only, InGroups, Grouped, CopiesLabels, DestroyedBySystem, LogOf;
      ghost var before := db.View();
      ghost var effs := Effects(before, Restore(h, alive, now));
      var missing := db.ListByHostAndStatus(h, {Missing});
      RestoreCopiesLabels(before, h, alive, now, missing);
      PhaseExec(before, Restore(h, alive, now));
      var orphans, groups := Classify(missing, alive, {});
      ghost var copied := InGroups(missing, alive, groups.Keys);
      GroupsCover(effs, missing, alive, {}, RestoredAfterHostRecovery, orphans, groups);
      CopyLabels(missing, alive, {}, groups, true, RestoredAfterHostRecovery, now, effs);
      ApplyElsewhere(before, effs, copied, now);
      StopOrphans(orphans, now, effs);
      ApplyMore(before, effs, copied, orphans, now);
    }

    /** Phase two. */
    method SyncRunning(h: HostId, alive: Alive, now: Time)
      modifies db
      ensures db.View() == Exec(old(db.View()), Sync(h, alive, now))
    {
      hide Exec, Effects, ApplyAll, Only, InGroups, Grouped, CopiesLabels, DestroyedBySystem, LogOf;
      ghost var before := db.View();
      ghost var effs := Effects(before, Sync(h, alive, now));
      var running := db.ListByHostAndStatus(h, {Running});
      SyncCopiesLabels(before, h, alive, now, running);
      PhaseExec(before, Sync(h, alive, now));
      var orphans, groups := Classify(running, alive, {Running});
      ghost var copied := InGroups(running, alive, groups.Keys);
      GroupsCover(effs, running, alive, {Running}, HostStateSync, orphans, groups);
      StopOrphans(orphans, now, effs);
      ApplyElsewhere(before, effs, orphans, now);
      CopyLabels(running, alive, {Running}, groups, false, HostStateSync, now, effs);
      ApplyMore(before, effs, orphans, copied, now);
      assert orphans + copied == copied + orphans;
    }

    /** Re-send a destroy for one stopped row that the host still reports paused. */
    method DestroyZombie(id: SandboxId, h: HostId, alive: Alive, agent: SandboxId -> Rpc, ghost gone: set<SandboxId>,
                         now: Time)
      requires id in db.sandboxes && db.sandboxes[id].host == h && db.sandboxes[id].status == Stopped
      requires id in gone <==> agent(id) != Unavailable
      modifies db
      ensures db.View() == WithEffect(old(db.View()), id, ZombieEffect(id, old(db.sandboxes)[id], h, alive, gone), now)
    {
      hide LogOf;
      if id in alive && alive[id] == Some(Paused) && agent(id) != Unavailable {
        db.LogAndPublish(id, AuditRow(DestroyRow, Warning, PausedZombieCleanup),
                         Event(Destroy, Success, System, Some(id), PausedZombieCleanup));
      } else {
        WithNothing(db.View(), id, now);
      }
    }

    method DestroyEach(stopped: set<SandboxId>, h: HostId, alive: Alive, agent: SandboxId -> Rpc, now: Time,
                       ghost gone: set<SandboxId>, ghost effs: map<SandboxId, Effect>)
      requires effs.Keys == db.sandboxes.Keys
      requires forall id :: id in stopped ==>
        id in db.sandboxes && db.sandboxes[id].host == h && db.sandboxes[id].status == Stopped
      requires forall id :: id in stopped ==> effs[id] == ZombieEffect(id, db.sandboxes[id], h, alive, gone)
      requires forall id :: id in stopped ==> (id in gone <==> agent(id) != Unavailable)
      modifies db
      ensures db.View() == ApplyAll(old(db.View()), Only(effs, stopped), now)
    {
      hide ApplyAll, Only, LogOf, WithEffect, ZombieEffect;
      ghost var before := db.View();
      ghost var done := {};
      ApplyNoneYet(before, effs, now);
      var todo := stopped;
      while todo != {}
        invariant todo <= stopped && done == stopped - todo
        invariant db.View() == ApplyAll(before, Only(effs, done), now)
        decreases |todo|
      {
        var id := Pick(todo);
        ApplyElsewhere(before, effs, done, now);
        ApplyOne(db.View(), effs, id, now);
        DestroyZombie(id, h, alive, agent, gone, now);
        ApplyMore(before, effs, done, {id}, now);
        done := done + {id};
        todo := todo - {id};
      }
      assert done == stopped;
    }

    /** Phase three: the host is asked to destroy what the database already calls stopped. The table is read
        only when the report shows some paused sandbox. */
    method DestroyZombies(h: HostId, alive: Alive, agent: SandboxId -> Rpc, now: Time)
      modifies db
      ensures db.View() == Exec(old(db.View()), Zombie(h, alive, Gone(agent, old(db.sandboxes).Keys), now))
    {
      hide Exec, ApplyAll, Only, LogOf, Effects, ZombieEffect;
      ghost var before := db.View();
      ghost var gone := Gone(agent, db.sandboxes.Keys);
      ghost var effs := Effects(before, Zombie(h, alive, gone, now));
      PhaseExec(before, Zombie(h, alive, gone, now));
      var hasPaused := exists id :: id in alive && alive[id] == Some(Paused);
      if hasPaused {
        var stopped := db.ListByHostAndStatus(h, {Stopped});
        forall id | id in stopped ensures id in effs && effs[id]
          == ZombieEffect(id, before.sandboxes[id], h, alive, gone) {
          ZombieAt(before, h, alive, gone, now, id);
        }
        DestroyEach(stopped, h, alive, agent, now, gone, effs);
        ZombiesCover(before, h, alive, gone, now, stopped);
      } else {
        ZombiesCover(before, h, alive, gone, now, {});
        ApplyNoneYet(before, effs, now);
      }
    }

    /** Write a status and log; the pieces of the transient phase that act on a live sandbox. */
    method PromoteToRunning(id: SandboxId, now: Time)
      requires id in db.sandboxes
      modifies db
      ensures db.View() == WithEffect(old(db.View()), id, Effect(Some(Running), [], [], false), now)
    {
      hide LogOf;
      AppendNone(LogOf(db.audit), id);
      AppendNone(LogOf(db.sent), id);
      var _ := db.UpdateStatusIf(id, db.sandboxes[id].status, Running, now);
    }

    method RetryDestroy(id: SandboxId, agent: SandboxId -> Rpc, now: Time)
      requires id in db.sandboxes && db.sandboxes[id].status == Stopping
      modifies db
      ensures db.View() == WithEffect(old(db.View()), id,
        if agent(id) != Unavailable then DestroyedBySystem(id, Some(Stopped), DestroyRetry, true) else NOTHING, now)
    {
      hide LogOf, FreeVolumes, WithEffect, DestroyedBySystem;
      if agent(id) == Unavailable {
        WithNothing(db.View(), id, now);
      } else {
        FinishDestroy(id, now);
      }
    }

    /** The host says the sandbox is gone: write that, free its volumes and record the destroy. */
    method FinishDestroy(id: SandboxId, now: Time)
      requires id in db.sandboxes && db.sandboxes[id].status == Stopping
      modifies db
      ensures db.View()
           == WithEffect(old(db.View()), id, DestroyedBySystem(id, Some(Stopped), DestroyRetry, true), now)
    {
      hide LogOf, FreeVolumes;
      var row := AuditRow(DestroyRow, Warning, DestroyRetry);
      var event := Event(Destroy, Success, System, Some(id), DestroyRetry);
      assert DestroyedBySystem(id, Some(Stopped), DestroyRetry, true) == Effect(Some(Stopped), [row], [event], true);
      hide DestroyedBySystem;
      var ok := db.UpdateStatusIf(id, Stopping, Stopped, now);
      if ok {
        db.DetachVolumesBySandboxIDs({id}, now);
        db.LogAndPublish(id, row, event);
      }
    }

    method RecoverSnapshot(id: SandboxId, seen: Option<Status>, now: Time)
      requires id in db.sandboxes && db.sandboxes[id].status == Snapshotting
      modifies db
      ensures db.View() == WithEffect(old(db.View()), id,
        Effect(Some(if seen == Some(Paused) then Paused else Running),
          [AuditRow(SnapshotRow, Info, SnapshotRecovered)], [], false), now)
    {
      hide LogOf;
      var recoverTo := if seen in {Some(Running), Some(Paused)} then seen.value else Running;
      AppendNone(LogOf(db.sent), id);
      var ok := db.UpdateStatusIf(id, Snapshotting, recoverTo, now);
      if ok {
        db.Log(id, AuditRow(SnapshotRow, Info, SnapshotRecovered));
      }
    }

    /** A transient row whose sandbox the host reports. */
    method ResolveAlive(id: SandboxId, h: HostId, alive: Alive, agent: SandboxId -> Rpc, ghost gone: set<SandboxId>,
                        now: Time)
      requires id in db.sandboxes && db.sandboxes[id].host == h && id in alive
      requires id in gone <==> agent(id) != Unavailable
      modifies db
      ensures db.View() == WithEffect(old(db.View()), id,
              TransientEffect(id, old(db.sandboxes)[id], h, alive, gone, now), now)
    {
      hide LogOf, WithEffect, DestroyedBySystem;
      var sb := db.sandboxes[id];
      if sb.status == Starting || sb.status == Resuming {
        PromoteToRunning(id, now);
      } else if sb.status == Stopping && OlderThan(sb, TRANSIENT_GRACE, now) {
        RetryDestroy(id, agent, now);
      } else if sb.status == Snapshotting && OlderThan(sb, SNAPSHOT_GRACE, now) {
        RecoverSnapshot(id, alive[id], now);
      } else {
        WithNothing(db.View(), id, now);
      }
    }

    /** A transient row past its grace period whose sandbox the host does not have. */
    method InferFinal(id: SandboxId, now: Time)
      requires id in db.sandboxes && db.sandboxes[id].status in {Starting, Resuming, Pausing, Stopping, Snapshotting}
      modifies db
      ensures db.View() == WithEffect(old(db.View()), id, InferredEffect(id, old(db.sandboxes)[id].status), now)
    {
      hide LogOf, FreeVolumes, InferredEffect;
      ghost var before := db.View();
      var from := db.sandboxes[id].status;
      Inferred(id, from);
      var final :=
        match from
        case Pausing => Paused
        case Stopping => Stopped
        case _ => Error;
      var ok := db.UpdateStatusIf(id, from, final, now);
      if ok {
        // error and stopped are terminal; a paused sandbox keeps its volumes
        if final == Error || final == Stopped {
          db.DetachVolumesBySandboxIDs({id}, now);
        }
        AuditInferred(id, from);
      }
      assert db.sandboxes == before.sandboxes[id := Write(before.sandboxes[id], InferredEffect(id, from), now)];
      hide Write;
    }

    /** Settle one row in a transient status against what the host reports. */
    method ResolveTransient(id: SandboxId, h: HostId, alive: Alive, agent: SandboxId -> Rpc,
                            ghost gone: set<SandboxId>, now: Time)
      requires id in db.sandboxes && db.sandboxes[id].host == h
      requires db.sandboxes[id].status in {Starting, Resuming, Pausing, Stopping, Snapshotting}
      requires id in gone <==> agent(id) != Unavailable
      modifies db
      ensures db.View() == WithEffect(old(db.View()), id,
              TransientEffect(id, old(db.sandboxes)[id], h, alive, gone, now), now)
    {
      hide LogOf, WithEffect;
      var sb := db.sandboxes[id];
      if id in alive {
        ResolveAlive(id, h, alive, agent, gone, now);
      } else if sb.lastUpdated.Some? && now - sb.lastUpdated.value < TRANSIENT_GRACE {
        WithNothing(db.View(), id, now);
      } else {
        InferFinal(id, now);
      }
    }

    method ResolveEach(transient: set<SandboxId>, h: HostId, alive: Alive, agent: SandboxId -> Rpc, now: Time,
                       ghost gone: set<SandboxId>, ghost effs: map<SandboxId, Effect>)
      requires effs.Keys == db.sandboxes.Keys
      requires forall id :: id in transient ==> id in db.sandboxes && db.sandboxes[id].host == h
      requires forall id :: id in transient ==>
               db.sandboxes[id].status in {Starting, Resuming, Pausing, Stopping, Snapshotting}
      requires forall id :: id in transient ==> effs[id] == TransientEffect(id, db.sandboxes[id], h, alive, gone, now)
      requires forall id :: id in transient ==> (id in gone <==> agent(id) != Unavailable)
      modifies db
      ensures db.View() == ApplyAll(old(db.View()), Only(effs, transient), now)
    {
      hide ApplyAll, Only, LogOf, WithEffect, TransientEffect;
      ghost var before := db.View();
      ghost var done := {};
      ApplyNoneYet(before, effs, now);
      var todo := transient;
      while todo != {}
        invariant todo <= transient && done == transient - todo
        invariant db.View() == ApplyAll(before, Only(effs, done), now)
        decreases |todo|
      {
        var id := Pick(todo);
        ApplyElsewhere(before, effs, done, now);
        ApplyOne(db.View(), effs, id, now);
        ResolveTransient(id, h, alive, agent, gone, now);
        ApplyMore(before, effs, done, {id}, now);
        done := done + {id};
        todo := todo - {id};
      }
      assert done == transient;
    }

    /** Phase four. */
    method ResolveTransients(h: HostId, alive: Alive, agent: SandboxId -> Rpc, now: Time)
      modifies db
      ensures db.View() == Exec(old(db.View()), Transient(h, alive, Gone(agent, old(db.sandboxes).Keys), now))
    {
      hide Exec, ApplyAll, Only, LogOf, Effects, TransientEffect;
      ghost var before := db.View();
      ghost var gone := Gone(agent, db.sandboxes.Keys);
      ghost var effs := Effects(before, Transient(h, alive, gone, now));
      PhaseExec(before, Transient(h, alive, gone, now));
      var transient := db.ListByHostAndStatus(h, {Starting, Resuming, Pausing, Stopping, Snapshotting});
      forall id | id in transient ensures id in effs && effs[id]
        == TransientEffect(id, before.sandboxes[id], h, alive, gone, now) {
        TransientAt(before, h, alive, gone, now, id);
      }
      ResolveEach(transient, h, alive, agent, now, gone, effs);
      TransientsCover(before, h, alive, gone, now, transient);
    }

    /** The passive part of a check: a stale host goes unreachable and its active sandboxes missing. */
    method MarkHostDown(h: HostId, now: Time)
      modifies db
      ensures db.View() == Run(old(db.View()), [MarkDown(h, now)])
    {
      RecoveryTheorems.RunOne(db.View(), MarkDown(h, now));
      db.MarkHostUnreachable(h);
      db.MarkSandboxesMissingByHost(h, now);
      hide Run, LogOf;
    }

    /** The active part of a check: the four phases. */
    method ReconcileActive(h: HostId, alive: Alive, agent: SandboxId -> Rpc, now: Time)
      modifies db
      ensures db.View() == Run(old(db.View()), ActivePass(h, alive, Gone(agent, old(db.sandboxes).Keys), now))
    {
      ghost var gone := Gone(agent, db.sandboxes.Keys);
      ghost var s1, s2 := Restore(h, alive, now), Sync(h, alive, now);
      ghost var s3, s4 := Zombie(h, alive, gone, now), Transient(h, alive, gone, now);
      hide Exec, Run, Effects, ApplyAll, LogOf;
      FourSteps(db.View(), s1, s2, s3, s4);
      PhaseExec(db.View(), s1);
      RestoreMissing(h, alive, now);
      PhaseExec(db.View(), s2);
      SyncRunning(h, alive, now);
      PhaseExec(db.View(), s3);
      DestroyZombies(h, alive, agent, now);
      ResolveTransients(h, alive, agent, now);
    }

    /** `checkHost`: the whole check of one host. */
    method CheckHost(h: HostId, report: Option<seq<Entry>>, agent: SandboxId -> Rpc, now: Time)
      requires h in db.hosts
      modifies db
      ensures db.View() ==
        RecoveryTheorems.CheckHost(old(db.View()), h, report, Gone(agent, old(db.sandboxes).Keys), now)
    {
      hide Exec, Run, LogOf, AliveOf;
      var host := db.hosts[h];
      var stale := host.heartbeat.None? || now - host.heartbeat.value > UNREACHABLE_AFTER;
      if stale && host.status != Unreachable {
        MarkHostDown(h, now);
      } else if host.status == Online && report.Some? {
        var alive := BuildAlive(report.value);
        ReconcileActive(h, alive, agent, now);
      } else {
        RunNone(db.View());
      }
    }

    /** The status map of one pass. */
    method BuildAlive(report: seq<Entry>) returns (alive: Alive)
      ensures alive == AliveOf(report)
    {
      alive := map[];
      for i := 0 to |report|
        invariant alive == AliveOf(report[..i])
      {
        var seen := match report[i].reported
          case Pausing => None
          case Resuming => None
          case Starting => None
          case Stopping => None
          case Other(text) => if text == "" then None else Some(report[i].reported)
          case other => Some(other);
        alive := alive[report[i].id := seen];
        assert report[..i + 1][..i] == report[..i];
      }
      assert report[..|report|] == report;
    }

    /** The audit helper for a transition inferred after its grace period. */
    method AuditInferred(id: SandboxId, from: Status)
      modifies db`audit, db`sent
      ensures var e := InferredEffect(id, from);
              && LogOf(db.audit) == LogOf(old(db.audit))[id := LogOf(old(db.audit))[id] + e.rows]
              && LogOf(db.sent) == LogOf(old(db.sent))[id := LogOf(old(db.sent))[id] + e.events]
    {
      match from {
        case Starting =>
          db.LogAndPublish(id, AuditRow(ErrorRow, Failed, TransientTimeout),
            Event(Create, Failure, System, Some(id), TransientTimeout));
        case Resuming =>
          db.LogAndPublish(id, AuditRow(ErrorRow, Failed, TransientTimeout),
            Event(Resume, Failure, System, Some(id), TransientTimeout));
        case Pausing =>
          db.LogAndPublish(id, AuditRow(PauseRow, Info, TransientTimeoutInferred),
            Event(Pause, Success, System, Some(id), TransientTimeoutInferred));
        case Snapshotting =>
          db.Log(id, AuditRow(SnapshotRow, Failed, TransientTimeout));
        case Stopping =>
          db.LogAndPublish(id, AuditRow(DestroyRow, Warning, TransientTimeoutInferred),
            Event(Destroy, Success, System, Some(id), TransientTimeoutInferred));
        case _ =>
          AppendNone(LogOf(db.audit), id);
          AppendNone(LogOf(db.sent), id);
      }
      AppendNone(LogOf(db.sent), id);
    }
  }

  lemma Inferred(id: SandboxId, from: Status)
    requires from in {Starting, Resuming, Pausing, Stopping, Snapshotting}
    ensures InferredEffect(id, from).to
            == Some(if from == Pausing then Paused else if from == Stopping then Stopped else Error)
    ensures InferredEffect(id, from).frees <==> from != Pausing
  {
  }

  lemma RunNone(st: State)
    ensures Run(st, []) == st
  {
  }

  lemma AppendNone<T>(log: Log<T>, id: SandboxId)
    ensures log[id := log[id] + []] == log
  {
    assert log[id] + [] == log[id];
  }

  lemma WithNothing(st: State, id: SandboxId, now: Time)
    requires id in st.sandboxes
    ensures WithEffect(st, id, NOTHING, now) == st
    ensures st.audit[id := st.audit[id] + []] == st.audit && st.sent[id := st.sent[id] + []] == st.sent
  {
    assert st.audit[id] + [] == st.audit[id] && st.sent[id] + [] == st.sent[id];
    assert st.audit[id := st.audit[id] + []] == st.audit;
    assert st.sent[id := st.sent[id] + []] == st.sent;
  }

  lemma ZombieAt(st: State, h: HostId, alive: Alive, gone: set<SandboxId>, now: Time, id: SandboxId)
    requires id in st.sandboxes
    ensures id in Effects(st, Zombie(h, alive, gone, now))
    ensures Effects(st, Zombie(h, alive, gone, now))[id] == ZombieEffect(id, st.sandboxes[id], h, alive, gone)
  {
  }

  lemma TransientAt(st: State, h: HostId, alive: Alive, gone: set<SandboxId>, now: Time, id: SandboxId)
    requires id in st.sandboxes
    ensures id in Effects(st, Transient(h, alive, gone, now))
    ensures Effects(st, Transient(h, alive, gone, now))[id]
            == TransientEffect(id, st.sandboxes[id], h, alive, gone, now)
  {
  }

  lemma TransientsCover(st: State, h: HostId, alive: Alive, gone: set<SandboxId>, now: Time, done: set<SandboxId>)
    requires forall id :: (id in done <==> (id in st.sandboxes && st.sandboxes[id].host == h
                                            && st.sandboxes[id].status in {Starting, Resuming, Pausing, Stopping,
                                              Snapshotting}))
    ensures Only(Effects(st, Transient(h, alive, gone, now)), done) == Effects(st, Transient(h, alive, gone, now))
  {
  }

  lemma ZombiesCover(st: State, h: HostId, alive: Alive, gone: set<SandboxId>, now: Time, done: set<SandboxId>)
    requires forall id :: (id in st.sandboxes && st.sandboxes[id].host == h && st.sandboxes[id].status == Stopped
                           && id in alive && alive[id] == Some(Paused)) ==> id in done
    ensures Only(Effects(st, Zombie(h, alive, gone, now)), done) == Effects(st, Zombie(h, alive, gone, now))
  {
  }
}
