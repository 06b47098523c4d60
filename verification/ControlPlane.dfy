/** The tables of the control plane as one mutable object: a method per SQL statement and audit helper. */
module ControlPlane {
  import opened Records
  import Volumes
  import opened Reconcile

  ghost function LogOf<T>(m: map<SandboxId, seq<T>>): Log<T> {
    imap id: SandboxId :: if id in m then m[id] else []
  }

  function Added<T>(m: map<SandboxId, seq<T>>, id: SandboxId, x: T): map<SandboxId, seq<T>> {
    m[id := (if id in m then m[id] else []) + [x]]
  }

  function WithStatus(rows: map<SandboxId, Sandbox>, ids: set<SandboxId>, to: Status,
                      now: Time): map<SandboxId, Sandbox> {
    map id | id in rows :: if id in ids then rows[id].(status := to, lastUpdated := Some(now)) else rows[id]
  }

  function MissingAmong(rows: map<SandboxId, Sandbox>, ids: set<SandboxId>): set<SandboxId> {
    set id | id in ids && id in rows && rows[id].status == Missing
  }

  function OneIf<T>(ids: set<SandboxId>, id: SandboxId, x: T): seq<T> {
    if id in ids then [x] else []
  }

  ghost function RowForEach(log: Log<AuditRow>, ids: set<SandboxId>, row: AuditRow): Log<AuditRow> {
    imap id: SandboxId :: log[id] + OneIf(ids, id, row)
  }

  ghost function EventForEach(log: Log<Event>, ids: set<SandboxId>, kind: Kind, reason: Reason): Log<Event> {
    imap id: SandboxId :: log[id] + OneIf(ids, id, Event(kind, Success, System, Some(id), reason))
  }

  lemma NoneForEach(audit: Log<AuditRow>, row: AuditRow, sent: Log<Event>, kind: Kind, reason: Reason)
    ensures RowForEach(audit, {}, row) == audit && EventForEach(sent, {}, kind, reason) == sent
  {
    NoRowForEach(audit, row);
    NoEventForEach(sent, kind, reason);
    hide RowForEach, EventForEach;
  }

  lemma NoRowForEach(audit: Log<AuditRow>, row: AuditRow)
    ensures RowForEach(audit, {}, row) == audit
  {
    forall id ensures RowForEach(audit, {}, row)[id] == audit[id] {
      assert audit[id] + [] == audit[id];
    }
  }

  lemma NoEventForEach(sent: Log<Event>, kind: Kind, reason: Reason)
    ensures EventForEach(sent, {}, kind, reason) == sent
  {
    forall id ensures EventForEach(sent, {}, kind, reason)[id] == sent[id] {
      assert sent[id] + [] == sent[id];
    }
  }

  lemma OneMore(audit: Log<AuditRow>, done: set<SandboxId>, id: SandboxId, row: AuditRow,
                sent: Log<Event>, kind: Kind, reason: Reason)
    requires id !in done
    ensures RowForEach(audit, done + {id}, row)
         == RowForEach(audit, done, row)[id := RowForEach(audit, done, row)[id] + [row]]
    ensures EventForEach(sent, done + {id}, kind, reason)
         == EventForEach(sent, done, kind, reason)
              [id := EventForEach(sent, done, kind, reason)[id] + [Event(kind, Success, System, Some(id), reason)]]
  {
    assert audit[id] + [] == audit[id] && sent[id] + [] == sent[id];
  }

  class Database {
    var hosts: map<HostId, Host>
    var sandboxes: map<SandboxId, Sandbox>
    var volumes: Volumes.Rows
    var audit: map<SandboxId, seq<AuditRow>>
    var sent: map<SandboxId, seq<Event>>

    ghost function View(): State
      reads this
    {
      State(hosts, sandboxes, volumes, LogOf(audit), LogOf(sent))
    }

    // ---- sandboxes ----

    method ListByHostAndStatus(h: HostId, statuses: set<Status>) returns (ids: set<SandboxId>)
      ensures forall id :: id in ids <==> id in sandboxes && sandboxes[id].host == h && sandboxes[id].status in statuses
    {
      ids := set id | id in sandboxes && sandboxes[id].host == h && sandboxes[id].status in statuses;
    }

    method BulkRestoreMissingToStatus(ids: set<SandboxId>, to: Status, now: Time)
      modifies `sandboxes
      ensures sandboxes == WithStatus(old(sandboxes), MissingAmong(old(sandboxes), ids), to, now)
    {
      sandboxes := map id | id in sandboxes ::
        if id in ids && sandboxes[id].status == Missing
        then sandboxes[id].(status := to, lastUpdated := Some(now)) else sandboxes[id];
    }

    method BulkUpdateStatusByIDs(ids: set<SandboxId>, to: Status, now: Time)
      modifies `sandboxes
      ensures sandboxes == WithStatus(old(sandboxes), ids, to, now)
    {
      sandboxes := map id | id in sandboxes ::
        if id in ids then sandboxes[id].(status := to, lastUpdated := Some(now)) else sandboxes[id];
    }

    /** Fails, with no row, unless the row exists and still has the expected status. */
    method UpdateStatusIf(id: SandboxId, from: Status, to: Status, now: Time) returns (ok: bool)
      modifies `sandboxes
      ensures ok <==> id in old(sandboxes) && old(sandboxes)[id].status == from
      ensures sandboxes == if ok then old(sandboxes)[id := old(sandboxes)[id].(status := to, lastUpdated := Some(now))]
                           else old(sandboxes)
    {
      ok := id in sandboxes && sandboxes[id].status == from;
      if ok {
        sandboxes := sandboxes[id := sandboxes[id].(status := to, lastUpdated := Some(now))];
      }
    }

    method MarkSandboxesMissingByHost(h: HostId, now: Time)
      modifies `sandboxes
      ensures sandboxes == map id | id in old(sandboxes) :: MarkMissing(old(sandboxes)[id], h, now)
    {
      sandboxes := map id | id in sandboxes ::
        if sandboxes[id].host == h && sandboxes[id].status in {Running, Starting, Pending, Pausing, Resuming, Stopping}
        then sandboxes[id].(status := Missing, lastUpdated := Some(now)) else sandboxes[id];
    }

    // ---- hosts ----

    method MarkHostUnreachable(h: HostId)
      modifies `hosts
      ensures hosts == if h in old(hosts) then old(hosts)[h := old(hosts)[h].(status := Unreachable)] else old(hosts)
    {
      if h in hosts {
        hosts := hosts[h := hosts[h].(status := Unreachable)];
      }
    }

    /** A heartbeat; returns the number of hosts updated. */
    method UpdateHostHeartbeatAndStatus(h: HostId, now: Time) returns (n: nat)
      modifies `hosts
      ensures n == if h in old(hosts) then 1 else 0
      ensures View() == Exec(old(View()), Heartbeat(h, now))
    {
      n := 0;
      if h in hosts {
        var status := if hosts[h].status == Unreachable then Online else hosts[h].status;
        hosts := hosts[h := Host(status, Some(now))];
        n := 1;
      }
    }

    // ---- volumes ----

    method ReserveVolumeForAttach(v: VolumeId, now: Time) returns (claimed: Option<Volumes.Volume>)
      modifies `volumes
      ensures volumes == Volumes.Exec(old(volumes), Volumes.Reserve(v), now)
      ensures claimed.Some? <==> Volumes.Grants(old(volumes), Volumes.Reserve(v), v)
      ensures claimed.Some? ==> v in volumes && claimed.value == volumes[v]
    {
      claimed := None;
      if v in volumes && volumes[v].status == Volumes.Detached {
        volumes := volumes[v := volumes[v].(status := Volumes.Attaching, lastUpdated := now)];
        claimed := Some(volumes[v]);
      }
    }

    method LinkVolumeReservation(v: VolumeId, sandbox: SandboxId, now: Time)
      modifies `volumes
      ensures volumes == Volumes.Exec(old(volumes), Volumes.Link(v, sandbox), now)
    {
      if v in volumes && volumes[v].status == Volumes.Attaching {
        volumes := volumes[v := volumes[v].(sandbox := Some(sandbox), lastUpdated := now)];
      }
    }

    method MarkVolumeAttached(v: VolumeId, h: HostId, sandbox: SandboxId, path: string, now: Time)
      returns (attached: Option<Volumes.Volume>)
      modifies `volumes
      ensures volumes == Volumes.Exec(old(volumes), Volumes.MarkAttached(v, h, sandbox, path), now)
      ensures attached.Some? <==> v in old(volumes) && old(volumes)[v].status == Volumes.Attaching
      ensures attached.Some? ==> v in volumes && attached.value == volumes[v]
    {
      attached := None;
      if v in volumes && volumes[v].status == Volumes.Attaching {
        var pin := if volumes[v].host.Some? then volumes[v].host else Some(h);
        volumes := volumes[v := volumes[v].(status := Volumes.Attached, host := pin, sandbox := Some(sandbox),
                                            mountPath := path, lastAttached := Some(now), lastUpdated := now)];
        attached := Some(volumes[v]);
      }
    }

    method ReleaseVolumeReservation(v: VolumeId, now: Time)
      modifies `volumes
      ensures volumes == Volumes.Exec(old(volumes), Volumes.Release(v), now)
    {
      if v in volumes && volumes[v].status == Volumes.Attaching {
        volumes := volumes[v := volumes[v].(status := Volumes.Detached, sandbox := None, lastUpdated := now)];
      }
    }

    method BeginVolumeDelete(v: VolumeId, team: TeamId, now: Time) returns (claimed: Option<Volumes.Volume>)
      modifies `volumes
      ensures volumes == Volumes.Exec(old(volumes), Volumes.BeginDelete(v, team), now)
      ensures claimed.Some? <==> Volumes.Grants(old(volumes), Volumes.BeginDelete(v, team), v)
      ensures claimed.Some? ==> v in volumes && claimed.value == volumes[v]
    {
      claimed := None;
      if v in volumes && volumes[v].team == team && volumes[v].status in {Volumes.Detached, Volumes.Deleting} {
        volumes := volumes[v := volumes[v].(status := Volumes.Deleting, lastUpdated := now)];
        claimed := Some(volumes[v]);
      }
    }

    method AbortVolumeDelete(v: VolumeId, now: Time)
      modifies `volumes
      ensures volumes == Volumes.Exec(old(volumes), Volumes.AbortDelete(v), now)
    {
      if v in volumes && volumes[v].status == Volumes.Deleting {
        volumes := volumes[v := volumes[v].(status := Volumes.Detached, lastUpdated := now)];
      }
    }

    method DeleteVolumeRow(v: VolumeId, team: TeamId, now: Time)
      modifies `volumes
      ensures volumes == Volumes.Exec(old(volumes), Volumes.FinishDelete(v, team), now)
    {
      if v in volumes && volumes[v].team == team && volumes[v].status == Volumes.Deleting {
        volumes := volumes - {v};
      }
    }

    method DetachVolumesBySandboxIDs(ids: set<SandboxId>, now: Time)
      modifies `volumes
      ensures volumes == FreeVolumes(old(volumes), ids, now)
    {
      volumes := map v | v in volumes ::
        if volumes[v].sandbox.Some? && volumes[v].sandbox.value in ids
          && volumes[v].status in {Volumes.Attached, Volumes.Attaching}
        then volumes[v].(status := Volumes.Detached, sandbox := None, mountPath := "", lastUpdated := now)
        else volumes[v];
    }

    /** Returns the number of rows released. */
    method ReleaseStaleVolumeReservations(cutoff: Time, now: Time) returns (n: nat)
      modifies `volumes
      ensures volumes == Volumes.Exec(old(volumes), Volumes.ReleaseStale(cutoff), now)
      ensures n == |set v | v in old(volumes) && volumes[v] != old(volumes)[v]|
    {
      var before := volumes;
      var stale := set v | v in volumes && volumes[v].status in {Volumes.Attaching, Volumes.Deleting}
                           && volumes[v].sandbox.None? && volumes[v].lastUpdated < cutoff;
      volumes := map v | v in volumes ::
        if v in stale then volumes[v].(status := Volumes.Detached, mountPath := "", lastUpdated := now) else volumes[v];
      n := |stale|;
      assert (set v | v in before && volumes[v] != before[v]) == stale;
    }

    // ---- audit log ----

    method Log(id: SandboxId, row: AuditRow)
      modifies `audit
      ensures LogOf(audit) == LogOf(old(audit))[id := LogOf(old(audit))[id] + [row]]
    {
      audit := Added(audit, id, row);
    }

    method Publish(id: SandboxId, e: Event)
      modifies `sent
      ensures LogOf(sent) == LogOf(old(sent))[id := LogOf(old(sent))[id] + [e]]
    {
      sent := Added(sent, id, e);
    }

    /** `LogSandboxAutoPause`, `LogSandboxDestroySystem` and the other helpers that write one row and publish one
        event. */
    method LogAndPublish(id: SandboxId, row: AuditRow, e: Event)
      modifies `audit, `sent
      ensures LogOf(audit) == LogOf(old(audit))[id := LogOf(old(audit))[id] + [row]]
      ensures LogOf(sent) == LogOf(old(sent))[id := LogOf(old(sent))[id] + [e]]
    {
      Log(id, row);
      Publish(id, e);
    }

    /** One of those helpers for each of several sandboxes. */
    method LogEach(ids: set<SandboxId>, row: AuditRow, kind: Kind, reason: Reason)
      modifies `audit, `sent
      ensures LogOf(audit) == RowForEach(LogOf(old(audit)), ids, row)
      ensures LogOf(sent) == EventForEach(LogOf(old(sent)), ids, kind, reason)
    {
      var todo := ids;
      hide LogOf, RowForEach, EventForEach;
      NoneForEach(LogOf(audit), row, LogOf(sent), kind, reason);
      assert ids - todo == {};
      while todo != {}
        invariant todo <= ids
        invariant LogOf(audit) == RowForEach(LogOf(old(audit)), ids - todo, row)
        invariant LogOf(sent) == EventForEach(LogOf(old(sent)), ids - todo, kind, reason)
        decreases |todo|
      {
        var id := Pick(todo);
        ghost var done := ids - todo;
        OneMore(LogOf(old(audit)), done, id, row, LogOf(old(sent)), kind, reason);
        LogAndPublish(id, row, Event(kind, Success, System, Some(id), reason));
        todo := todo - {id};
        assert ids - todo == done + {id};
      }
      assert ids - todo == ids;
    }
  }
}
