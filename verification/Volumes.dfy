/**
The `volumes` table as a guarded state machine: one `Stmt` per SQL statement, each
acting on every row independently. The theorems quantify over every sequence of
statements, that is, over every interleaving of creates, deletes, the reaper, the
host monitor and the event consumer.
*/
module Volumes {
  import opened Records

  datatype VolumeStatus = Detached | Attaching | Attached | Deleting

  datatype Volume = Volume(
    team: TeamId,
    host: Option<HostId>,
    status: VolumeStatus,
    sandbox: Option<SandboxId>,
    mountPath: string,
    lastAttached: Option<Time>,
    lastUpdated: Time)

  type Rows = map<VolumeId, Volume>

  datatype Stmt =
    | Insert(id: VolumeId, team: TeamId)
    | Reserve(id: VolumeId)
    | Link(id: VolumeId, sandbox: SandboxId)
    | MarkAttached(id: VolumeId, host: HostId, sandbox: SandboxId, mountPath: string)
    | Release(id: VolumeId)
    | ReleaseStale(cutoff: Time)
    | DetachBySandboxes(sandboxes: set<SandboxId>)
    | DetachByHost(host: HostId)
    | BeginDelete(id: VolumeId, team: TeamId)
    | AbortDelete(id: VolumeId)
    | FinishDelete(id: VolumeId, team: TeamId)
    | DeleteByTeam(team: TeamId)

  /** What detaching the volumes of these sandboxes does to a row. */
  function DetachedFrom(row: Volume, sandboxes: set<SandboxId>, now: Time): Volume {
    if row.sandbox.Some? && row.sandbox.value in sandboxes && row.status in {Attached, Attaching}
    then row.(status := Detached, sandbox := None, mountPath := "", lastUpdated := now) else row
  }

  /** The row after one statement; `None` when the statement deletes it. */
  function RowAfter(id: VolumeId, row: Volume, s: Stmt, now: Time): Option<Volume> {
    match s
    case Insert(_, _) => Some(row)
    case Reserve(v) =>
      if id == v && row.status == Detached
      then Some(row.(status := Attaching, lastUpdated := now)) else Some(row)
    case Link(v, sb) =>
      if id == v && row.status == Attaching
      then Some(row.(sandbox := Some(sb), lastUpdated := now)) else Some(row)
    case MarkAttached(v, h, sb, path) =>
      if id == v && row.status == Attaching
      then Some(row.(status := Attached, host := if row.host.Some? then row.host else Some(h),
                     sandbox := Some(sb), mountPath := path,
                     lastAttached := Some(now), lastUpdated := now))
      else Some(row)
    case Release(v) =>
      if id == v && row.status == Attaching
      then Some(row.(status := Detached, sandbox := None, lastUpdated := now)) else Some(row)
    case ReleaseStale(cutoff) =>
      if row.status in {Attaching, Deleting} && row.sandbox.None? && row.lastUpdated < cutoff
      then Some(row.(status := Detached, mountPath := "", lastUpdated := now)) else Some(row)
    case DetachBySandboxes(sbs) => Some(DetachedFrom(row, sbs, now))
    case DetachByHost(h) =>
      if row.host == Some(h)
      then Some(row.(status := Detached, sandbox := None, host := None, mountPath := "", lastUpdated := now))
        else Some(row)
    case BeginDelete(v, t) =>
      if id == v && row.team == t && row.status in {Detached, Deleting}
      then Some(row.(status := Deleting, lastUpdated := now)) else Some(row)
    case AbortDelete(v) =>
      if id == v && row.status == Deleting
      then Some(row.(status := Detached, lastUpdated := now)) else Some(row)
    case FinishDelete(v, t) =>
      if id == v && row.team == t && row.status == Deleting then None else Some(row)
    case DeleteByTeam(t) =>
      if row.team == t then None else Some(row)
  }

  function Exec(rows: Rows, s: Stmt, now: Time): Rows {
    var kept := map id | id in rows && RowAfter(id, rows[id], s, now).Some? :: RowAfter(id, rows[id], s, now).value;
    if s.Insert? && s.id !in rows
    then kept[s.id := Volume(s.team, None, Detached, None, "", None, now)]
    else kept
  }

  datatype Timed = Timed(at: Time, stmt: Stmt)

  /** The table after a whole run. */
  function After(rows: Rows, run: seq<Timed>): Rows {
    if run == [] then rows
    else
      var last := run[|run| - 1];
      Exec(After(rows, run[..|run| - 1]), last.stmt, last.at)
  }

  /** The table just before statement `k` of the run. */
  function Before(rows: Rows, run: seq<Timed>, k: nat): Rows
    requires k <= |run|
  {
    After(rows, run[..k])
  }

  lemma BeforeNext(rows: Rows, run: seq<Timed>, k: nat)
    requires k < |run|
    ensures Before(rows, run, k + 1) == Exec(Before(rows, run, k), run[k].stmt, run[k].at)
  {
    assert run[..k + 1][..k] == run[..k];
  }

  // ---- What every reachable row looks like ----

  /** A detached or deleting row carries no capsule and no mount path, an unpromoted
      reservation no mount path, and an attached row carries its capsule and its host pin. */
  predicate RowOk(row: Volume) {
    && (row.status in {Detached, Deleting} ==> row.sandbox.None?)
    && (row.status != Attached ==> row.mountPath == "")
    && (row.status == Attached ==> row.sandbox.Some? && row.host.Some?)
  }

  predicate AllOk(rows: Rows) {
    forall id :: id in rows ==> RowOk(rows[id])
  }

  lemma RowStaysOk(id: VolumeId, row: Volume, s: Stmt, now: Time)
    requires RowOk(row) && RowAfter(id, row, s, now).Some?
    ensures RowOk(RowAfter(id, row, s, now).value)
  {
  }

  lemma StatementKeepsRowsOk(rows: Rows, s: Stmt, now: Time)
    requires AllOk(rows)
    ensures AllOk(Exec(rows, s, now))
  {
    forall id | id in rows && RowAfter(id, rows[id], s, now).Some?
      ensures RowOk(RowAfter(id, rows[id], s, now).value)
    {
      RowStaysOk(id, rows[id], s, now);
    }
  }

  lemma {:induction false} RunsKeepRowsOk(rows: Rows, run: seq<Timed>)
    requires AllOk(rows)
    ensures AllOk(After(rows, run))
  {
    if run != [] {
      RunsKeepRowsOk(rows, run[..|run| - 1]);
      var last := run[|run| - 1];
      StatementKeepsRowsOk(After(rows, run[..|run| - 1]), last.stmt, last.at);
    }
  }

  // ---- Exclusive claims ----

  datatype Side = Free | ForAttach | ForDelete

  /** Who holds the volume: nobody, a capsule create or a delete. */
  function SideOf(rows: Rows, v: VolumeId): Side {
    if v !in rows || rows[v].status == Detached then Free
    else if rows[v].status == Deleting then ForDelete
    else ForAttach
  }

  /** Statement `s` returns the row, which tells the caller that it now owns the volume. */
  predicate Grants(rows: Rows, s: Stmt, v: VolumeId) {
    v in rows &&
    match s
    case Reserve(id) => id == v && rows[v].status == Detached
    case BeginDelete(id, t) => id == v && rows[v].team == t && rows[v].status in {Detached, Deleting}
    case _ => false
  }

  function SideGranted(s: Stmt): Side {
    if s.Reserve? then ForAttach else if s.BeginDelete? then ForDelete else Free
  }

  /** The statements that may take a held volume away from its holder. */
  predicate Releasing(held: Side, s: Stmt, v: VolumeId) {
    match s
    case Release(id) => held == ForAttach && id == v
    case DetachBySandboxes(_) => held == ForAttach
    case AbortDelete(id) => held == ForDelete && id == v
    case FinishDelete(id, _) => held == ForDelete && id == v
    case ReleaseStale(_) => true
    case DetachByHost(_) => true
    case DeleteByTeam(_) => true
    case _ => false
  }

  lemma OneStatementKeepsHolder(rows: Rows, s: Stmt, now: Time, v: VolumeId)
    requires SideOf(rows, v) != Free
    ensures SideOf(Exec(rows, s, now), v) == SideOf(rows, v)
         || (SideOf(Exec(rows, s, now), v) == Free && Releasing(SideOf(rows, v), s, v))
  {
  }

  /** Statement `k` of the run ends the current claim on `v`. */
  predicate FreesAt(rows: Rows, run: seq<Timed>, v: VolumeId, k: nat)
    requires k < |run|
  {
    && SideOf(Before(rows, run, k), v) != Free
    && SideOf(Before(rows, run, k + 1), v) == Free
    && Releasing(SideOf(Before(rows, run, k), v), run[k].stmt, v)
  }

  lemma {:induction false} HeldUntilFreed(rows: Rows, run: seq<Timed>, v: VolumeId, i: nat, j: nat)
    requires i <= j <= |run|
    requires SideOf(Before(rows, run, i), v) != Free
    requires forall k :: i <= k < j ==> !FreesAt(rows, run, v, k)
    ensures SideOf(Before(rows, run, j), v) == SideOf(Before(rows, run, i), v)
    decreases j
  {
    if i < j {
      HeldUntilFreed(rows, run, v, i, j - 1);
      BeforeNext(rows, run, j - 1);
      OneStatementKeepsHolder(Before(rows, run, j - 1), run[j - 1].stmt, run[j - 1].at, v);
      assert !FreesAt(rows, run, v, j - 1);
    }
  }

  /** Between two grants of one volume, unless both are retries of a delete, some
      statement of the run gave the volume up. */
  lemma ClaimsAreExclusive(rows: Rows, run: seq<Timed>, v: VolumeId, i: nat, j: nat)
    requires i < j < |run|
    requires Grants(Before(rows, run, i), run[i].stmt, v)
    requires Grants(Before(rows, run, j), run[j].stmt, v)
    requires run[i].stmt.Reserve? || run[j].stmt.Reserve?
    ensures exists k :: i < k < j && FreesAt(rows, run, v, k)
  {
    BeforeNext(rows, run, i);
    assert SideOf(Before(rows, run, i + 1), v) == SideGranted(run[i].stmt);
    if forall k :: i < k < j ==> !FreesAt(rows, run, v, k) {
      HeldUntilFreed(rows, run, v, i + 1, j);
      assert false;
    }
  }

  /** A reserved or attached volume's row disappears exactly when its team's volumes are deleted. */
  lemma HeldRowsSurvive(rows: Rows, s: Stmt, now: Time, v: VolumeId)
    requires v in rows && rows[v].status in {Attaching, Attached}
    ensures v !in Exec(rows, s, now) <==> s == DeleteByTeam(rows[v].team)
  {
  }

  // ---- What ends a claim, and what it leaves ----

  /** Exactly when a statement ends the claim that stands. */
  lemma FreedIff(rows: Rows, s: Stmt, now: Time, v: VolumeId)
    requires v in rows && rows[v].status != Detached
    ensures (v !in Exec(rows, s, now) || Exec(rows, s, now)[v].status == Detached) <==>
            match s
            case Release(id) => id == v && rows[v].status == Attaching
            case AbortDelete(id) => id == v && rows[v].status == Deleting
            case FinishDelete(id, t) => id == v && rows[v].team == t && rows[v].status == Deleting
            case DetachBySandboxes(sbs) =>
              rows[v].status in {Attaching, Attached} && rows[v].sandbox.Some? && rows[v].sandbox.value in sbs
            case DetachByHost(h) => rows[v].host == Some(h)
            case ReleaseStale(cutoff) =>
              rows[v].status in {Attaching, Deleting} && rows[v].sandbox.None? && rows[v].lastUpdated < cutoff
            case DeleteByTeam(t) => rows[v].team == t
            case _ => false
  {
  }

  /** However a claim ends, the row left behind is the same: nobody's, unmounted, pinned where it was unless its host
      was given up. */
  lemma FreedRow(rows: Rows, s: Stmt, now: Time, v: VolumeId)
    requires AllOk(rows) && v in rows && rows[v].status != Detached
    requires v in Exec(rows, s, now) && Exec(rows, s, now)[v].status == Detached
    ensures Exec(rows, s, now)[v]
         == rows[v].(status := Detached, sandbox := None, mountPath := "", lastUpdated := now,
                     host := if s.DetachByHost? then None else rows[v].host)
  {
    assert RowOk(rows[v]);
  }

  /** A detached row is claimed by exactly its own reservation or its own team's delete; apart from that it can lose its
      pin or be deleted with its team, and nothing else happens to it. */
  lemma DetachedRowOutcome(rows: Rows, s: Stmt, now: Time, v: VolumeId)
    requires AllOk(rows) && v in rows && rows[v].status == Detached
    ensures var row, after := rows[v], Exec(rows, s, now);
            if s == DeleteByTeam(row.team) then v !in after
            else
              && v in after
              && after[v]
                 == if s == Reserve(v) then row.(status := Attaching, lastUpdated := now)
                    else if s == BeginDelete(v, row.team) then row.(status := Deleting, lastUpdated := now)
                    else if s.DetachByHost? && row.host == Some(s.host) then row.(host := None, lastUpdated := now)
                    else row
  {
    assert RowOk(rows[v]);
  }

  /** While a claim stands, only its own create or delete writes to the row. */
  lemma HeldRowOutcome(rows: Rows, s: Stmt, now: Time, v: VolumeId)
    requires v in rows && rows[v].status != Detached
    requires v in Exec(rows, s, now) && Exec(rows, s, now)[v].status != Detached
    ensures var row := rows[v];
            Exec(rows, s, now)[v]
            == if s.Link? && s.id == v && row.status == Attaching
               then row.(sandbox := Some(s.sandbox), lastUpdated := now)
               else if s.MarkAttached? && s.id == v && row.status == Attaching
               then Volume(row.team, if row.host.Some? then row.host else Some(s.host), Attached, Some(s.sandbox),
                           s.mountPath, Some(now), now)
               else if s == BeginDelete(v, row.team) && row.status == Deleting then row.(lastUpdated := now)
               else row
  {
  }

  /** A row appears exactly by its insert, free and unpinned. */
  lemma InsertedIff(rows: Rows, s: Stmt, now: Time, v: VolumeId)
    requires v !in rows
    ensures v in Exec(rows, s, now) <==> s.Insert? && s.id == v
    ensures v in Exec(rows, s, now) ==> Exec(rows, s, now)[v] == Volume(s.team, None, Detached, None, "", None, now)
  {
  }

  /** From the reservation at `i` on, as long as nobody gives the volume up and it is not promoted, the row is the one
      before the reservation but for its status, its sandbox and its timestamp. */
  lemma {:induction false} CreateWindow(rows: Rows, run: seq<Timed>, v: VolumeId, i: nat, k: nat)
    requires i < k <= |run| && AllOk(rows)
    requires run[i].stmt.Reserve? && Grants(Before(rows, run, i), run[i].stmt, v)
    requires forall m :: i < m < k ==> !FreesAt(rows, run, v, m)
    requires forall m :: i < m < k ==> !(run[m].stmt.MarkAttached? && run[m].stmt.id == v)
    ensures v in Before(rows, run, k)
    ensures var row := Before(rows, run, k)[v];
            Before(rows, run, i)[v].(status := Attaching, sandbox := row.sandbox, lastUpdated := row.lastUpdated) == row
    decreases k
  {
    var last := k - 1;
    BeforeNext(rows, run, last);
    if i == last {
      return;
    }
    CreateWindow(rows, run, v, i, last);
    var table, s, now := Before(rows, run, last), run[last].stmt, run[last].at;
    hide Exec, RowAfter, Before;
    OneStatementKeepsHolder(table, s, now, v);
    assert !FreesAt(rows, run, v, last);
    HeldRowOutcome(table, s, now, v);
  }

  /** A create that fails leaves no trace: whatever else happened meanwhile, linked or not, releasing the reservation
      puts the row back as it was before, but for its timestamp. */
  lemma FailedCreateRestores(rows: Rows, run: seq<Timed>, v: VolumeId, i: nat, j: nat)
    requires i < j < |run| && AllOk(rows)
    requires run[i].stmt.Reserve? && Grants(Before(rows, run, i), run[i].stmt, v)
    requires forall m :: i < m < j ==> !FreesAt(rows, run, v, m)
    requires forall m :: i < m < j ==> !(run[m].stmt.MarkAttached? && run[m].stmt.id == v)
    requires run[j].stmt == Release(v)
    ensures v in Before(rows, run, j + 1)
    ensures Before(rows, run, j + 1)[v] == Before(rows, run, i)[v].(lastUpdated := run[j].at)
  {
    RunsKeepRowsOk(rows, run[..i]);
    RunsKeepRowsOk(rows, run[..j]);
    CreateWindow(rows, run, v, i, j);
    BeforeNext(rows, run, j);
    assert RowOk(Before(rows, run, i)[v]);
    var table, s, now := Before(rows, run, j), run[j].stmt, run[j].at;
    HeldRowsSurvive(table, s, now, v);
    FreedIff(table, s, now, v);
    FreedRow(table, s, now, v);
  }

  /** A create that succeeds: the row is attached to its sandbox at its path, and pinned where it was pinned before, if
      anywhere. */
  lemma SuccessfulCreateAttaches(rows: Rows, run: seq<Timed>, v: VolumeId, i: nat, j: nat)
    requires i < j < |run| && AllOk(rows)
    requires run[i].stmt.Reserve? && Grants(Before(rows, run, i), run[i].stmt, v)
    requires forall m :: i < m < j ==> !FreesAt(rows, run, v, m)
    requires forall m :: i < m < j ==> !(run[m].stmt.MarkAttached? && run[m].stmt.id == v)
    requires run[j].stmt.MarkAttached? && run[j].stmt.id == v
    ensures v in Before(rows, run, j + 1)
    ensures var was, s := Before(rows, run, i)[v], run[j].stmt;
            Before(rows, run, j + 1)[v]
            == Volume(was.team, if was.host.Some? then was.host else Some(s.host), Attached, Some(s.sandbox),
                      s.mountPath, Some(run[j].at), run[j].at)
  {
    CreateWindow(rows, run, v, i, j);
    BeforeNext(rows, run, j);
    var table, s, now := Before(rows, run, j), run[j].stmt, run[j].at;
    HeldRowsSurvive(table, s, now, v);
    FreedIff(table, s, now, v);
    HeldRowOutcome(table, s, now, v);
  }

  // ---- Host pins ----

  /** While a row lives, its host pin, once set, changes only through `DetachByHost` of that host. */
  lemma {:induction false} PinChangesOnlyByHostDetach(rows: Rows, run: seq<Timed>, v: VolumeId, h: HostId, j: nat)
    requires j <= |run|
    requires v in rows && rows[v].host == Some(h)
    requires forall k :: 0 <= k <= j ==> v in Before(rows, run, k)
    ensures Before(rows, run, j)[v].host == Some(h) || exists k :: 0 <= k < j && run[k].stmt == DetachByHost(h)
    decreases j
  {
    if j > 0 {
      PinChangesOnlyByHostDetach(rows, run, v, h, j - 1);
      BeforeNext(rows, run, j - 1);
      assert v in Before(rows, run, j - 1);
    }
  }

  // ---- The reaper ----

  const STALE_AFTER: Time := 30 * MINUTE
  const CREATE_TIMEOUT: Time := 10 * MINUTE

  predicate InOrder(run: seq<Timed>) {
    forall i, j :: 0 <= i < j < |run| ==> run[i].at <= run[j].at
  }

  /** Every sweep of the run uses the cutoff the reaper computes: now minus the grace. */
  predicate SweepsUseGrace(run: seq<Timed>) {
    forall i :: 0 <= i < |run| && run[i].stmt.ReleaseStale? ==> run[i].stmt.cutoff == run[i].at - STALE_AFTER
  }

  /** The statements by which a create ends the window in which its reservation is unattributed. */
  predicate Settles(s: Stmt, v: VolumeId) {
    match s
    case Link(id, _) => id == v
    case MarkAttached(id, _, _, _) => id == v
    case Release(id) => id == v
    case _ => false
  }

  /** Step `i` is the reserve behind the reservation of `v` that stands before step `s`. */
  predicate StandingReserve(rows: Rows, run: seq<Timed>, v: VolumeId, i: nat, s: nat)
    requires i < s <= |run|
  {
    && run[i].stmt.Reserve? && Grants(Before(rows, run, i), run[i].stmt, v)
    && forall k :: i < k < s ==> !FreesAt(rows, run, v, k)
  }

  /** The create that reserved at `i` is live at step `s`: it settles within the create timeout, or the timeout has not
      passed yet. */
  predicate LiveCreate(run: seq<Timed>, v: VolumeId, i: nat, s: nat)
    requires i < s < |run|
  {
    || run[s].at <= run[i].at + CREATE_TIMEOUT
    || exists k :: i < k < |run| && run[k].at <= run[i].at + CREATE_TIMEOUT && Settles(run[k].stmt, v)
  }

  /** `v` is reserved for a create that has not yet named its capsule. */
  predicate Unattributed(rows: Rows, v: VolumeId) {
    v in rows && rows[v].status == Attaching && rows[v].sandbox.None?
  }

  /** A row becomes unattributed only by being granted, and stays so only if its create does not settle. */
  lemma UnattributedStep(rows: Rows, s: Stmt, now: Time, v: VolumeId)
    requires AllOk(rows) && Unattributed(Exec(rows, s, now), v)
    ensures if Unattributed(rows, v) then !Settles(s, v) && Exec(rows, s, now)[v] == rows[v]
            else s.Reserve? && Grants(rows, s, v) && Exec(rows, s, now)[v].lastUpdated == now
  {
    assert v in rows && RowOk(rows[v]);
  }

  /** Between `i` and `n` the create does not settle and nobody gives the volume up. */
  predicate Quiet(rows: Rows, run: seq<Timed>, v: VolumeId, i: nat, n: nat)
    requires n <= |run|
  {
    forall k :: i < k < n ==> !Settles(run[k].stmt, v) && !FreesAt(rows, run, v, k)
  }

  /** An unattributed reservation is exactly as old as the grant that made it, and its
      create has not settled since. */
  lemma {:induction false} ReservationAge(rows: Rows, run: seq<Timed>, v: VolumeId, n: nat) returns (i: nat)
    requires n <= |run|
    requires AllOk(rows) && !Unattributed(rows, v)
    requires Unattributed(Before(rows, run, n), v)
    ensures i < n && run[i].stmt.Reserve? && Grants(Before(rows, run, i), run[i].stmt, v)
    ensures Before(rows, run, n)[v].lastUpdated == run[i].at
    ensures Quiet(rows, run, v, i, n)
    decreases n
  {
    assert n > 0;
    assert Quiet(rows, run, v, n - 1, n);
    hide Before, FreesAt, Exec, AllOk, Grants, Settles, Quiet;
    BeforeNext(rows, run, n - 1);
    BeforeIsOk(rows, run, n - 1);
    UnattributedStep(Before(rows, run, n - 1), run[n - 1].stmt, run[n - 1].at, v);
    if Unattributed(Before(rows, run, n - 1), v) {
      i := ReservationAge(rows, run, v, n - 1);
      QuietNext(rows, run, v, i, n);
    } else {
      i := n - 1;
    }
  }

  lemma QuietNext(rows: Rows, run: seq<Timed>, v: VolumeId, i: nat, n: nat)
    requires 0 < n <= |run| && Quiet(rows, run, v, i, n - 1)
    requires !Settles(run[n - 1].stmt, v) && Unattributed(Before(rows, run, n), v)
    ensures Quiet(rows, run, v, i, n)
  {
    hide Before, Settles;
  }

  lemma BeforeIsOk(rows: Rows, run: seq<Timed>, k: nat)
    requires AllOk(rows) && k <= |run|
    ensures AllOk(Before(rows, run, k))
  {
    RunsKeepRowsOk(rows, run[..k]);
  }

  /** Timed safety: no sweep frees a reservation whose create is live, whatever became of earlier creates that
      reserved the same volume. */
  lemma ReaperSparesLiveCreates(rows: Rows, run: seq<Timed>, v: VolumeId, s: nat)
    requires AllOk(rows) && !Unattributed(rows, v)
    requires InOrder(run) && SweepsUseGrace(run)
    requires s < |run| && run[s].stmt.ReleaseStale?
    requires SideOf(Before(rows, run, s), v) == ForAttach
    requires forall i :: 0 <= i < s && StandingReserve(rows, run, v, i, s) ==> LiveCreate(run, v, i, s)
    ensures v in Before(rows, run, s + 1) && Before(rows, run, s + 1)[v] == Before(rows, run, s)[v]
  {
    BeforeNext(rows, run, s);
    if Unattributed(Before(rows, run, s), v) {
      var i := ReservationAge(rows, run, v, s);
      assert StandingReserve(rows, run, v, i, s);
      assert run[s].at <= run[i].at + CREATE_TIMEOUT;
    }
  }

  /** Until the cutoff passes an abandoned row stays put, and the first sweep past it frees the row. */
  lemma {:induction false} FirstLateSweepFrees(rows: Rows, run: seq<Timed>, v: VolumeId, n: nat)
    requires SweepsUseGrace(run) && n < |run|
    requires v in rows && rows[v].status in {Attaching, Deleting} && rows[v].sandbox.None?
    // nobody else touches the abandoned row
    requires forall k :: 0 <= k < n ==>
      run[k].stmt.ReleaseStale? || RowAfter(v, rows[v], run[k].stmt, run[k].at) == Some(rows[v])
    requires run[n].stmt.ReleaseStale? && run[n].at > rows[v].lastUpdated + STALE_AFTER
    requires forall k :: 0 <= k < n && run[k].stmt.ReleaseStale? ==> run[k].at <= rows[v].lastUpdated + STALE_AFTER
    ensures v in Before(rows, run, n) && Before(rows, run, n)[v] == rows[v]
    ensures v in Before(rows, run, n + 1)
    ensures Before(rows, run, n + 1)[v] == rows[v].(status := Detached, mountPath := "", lastUpdated := run[n].at)
  {
    Undisturbed(rows, run, v, n);
    BeforeNext(rows, run, n);
  }

  lemma {:induction false} Undisturbed(rows: Rows, run: seq<Timed>, v: VolumeId, n: nat)
    requires v in rows && n <= |run|
    requires forall k :: 0 <= k < n ==> RowAfter(v, rows[v], run[k].stmt, run[k].at) == Some(rows[v])
    ensures v in Before(rows, run, n) && Before(rows, run, n)[v] == rows[v]
    decreases n
  {
    if n > 0 {
      Undisturbed(rows, run, v, n - 1);
      BeforeNext(rows, run, n - 1);
    }
  }
}
