/**
The sandbox reconciliation protocol. Several writers race on the sandboxes and
volumes tables: the host monitor (four list-then-write phases per pass), the event
consumer (which may see events twice and out of order), outage marking, heartbeats
and users. Every reconciler step acts on each sandbox independently, so a step is a
map from sandbox to `Effect`; `ApplyAll` lifts the effects to the tables.
*/
module Reconcile {
  import opened Records
  import Volumes

  // ---- Tables ----

  datatype Status =
    | Pending | Starting | Running | Pausing | Paused | Resuming
    | Stopping | Stopped | Snapshotting | Missing | Error
    | Other(text: string)

  datatype Sandbox = Sandbox(host: HostId, status: Status, lastUpdated: Option<Time>)

  datatype HostStatus = Registering | Online | Unreachable | Offline | Draining
  datatype Host = Host(status: HostStatus, heartbeat: Option<Time>)

  datatype Reason =
    | NoReason | TtlExpired | RestoredAfterHostRecovery | HostStateSync
    | TransientTimeout | TransientTimeoutInferred | Orphaned | PausedZombieCleanup
    | DestroyRetry | SnapshotRecovered | CreateFailed | ResumeFailed
    | OtherReason(text: string)

  datatype Action = PauseRow | ErrorRow | DestroyRow | SnapshotRow
  datatype Level = Info | Warning | Failed

  /** A system-actor row of the audit log. */
  datatype AuditRow = AuditRow(action: Action, level: Level, reason: Reason)

  datatype Kind = Create | Resume | Pause | Destroy | OtherKind
  datatype Outcome = Success | Failure | NoOutcome
  datatype Actor = System | User | ApiKey

  /** An event of the unified stream; `sandbox` is `None` when its resource ID does not parse. */
  datatype Event = Event(kind: Kind, outcome: Outcome, actor: Actor, sandbox: Option<SandboxId>, reason: Reason)

  /** For every sandbox ID, what has been appended for that sandbox. */
  type Log<!T> = m: imap<SandboxId, seq<T>> | forall id :: id in m ghost witness imap id: SandboxId :: []

  /** The database and the event stream. Audit rows and published events are kept per sandbox. */
  datatype State = State(
    hosts: map<HostId, Host>,
    sandboxes: map<SandboxId, Sandbox>,
    volumes: Volumes.Rows,
    audit: Log<AuditRow>,
    sent: Log<Event>)

  // ---- The host's report ----

  /** What a report says of one sandbox, after transient labels are reduced to mere presence. */
  type Alive = map<SandboxId, Option<Status>>

  function Coerce(reported: Status): Option<Status> {
    match reported
    case Pausing => None
    case Resuming => None
    case Starting => None
    case Stopping => None
    case Other(text) => if text == "" then None else Some(reported)
    case _ => Some(reported)
  }

  datatype Entry = Entry(id: SandboxId, reported: Status)

  /** Later entries of a report overwrite earlier ones. */
  function AliveOf(report: seq<Entry>): Alive {
    if report == [] then map[]
    else AliveOf(report[..|report| - 1])[report[|report| - 1].id := Coerce(report[|report| - 1].reported)]
  }

  // ---- Effects ----

  /** What a step does to one sandbox: the status it writes, the audit rows it adds, the
      events it publishes, and whether it frees the sandbox's volumes. */
  datatype Effect = Effect(to: Option<Status>, rows: seq<AuditRow>, events: seq<Event>, frees: bool)

  const NOTHING := Effect(None, [], [], false)

  function Write(row: Sandbox, e: Effect, now: Time): Sandbox {
    if e.to.Some? then row.(status := e.to.value, lastUpdated := Some(now)) else row
  }

  function Freed(effs: map<SandboxId, Effect>): set<SandboxId> {
    set id | id in effs && effs[id].frees
  }

  /** `DetachVolumesBySandboxIDs`: free what the given sandboxes hold. */
  function FreeVolumes(rows: Volumes.Rows, ids: set<SandboxId>, now: Time): Volumes.Rows {
    map v | v in rows :: Volumes.DetachedFrom(rows[v], ids, now)
  }

  lemma FreeVolumesIsStatement(rows: Volumes.Rows, ids: set<SandboxId>, now: Time)
    ensures FreeVolumes(rows, ids, now) == Volumes.Exec(rows, Volumes.DetachBySandboxes(ids), now)
  {
  }

  function RowsOf(effs: map<SandboxId, Effect>, id: SandboxId): seq<AuditRow> {
    if id in effs then effs[id].rows else []
  }

  function EventsOf(effs: map<SandboxId, Effect>, id: SandboxId): seq<Event> {
    if id in effs then effs[id].events else []
  }

  function WriteAll(rows: map<SandboxId, Sandbox>, effs: map<SandboxId, Effect>, now: Time): map<SandboxId, Sandbox> {
    map id | id in rows :: if id in effs then Write(rows[id], effs[id], now) else rows[id]
  }

  ghost function AppendRows(log: Log<AuditRow>, effs: map<SandboxId, Effect>): Log<AuditRow> {
    imap id: SandboxId :: log[id] + RowsOf(effs, id)
  }

  ghost function AppendEvents(log: Log<Event>, effs: map<SandboxId, Effect>): Log<Event> {
    imap id: SandboxId :: log[id] + EventsOf(effs, id)
  }

  ghost function ApplyAll(st: State, effs: map<SandboxId, Effect>, now: Time): State {
    State(
      st.hosts,
      WriteAll(st.sandboxes, effs, now),
      FreeVolumes(st.volumes, Freed(effs), now),
      AppendRows(st.audit, effs),
      AppendEvents(st.sent, effs))
  }

  // The helpers of the audit logger: one row, and an event where the helper publishes one.

  function AutoPaused(id: SandboxId, reason: Reason): Effect {
    Effect(Some(Paused), [AuditRow(PauseRow, Info, reason)],
           [Event(Pause, Success, System, Some(id), reason)], false)
  }

  function DestroyedBySystem(id: SandboxId, to: Option<Status>, reason: Reason, frees: bool): Effect {
    Effect(to, [AuditRow(DestroyRow, Warning, reason)],
           [Event(Destroy, Success, System, Some(id), reason)], frees)
  }

  function TimedOut(id: SandboxId, kind: Kind): Effect {
    Effect(Some(Error), [AuditRow(ErrorRow, Failed, TransientTimeout)],
           [Event(kind, Failure, System, Some(id), TransientTimeout)], true)
  }

  /** Phase one: "missing" rows of the host. */
  function RestoreEffect(id: SandboxId, row: Sandbox, h: HostId, alive: Alive): Effect {
    if row.host != h || row.status != Missing then NOTHING
    else if id !in alive then DestroyedBySystem(id, Some(Stopped), Orphaned, true)
    else match alive[id]
      case None => NOTHING
      case Some(Paused) => AutoPaused(id, RestoredAfterHostRecovery)
      case Some(s) => Effect(Some(s), [], [], false)
  }

  /** Phase two: "running" rows of the host. */
  function SyncEffect(id: SandboxId, row: Sandbox, h: HostId, alive: Alive): Effect {
    if row.host != h || row.status != Running then NOTHING
    else if id !in alive then DestroyedBySystem(id, Some(Stopped), Orphaned, true)
    else match alive[id]
      case None => NOTHING
      case Some(Running) => NOTHING
      case Some(Paused) => AutoPaused(id, HostStateSync)
      case Some(s) => Effect(Some(s), [], [], false)
  }

  /** Phase three: rows stopped in the database that the host still reports paused. `gone` holds the
      sandboxes whose destroy call succeeds or answers NotFound. */
  function ZombieEffect(id: SandboxId, row: Sandbox, h: HostId, alive: Alive, gone: set<SandboxId>): Effect {
    if row.host == h && row.status == Stopped && id in alive && alive[id] == Some(Paused) && id in gone
    then DestroyedBySystem(id, None, PausedZombieCleanup, false)
    else NOTHING
  }

  const TRANSIENT_GRACE: Time := 2 * MINUTE
  const SNAPSHOT_GRACE: Time := 15 * MINUTE

  predicate OlderThan(row: Sandbox, grace: Time, now: Time) {
    row.lastUpdated.Some? && now - row.lastUpdated.value >= grace
  }

  /** What is inferred for a row whose sandbox is gone once its grace period has expired. */
  function InferredEffect(id: SandboxId, from: Status): Effect {
    match from
    case Starting => TimedOut(id, Create)
    case Resuming => TimedOut(id, Resume)
    case Pausing => AutoPaused(id, TransientTimeoutInferred)
    case Stopping => DestroyedBySystem(id, Some(Stopped), TransientTimeoutInferred, true)
    case Snapshotting => Effect(Some(Error), [AuditRow(SnapshotRow, Failed, TransientTimeout)], [], true)
    case _ => NOTHING
  }

  /** Phase four: rows in a transient status. */
  function TransientEffect(id: SandboxId, row: Sandbox, h: HostId, alive: Alive, gone: set<SandboxId>,
                           now: Time): Effect {
    if row.host != h then NOTHING
    else if id in alive then
      match row.status
      case Starting => Effect(Some(Running), [], [], false)
      case Resuming => Effect(Some(Running), [], [], false)
      case Stopping =>
        if OlderThan(row, TRANSIENT_GRACE, now) && id in gone
        then DestroyedBySystem(id, Some(Stopped), DestroyRetry, true) else NOTHING
      case Snapshotting =>
        if OlderThan(row, SNAPSHOT_GRACE, now)
        then Effect(Some(if alive[id] == Some(Paused) then Paused else Running),
                    [AuditRow(SnapshotRow, Info, SnapshotRecovered)], [], false)
        else NOTHING
      case _ => NOTHING
    else if row.lastUpdated.Some? && now - row.lastUpdated.value < TRANSIENT_GRACE then NOTHING
    else InferredEffect(id, row.status)
  }

  // ---- The event consumer ----

  /** Only system-actor lifecycle events that name a sandbox reach a handler. */
  predicate Relevant(e: Event) {
    e.kind != OtherKind && e.actor == System && e.sandbox.Some?
  }

  function IfStatusIn(row: Option<Sandbox>, from: set<Status>, to: Status): Option<Status> {
    if row.Some? && row.value.status in from then Some(to) else None
  }

  function HandlerEffect(row: Option<Sandbox>, e: Event): Effect {
    match (e.kind, e.outcome)
    case (Create, Success) => Effect(IfStatusIn(row, {Starting}, Running), [], [], false)
    case (Resume, Success) => Effect(IfStatusIn(row, {Resuming}, Running), [], [], false)
    case (Create, _) => FailedEffect(row, e.reason, CreateFailed)
    case (Resume, _) => FailedEffect(row, e.reason, ResumeFailed)
    case (Pause, Success) =>
      var to := IfStatusIn(row, {Running, Pausing}, Paused);
      var why := if e.reason == NoReason then TtlExpired else e.reason;
      Effect(to, if to.Some? then [AuditRow(PauseRow, Info, why)] else [], [], false)
    case (Destroy, Success) => Effect(IfStatusIn(row, {Stopping, Running}, Stopped), [], [], true)
    case _ => NOTHING
  }

  function FailedEffect(row: Option<Sandbox>, reason: Reason, phase: Reason): Effect {
    Effect(IfStatusIn(row, {Running, Starting, Pausing, Resuming, Snapshotting}, Error),
           if reason == TransientTimeout then []
           else [AuditRow(ErrorRow, Failed, if reason == NoReason then phase else reason)],
           [], true)
  }

  // ---- Steps ----

  datatype Step =
    | Restore(h: HostId, alive: Alive, now: Time)
    | Sync(h: HostId, alive: Alive, now: Time)
    | Zombie(h: HostId, alive: Alive, gone: set<SandboxId>, now: Time)
    | Transient(h: HostId, alive: Alive, gone: set<SandboxId>, now: Time)
    | Deliver(event: Event, now: Time)
    | MarkDown(h: HostId, now: Time)
    | Heartbeat(h: HostId, now: Time)
    // whatever users and the services behind the API do to the two tables
    | Users(sandboxes: map<SandboxId, Sandbox>, volumes: Volumes.Rows)

  /** The steps of the host monitor and of the event consumer. */
  predicate Reconciles(s: Step) {
    s.Restore? || s.Sync? || s.Zombie? || s.Transient? || s.Deliver?
  }

  function EffectOn(id: SandboxId, row: Sandbox, s: Step): Effect
    requires Reconciles(s)
  {
    match s
    case Restore(h, alive, _) => RestoreEffect(id, row, h, alive)
    case Sync(h, alive, _) => SyncEffect(id, row, h, alive)
    case Zombie(h, alive, gone, _) => ZombieEffect(id, row, h, alive, gone)
    case Transient(h, alive, gone, now) => TransientEffect(id, row, h, alive, gone, now)
    case Deliver(e, _) => if Relevant(e) && e.sandbox.value == id then HandlerEffect(Some(row), e) else NOTHING
  }

  function Effects(st: State, s: Step): map<SandboxId, Effect>
    requires Reconciles(s)
  {
    // a consumed event may name a sandbox that has no row
    if s.Deliver? && Relevant(s.event) && s.event.sandbox.value !in st.sandboxes
    then map[s.event.sandbox.value := HandlerEffect(None, s.event)]
    else map id | id in st.sandboxes :: EffectOn(id, st.sandboxes[id], s)
  }

  function MarkMissing(row: Sandbox, h: HostId, now: Time): Sandbox {
    if row.host == h && row.status in {Running, Starting, Pending, Pausing, Resuming, Stopping}
    then row.(status := Missing, lastUpdated := Some(now)) else row
  }

  ghost function Exec(st: State, s: Step): State {
    match s
    case MarkDown(h, now) =>
      st.(hosts := if h in st.hosts then st.hosts[h := st.hosts[h].(status := Unreachable)] else st.hosts,
          sandboxes := map id | id in st.sandboxes :: MarkMissing(st.sandboxes[id], h, now))
    case Heartbeat(h, now) =>
      if h !in st.hosts then st
      else
        var status := if st.hosts[h].status == Unreachable then Online else st.hosts[h].status;
        st.(hosts := st.hosts[h := Host(status, Some(now))])
    case Users(sandboxes, volumes) => st.(sandboxes := sandboxes, volumes := volumes)
    case _ => ApplyAll(st, Effects(st, s), s.now)
  }

  ghost function Run(st: State, run: seq<Step>): State
    decreases |run|
  {
    if run == [] then st else Run(Exec(st, run[0]), run[1..])
  }

  // ---- One check of one host ----

  const UNREACHABLE_AFTER: Time := 90 * SECOND

  predicate Stale(host: Host, now: Time) {
    host.heartbeat.None? || now - host.heartbeat.value > UNREACHABLE_AFTER
  }

  /** The four reconciliation phases of one pass, back to back. */
  function ActivePass(h: HostId, alive: Alive, gone: set<SandboxId>, now: Time): seq<Step> {
    [Restore(h, alive, now), Sync(h, alive, now), Zombie(h, alive, gone, now), Transient(h, alive, gone, now)]
  }

  /** The steps that one check of host `h` amounts to; `report` is `None` when its agent cannot be
      reached or the listing call fails. */
  function CheckSteps(st: State, h: HostId, report: Option<Alive>, gone: set<SandboxId>, now: Time): seq<Step>
    requires h in st.hosts
  {
    if Stale(st.hosts[h], now) && st.hosts[h].status != Unreachable then [MarkDown(h, now)]
    else if st.hosts[h].status != Online || report.None? then []
    else ActivePass(h, report.value, gone, now)
  }
}
