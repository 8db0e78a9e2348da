/** The alert table of the server: what one reconciliation or one user action does to it, and the transition log. */
module AlertSpec {
  import opened Basics
  import opened Text

  datatype AlertType = Cpu | Memory | Disk | GpuTemp | Offline | GpuIdleMemory

  datatype AlertStatus = Active | Resolved | Silenced

  datatype Source = Detection | UserAction

  datatype Details =
    | DiskDetails(mountPoint: string, filesystem: string)
    | TempDetails(gpuIndex: int, gpuName: string)
    | IdleDetails(idleGpu: int, pid: int, user: string, command: string, taskId: Option<string>, vramMb: real,
                  utilizationPercent: real, memoryPercent: real, durationSeconds: int)

  datatype Anomaly = Anomaly(alertType: AlertType, value: real, threshold: real, fingerprint: string, details: Option<Details>)

  /** The columns of the table's unique constraint. */
  datatype Key = Key(serverId: string, alertType: AlertType, fingerprint: string)

  datatype Alert = Alert(
    id: nat,
    serverId: string,
    alertType: AlertType,
    fingerprint: string,
    value: real,
    threshold: real,
    details: Option<Details>,
    status: AlertStatus,
    createdAt: int,
    updatedAt: int)

  datatype Transition = Transition(alertId: nat, from: AlertStatus, to: AlertStatus, source: Source, at: int)

  datatype Change = Change(alert: Alert, from: AlertStatus, to: AlertStatus)

  /** The alerts by unique key, the transition log in insertion order, and the next automatic id. */
  datatype Tables = Tables(rows: map<Key, Alert>, log: seq<Transition>, nextId: nat)

  const EMPTY_TABLES := Tables(map[], [], 1)

  function RowAt(t: Tables, k: Key): Option<Alert> {
    if k in t.rows then Some(t.rows[k]) else None
  }

  /** A key without a row counts as resolved. */
  function StatusAt(t: Tables, k: Key): AlertStatus {
    if k in t.rows then t.rows[k].status else Resolved
  }

  function KeyOf(a: Alert): Key {
    Key(a.serverId, a.alertType, a.fingerprint)
  }

  // ---------------------------------------------------------------------------
  // String keys of candidates
  // ---------------------------------------------------------------------------

  function TypeName(t: AlertType): string {
    match t
    case Cpu => "cpu"
    case Memory => "memory"
    case Disk => "disk"
    case GpuTemp => "gpu_temp"
    case Offline => "offline"
    case GpuIdleMemory => "gpu_idle_memory"
  }

  function AlertKey(t: AlertType, fingerprint: string): string {
    TypeName(t) + ":" + fingerprint
  }

  lemma {:induction false} TypeNameInjective(t: AlertType, u: AlertType)
    ensures ':' !in TypeName(t) && (TypeName(t) == TypeName(u) ==> t == u)
  {
  }

  /** Two candidates share a string key only if they share their type and fingerprint, whatever the fingerprints hold. */
  lemma {:induction false} AlertKeyInjective(t: AlertType, f: string, u: AlertType, g: string)
    ensures AlertKey(t, f) == AlertKey(u, g) <==> t == u && f == g
  {
    TypeNameInjective(t, u);
    TypeNameInjective(u, t);
    if AlertKey(t, f) == AlertKey(u, g) {
      SplitAtColon(TypeName(t), f, TypeName(u), g);
    }
  }

  /** The last candidate with the key's type and fingerprint. */
  function CandidateFor(cs: seq<Anomaly>, k: Key): Option<Anomaly> {
    if cs == [] then None
    else if Last(cs).alertType == k.alertType && Last(cs).fingerprint == k.fingerprint then Some(Last(cs))
    else CandidateFor(Init(cs), k)
  }

  lemma {:induction false} CandidateForIsLast(cs: seq<Anomaly>, k: Key)
    ensures CandidateFor(cs, k).Some? <==>
      exists c :: c in cs && c.alertType == k.alertType && c.fingerprint == k.fingerprint
    ensures CandidateFor(cs, k).Some? ==>
      CandidateFor(cs, k).value in cs
      && CandidateFor(cs, k).value.alertType == k.alertType && CandidateFor(cs, k).value.fingerprint == k.fingerprint
    decreases |cs|
  {
    if cs != [] {
      CandidateForIsLast(Init(cs), k);
      assert cs == Init(cs) + [Last(cs)];
      assert Last(cs) in cs;
    }
  }

  /** The candidate at `n` is the last one of its type and fingerprint. */
  predicate LastCandidate(cs: seq<Anomaly>, k: Key, n: int) {
    && 0 <= n < |cs| && cs[n].alertType == k.alertType && cs[n].fingerprint == k.fingerprint
    && forall m :: n < m < |cs| ==> cs[m].alertType != k.alertType || cs[m].fingerprint != k.fingerprint
  }

  lemma {:induction false} LastOneCounts(cs: seq<Anomaly>, k: Key, n: int)
    requires LastCandidate(cs, k, n)
    ensures CandidateFor(cs, k) == Some(cs[n])
    decreases |cs|
  {
    if n < |cs| - 1 { LastOneCounts(Init(cs), k, n); }
  }

  // ---------------------------------------------------------------------------
  // The six rules
  // ---------------------------------------------------------------------------

  /** `newId` is the id a new row gets. */
  function Ruled(was: Option<Alert>, c: Option<Anomaly>, k: Key, newId: nat, now: int): Option<Alert> {
    match c
    case None =>
      if was.Some? && was.value.status.Active? then Some(was.value.(status := Resolved, updatedAt := now)) else was
    case Some(x) =>
      if was.None? then
        Some(Alert(newId, k.serverId, k.alertType, k.fingerprint, x.value, x.threshold, x.details, Active, now, now))
      else
        Some(was.value.(value := x.value, threshold := x.threshold, details := x.details, updatedAt := now,
                        status := if was.value.status.Silenced? then Silenced else Active))
  }

  ghost predicate RuledAt(t: Tables, r: Tables, serverId: string, cs: seq<Anomaly>, now: int, k: Key) {
    if k.serverId != serverId then RowAt(r, k) == RowAt(t, k)
    else
      var row := RowAt(r, k);
      && row == Ruled(RowAt(t, k), CandidateFor(cs, k), k, if row.Some? then row.value.id else 0, now)
      && (RowAt(t, k).None? && row.Some? ==> t.nextId <= row.value.id < r.nextId)
  }

  function ChangedKeys(changes: seq<Change>): seq<Key> {
    seq(|changes|, i requires 0 <= i < |changes| => KeyOf(changes[i].alert))
  }

  function Entries(changes: seq<Change>, source: Source, now: int): seq<Transition> {
    seq(|changes|, i requires 0 <= i < |changes| =>
      Transition(changes[i].alert.id, changes[i].from, changes[i].to, source, now))
  }

  ghost predicate ChangeAt(t: Tables, r: Tables, c: Change) {
    var k := KeyOf(c.alert);
    RowAt(r, k) == Some(c.alert) && c.from == StatusAt(t, k) && c.to == StatusAt(r, k) && c.from != c.to
  }

  ghost predicate Reported(t: Tables, r: Tables, changed: seq<Key>, k: Key) {
    k in changed <==> StatusAt(t, k) != StatusAt(r, k)
  }

  /** `changes` lists, without repetition, exactly the keys whose status differs, and the log grew by one entry for each. */
  ghost predicate Exact(t: Tables, r: Tables, changes: seq<Change>, source: Source, now: int) {
    && NoDup(ChangedKeys(changes))
    && (forall i :: 0 <= i < |changes| ==> ChangeAt(t, r, changes[i]))
    && (forall k :: Reported(t, r, ChangedKeys(changes), k))
    && r.log == t.log + Entries(changes, source, now)
  }

  ghost predicate SameId(t: Tables, k: Key, l: Key) {
    k in t.rows && l in t.rows && t.rows[k].id == t.rows[l].id
  }

  ghost predicate NewPair(t: Tables, r: Tables, k: Key, l: Key) {
    k !in t.rows && l !in t.rows && SameId(r, k, l)
  }

  /** What a reconciliation may do. Only the order of the changes, and so of the new ids and log entries, is left open. */
  ghost predicate Reconciled(t: Tables, r: Tables, serverId: string, cs: seq<Anomaly>, source: Source, now: int,
        changes: seq<Change>) {
    && (forall k :: RuledAt(t, r, serverId, cs, now, k))
    && (forall k, l :: NewPair(t, r, k, l) ==> k == l)
    && Exact(t, r, changes, source, now)
    && t.nextId <= r.nextId
  }

  // ---------------------------------------------------------------------------
  // User actions
  // ---------------------------------------------------------------------------

  /** The row `k` gets the status `to`, which it did not have. */
  function WithStatus(t: Tables, k: Key, to: AlertStatus, source: Source, now: int): Tables
    requires k in t.rows
  {
    t.(rows := t.rows[k := t.rows[k].(status := to, updatedAt := now)],
       log := t.log + [Transition(t.rows[k].id, t.rows[k].status, to, source, now)])
  }

  ghost predicate HasId(t: Tables, k: Key, id: nat) {
    k in t.rows && t.rows[k].id == id
  }

  ghost function KeyById(t: Tables, id: nat): (k: Option<Key>)
    ensures k.Some? ==> HasId(t, k.value, id)
    ensures k.None? ==> forall l :: !HasId(t, l, id)
  {
    if exists l :: HasId(t, l, id) then
      var l :| HasId(t, l, id);
      Some(l)
    else None
  }

  /** Moves the alert `id` to `to` if its status is one of `from`; the result says what changed, if anything. */
  ghost function Moved(t: Tables, id: nat, from: set<AlertStatus>, to: AlertStatus,
        now: int): (r: (Tables, Option<Change>)) {
    var k := KeyById(t, id);
    if k.Some? && t.rows[k.value].status in from then
      var next := WithStatus(t, k.value, to, UserAction, now);
      (next, Some(Change(next.rows[k.value], t.rows[k.value].status, to)))
    else (t, None)
  }

  /** Silencing is for active and resolved alerts. */
  ghost function Silence(t: Tables, id: nat, now: int): (Tables, Option<Change>) {
    Moved(t, id, {Active, Resolved}, Silenced, now)
  }

  /** Unsilencing is for silenced alerts only, and always leads to 'resolved'. */
  ghost function Unsilence(t: Tables, id: nat, now: int): (Tables, Option<Change>) {
    Moved(t, id, {Silenced}, Resolved, now)
  }

  function AsList(change: Option<Change>): seq<Change> {
    if change.Some? then [change.value] else []
  }

  ghost function SilenceAll(t: Tables, ids: seq<nat>, now: int): (Tables, seq<Change>) {
    if ids == [] then (t, [])
    else
      var (before, changes) := SilenceAll(t, Init(ids), now);
      var (r, change) := Silence(before, Last(ids), now);
      (r, changes + AsList(change))
  }

  ghost function UnsilenceAll(t: Tables, ids: seq<nat>, now: int): (Tables, seq<Change>) {
    if ids == [] then (t, [])
    else
      var (before, changes) := UnsilenceAll(t, Init(ids), now);
      var (r, change) := Unsilence(before, Last(ids), now);
      (r, changes + AsList(change))
  }

  /** Deletes a server's alerts, and with them their log entries. */
  function WithoutServer(t: Tables, serverId: string): Tables {
    t.(rows := map k | k in t.rows && k.serverId != serverId :: t.rows[k],
       log := LogWithout(t.log, set k | k in t.rows && k.serverId == serverId :: t.rows[k].id))
  }

  function LogWithout(log: seq<Transition>, ids: set<nat>): seq<Transition> {
    if log == [] then []
    else
      var rest := LogWithout(Init(log), ids);
      if Last(log).alertId in ids then rest else rest + [Last(log)]
  }

  // ---------------------------------------------------------------------------
  // Replay of the log
  // ---------------------------------------------------------------------------

  /** Follows the entries of one alert from 'resolved'; none if an entry does not start where the last one ended. */
  function Replay(log: seq<Transition>, id: nat): Option<AlertStatus> {
    if log == [] then Some(Resolved)
    else
      var before := Replay(Init(log), id);
      if Last(log).alertId != id then before
      else if before == Some(Last(log).from) then Some(Last(log).to)
      else None
  }

  ghost predicate RowOk(t: Tables, k: Key)
    requires k in t.rows
  {
    && KeyOf(t.rows[k]) == k
    && t.rows[k].id < t.nextId
    && Replay(t.log, t.rows[k].id) == Some(t.rows[k].status)
  }

  /** Rows stand under their own key with distinct ids, log entries belong to given ids and change the status, and
      each row's log replays from 'resolved' to the row's status. */
  ghost predicate TablesInv(t: Tables) {
    && (forall k :: k in t.rows ==> RowOk(t, k))
    && (forall k, l :: SameId(t, k, l) ==> k == l)
    && (forall i :: 0 <= i < |t.log| ==> t.log[i].alertId < t.nextId && t.log[i].from != t.log[i].to)
  }
}
