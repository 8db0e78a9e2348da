/** Runs of the alert tables: replaying the log, offline against the other alerts, and which changes are broadcast. */
module AlertRuns {
  import opened Basics
  import opened AlertSpec
  import opened AlertFacts

  // ---------------------------------------------------------------------------
  // Operations
  // ---------------------------------------------------------------------------

  datatype Op =
    | Reconcile(serverId: string, candidates: seq<Anomaly>, source: Source, now: int)
    | SilenceOp(id: nat, now: int)
    | UnsilenceOp(id: nat, now: int)
    | BatchSilence(ids: seq<nat>, now: int)
    | BatchUnsilence(ids: seq<nat>, now: int)
    | DeleteServer(serverId: string)

  ghost predicate Steps(t: Tables, op: Op, r: Tables, changes: seq<Change>) {
    match op
    case Reconcile(serverId, cs, source, now) => Reconciled(t, r, serverId, cs, source, now, changes)
    case SilenceOp(id, now) => r == Silence(t, id, now).0 && changes == AsList(Silence(t, id, now).1)
    case UnsilenceOp(id, now) => r == Unsilence(t, id, now).0 && changes == AsList(Unsilence(t, id, now).1)
    case BatchSilence(ids, now) => (r, changes) == SilenceAll(t, ids, now)
    case BatchUnsilence(ids, now) => (r, changes) == UnsilenceAll(t, ids, now)
    case DeleteServer(serverId) => r == WithoutServer(t, serverId) && changes == []
  }

  lemma {:induction false} StepKeepsInv(t: Tables, op: Op, r: Tables, changes: seq<Change>)
    requires TablesInv(t) && Steps(t, op, r, changes)
    ensures TablesInv(r)
  {
    match op {
      case Reconcile(serverId, cs, source, now) => ReconcileKeepsInv(t, r, serverId, cs, source, now, changes);
      case SilenceOp(id, now) => MovedKeepsInv(t, id, {Active, Resolved}, Silenced, now);
      case UnsilenceOp(id, now) => MovedKeepsInv(t, id, {Silenced}, Resolved, now);
      case BatchSilence(ids, now) => SilenceAllKeepsInv(t, ids, now);
      case BatchUnsilence(ids, now) => UnsilenceAllKeepsInv(t, ids, now);
      case DeleteServer(serverId) => DeleteKeepsInv(t, serverId);
    }
  }

  /** `ops` lead from `start` to `t`, and their changes together are `sent`. */
  ghost predicate Ran(start: Tables, ops: seq<Op>, t: Tables, sent: seq<Change>)
    decreases |ops|
  {
    if ops == [] then t == start && sent == []
    else exists before: Tables, front: seq<Change>, changes: seq<Change> ::
      Ran(start, Init(ops), before, front) && Steps(before, Last(ops), t, changes) && sent == front + changes
  }

  /** `t` is reached from the empty tables. */
  ghost predicate Reached(ops: seq<Op>, t: Tables, sent: seq<Change>) {
    Ran(EMPTY_TABLES, ops, t, sent)
  }

  lemma {:induction false} RanSnoc(start: Tables, ops: seq<Op>, t: Tables, sent: seq<Change>, op: Op, r: Tables,
        changes: seq<Change>)
    requires Ran(start, ops, t, sent) && Steps(t, op, r, changes)
    ensures Ran(start, ops + [op], r, sent + changes)
  {
    InitSnoc(ops, op);
  }

  lemma {:induction false} LastStep(start: Tables, ops: seq<Op>, t: Tables, sent: seq<Change>)
    returns (before: Tables, front: seq<Change>, changes: seq<Change>)
    requires ops != [] && Ran(start, ops, t, sent)
    ensures Ran(start, Init(ops), before, front) && Steps(before, Last(ops), t, changes) && sent == front + changes
  {
    before, front, changes :|
      Ran(start, Init(ops), before, front) && Steps(before, Last(ops), t, changes) && sent == front + changes;
  }

  lemma {:induction false} ReachedInv(ops: seq<Op>, t: Tables, sent: seq<Change>)
    requires Reached(ops, t, sent)
    ensures TablesInv(t)
    decreases |ops|
  {
    if ops != [] {
      var before, front, changes := LastStep(EMPTY_TABLES, ops, t, sent);
      ReachedInv(Init(ops), before, front);
      StepKeepsInv(before, Last(ops), t, changes);
    }
  }

  /** LOG REPLAY. After any run, the log entries of each alert form a connected chain that starts at 'resolved', changes
      the status at each link, and ends in the alert's stored status. */
  lemma {:induction false} LogReplays(ops: seq<Op>, t: Tables, sent: seq<Change>, k: Key)
    requires Reached(ops, t, sent) && k in t.rows
    ensures var h := EntriesOf(t.log, t.rows[k].id);
      && Chain(h) && (forall i :: 0 <= i < |h| ==> h[i].from != h[i].to)
      && t.rows[k].status == if h == [] then Resolved else Last(h).to
  {
    ReachedInv(ops, t, sent);
    assert RowOk(t, k);
    ReplayIsChain(t.log, t.rows[k].id);
    EntriesAreLogged(t.log, t.rows[k].id);
  }

  lemma {:induction false} EntriesAreLogged(log: seq<Transition>, id: nat)
    ensures forall x :: x in EntriesOf(log, id) ==> x in log && x.alertId == id
    decreases |log|
  {
    if log != [] {
      EntriesAreLogged(Init(log), id);
      assert log == Init(log) + [Last(log)];
    }
  }

  // ---------------------------------------------------------------------------
  // Offline excludes the rest
  // ---------------------------------------------------------------------------

  /** A report yields no offline candidate, a sweep only offline ones. */
  predicate OneKind(cs: seq<Anomaly>) {
    (forall c :: c in cs ==> c.alertType.Offline?) || (forall c :: c in cs ==> !c.alertType.Offline?)
  }

  /** Reports and sweeps reconcile candidates of one kind; the rest are user actions and deletions. */
  predicate FromEngine(op: Op) {
    op.Reconcile? ==> OneKind(op.candidates)
  }

  ghost predicate Clash(t: Tables, k: Key, l: Key) {
    StatusAt(t, k).Active? && StatusAt(t, l).Active? && k.serverId == l.serverId
      && k.alertType.Offline? && !l.alertType.Offline?
  }

  ghost predicate OfflineAlone(t: Tables) {
    forall k, l :: !Clash(t, k, l)
  }

  lemma {:induction false} ReconcileOfflineAlone(t: Tables, r: Tables, serverId: string, cs: seq<Anomaly>,
        source: Source, now: int,
      changes: seq<Change>)
    requires OfflineAlone(t) && OneKind(cs) && Reconciled(t, r, serverId, cs, source, now, changes)
    ensures OfflineAlone(r)
  {
    forall k, l
      ensures !Clash(r, k, l)
    {
      assert !Clash(t, k, l);
      SixRules(t, r, serverId, cs, source, now, changes, k);
      SixRules(t, r, serverId, cs, source, now, changes, l);
      CandidateForIsLast(cs, k);
      CandidateForIsLast(cs, l);
    }
  }

  /** User actions never make an alert active. */
  ghost predicate NoneActivated(t: Tables, r: Tables) {
    forall k :: StatusAt(r, k).Active? ==> StatusAt(t, k).Active?
  }

  lemma {:induction false} MovedActivatesNone(t: Tables, id: nat, from: set<AlertStatus>, to: AlertStatus, now: int)
    requires !to.Active?
    ensures NoneActivated(t, Moved(t, id, from, to, now).0)
  {
  }

  lemma {:induction false} BatchesActivateNone(t: Tables, ids: seq<nat>, now: int)
    ensures NoneActivated(t, SilenceAll(t, ids, now).0) && NoneActivated(t, UnsilenceAll(t, ids, now).0)
    decreases |ids|
  {
    if ids != [] {
      BatchesActivateNone(t, Init(ids), now);
      MovedActivatesNone(SilenceAll(t, Init(ids), now).0, Last(ids), {Active, Resolved}, Silenced, now);
      MovedActivatesNone(UnsilenceAll(t, Init(ids), now).0, Last(ids), {Silenced}, Resolved, now);
    }
  }

  lemma {:induction false} OthersActivateNone(t: Tables, op: Op, r: Tables, changes: seq<Change>)
    requires !op.Reconcile? && Steps(t, op, r, changes)
    ensures NoneActivated(t, r)
  {
    match op {
      case SilenceOp(id, now) => MovedActivatesNone(t, id, {Active, Resolved}, Silenced, now);
      case UnsilenceOp(id, now) => MovedActivatesNone(t, id, {Silenced}, Resolved, now);
      case BatchSilence(ids, now) => BatchesActivateNone(t, ids, now);
      case BatchUnsilence(ids, now) => BatchesActivateNone(t, ids, now);
      case DeleteServer(serverId) =>
    }
  }

  /** OFFLINE ALONE. In every state that reports, sweeps and user actions lead to, no server has an active offline alert
      together with an active alert of another type. */
  lemma {:induction false} OfflineExcludesTheRest(ops: seq<Op>, t: Tables, sent: seq<Change>, k: Key, l: Key)
    requires Reached(ops, t, sent) && forall i :: 0 <= i < |ops| ==> FromEngine(ops[i])
    requires k in t.rows && l in t.rows && k.serverId == l.serverId
    requires t.rows[k].status.Active? && k.alertType.Offline? && t.rows[l].status.Active?
    ensures l.alertType.Offline?
  {
    ReachedOfflineAlone(ops, t, sent);
    assert !Clash(t, k, l);
  }

  lemma {:induction false} ReachedOfflineAlone(ops: seq<Op>, t: Tables, sent: seq<Change>)
    requires Reached(ops, t, sent) && forall i :: 0 <= i < |ops| ==> FromEngine(ops[i])
    ensures OfflineAlone(t)
    decreases |ops|
  {
    if ops != [] {
      var before, front, changes := LastStep(EMPTY_TABLES, ops, t, sent);
      assert forall i :: 0 <= i < |Init(ops)| ==> Init(ops)[i] == ops[i];
      ReachedOfflineAlone(Init(ops), before, front);
      var op := Last(ops);
      if op.Reconcile? {
        ReconcileOfflineAlone(before, t, op.serverId, op.candidates, op.source, op.now, changes);
      } else {
        OthersActivateNone(before, op, t, changes);
        forall k, l
          ensures !Clash(t, k, l)
        {
          assert !Clash(before, k, l);
        }
      }
    }
  }

  // ---------------------------------------------------------------------------
  // What is broadcast
  // ---------------------------------------------------------------------------

  predicate IsBroadcastable(c: Change) {
    (c.from.Resolved? && c.to.Active?) || (c.from.Active? && c.to.Resolved?)
  }

  function Broadcast(changes: seq<Change>): seq<Change> {
    if changes == [] then []
    else if IsBroadcastable(Last(changes)) then Broadcast(Init(changes)) + [Last(changes)]
    else Broadcast(Init(changes))
  }

  lemma {:induction false} BroadcastAll(changes: seq<Change>, n: nat)
    requires n <= |changes| && forall i :: 0 <= i < |changes| ==> IsBroadcastable(changes[i])
    ensures Broadcast(changes[..n]) == changes[..n]
    decreases n
  {
    if n == 0 {
    } else {
      var front, c := changes[..n - 1], changes[n - 1];
      assert changes[..n] == front + [c];
      calc {
        Broadcast(changes[..n]);
        Broadcast(front + [c]);
        { BroadcastSnoc(front, c); }
        Broadcast(front) + [c];
        { BroadcastAll(changes, n - 1); }
        front + [c];
        changes[..n];
      }
    }
  }

  lemma {:induction false} BroadcastSnoc(front: seq<Change>, c: Change)
    requires IsBroadcastable(c)
    ensures Broadcast(front + [c]) == Broadcast(front) + [c]
  {
  }

  /** A reconciliation moves alerts only between resolved and active, so its changes are all broadcast. */
  lemma {:induction false} ReconcileIsBroadcast(t: Tables, r: Tables, serverId: string, cs: seq<Anomaly>,
        source: Source, now: int,
      changes: seq<Change>)
    requires Reconciled(t, r, serverId, cs, source, now, changes)
    ensures Broadcast(changes) == changes
  {
    forall i | 0 <= i < |changes|
      ensures IsBroadcastable(changes[i])
    {
      assert ChangeAt(t, r, changes[i]);
      SixRules(t, r, serverId, cs, source, now, changes, KeyOf(changes[i].alert));
    }
    BroadcastAll(changes, |changes|);
    assert changes[..|changes|] == changes;
  }
}
