/** The alert tables, updated in place by the reconciliation loop and by the user's actions. */
module AlertTables {
  import opened Basics
  import opened OrderedDicts
  import opened AlertSpec
  import opened AlertFacts

  // ---------------------------------------------------------------------------
  // One key at a time
  // ---------------------------------------------------------------------------

  /** The keys in `done` have been settled by the rules, the others not yet touched. */
  ghost predicate SettledAt(t: Tables, cur: Tables, serverId: string, cs: seq<Anomaly>, now: int, done: set<Key>,
        k: Key) {
    if k in done then RuledAt(t, cur, serverId, cs, now, k) else RowAt(cur, k) == RowAt(t, k)
  }

  ghost predicate Progress(t: Tables, cur: Tables, serverId: string, cs: seq<Anomaly>, source: Source, now: int,
    changes: seq<Change>, done: set<Key>)
  {
    && (forall k :: SettledAt(t, cur, serverId, cs, now, done, k))
    && (forall k, l :: NewPair(t, cur, k, l) ==> k == l)
    && Exact(t, cur, changes, source, now)
    && t.nextId <= cur.nextId
  }

  /** The row of `k` as the rules want it, and a log entry if that changes its status. */
  function Settling(t: Tables, k: Key, c: Option<Anomaly>, source: Source, now: int): Tables
    requires Ruled(RowAt(t, k), c, k, t.nextId, now).Some?
  {
    var row := Ruled(RowAt(t, k), c, k, t.nextId, now).value;
    Tables(t.rows[k := row],
           if row.status != StatusAt(t, k) then t.log + [Transition(row.id, StatusAt(t, k), row.status, source, now)] else t.log,
           if k in t.rows then t.nextId else t.nextId + 1)
  }

  function ChangeOf(t: Tables, r: Tables, k: Key): seq<Change>
    requires k in r.rows
  {
    if StatusAt(t, k) != r.rows[k].status then [Change(r.rows[k], StatusAt(t, k), r.rows[k].status)] else []
  }

  lemma {:induction false} NothingYet(t: Tables, serverId: string, cs: seq<Anomaly>, source: Source, now: int)
    ensures Progress(t, t, serverId, cs, source, now, [], {})
  {
  }

  lemma {:induction false} SettleRows(t: Tables, cur: Tables, serverId: string, cs: seq<Anomaly>, source: Source,
        now: int,
      changes: seq<Change>, done: set<Key>, k: Key)
    requires Progress(t, cur, serverId, cs, source, now, changes, done) && TablesInv(t)
    requires k !in done && k.serverId == serverId && Ruled(RowAt(cur, k), CandidateFor(cs, k), k, cur.nextId, now).Some?
    ensures var next := Settling(cur, k, CandidateFor(cs, k), source, now);
      && (forall l :: SettledAt(t, next, serverId, cs, now, done + {k}, l))
      && (forall l, m :: NewPair(t, next, l, m) ==> l == m)
  {
    var next := Settling(cur, k, CandidateFor(cs, k), source, now);
    assert SettledAt(t, cur, serverId, cs, now, done, k);
    forall l
      ensures SettledAt(t, next, serverId, cs, now, done + {k}, l)
    {
      assert SettledAt(t, cur, serverId, cs, now, done, l);
    }
    forall l, m | NewPair(t, next, l, m)
      ensures l == m
    {
      assert SettledAt(t, cur, serverId, cs, now, done, l) && SettledAt(t, cur, serverId, cs, now, done, m);
      assert l != k && m != k ==> NewPair(t, cur, l, m);
    }
  }

  lemma {:induction false} ChangedAppend(changes: seq<Change>, c: Change, source: Source, now: int)
    ensures ChangedKeys(changes + [c]) == ChangedKeys(changes) + [KeyOf(c.alert)]
    ensures Entries(changes + [c], source, now) ==
      Entries(changes, source, now) + [Transition(c.alert.id, c.from, c.to, source, now)]
    ensures changes + [] == changes
  {
  }

  lemma {:induction false} SettleExact(t: Tables, cur: Tables, serverId: string, cs: seq<Anomaly>, source: Source,
        now: int,
      changes: seq<Change>, done: set<Key>, k: Key)
    requires Progress(t, cur, serverId, cs, source, now, changes, done) && TablesInv(t)
    requires k !in done && k.serverId == serverId && Ruled(RowAt(cur, k), CandidateFor(cs, k), k, cur.nextId, now).Some?
    ensures var next := Settling(cur, k, CandidateFor(cs, k), source, now);
      Exact(t, next, changes + ChangeOf(cur, next, k), source, now)
  {
    var next := Settling(cur, k, CandidateFor(cs, k), source, now);
    assert SettledAt(t, cur, serverId, cs, now, done, k);
    assert KeyOf(next.rows[k]) == k;
    assert StatusAt(cur, k) == StatusAt(t, k) && Reported(t, cur, ChangedKeys(changes), k);
    var all := changes + ChangeOf(cur, next, k);
    var c := Change(next.rows[k], StatusAt(cur, k), next.rows[k].status);
    ChangedAppend(changes, c, source, now);
    if c.from != c.to {
      ConcatNoDup(ChangedKeys(changes), [k]);
    }
    forall i | 0 <= i < |all|
      ensures ChangeAt(t, next, all[i])
    {
      if i < |changes| {
        assert ChangeAt(t, cur, changes[i]) && ChangedKeys(changes)[i] == KeyOf(changes[i].alert);
      }
    }
    forall l
      ensures Reported(t, next, ChangedKeys(all), l)
    {
      assert Reported(t, cur, ChangedKeys(changes), l);
    }
  }

  lemma {:induction false} SettleStep(t: Tables, cur: Tables, serverId: string, cs: seq<Anomaly>, source: Source,
        now: int,
      changes: seq<Change>, done: set<Key>, k: Key)
    requires Progress(t, cur, serverId, cs, source, now, changes, done) && TablesInv(t)
    requires k !in done && k.serverId == serverId && Ruled(RowAt(cur, k), CandidateFor(cs, k), k, cur.nextId, now).Some?
    ensures var next := Settling(cur, k, CandidateFor(cs, k), source, now);
      Progress(t, next, serverId, cs, source, now, changes + ChangeOf(cur, next, k), done + {k})
  {
    SettleRows(t, cur, serverId, cs, source, now, changes, done, k);
    SettleExact(t, cur, serverId, cs, source, now, changes, done, k);
  }

  /** Once every key with a candidate and every active key of the server is settled, the whole table is. */
  lemma {:induction false} AllSettled(t: Tables, cur: Tables, serverId: string, cs: seq<Anomaly>, source: Source,
        now: int,
      changes: seq<Change>, done: set<Key>)
    requires Progress(t, cur, serverId, cs, source, now, changes, done)
    requires forall k: Key :: k.serverId == serverId && (CandidateFor(cs, k).Some? || StatusAt(t, k).Active?) ==> k in done
    ensures Reconciled(t, cur, serverId, cs, source, now, changes)
  {
    forall k
      ensures RuledAt(t, cur, serverId, cs, now, k)
    {
      assert SettledAt(t, cur, serverId, cs, now, done, k);
    }
  }

  // ---------------------------------------------------------------------------
  // The candidate map
  // ---------------------------------------------------------------------------

  ghost predicate MappedAt(m: OrderedDict<Anomaly>, cs: seq<Anomaly>, k: Key) {
    m.Get(AlertKey(k.alertType, k.fingerprint)) == CandidateFor(cs, k)
  }

  ghost predicate OwnKeys(m: OrderedDict<Anomaly>) {
    m.Valid() && forall s :: s in m.vals ==> s == AlertKey(m.vals[s].alertType, m.vals[s].fingerprint)
  }

  lemma {:induction false} MappedSnoc(m: OrderedDict<Anomaly>, cs: seq<Anomaly>, c: Anomaly, k: Key)
    requires MappedAt(m, cs, k)
    ensures MappedAt(Put(m, AlertKey(c.alertType, c.fingerprint), c), cs + [c], k)
  {
    InitSnoc(cs, c);
    AlertKeyInjective(k.alertType, k.fingerprint, c.alertType, c.fingerprint);
  }

  /** One key of the server has the candidate's string key. */
  lemma {:induction false} OnlyKey(serverId: string, c: Anomaly)
    ensures forall l: Key ::
      l.serverId == serverId && AlertKey(l.alertType, l.fingerprint) == AlertKey(c.alertType, c.fingerprint) ==>
        l == Key(serverId, c.alertType, c.fingerprint)
  {
    forall l: Key | l.serverId == serverId && AlertKey(l.alertType, l.fingerprint) == AlertKey(c.alertType, c.fingerprint)
      ensures l == Key(serverId, c.alertType, c.fingerprint)
    {
      AlertKeyInjective(l.alertType, l.fingerprint, c.alertType, c.fingerprint);
    }
  }

  /** Later candidates replace earlier ones with the same key. */
  method BuildCandidateMap(cs: seq<Anomaly>) returns (m: OrderedDict<Anomaly>)
    ensures OwnKeys(m) && forall k :: MappedAt(m, cs, k)
  {
    m := Empty();
    for n := 0 to |cs|
      invariant OwnKeys(m) && forall k :: MappedAt(m, cs[..n], k)
    {
      ghost var before, seen := m, cs[..n + 1];
      m := Put(m, AlertKey(cs[n].alertType, cs[n].fingerprint), cs[n]);
      assert seen == cs[..n] + [cs[n]];
      forall k
        ensures MappedAt(m, seen, k)
      {
        assert MappedAt(before, cs[..n], k);
        MappedSnoc(before, cs[..n], cs[n], k);
      }
    }
    assert cs[..|cs|] == cs;
  }

  // ---------------------------------------------------------------------------
  // The database
  // ---------------------------------------------------------------------------

  ghost predicate ActiveRow(t: Tables, serverId: string, a: Alert) {
    a.serverId == serverId && a.status.Active? && RowAt(t, KeyOf(a)) == Some(a)
  }

  function KeysOf(alerts: seq<Alert>): seq<Key> {
    seq(|alerts|, i requires 0 <= i < |alerts| => KeyOf(alerts[i]))
  }

  class AlertDb {
    var rows: map<Key, Alert>
    var log: seq<Transition>
    var nextId: nat

    ghost function State(): Tables
      reads this
    {
      Tables(rows, log, nextId)
    }

    ghost predicate Valid()
      reads this
    {
      TablesInv(State())
    }

    constructor ()
      ensures State() == EMPTY_TABLES && Valid()
    {
      rows, log, nextId := map[], [], 1;
    }

    /** The active alerts of a server. SQL orders them by update time, which leaves ties open; here any order. */
    method GetActiveAlerts(serverId: string) returns (active: seq<Alert>)
      requires Valid()
      ensures NoDup(KeysOf(active))
      ensures forall i :: 0 <= i < |active| ==> ActiveRow(State(), serverId, active[i])
      ensures forall k :: k in rows && rows[k].status.Active? && k.serverId == serverId ==> k in KeysOf(active)
    {
      active := [];
      var rest := rows.Keys;
      while rest != {}
        invariant rest <= rows.Keys
        invariant NoDup(KeysOf(active)) && forall k :: k in KeysOf(active) ==> k !in rest
        invariant forall i :: 0 <= i < |active| ==> ActiveRow(State(), serverId, active[i])
        invariant forall k :: k in rows && rows[k].status.Active? && k.serverId == serverId ==> k in rest || k in KeysOf(active)
        decreases |rest|
      {
        var k: Key :| k in rest;
        rest := rest - {k};
        if rows[k].status.Active? && k.serverId == serverId {
          assert RowOk(State(), k);
          ConcatNoDup(KeysOf(active), [k]);
          assert KeysOf(active + [rows[k]]) == KeysOf(active) + [k];
          active := active + [rows[k]];
        }
      }
    }

    method GetAlertById(id: nat) returns (a: Option<Alert>)
      requires Valid()
      ensures a.Some? ==> HasId(State(), KeyOf(a.value), id) && rows[KeyOf(a.value)] == a.value
      ensures a.None? ==> forall k :: !HasId(State(), k, id)
    {
      var rest := rows.Keys;
      while rest != {}
        invariant rest <= rows.Keys
        invariant forall k :: HasId(State(), k, id) ==> k in rest
        decreases |rest|
      {
        var k: Key :| k in rest;
        if rows[k].id == id {
          assert RowOk(State(), k);
          return Some(rows[k]);
        }
        rest := rest - {k};
      }
      return None;
    }

    method WriteTransition(alertId: nat, from: AlertStatus, to: AlertStatus, source: Source, now: int)
      modifies `log
      ensures log == old(log) + [Transition(alertId, from, to, source, now)]
    {
      log := log + [Transition(alertId, from, to, source, now)];
    }

    method SetStatus(k: Key, from: AlertStatus, to: AlertStatus, source: Source, now: int)
      requires k in rows
      modifies `rows, `log
      ensures rows == old(rows)[k := old(rows[k]).(status := to, updatedAt := now)]
      ensures log == old(log) + [Transition(old(rows[k]).id, from, to, source, now)]
    {
      rows := rows[k := rows[k].(status := to, updatedAt := now)];
      WriteTransition(rows[k].id, from, to, source, now);
    }

    method UpdateAlertValue(k: Key, c: Anomaly, now: int)
      requires k in rows
      modifies `rows
      ensures rows == old(rows)[k := old(rows[k]).(value := c.value, threshold := c.threshold, details := c.details, updatedAt := now)]
    {
      rows := rows[k := rows[k].(value := c.value, threshold := c.threshold, details := c.details, updatedAt := now)];
    }

    method InsertAlert(serverId: string, c: Anomaly, now: int) returns (a: Alert)
      modifies `rows, `nextId
      ensures a == Alert(old(nextId), serverId, c.alertType, c.fingerprint, c.value, c.threshold, c.details, Active, now, now)
      ensures rows == old(rows)[KeyOf(a) := a] && nextId == old(nextId) + 1
    {
      a := Alert(nextId, serverId, c.alertType, c.fingerprint, c.value, c.threshold, c.details, Active, now, now);
      rows := rows[KeyOf(a) := a];
      nextId := nextId + 1;
    }

    /** An active alert that lost its candidate is resolved. */
    method ResolveAlert(a: Alert, source: Source, now: int) returns (change: Change)
      requires RowAt(State(), KeyOf(a)) == Some(a) && a.status.Active?
      modifies `rows, `log
      ensures State() == Settling(old(State()), KeyOf(a), None, source, now)
      ensures [change] == ChangeOf(old(State()), State(), KeyOf(a))
    {
      SetStatus(KeyOf(a), Active, Resolved, source, now);
      change := Change(a.(status := Resolved, updatedAt := now), Active, Resolved);
    }

    method ApplyCandidate(serverId: string, c: Anomaly, source: Source, now: int) returns (changes: seq<Change>)
      requires var k := Key(serverId, c.alertType, c.fingerprint); k in rows ==> KeyOf(rows[k]) == k
      modifies `rows, `log, `nextId
      ensures var k := Key(serverId, c.alertType, c.fingerprint);
        State() == Settling(old(State()), k, Some(c), source, now) && changes == ChangeOf(old(State()), State(), k)
    {
      var k := Key(serverId, c.alertType, c.fingerprint);
      changes := [];
      if k !in rows {
        var a := InsertAlert(serverId, c, now);
        WriteTransition(a.id, Resolved, Active, source, now);
        changes := [Change(a, Resolved, Active)];
      } else if rows[k].status.Resolved? {
        var existing := rows[k];
        UpdateAlertValue(k, c, now);
        SetStatus(k, Resolved, Active, source, now);
        changes := [Change(existing.(value := c.value, threshold := c.threshold, details := c.details, status := Active,
                                     updatedAt := now), Resolved, Active)];
      } else {
        UpdateAlertValue(k, c, now);
      }
    }

    /** First pass: resolves the active alerts that lost their candidate. */
    method ResolveLost(serverId: string, candidateMap: OrderedDict<Anomaly>, ghost cs: seq<Anomaly>, source: Source,
          now: int)
      returns (changes: seq<Change>, ghost done: set<Key>)
      requires Valid() && forall k :: MappedAt(candidateMap, cs, k)
      modifies `rows, `log
      ensures Progress(old(State()), State(), serverId, cs, source, now, changes, done)
      ensures forall k: Key :: k in done ==> CandidateFor(cs, k).None?
      ensures forall k: Key :: k.serverId == serverId && StatusAt(old(State()), k).Active? && CandidateFor(cs, k).None? ==> k in done
    {
      ghost var t := State();
      var active := GetActiveAlerts(serverId);
      changes, done := [], {};
      NothingYet(t, serverId, cs, source, now);
      for n := 0 to |active|
        invariant Progress(t, State(), serverId, cs, source, now, changes, done)
        invariant forall k :: k in done ==> k in KeysOf(active)[..n] && CandidateFor(cs, k).None?
        invariant forall k :: k in KeysOf(active)[..n] && CandidateFor(cs, k).None? ==> k in done
      {
        var k := KeyOf(active[n]);
        FreshAt(KeysOf(active), n);
        assert KeysOf(active)[..n + 1] == KeysOf(active)[..n] + [k];
        assert MappedAt(candidateMap, cs, k) && ActiveRow(t, serverId, active[n]);
        assert SettledAt(t, State(), serverId, cs, now, done, k);
        if AlertKey(active[n].alertType, active[n].fingerprint) !in candidateMap.vals {
          SettleStep(t, State(), serverId, cs, source, now, changes, done, k);
          var change := ResolveAlert(active[n], source, now);
          changes := changes + [change];
          done := done + {k};
        }
      }
      assert KeysOf(active)[..|active|] == KeysOf(active);
    }

    /** Second pass: every candidate creates, revives or refreshes its alert. */
    method ApplyCandidates(ghost t: Tables, serverId: string, candidateMap: OrderedDict<Anomaly>,
          ghost cs: seq<Anomaly>,
        source: Source, now: int, changes0: seq<Change>, ghost resolved: set<Key>)
      returns (changes: seq<Change>, ghost done: set<Key>)
      requires OwnKeys(candidateMap) && (forall k :: MappedAt(candidateMap, cs, k)) && TablesInv(t)
      requires Progress(t, State(), serverId, cs, source, now, changes0, resolved)
      requires forall k: Key :: k in resolved ==> CandidateFor(cs, k).None?
      modifies `rows, `log, `nextId
      ensures Progress(t, State(), serverId, cs, source, now, changes, done)
      ensures resolved <= done && forall k: Key :: k.serverId == serverId && CandidateFor(cs, k).Some? ==> k in done
    {
      changes, done := changes0, resolved;
      var order := candidateMap.order;
      for n := 0 to |order|
        invariant Progress(t, State(), serverId, cs, source, now, changes, done)
        invariant resolved <= done
        invariant forall k :: k in done && k !in resolved ==> AlertKey(k.alertType, k.fingerprint) in order[..n]
        invariant forall k: Key :: k.serverId == serverId && AlertKey(k.alertType, k.fingerprint) in order[..n] ==> k in done
      {
        var c := candidateMap.vals[order[n]];
        ghost var k := Key(serverId, c.alertType, c.fingerprint);
        FreshAt(order, n);
        assert order[..n + 1] == order[..n] + [order[n]];
        assert MappedAt(candidateMap, cs, k) && SettledAt(t, State(), serverId, cs, now, done, k);
        assert k in t.rows ==> RowOk(t, k);
        SettleStep(t, State(), serverId, cs, source, now, changes, done, k);
        var more := ApplyCandidate(serverId, c, source, now);
        changes := changes + more;
        OnlyKey(serverId, c);
        done := done + {k};
      }
      assert order[..|order|] == order;
      forall k: Key | k.serverId == serverId && CandidateFor(cs, k).Some?
        ensures k in done
      {
        assert MappedAt(candidateMap, cs, k);
      }
    }

    /** Applies the six rules to one server's alerts and returns the status changes. */
    method ReconcileAlerts(serverId: string, candidates: seq<Anomaly>, source: Source,
          now: int) returns (changes: seq<Change>)
      requires Valid()
      modifies this
      ensures Valid() && Reconciled(old(State()), State(), serverId, candidates, source, now, changes)
    {
      ghost var t := State();
      var candidateMap := BuildCandidateMap(candidates);
      ghost var done;
      changes, done := ResolveLost(serverId, candidateMap, candidates, source, now);
      changes, done := ApplyCandidates(t, serverId, candidateMap, candidates, source, now, changes, done);
      AllSettled(t, State(), serverId, candidates, source, now, changes, done);
      ReconcileKeepsInv(t, State(), serverId, candidates, source, now, changes);
    }

    method SilenceAlert(id: nat, now: int) returns (change: Option<Change>)
      requires Valid()
      modifies this
      ensures Valid() && (State(), change) == Silence(old(State()), id, now)
    {
      MovedKeepsInv(State(), id, {Active, Resolved}, Silenced, now);
      var a := GetAlertById(id);
      if a.None? { return None; }
      var k := KeyOf(a.value);
      assert SameId(State(), k, KeyById(State(), id).value);
      if a.value.status.Silenced? { return None; }
      SetStatus(k, a.value.status, Silenced, UserAction, now);
      change := Some(Change(a.value.(status := Silenced, updatedAt := now), a.value.status, Silenced));
    }

    method UnsilenceAlert(id: nat, now: int) returns (change: Option<Change>)
      requires Valid()
      modifies this
      ensures Valid() && (State(), change) == Unsilence(old(State()), id, now)
    {
      MovedKeepsInv(State(), id, {Silenced}, Resolved, now);
      var a := GetAlertById(id);
      if a.None? { return None; }
      var k := KeyOf(a.value);
      assert SameId(State(), k, KeyById(State(), id).value);
      if !a.value.status.Silenced? { return None; }
      SetStatus(k, Silenced, Resolved, UserAction, now);
      change := Some(Change(a.value.(status := Resolved, updatedAt := now), Silenced, Resolved));
    }

    method BatchSilenceAlerts(ids: seq<nat>, now: int) returns (changes: seq<Change>)
      requires Valid()
      modifies this
      ensures Valid() && (State(), changes) == SilenceAll(old(State()), ids, now)
    {
      changes := [];
      for n := 0 to |ids|
        invariant Valid() && (State(), changes) == SilenceAll(old(State()), ids[..n], now)
      {
        assert ids[..n + 1] == ids[..n] + [ids[n]];
        InitSnoc(ids[..n], ids[n]);
        var c := SilenceAlert(ids[n], now);
        changes := changes + AsList(c);
      }
      assert ids[..|ids|] == ids;
    }

    method BatchUnsilenceAlerts(ids: seq<nat>, now: int) returns (changes: seq<Change>)
      requires Valid()
      modifies this
      ensures Valid() && (State(), changes) == UnsilenceAll(old(State()), ids, now)
    {
      changes := [];
      for n := 0 to |ids|
        invariant Valid() && (State(), changes) == UnsilenceAll(old(State()), ids[..n], now)
      {
        assert ids[..n + 1] == ids[..n] + [ids[n]];
        InitSnoc(ids[..n], ids[n]);
        var c := UnsilenceAlert(ids[n], now);
        changes := changes + AsList(c);
      }
      assert ids[..|ids|] == ids;
    }

    method DeleteAlertsByServerId(serverId: string)
      requires Valid()
      modifies this
      ensures Valid() && State() == WithoutServer(old(State()), serverId)
    {
      DeleteKeepsInv(State(), serverId);
      log := LogWithout(log, set k | k in rows && k.serverId == serverId :: rows[k].id);
      rows := map k | k in rows && k.serverId != serverId :: rows[k];
    }
  }
}
