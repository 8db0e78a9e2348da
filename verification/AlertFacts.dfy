/** Every operation on the alert tables keeps them sound: the log of each alert replays from 'resolved' to its status. */
module AlertFacts {
  import opened Basics
  import opened AlertSpec

  // ---------------------------------------------------------------------------
  // Replay
  // ---------------------------------------------------------------------------

  lemma {:induction false} ReplaySnoc(log: seq<Transition>, x: Transition, id: nat)
    ensures Replay(log + [x], id) ==
      if x.alertId != id then Replay(log, id) else if Replay(log, id) == Some(x.from) then Some(x.to) else None
  {
  }

  lemma {:induction false} ReplayUntouched(log: seq<Transition>, more: seq<Transition>, id: nat)
    requires forall i :: 0 <= i < |more| ==> more[i].alertId != id
    ensures Replay(log + more, id) == Replay(log, id)
    decreases |more|
  {
    if more == [] {
      assert log + more == log;
    } else {
      assert log + more == (log + Init(more)) + [Last(more)];
      ReplaySnoc(log + Init(more), Last(more), id);
      ReplayUntouched(log, Init(more), id);
    }
  }

  lemma {:induction false} ReplayOnce(log: seq<Transition>, more: seq<Transition>, id: nat, i: nat)
    requires i < |more| && more[i].alertId == id && Replay(log, id) == Some(more[i].from)
    requires forall j :: 0 <= j < |more| && j != i ==> more[j].alertId != id
    ensures Replay(log + more, id) == Some(more[i].to)
    decreases |more|
  {
    assert log + more == (log + Init(more)) + [Last(more)];
    ReplaySnoc(log + Init(more), Last(more), id);
    if i == |more| - 1 {
      ReplayUntouched(log, Init(more), id);
    } else {
      ReplayOnce(log, Init(more), id, i);
    }
  }

  /** An id that no entry mentions replays to 'resolved'. */
  lemma {:induction false} ReplayNew(log: seq<Transition>, id: nat)
    requires forall i :: 0 <= i < |log| ==> log[i].alertId != id
    ensures Replay(log, id) == Some(Resolved)
  {
    assert [] + log == log;
    ReplayUntouched([], log, id);
  }

  /** The entries of one alert, in order. */
  function EntriesOf(log: seq<Transition>, id: nat): seq<Transition> {
    if log == [] then []
    else if Last(log).alertId == id then EntriesOf(Init(log), id) + [Last(log)]
    else EntriesOf(Init(log), id)
  }

  predicate LinkAt(h: seq<Transition>, i: nat)
    requires i < |h|
  {
    h[i].from == if i == 0 then Resolved else h[i - 1].to
  }

  /** Starts at 'resolved', and each entry starts where the one before it ended. */
  predicate Chain(h: seq<Transition>) {
    forall i :: 0 <= i < |h| ==> LinkAt(h, i)
  }

  /** Replay succeeds exactly on connected chains, and gives the status the chain ends in. */
  lemma {:induction false} ReplayIsChain(log: seq<Transition>, id: nat)
    ensures Replay(log, id).Some? <==> Chain(EntriesOf(log, id))
    ensures Chain(EntriesOf(log, id)) ==>
      Replay(log, id) == Some(if EntriesOf(log, id) == [] then Resolved else Last(EntriesOf(log, id)).to)
    decreases |log|
  {
    if log != [] {
      ReplayIsChain(Init(log), id);
      var h, before := EntriesOf(log, id), EntriesOf(Init(log), id);
      if Last(log).alertId == id {
        assert forall i :: 0 <= i < |before| ==> (LinkAt(h, i) <==> LinkAt(before, i));
        assert Chain(h) <==> Chain(before) && LinkAt(h, |before|);
      }
    }
  }

  // ---------------------------------------------------------------------------
  // Reconciliation
  // ---------------------------------------------------------------------------

  lemma {:induction false} KeptRow(t: Tables, r: Tables, serverId: string, cs: seq<Anomaly>, now: int, k: Key)
    requires RuledAt(t, r, serverId, cs, now, k) && t.nextId <= r.nextId
    requires k in t.rows ==> RowOk(t, k)
    ensures k in t.rows ==> k in r.rows && r.rows[k].id == t.rows[k].id
    ensures k in r.rows ==> KeyOf(r.rows[k]) == k && r.rows[k].id < r.nextId
    ensures k in r.rows && k !in t.rows ==> t.nextId <= r.rows[k].id
  {
  }

  lemma {:induction false} ReconcileKeepsIds(t: Tables, r: Tables, serverId: string, cs: seq<Anomaly>, source: Source,
        now: int,
      changes: seq<Change>)
    requires TablesInv(t) && Reconciled(t, r, serverId, cs, source, now, changes)
    ensures forall k, l :: SameId(r, k, l) ==> k == l
  {
    forall k, l | SameId(r, k, l)
      ensures k == l
    {
      assert RuledAt(t, r, serverId, cs, now, k) && RuledAt(t, r, serverId, cs, now, l);
      assert k in t.rows ==> RowOk(t, k);
      assert l in t.rows ==> RowOk(t, l);
      KeptRow(t, r, serverId, cs, now, k);
      KeptRow(t, r, serverId, cs, now, l);
      assert k in t.rows && l in t.rows ==> SameId(t, k, l);
      assert k !in t.rows && l !in t.rows ==> NewPair(t, r, k, l);
    }
  }

  lemma {:induction false} BeforeChange(t: Tables, r: Tables, serverId: string, cs: seq<Anomaly>, now: int, k: Key)
    requires TablesInv(t) && RuledAt(t, r, serverId, cs, now, k) && t.nextId <= r.nextId && k in r.rows
    ensures Replay(t.log, r.rows[k].id) == Some(StatusAt(t, k))
  {
    if k in t.rows {
      assert RowOk(t, k);
      KeptRow(t, r, serverId, cs, now, k);
    } else {
      ReplayNew(t.log, r.rows[k].id);
    }
  }

  lemma {:induction false} ReconcileKeepsRow(t: Tables, r: Tables, serverId: string, cs: seq<Anomaly>, source: Source,
        now: int,
      changes: seq<Change>, k: Key)
    requires TablesInv(t) && Reconciled(t, r, serverId, cs, source, now, changes) && k in r.rows
    requires forall l, m :: SameId(r, l, m) ==> l == m
    ensures RowOk(r, k)
  {
    assert RuledAt(t, r, serverId, cs, now, k);
    assert k in t.rows ==> RowOk(t, k);
    KeptRow(t, r, serverId, cs, now, k);
    BeforeChange(t, r, serverId, cs, now, k);
    var keys, id, more := ChangedKeys(changes), r.rows[k].id, Entries(changes, source, now);
    forall j | 0 <= j < |changes| && keys[j] != k
      ensures more[j].alertId != id
    {
      assert ChangeAt(t, r, changes[j]);
      assert more[j].alertId == id ==> SameId(r, keys[j], k);
    }
    assert Reported(t, r, keys, k);
    if k in keys {
      var i := IndexOf(keys, k);
      assert ChangeAt(t, r, changes[i]);
      forall j | 0 <= j < |changes| && j != i
        ensures keys[j] != k
      {
        assert if i < j then Apart(keys, i, j) else Apart(keys, j, i);
      }
      ReplayOnce(t.log, more, id, i);
    } else {
      ReplayUntouched(t.log, more, id);
    }
  }

  lemma {:induction false} ReconcileKeepsInv(t: Tables, r: Tables, serverId: string, cs: seq<Anomaly>, source: Source,
        now: int,
      changes: seq<Change>)
    requires TablesInv(t) && Reconciled(t, r, serverId, cs, source, now, changes)
    ensures TablesInv(r)
  {
    ReconcileKeepsIds(t, r, serverId, cs, source, now, changes);
    forall k | k in r.rows
      ensures RowOk(r, k)
    {
      ReconcileKeepsRow(t, r, serverId, cs, source, now, changes, k);
    }
    forall i | 0 <= i < |r.log|
      ensures r.log[i].alertId < r.nextId && r.log[i].from != r.log[i].to
    {
      if i >= |t.log| {
        var c := changes[i - |t.log|];
        assert ChangeAt(t, r, c) && RowOk(r, KeyOf(c.alert));
      }
    }
  }

  // ---------------------------------------------------------------------------
  // User actions and deletion
  // ---------------------------------------------------------------------------

  lemma {:induction false} StatusKeepsInv(t: Tables, k: Key, to: AlertStatus, source: Source, now: int)
    requires TablesInv(t) && k in t.rows && t.rows[k].status != to
    ensures TablesInv(WithStatus(t, k, to, source, now))
  {
    var r := WithStatus(t, k, to, source, now);
    assert RowOk(t, k);
    forall l | l in r.rows
      ensures RowOk(r, l)
    {
      assert RowOk(t, l);
      assert l != k ==> !SameId(t, k, l);
      ReplaySnoc(t.log, Last(r.log), t.rows[l].id);
    }
    forall l, m | SameId(r, l, m)
      ensures l == m
    {
      assert SameId(t, l, m);
    }
  }

  lemma {:induction false} MovedKeepsInv(t: Tables, id: nat, from: set<AlertStatus>, to: AlertStatus, now: int)
    requires TablesInv(t) && to !in from
    ensures TablesInv(Moved(t, id, from, to, now).0)
  {
    var k := KeyById(t, id);
    if k.Some? && t.rows[k.value].status in from {
      StatusKeepsInv(t, k.value, to, UserAction, now);
    }
  }

  lemma {:induction false} SilenceAllKeepsInv(t: Tables, ids: seq<nat>, now: int)
    requires TablesInv(t)
    ensures TablesInv(SilenceAll(t, ids, now).0)
    decreases |ids|
  {
    if ids != [] {
      SilenceAllKeepsInv(t, Init(ids), now);
      MovedKeepsInv(SilenceAll(t, Init(ids), now).0, Last(ids), {Active, Resolved}, Silenced, now);
    }
  }

  lemma {:induction false} UnsilenceAllKeepsInv(t: Tables, ids: seq<nat>, now: int)
    requires TablesInv(t)
    ensures TablesInv(UnsilenceAll(t, ids, now).0)
    decreases |ids|
  {
    if ids != [] {
      UnsilenceAllKeepsInv(t, Init(ids), now);
      MovedKeepsInv(UnsilenceAll(t, Init(ids), now).0, Last(ids), {Silenced}, Resolved, now);
    }
  }

  lemma {:induction false} ReplayWithout(log: seq<Transition>, ids: set<nat>, id: nat)
    requires id !in ids
    ensures Replay(LogWithout(log, ids), id) == Replay(log, id)
    decreases |log|
  {
    if log != [] {
      ReplayWithout(Init(log), ids, id);
      if Last(log).alertId !in ids {
        ReplaySnoc(LogWithout(Init(log), ids), Last(log), id);
      }
    }
  }

  lemma {:induction false} LogWithoutSubset(log: seq<Transition>, ids: set<nat>)
    ensures forall x :: x in LogWithout(log, ids) ==> x in log
    decreases |log|
  {
    if log != [] {
      LogWithoutSubset(Init(log), ids);
      assert log == Init(log) + [Last(log)];
    }
  }

  lemma {:induction false} DeleteKeepsInv(t: Tables, serverId: string)
    requires TablesInv(t)
    ensures TablesInv(WithoutServer(t, serverId))
  {
    var r := WithoutServer(t, serverId);
    var ids := set k | k in t.rows && k.serverId == serverId :: t.rows[k].id;
    forall k | k in r.rows
      ensures RowOk(r, k)
    {
      assert RowOk(t, k);
      forall l | l in t.rows && l.serverId == serverId
        ensures t.rows[l].id != t.rows[k].id
      {
        assert SameId(t, l, k) ==> l == k;
      }
      ReplayWithout(t.log, ids, t.rows[k].id);
    }
    forall k, l | SameId(r, k, l)
      ensures k == l
    {
      assert SameId(t, k, l);
    }
    LogWithoutSubset(t.log, ids);
    forall i | 0 <= i < |r.log|
      ensures r.log[i].alertId < r.nextId && r.log[i].from != r.log[i].to
    {
      assert r.log[i] in t.log;
    }
  }

  // ---------------------------------------------------------------------------
  // Rules, seen from outside
  // ---------------------------------------------------------------------------

  /** The table of the six rules, row by row, and nothing for other servers. */
  lemma {:induction false} SixRules(t: Tables, r: Tables, serverId: string, cs: seq<Anomaly>, source: Source, now: int,
      changes: seq<Change>, k: Key)
    requires Reconciled(t, r, serverId, cs, source, now, changes)
    ensures var present := CandidateFor(cs, k).Some?;
      && (k.serverId != serverId ==> RowAt(r, k) == RowAt(t, k))
      && (k.serverId == serverId ==>
            StatusAt(r, k) == match StatusAt(t, k)
                              case Silenced => Silenced
                              case _ => if present then Active else Resolved)
      && (k.serverId == serverId && present ==>
            k in r.rows && r.rows[k].value == CandidateFor(cs, k).value.value
            && r.rows[k].threshold == CandidateFor(cs, k).value.threshold
            && r.rows[k].details == CandidateFor(cs, k).value.details)
      && (k.serverId == serverId && !present && StatusAt(t, k) == StatusAt(r, k) ==> RowAt(r, k) == RowAt(t, k))
      && (k in ChangedKeys(changes) <==> StatusAt(t, k) != StatusAt(r, k))
      && (k.serverId == serverId && k in r.rows && (present || StatusAt(t, k) != StatusAt(r, k)) ==>
            r.rows[k].updatedAt == now)
      && (k in t.rows ==> k in r.rows && r.rows[k].id == t.rows[k].id && r.rows[k].createdAt == t.rows[k].createdAt)
      && (k !in t.rows && k in r.rows ==> r.rows[k].createdAt == now && t.nextId <= r.rows[k].id < r.nextId)
  {
    assert RuledAt(t, r, serverId, cs, now, k) && Reported(t, r, ChangedKeys(changes), k);
  }

  /** A second reconciliation with the same candidates changes no status, writes no log entry and reports nothing. */
  lemma {:induction false} SecondIsQuiet(t: Tables, r: Tables, u: Tables, serverId: string, cs: seq<Anomaly>,
      first: seq<Change>, second: seq<Change>, source: Source, now: int, later: int)
    requires Reconciled(t, r, serverId, cs, source, now, first)
    requires Reconciled(r, u, serverId, cs, source, later, second)
    ensures second == [] && u.log == r.log && u.rows.Keys == r.rows.Keys
    ensures forall k :: k in r.rows ==> u.rows[k] == r.rows[k].(updatedAt := u.rows[k].updatedAt)
  {
    forall k
      ensures k !in ChangedKeys(second) && (k in u.rows <==> k in r.rows)
      ensures k in r.rows ==> u.rows[k] == r.rows[k].(updatedAt := u.rows[k].updatedAt)
    {
      SixRules(t, r, serverId, cs, source, now, first, k);
      SixRules(r, u, serverId, cs, source, later, second, k);
      assert RuledAt(r, u, serverId, cs, later, k) && RuledAt(t, r, serverId, cs, now, k);
    }
    assert forall i :: 0 <= i < |second| ==> ChangedKeys(second)[i] in ChangedKeys(second);
    assert |ChangedKeys(second)| == 0 by {
      NoElements(ChangedKeys(second));
    }
    assert Entries(second, source, later) == [];
  }

  // ---------------------------------------------------------------------------
  // User actions, seen from outside
  // ---------------------------------------------------------------------------

  /** From `t` to `r` exactly the row `k` changed, to status `to` at `now`, with one log entry by the user. */
  ghost predicate Moves(t: Tables, r: Tables, change: Option<Change>, k: Key, to: AlertStatus, now: int) {
    && k in t.rows && k in r.rows && r.rows.Keys == t.rows.Keys && r.nextId == t.nextId
    && (forall l :: l in t.rows && l != k ==> r.rows[l] == t.rows[l])
    && r.rows[k] == t.rows[k].(status := to, updatedAt := now)
    && r.log == t.log + [Transition(t.rows[k].id, t.rows[k].status, to, UserAction, now)]
    && change == Some(Change(r.rows[k], t.rows[k].status, to))
  }

  /** Silencing an id silences its alert if there is one that is not silenced yet, and otherwise does nothing. */
  lemma {:induction false} SilenceExactly(t: Tables, id: nat, now: int)
    requires TablesInv(t)
    ensures var (r, change) := Silence(t, id, now);
      && (forall k :: k in t.rows && t.rows[k].id == id && !t.rows[k].status.Silenced? ==> Moves(t, r, change, k, Silenced, now))
      && ((forall k :: k in t.rows && t.rows[k].id == id ==> t.rows[k].status.Silenced?) ==> r == t && change.None?)
  {
    forall k | k in t.rows && t.rows[k].id == id
      ensures KeyById(t, id) == Some(k)
    {
      assert HasId(t, k, id);
      assert SameId(t, k, KeyById(t, id).value);
    }
  }

  /** Unsilencing an id resolves its alert if there is one and it is silenced, and otherwise does nothing. */
  lemma {:induction false} UnsilenceExactly(t: Tables, id: nat, now: int)
    requires TablesInv(t)
    ensures var (r, change) := Unsilence(t, id, now);
      && (forall k :: k in t.rows && t.rows[k].id == id && t.rows[k].status.Silenced? ==> Moves(t, r, change, k, Resolved, now))
      && ((forall k :: k in t.rows && t.rows[k].id == id ==> !t.rows[k].status.Silenced?) ==> r == t && change.None?)
  {
    forall k | k in t.rows && t.rows[k].id == id
      ensures KeyById(t, id) == Some(k)
    {
      assert HasId(t, k, id);
      assert SameId(t, k, KeyById(t, id).value);
    }
  }

  /** Silencing several ids silences their alerts and leaves all others as they were. */
  lemma {:induction false} SilenceAllExactly(t: Tables, ids: seq<nat>, now: int, k: Key)
    requires TablesInv(t) && k in t.rows
    ensures var r := SilenceAll(t, ids, now).0;
      && k in r.rows && r.rows[k].id == t.rows[k].id
      && (t.rows[k].id in ids ==> r.rows[k].status.Silenced?)
      && (t.rows[k].id !in ids ==> r.rows[k] == t.rows[k])
    decreases |ids|
  {
    if ids != [] {
      var front, id := Init(ids), Last(ids);
      assert ids == front + [id];
      SilenceAllKeepsInv(t, front, now);
      SilenceAllExactly(t, front, now, k);
      SilenceExactly(SilenceAll(t, front, now).0, id, now);
    }
  }

  /** Unsilencing several ids leaves none of their alerts silenced, and all others as they were. */
  lemma {:induction false} UnsilenceAllExactly(t: Tables, ids: seq<nat>, now: int, k: Key)
    requires TablesInv(t) && k in t.rows
    ensures var r := UnsilenceAll(t, ids, now).0;
      && k in r.rows && r.rows[k].id == t.rows[k].id
      && (t.rows[k].id in ids ==>
            r.rows[k].status == if t.rows[k].status.Silenced? then Resolved else t.rows[k].status)
      && (t.rows[k].id !in ids ==> r.rows[k] == t.rows[k])
    decreases |ids|
  {
    if ids != [] {
      var front, id := Init(ids), Last(ids);
      assert ids == front + [id];
      UnsilenceAllKeepsInv(t, front, now);
      UnsilenceAllExactly(t, front, now, k);
      UnsilenceExactly(UnsilenceAll(t, front, now).0, id, now);
    }
  }

  /** Deleting a server removes its alerts, no other, and the entries of exactly the alerts removed. */
  lemma {:induction false} DeleteExactly(t: Tables, serverId: string, k: Key)
    requires TablesInv(t)
    ensures var r := WithoutServer(t, serverId);
      && (k.serverId == serverId ==> k !in r.rows)
      && (k.serverId != serverId ==> RowAt(r, k) == RowAt(t, k))
      && (k in t.rows && k.serverId != serverId ==> EntriesOf(r.log, t.rows[k].id) == EntriesOf(t.log, t.rows[k].id))
      && (k in t.rows && k.serverId == serverId ==> EntriesOf(r.log, t.rows[k].id) == [])
  {
    var ids := set l | l in t.rows && l.serverId == serverId :: t.rows[l].id;
    if k in t.rows {
      EntriesWithout(t.log, ids, t.rows[k].id);
      if t.rows[k].id in ids {
        var l :| l in t.rows && l.serverId == serverId && t.rows[l].id == t.rows[k].id;
        assert SameId(t, l, k);
      }
    }
  }

  lemma {:induction false} EntriesWithout(log: seq<Transition>, ids: set<nat>, id: nat)
    ensures EntriesOf(LogWithout(log, ids), id) == if id in ids then [] else EntriesOf(log, id)
    decreases |log|
  {
    if log != [] {
      EntriesWithout(Init(log), ids, id);
      InitSnoc(LogWithout(Init(log), ids), Last(log));
    }
  }
}
