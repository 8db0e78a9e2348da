/** The broadcasts about one alert over whole runs: when they alternate, and how silencing makes them repeat. */
module AlertBroadcasts {
  import opened Basics
  import opened AlertSpec
  import opened AlertFacts
  import opened AlertRuns

  // ---------------------------------------------------------------------------
  // What was sent about one alert mirrors its log
  // ---------------------------------------------------------------------------

  predicate Mirrors(x: Transition, c: Change) {
    x.alertId == c.alert.id && x.from == c.from && x.to == c.to
  }

  ghost predicate AllMirror(h: seq<Transition>, s: seq<Change>) {
    |h| == |s| && forall i :: 0 <= i < |h| ==> Mirrors(h[i], s[i])
  }

  /** The changes of one alert, in the order they were sent. */
  function SentFor(sent: seq<Change>, id: nat): seq<Change> {
    if sent == [] then []
    else if Last(sent).alert.id == id then SentFor(Init(sent), id) + [Last(sent)]
    else SentFor(Init(sent), id)
  }

  lemma {:induction false} MirrorConcat(h: seq<Transition>, s: seq<Change>, more: seq<Transition>, sent: seq<Change>)
    requires AllMirror(h, s) && AllMirror(more, sent)
    ensures AllMirror(h + more, s + sent)
  {
  }

  lemma {:induction false} SentForMirrors(log: seq<Transition>, sent: seq<Change>, id: nat)
    requires AllMirror(log, sent)
    ensures AllMirror(EntriesOf(log, id), SentFor(sent, id))
    decreases |log|
  {
    if log != [] {
      assert Mirrors(log[|log| - 1], sent[|log| - 1]);
      assert forall i :: 0 <= i < |Init(log)| ==> Mirrors(Init(log)[i], Init(sent)[i]) by {
        assert forall i :: 0 <= i < |Init(log)| ==> Mirrors(log[i], sent[i]);
      }
      SentForMirrors(Init(log), Init(sent), id);
    }
  }

  lemma {:induction false} EntriesConcat(log: seq<Transition>, more: seq<Transition>, id: nat)
    ensures EntriesOf(log + more, id) == EntriesOf(log, id) + EntriesOf(more, id)
    decreases |more|
  {
    if more == [] {
      assert log + more == log;
    } else {
      assert Init(log + more) == log + Init(more) && Last(log + more) == Last(more);
      EntriesConcat(log, Init(more), id);
    }
  }

  lemma {:induction false} SentConcat(sent: seq<Change>, more: seq<Change>, id: nat)
    ensures SentFor(sent + more, id) == SentFor(sent, id) + SentFor(more, id)
    decreases |more|
  {
    if more == [] {
      assert sent + more == sent;
    } else {
      assert Init(sent + more) == sent + Init(more) && Last(sent + more) == Last(more);
      SentConcat(sent, Init(more), id);
    }
  }

  lemma {:induction false} EntriesWithout(log: seq<Transition>, ids: set<nat>, id: nat)
    requires id !in ids
    ensures EntriesOf(LogWithout(log, ids), id) == EntriesOf(log, id)
    decreases |log|
  {
    if log != [] {
      EntriesWithout(Init(log), ids, id);
      InitSnoc(LogWithout(Init(log), ids), Last(log));
    }
  }

  /** `id` belongs to a row of the table, or was not given yet. */
  ghost predicate Usable(t: Tables, id: nat) {
    (exists k :: HasId(t, k, id)) || id >= t.nextId
  }

  /** A change leaves 'silenced' only for 'resolved', and it is a change. */
  predicate Proper(c: Change) {
    c.from != c.to && (c.from.Silenced? ==> c.to.Resolved?)
  }

  ghost predicate AllProper(changes: seq<Change>) {
    forall i :: 0 <= i < |changes| ==> Proper(changes[i])
  }

  /** The log grew by the mirror of `changes`, and no id became usable. */
  ghost predicate Grew(t: Tables, r: Tables, entries: seq<Transition>, changes: seq<Change>) {
    && r.log == t.log + entries && AllMirror(entries, changes) && AllProper(changes)
    && forall id: nat :: Usable(r, id) ==> Usable(t, id)
  }

  lemma {:induction false} ReconcileGrows(t: Tables, r: Tables, serverId: string, cs: seq<Anomaly>, source: Source,
        now: int, changes: seq<Change>)
    requires Reconciled(t, r, serverId, cs, source, now, changes)
    ensures Grew(t, r, Entries(changes, source, now), changes)
  {
    forall i | 0 <= i < |changes|
      ensures Proper(changes[i])
    {
      assert ChangeAt(t, r, changes[i]);
      SixRules(t, r, serverId, cs, source, now, changes, KeyOf(changes[i].alert));
    }
    forall id: nat | Usable(r, id)
      ensures Usable(t, id)
    {
      if k :| HasId(r, k, id) {
        assert RuledAt(t, r, serverId, cs, now, k);
        assert k in t.rows ==> HasId(t, k, id);
      }
    }
  }

  function EntriesFor(changes: seq<Change>, now: int): seq<Transition> {
    Entries(changes, UserAction, now)
  }

  lemma {:induction false} MovedGrows(t: Tables, id: nat, from: set<AlertStatus>, to: AlertStatus, now: int)
    requires to !in from && (Silenced in from ==> to.Resolved?)
    ensures var (r, change) := Moved(t, id, from, to, now);
      Grew(t, r, EntriesFor(AsList(change), now), AsList(change))
  {
    var (r, change) := Moved(t, id, from, to, now);
    forall other: nat | Usable(r, other)
      ensures Usable(t, other)
    {
      if k :| HasId(r, k, other) { assert HasId(t, k, other); }
    }
  }

  lemma {:induction false} GrewTwice(t: Tables, u: Tables, r: Tables, first: seq<Transition>, front: seq<Change>,
        second: seq<Transition>, back: seq<Change>)
    requires Grew(t, u, first, front) && Grew(u, r, second, back)
    ensures Grew(t, r, first + second, front + back)
  {
    MirrorConcat(first, front, second, back);
    ConcatAssociates(t.log, first, second);
  }

  lemma {:induction false} EntriesTwice(front: seq<Change>, back: seq<Change>, now: int)
    ensures EntriesFor(front + back, now) == EntriesFor(front, now) + EntriesFor(back, now)
  {
  }

  lemma {:induction false} SilenceAllGrows(t: Tables, ids: seq<nat>, now: int)
    ensures var (r, changes) := SilenceAll(t, ids, now); Grew(t, r, EntriesFor(changes, now), changes)
    decreases |ids|
  {
    if ids != [] {
      SilenceAllGrows(t, Init(ids), now);
      var (u, front) := SilenceAll(t, Init(ids), now);
      var (r, change) := Silence(u, Last(ids), now);
      MovedGrows(u, Last(ids), {Active, Resolved}, Silenced, now);
      EntriesTwice(front, AsList(change), now);
      GrewTwice(t, u, r, EntriesFor(front, now), front, EntriesFor(AsList(change), now), AsList(change));
    }
  }

  lemma {:induction false} UnsilenceAllGrows(t: Tables, ids: seq<nat>, now: int)
    ensures var (r, changes) := UnsilenceAll(t, ids, now); Grew(t, r, EntriesFor(changes, now), changes)
    decreases |ids|
  {
    if ids != [] {
      UnsilenceAllGrows(t, Init(ids), now);
      var (u, front) := UnsilenceAll(t, Init(ids), now);
      var (r, change) := Unsilence(u, Last(ids), now);
      MovedGrows(u, Last(ids), {Silenced}, Resolved, now);
      EntriesTwice(front, AsList(change), now);
      GrewTwice(t, u, r, EntriesFor(front, now), front, EntriesFor(AsList(change), now), AsList(change));
    }
  }

  lemma {:induction false} StepGrows(t: Tables, op: Op, r: Tables, changes: seq<Change>)
    returns (entries: seq<Transition>)
    requires Steps(t, op, r, changes) && !op.DeleteServer?
    ensures Grew(t, r, entries, changes)
  {
    match op {
      case Reconcile(serverId, cs, source, now) =>
        ReconcileGrows(t, r, serverId, cs, source, now, changes);
        entries := Entries(changes, source, now);
      case SilenceOp(id, now) =>
        MovedGrows(t, id, {Active, Resolved}, Silenced, now);
        entries := EntriesFor(changes, now);
      case UnsilenceOp(id, now) =>
        MovedGrows(t, id, {Silenced}, Resolved, now);
        entries := EntriesFor(changes, now);
      case BatchSilence(ids, now) =>
        SilenceAllGrows(t, ids, now);
        entries := EntriesFor(changes, now);
      case BatchUnsilence(ids, now) =>
        UnsilenceAllGrows(t, ids, now);
        entries := EntriesFor(changes, now);
    }
  }

  /** Deleting a server leaves the log entries of the other alerts. */
  lemma {:induction false} DeleteKeepsEntries(t: Tables, serverId: string, id: nat)
    requires TablesInv(t) && Usable(WithoutServer(t, serverId), id)
    ensures Usable(t, id) && EntriesOf(WithoutServer(t, serverId).log, id) == EntriesOf(t.log, id)
  {
    var r := WithoutServer(t, serverId);
    var ids := set k | k in t.rows && k.serverId == serverId :: t.rows[k].id;
    if k :| HasId(r, k, id) {
      assert HasId(t, k, id);
      forall l | l in t.rows && l.serverId == serverId
        ensures t.rows[l].id != id
      {
        assert SameId(t, l, k) ==> l == k;
      }
    } else {
      forall l | l in t.rows
        ensures t.rows[l].id != id
      {
        assert RowOk(t, l);
      }
    }
    EntriesWithout(t.log, ids, id);
  }

  /** Over any run, what was sent about an alert that is still there is what its log says. */
  lemma {:induction false} ReachedMirrors(ops: seq<Op>, t: Tables, sent: seq<Change>, id: nat)
    requires Reached(ops, t, sent)
    ensures Usable(t, id) ==> AllMirror(EntriesOf(t.log, id), SentFor(sent, id))
    ensures AllProper(sent)
    decreases |ops|
  {
    if ops != [] {
      var before, front, changes := LastStep(EMPTY_TABLES, ops, t, sent);
      ReachedMirrors(Init(ops), before, front, id);
      if Last(ops).DeleteServer? {
        ReachedInv(Init(ops), before, front);
        assert sent == front;
        if Usable(t, id) { DeleteKeepsEntries(before, Last(ops).serverId, id); }
      } else {
        var entries := StepGrows(before, Last(ops), t, changes);
        SentForMirrors(entries, changes, id);
        EntriesConcat(before.log, entries, id);
        SentConcat(front, changes, id);
        if Usable(t, id) {
          MirrorConcat(EntriesOf(before.log, id), SentFor(front, id), EntriesOf(entries, id), SentFor(changes, id));
        }
      }
    }
  }

  // ---------------------------------------------------------------------------
  // The chain of one alert's changes
  // ---------------------------------------------------------------------------

  function End(s: seq<Change>): AlertStatus {
    if s == [] then Resolved else Last(s).to
  }

  ghost predicate JoinAt(s: seq<Change>, i: int)
    requires 0 <= i < |s|
  {
    s[i].from == End(s[..i]) && Proper(s[i])
  }

  /** Each change starts where the one before it ended, the first at 'resolved'. */
  ghost predicate Joined(s: seq<Change>) {
    forall i :: 0 <= i < |s| ==> JoinAt(s, i)
  }

  lemma {:induction false} SentForSubset(sent: seq<Change>, id: nat)
    requires AllProper(sent)
    ensures AllProper(SentFor(sent, id))
    decreases |sent|
  {
    if sent != [] {
      assert Proper(sent[|sent| - 1]);
      forall i | 0 <= i < |Init(sent)| ensures Proper(Init(sent)[i]) { assert Proper(sent[i]); }
      SentForSubset(Init(sent), id);
    }
  }

  /** The changes sent about an alert that is there join up to its status. */
  lemma {:induction false} ReachedJoined(ops: seq<Op>, t: Tables, sent: seq<Change>, k: Key)
    requires Reached(ops, t, sent) && k in t.rows
    ensures Joined(SentFor(sent, t.rows[k].id)) && End(SentFor(sent, t.rows[k].id)) == t.rows[k].status
  {
    var id := t.rows[k].id;
    var h, s := EntriesOf(t.log, id), SentFor(sent, id);
    LogReplays(ops, t, sent, k);
    assert HasId(t, k, id);
    ReachedMirrors(ops, t, sent, id);
    SentForSubset(sent, id);
    forall i | 0 <= i < |s|
      ensures JoinAt(s, i)
    {
      assert LinkAt(h, i) && Mirrors(h[i], s[i]);
      if i > 0 { assert Mirrors(h[i - 1], s[i - 1]) && Last(s[..i]) == s[i - 1]; }
    }
    if s != [] { assert Mirrors(h[|h| - 1], s[|s| - 1]); }
  }

  lemma {:induction false} JoinedPrefix(s: seq<Change>, n: nat)
    requires Joined(s) && n <= |s|
    ensures Joined(s[..n])
  {
    forall i | 0 <= i < n
      ensures JoinAt(s[..n], i)
    {
      assert JoinAt(s, i) && s[..n][..i] == s[..i];
    }
  }

  // ---------------------------------------------------------------------------
  // Alternation
  // ---------------------------------------------------------------------------

  /** Silencing an alert that is active. */
  predicate Hushes(c: Change) {
    c.from.Active? && c.to.Silenced?
  }

  ghost predicate NeverHushed(s: seq<Change>) {
    forall i :: 0 <= i < |s| ==> !Hushes(s[i])
  }

  ghost predicate Alternates(b: seq<Change>) {
    forall i :: 0 <= i < |b| ==> b[i].to == if i % 2 == 0 then Active else Resolved
  }

  /** Two broadcasts in a row say 'active'. */
  ghost predicate RepeatsActive(b: seq<Change>) {
    exists i :: 0 < i < |b| && b[i - 1].to.Active? && b[i].to.Active?
  }

  lemma {:induction false} RepeatsDoNotAlternate(b: seq<Change>)
    requires RepeatsActive(b)
    ensures !Alternates(b)
  {
    var i :| 0 < i < |b| && b[i - 1].to.Active? && b[i].to.Active?;
  }

  /** If the alert is never silenced while active, an odd number of broadcasts means that it is active. */
  lemma {:induction false} UnhushedAlternates(s: seq<Change>)
    requires Joined(s) && NeverHushed(s)
    ensures Alternates(Broadcast(s))
    ensures End(s).Active? <==> |Broadcast(s)| % 2 == 1
    decreases |s|
  {
    if s != [] {
      JoinedPrefix(s, |s| - 1);
      assert JoinAt(s, |s| - 1) && !Hushes(s[|s| - 1]);
      UnhushedAlternates(Init(s));
    }
  }

  lemma {:induction false} BroadcastPrefix(s: seq<Change>, n: nat)
    requires n <= |s|
    ensures Broadcast(s[..n]) <= Broadcast(s)
    decreases |s|
  {
    if n < |s| {
      assert Init(s)[..n] == s[..n];
      BroadcastPrefix(Init(s), n);
    } else {
      assert s[..n] == s;
    }
  }

  /** After a hush at `j` the last broadcast says 'active', and stays the last one while the alert does not become
      active again. */
  lemma {:induction false} LastSaidActive(s: seq<Change>, j: nat, n: nat)
    requires Joined(s) && j < n <= |s| && Hushes(s[j])
    requires forall i :: j < i < n ==> !s[i].to.Active?
    ensures var b := Broadcast(s[..n]); b != [] && Last(b).to.Active?
    ensures !End(s[..n]).Active?
    decreases n
  {
    assert Init(s[..n]) == s[..n - 1] && Last(s[..n]) == s[n - 1];
    assert JoinAt(s, n - 1);
    if n == j + 1 {
      assert j > 0 && Last(s[..j]) == s[j - 1] && JoinAt(s, j - 1);
      assert Init(s[..j]) == s[..j - 1];
    } else {
      LastSaidActive(s, j, n - 1);
    }
  }

  /** Once the alert is active again after a hush, 'active' was broadcast twice in a row. */
  lemma {:induction false} HushRepeats(s: seq<Change>, j: nat)
    requires Joined(s) && j < |s| && Hushes(s[j]) && End(s).Active?
    ensures RepeatsActive(Broadcast(s))
  {
    var n := j + 1;
    while n < |s| && !s[n].to.Active?
      invariant j < n <= |s| && forall i :: j < i < n ==> !s[i].to.Active?
    {
      n := n + 1;
    }
    LastSaidActive(s, j, n);
    assert s[..|s|] == s;
    assert n < |s|;
    assert JoinAt(s, n);
    var p := s[..n + 1];
    assert Init(p) == s[..n] && Last(p) == s[n];
    var b := Broadcast(p);
    assert b[|b| - 2].to.Active? && b[|b| - 1].to.Active?;
    BroadcastPrefix(s, n + 1);
    var all := Broadcast(s);
    assert all[|b| - 2] == b[|b| - 2] && all[|b| - 1] == b[|b| - 1];
  }

  /** ALTERNATION. Over any run of reports, sweeps, user actions and deletions, the broadcasts about an alert alternate,
      active, resolved, active, and so on, unless it was silenced while it was active. */
  lemma {:induction false} BroadcastsAlternate(ops: seq<Op>, t: Tables, sent: seq<Change>, k: Key)
    requires Reached(ops, t, sent) && k in t.rows
    requires NeverHushed(SentFor(sent, t.rows[k].id))
    ensures Alternates(Broadcast(SentFor(sent, t.rows[k].id)))
  {
    ReachedJoined(ops, t, sent, k);
    UnhushedAlternates(SentFor(sent, t.rows[k].id));
  }

  // ---------------------------------------------------------------------------
  // Finding a known alert again
  // ---------------------------------------------------------------------------

  lemma {:induction false} Enumerate(s: set<Key>) returns (l: seq<Key>)
    ensures NoDup(l) && forall k :: k in l <==> k in s
    decreases |s|
  {
    if s == {} {
      l := [];
    } else {
      var k := Element(s);
      var rest := Enumerate(s - {k});
      ConsNoDup(k, rest);
      l := [k] + rest;
    }
  }

  /** Every candidate is about an alert that is there. */
  ghost predicate AllKnown(t: Tables, serverId: string, cs: seq<Anomaly>) {
    forall k: Key :: k.serverId == serverId && CandidateFor(cs, k).Some? ==> k in t.rows
  }

  function RuledRow(t: Tables, serverId: string, cs: seq<Anomaly>, now: int, k: Key): Alert
    requires k in t.rows
  {
    if k.serverId != serverId then t.rows[k]
    else Ruled(RowAt(t, k), CandidateFor(cs, k), k, t.rows[k].id, now).GetOr(t.rows[k])
  }

  function RuledRows(t: Tables, serverId: string, cs: seq<Anomaly>, now: int): map<Key, Alert> {
    map k | k in t.rows :: RuledRow(t, serverId, cs, now, k)
  }

  function ChangesOf(t: Tables, rows: map<Key, Alert>, changed: seq<Key>): seq<Change>
    requires forall k :: k in changed ==> k in t.rows && k in rows
  {
    seq(|changed|, i requires 0 <= i < |changed| =>
      Change(rows[changed[i]], t.rows[changed[i]].status, rows[changed[i]].status))
  }

  /** Such candidates can be reconciled: the rules' outcome exists, with some order of the changes. */
  lemma {:induction false} KnownCanBeReconciled(t: Tables, serverId: string, cs: seq<Anomaly>, source: Source, now: int)
    returns (r: Tables, changes: seq<Change>)
    requires TablesInv(t) && AllKnown(t, serverId, cs)
    ensures Reconciled(t, r, serverId, cs, source, now, changes)
  {
    var rows := RuledRows(t, serverId, cs, now);
    var changed := Enumerate(set k | k in t.rows && rows[k].status != t.rows[k].status);
    changes := ChangesOf(t, rows, changed);
    r := Tables(rows, t.log + Entries(changes, source, now), t.nextId);
    forall k | k in t.rows
      ensures KeyOf(rows[k]) == k
    {
      assert RowOk(t, k);
    }
    assert ChangedKeys(changes) == changed;
    forall k
      ensures RuledAt(t, r, serverId, cs, now, k) && Reported(t, r, ChangedKeys(changes), k)
    {
    }
    forall i | 0 <= i < |changes|
      ensures ChangeAt(t, r, changes[i])
    {
      assert changed[i] in changed;
    }
  }

  /** A candidate that finds alert `k`. */
  function Finding(k: Key): Anomaly {
    Anomaly(k.alertType, 0.0, 0.0, k.fingerprint, None)
  }

  lemma {:induction false} FindingIsKnown(t: Tables, k: Key)
    requires k in t.rows
    ensures AllKnown(t, k.serverId, [Finding(k)]) && CandidateFor([Finding(k)], k).Some?
  {
    assert Init([Finding(k)]) == [] && Last([Finding(k)]) == Finding(k);
    forall l: Key | l.serverId == k.serverId && CandidateFor([Finding(k)], l).Some?
      ensures l == k
    {
      assert CandidateFor([], l).None?;
    }
  }

  /** An alert that is resolved can be found again: one reconciliation makes it active, and hushes none. */
  lemma {:induction false} CanBeFound(t: Tables, k: Key, now: int) returns (op: Op, r: Tables, changes: seq<Change>)
    requires TablesInv(t) && k in t.rows && t.rows[k].status.Resolved?
    ensures op.Reconcile? && Steps(t, op, r, changes) && NeverHushed(changes)
    ensures k in r.rows && r.rows[k].id == t.rows[k].id && r.rows[k].status.Active?
  {
    var cs := [Finding(k)];
    FindingIsKnown(t, k);
    r, changes := KnownCanBeReconciled(t, k.serverId, cs, Detection, now);
    op := Reconcile(k.serverId, cs, Detection, now);
    SixRules(t, r, k.serverId, cs, Detection, now, changes, k);
    assert RuledAt(t, r, k.serverId, cs, now, k);
    forall i | 0 <= i < |changes|
      ensures !Hushes(changes[i])
    {
      assert ChangeAt(t, r, changes[i]);
      SixRules(t, r, k.serverId, cs, Detection, now, changes, KeyOf(changes[i].alert));
    }
  }

  lemma {:induction false} CanBeUnsilenced(t: Tables, k: Key, now: int)
    returns (op: Op, r: Tables, changes: seq<Change>)
    requires TablesInv(t) && k in t.rows && t.rows[k].status.Silenced?
    ensures op.UnsilenceOp? && Steps(t, op, r, changes) && NeverHushed(changes) && TablesInv(r)
    ensures k in r.rows && r.rows[k].id == t.rows[k].id && r.rows[k].status.Resolved?
  {
    var id := t.rows[k].id;
    assert HasId(t, k, id);
    assert SameId(t, k, KeyById(t, id).value);
    op := UnsilenceOp(id, now);
    r, changes := Unsilence(t, id, now).0, AsList(Unsilence(t, id, now).1);
    StepKeepsInv(t, op, r, changes);
  }

  lemma {:induction false} RanNone(t: Tables, ops: seq<Op>, sent: seq<Change>)
    requires |ops| == 0 && |sent| == 0
    ensures Ran(t, ops, t, sent)
  {
  }

  lemma {:induction false} RanOnce(t: Tables, op: Op, r: Tables, changes: seq<Change>)
    returns (ops: seq<Op>)
    requires Steps(t, op, r, changes)
    ensures ops == [op] && Ran(t, ops, r, changes)
  {
    ops := [op];
    var none, quiet := Init(ops), changes[..0];
    RanNone(t, none, quiet);
    RanSnoc(t, none, t, quiet, op, r, changes);
    assert none + [op] == ops;
    assert quiet + changes == changes;
  }

  lemma {:induction false} CanBeFreed(t: Tables, k: Key, now: int)
    returns (more: seq<Op>, r: Tables, changes: seq<Change>)
    requires TablesInv(t) && k in t.rows && t.rows[k].status.Silenced?
    ensures Ran(t, more, r, changes) && NeverHushed(changes)
    ensures |more| == 2 && more[0].UnsilenceOp? && more[1].Reconcile?
    ensures k in r.rows && r.rows[k].id == t.rows[k].id && r.rows[k].status.Active?
  {
    var first, u, front := CanBeUnsilenced(t, k, now);
    var second, v, back := CanBeFound(u, k, now);
    var once := RanOnce(t, first, u, front);
    RanSnoc(t, once, u, front, second, v, back);
    more, r, changes := once + [second], v, front + back;
  }

  /** At most an unsilence and a reconciliation lead to a state in which alert `k` is active, and hush none. */
  lemma {:induction false} CanBeActive(t: Tables, k: Key, now: int)
    returns (more: seq<Op>, r: Tables, changes: seq<Change>)
    requires TablesInv(t) && k in t.rows
    ensures Ran(t, more, r, changes) && NeverHushed(changes)
    ensures |more| <= 2 && forall i :: 0 <= i < |more| ==> more[i].UnsilenceOp? || more[i].Reconcile?
    ensures k in r.rows && r.rows[k].id == t.rows[k].id && r.rows[k].status.Active?
  {
    match t.rows[k].status {
      case Active =>
        more, r, changes := [], t, [];
        RanNone(t, more, changes);
      case Resolved =>
        var op;
        op, r, changes := CanBeFound(t, k, now);
        more := RanOnce(t, op, r, changes);
      case Silenced =>
        more, r, changes := CanBeFreed(t, k, now);
    }
  }

  lemma {:induction false} InitLast<T>(s: seq<T>, more: seq<T>)
    requires more != []
    ensures (s + Init(more)) + [Last(more)] == s + more
  {
  }

  lemma {:induction false} RanOnNothing(ops: seq<Op>, t: Tables, sent: seq<Change>, more: seq<Op>, changes: seq<Change>)
    requires Reached(ops, t, sent) && |more| == 0 && |changes| == 0
    ensures Reached(ops + more, t, sent + changes)
  {
    assert ops + more == ops && sent + changes == sent;
  }

  lemma {:induction false} RanOn(ops: seq<Op>, t: Tables, sent: seq<Change>, more: seq<Op>, r: Tables,
        changes: seq<Change>)
    requires Reached(ops, t, sent) && Ran(t, more, r, changes)
    ensures Reached(ops + more, r, sent + changes)
    decreases |more|
  {
    if more == [] {
      RanOnNothing(ops, t, sent, more, changes);
    } else {
      var before, front, back := LastStep(t, more, r, changes);
      RanOn(ops, t, sent, Init(more), before, front);
      RanSnoc(EMPTY_TABLES, ops + Init(more), before, sent + front, Last(more), r, back);
      InitLast(ops, more);
      ConcatAssociates(sent, front, back);
    }
  }

  // ---------------------------------------------------------------------------
  // The exact condition
  // ---------------------------------------------------------------------------

  lemma {:induction false} HushStays(s: seq<Change>, more: seq<Change>)
    requires !NeverHushed(s)
    ensures !NeverHushed(s + more)
  {
    var j :| 0 <= j < |s| && Hushes(s[j]);
    assert Hushes((s + more)[j]);
  }

  lemma {:induction false} SentForUnhushed(sent: seq<Change>, id: nat)
    requires NeverHushed(sent)
    ensures NeverHushed(SentFor(sent, id))
    decreases |sent|
  {
    if sent != [] {
      assert !Hushes(sent[|sent| - 1]);
      forall i | 0 <= i < |Init(sent)| ensures !Hushes(Init(sent)[i]) { assert !Hushes(sent[i]); }
      SentForUnhushed(Init(sent), id);
    }
  }

  /** REPETITION. Any run in which the alert was silenced while it was active goes on, with at most an unsilence and a
      reconciliation, to a state where two broadcasts about it in a row have said 'active'. */
  lemma {:induction false} SilencingRepeatsActive(ops: seq<Op>, t: Tables, sent: seq<Change>, k: Key, now: int)
    returns (more: seq<Op>, r: Tables, changes: seq<Change>)
    requires Reached(ops, t, sent) && k in t.rows && !NeverHushed(SentFor(sent, t.rows[k].id))
    ensures Ran(t, more, r, changes) && NeverHushed(changes)
    ensures |more| <= 2 && forall i :: 0 <= i < |more| ==> more[i].UnsilenceOp? || more[i].Reconcile?
    ensures HasId(r, k, t.rows[k].id) && RepeatsActive(Broadcast(SentFor(sent + changes, t.rows[k].id)))
  {
    var id := t.rows[k].id;
    ReachedInv(ops, t, sent);
    more, r, changes := CanBeActive(t, k, now);
    RanOn(ops, t, sent, more, r, changes);
    SentConcat(sent, changes, id);
    HushStays(SentFor(sent, id), SentFor(changes, id));
    var s := SentFor(sent + changes, id);
    ReachedJoined(ops + more, r, sent + changes, k);
    var j :| 0 <= j < |s| && Hushes(s[j]);
    HushRepeats(s, j);
  }

  /** What was broadcast about the alert alternates, if it is still there and was not hushed since. */
  ghost predicate AlternatesIn(r: Tables, sent: seq<Change>, changes: seq<Change>, k: Key, id: nat) {
    HasId(r, k, id) && NeverHushed(SentFor(changes, id)) ==> Alternates(Broadcast(SentFor(sent + changes, id)))
  }

  /** However the run goes on, as long as the alert is there and no further silencing hits it while it is active. */
  ghost predicate KeepsAlternating(t: Tables, sent: seq<Change>, k: Key)
    requires k in t.rows
  {
    forall more: seq<Op>, r: Tables, changes: seq<Change> ::
      Ran(t, more, r, changes) ==> AlternatesIn(r, sent, changes, k, t.rows[k].id)
  }

  /** The exact condition: after any run, the broadcasts about an alert alternate and keep alternating if and only if it
      was never silenced while it was active. */
  lemma {:induction false} AlternatesExactly(ops: seq<Op>, t: Tables, sent: seq<Change>, k: Key)
    requires Reached(ops, t, sent) && k in t.rows
    ensures KeepsAlternating(t, sent, k) <==> NeverHushed(SentFor(sent, t.rows[k].id))
  {
    var id := t.rows[k].id;
    if NeverHushed(SentFor(sent, id)) {
      forall more: seq<Op>, r: Tables, changes: seq<Change> | Ran(t, more, r, changes)
        ensures AlternatesIn(r, sent, changes, k, id)
      {
        if HasId(r, k, id) && NeverHushed(SentFor(changes, id)) {
          RanOn(ops, t, sent, more, r, changes);
          SentConcat(sent, changes, id);
          BroadcastsAlternate(ops + more, r, sent + changes, k);
        }
      }
    } else {
      var more, r, changes := SilencingRepeatsActive(ops, t, sent, k, 0);
      SentForUnhushed(changes, id);
      RepeatsDoNotAlternate(Broadcast(SentFor(sent + changes, id)));
      assert !AlternatesIn(r, sent, changes, k, id);
    }
  }
}
