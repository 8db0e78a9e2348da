/** The alert engine: detectors on the shared store, then the closed loop on the tables. */
module AlertEngines {
  import opened Basics
  import opened AlertSpec
  import opened AlertTables
  import opened AlertInputs
  import opened StateStore
  import opened Thresholds
  import opened GpuIdle
  import opened GpuIdleFacts
  import opened EngineRuns
  import AlertRuns

  // ---------------------------------------------------------------------------
  // Detectors side by side on one store
  // ---------------------------------------------------------------------------

  ghost predicate ThresholdOnly(before: map<string, Entry>, after: map<string, Entry>) {
    forall key :: !("threshold:" <= key) ==> Found(after, key) == Found(before, key)
  }

  lemma {:induction false} ChecksTouchThresholds(state: map<string, Entry>, checks: seq<Check>, durationMs: real,
        now: int)
    requires forall c :: c in checks ==> "threshold:" <= c.key
    ensures ThresholdOnly(state, RunChecks(state, checks, durationMs, now).0)
    decreases |checks|
  {
    if checks != [] {
      assert forall c :: c in Init(checks) ==> c in checks;
      ChecksTouchThresholds(state, Init(checks), durationMs, now);
      assert Last(checks) in checks;
    }
  }

  lemma {:induction false} IndexUntouched(before: map<string, Entry>, after: map<string, Entry>, serverId: string,
      tracked: map<Pair, TrackedProcess>, saved: set<Pair>)
    requires ThresholdOnly(before, after) && Index(before, serverId, tracked, saved)
    ensures Index(after, serverId, tracked, saved)
  {
    forall p
      ensures HoldsAt(after, serverId, tracked, p)
    {
      assert HoldsAt(before, serverId, tracked, p);
      KeyKinds(serverId, p, 0);
      KindsApart(StoreKey(serverId, p));
    }
    forall key
      ensures OwnAt(after, serverId, key)
    {
      assert OwnAt(before, serverId, key);
      KindsApart(key);
      if StartsWith(key, ServerPrefix(serverId)) {
        PrefixOfPrefix("gpu_idle:", serverId + ":", key);
        assert Found(after, key) == Found(before, key);
      }
    }
    KeyKinds(serverId, (0, 0), 0);
    KindsApart(SavedKey(serverId));
    assert Found(after, SavedKey(serverId)) == Found(before, SavedKey(serverId));
  }

  lemma {:induction false} IdleKeepsKinds(before: map<string, Entry>, after: map<string, Entry>, serverId: string,
      tracked: map<Pair, TrackedProcess>, saved: set<Pair>)
    requires Typed(before) && AllSound(before) && OnlyOwn(before, after, serverId) && Index(after, serverId, tracked, saved)
    requires SavedKey(serverId) in after && after[SavedKey(serverId)].OfKeys?
    ensures Typed(after) && AllSound(after)
  {
    KeyKinds(serverId, (0, 0), 0);
    KindsApart(SavedKey(serverId));
    forall key
      ensures TypedAt(after, key) && Sound(Stored(after, key))
    {
      assert TypedAt(before, key) && Sound(Stored(before, key)) && OwnAt(after, serverId, key);
      KindsApart(key);
      if StartsWith(key, ServerPrefix(serverId)) {
        PrefixOfPrefix("gpu_idle:", serverId + ":", key);
        if key in after {
          var p :| key == StoreKey(serverId, p);
          assert HoldsAt(after, serverId, tracked, p);
        }
      } else if key != SavedKey(serverId) {
        assert Found(after, key) == Found(before, key);
      }
    }
  }

  // ---------------------------------------------------------------------------
  // What the store stands for
  // ---------------------------------------------------------------------------

  /** For each server what the store holds under the idle detector's keys, and all reports so far. */
  datatype Memo = Memo(tracked: map<string, map<Pair, TrackedProcess>>, saved: map<string, set<Pair>>, turns: seq<Turn>) {
    function TrackedOf(serverId: string): map<Pair, TrackedProcess> {
      if serverId in tracked then tracked[serverId] else map[]
    }

    function SavedOf(serverId: string): set<Pair> {
      if serverId in saved then saved[serverId] else {}
    }

    /** What a report of the server makes of its idle entries. */
    function Seen(x: Turn): Tracking {
      SeeCards(Tracking(TrackedOf(x.serverId), {}, []), x.report.cards, x.settings, x.now)
    }

    function Noted(x: Turn): Memo {
      Memo(tracked[x.serverId := Kept(Seen(x), SavedOf(x.serverId))], saved[x.serverId := Seen(x).seen], turns + [x])
    }
  }

  ghost predicate KnownAt(state: map<string, Entry>, m: Memo, serverId: string) {
    ColonFree(serverId) ==>
      && Index(state, serverId, m.TrackedOf(serverId), m.SavedOf(serverId))
      && Tracks(m.TrackedOf(serverId), m.SavedOf(serverId), Own(m.turns, serverId))
  }

  ghost predicate RememberedAt(state: map<string, Entry>, m: Memo, durationMs: real, serverId: string, key: string) {
    ColonFree(serverId) ==> Remembers(state, m.turns, durationMs, serverId, key)
  }

  /** The store has the right kinds of values and holds what the reports so far make of it, for every server. */
  ghost predicate Known(state: map<string, Entry>, m: Memo) {
    && Typed(state) && AllSound(state)
    && (forall serverId :: KnownAt(state, m, serverId))
    && (forall durationMs, serverId, key :: RememberedAt(state, m, durationMs, serverId, key))
  }

  lemma {:induction false} NothingKnown()
    ensures Known(map[], Memo(map[], map[], []))
  {
  }

  lemma {:induction false} ChecksKeepIndex(state: map<string, Entry>, x: Turn, serverId: string,
        tracked: map<Pair, TrackedProcess>, saved: set<Pair>)
    requires Index(state, serverId, tracked, saved)
    ensures Index(AfterChecks(state, x), serverId, tracked, saved)
  {
    ChecksNamed(x.serverId, x.report, x.settings);
    ChecksTouchThresholds(state, ChecksOf(x), DurationMs(x.settings), x.now);
    IndexUntouched(state, AfterChecks(state, x), serverId, tracked, saved);
  }

  /** `after` is the store once both detectors have seen the report. */
  ghost predicate Detected(state: map<string, Entry>, after: map<string, Entry>, m: Memo, x: Turn) {
    && Typed(AfterChecks(state, x)) && AllSound(AfterChecks(state, x))
    && OnlyOwn(AfterChecks(state, x), after, x.serverId)
    && Index(after, x.serverId, Kept(m.Seen(x), m.SavedOf(x.serverId)), m.Seen(x).seen)
    && SavedKey(x.serverId) in after && after[SavedKey(x.serverId)].OfKeys?
  }

  lemma {:induction false} TurnKnownAt(state: map<string, Entry>, after: map<string, Entry>, m: Memo, x: Turn,
        serverId: string)
    requires KnownAt(state, m, serverId) && ColonFree(x.serverId) && Detected(state, after, m, x)
    ensures KnownAt(after, m.Noted(x), serverId)
  {
    if ColonFree(serverId) {
      var tracked, saved := m.TrackedOf(serverId), m.SavedOf(serverId);
      OwnSnoc(m.turns, x, serverId);
      if serverId == x.serverId {
        TurnTracked(tracked, saved, Own(m.turns, serverId), x);
      } else {
        ChecksKeepIndex(state, x, serverId, tracked, saved);
        OtherServersKeepTheirIndex(AfterChecks(state, x), after, x.serverId, serverId, tracked, saved);
      }
    }
  }

  /** A report keeps what is known about every server. */
  lemma {:induction false} TurnKnown(state: map<string, Entry>, after: map<string, Entry>, m: Memo, x: Turn)
    requires Known(state, m) && ColonFree(x.serverId) && Detected(state, after, m, x)
    ensures Known(after, m.Noted(x))
  {
    var next := m.Noted(x);
    IdleKeepsKinds(AfterChecks(state, x), after, x.serverId, Kept(m.Seen(x), m.SavedOf(x.serverId)), m.Seen(x).seen);
    forall serverId
      ensures KnownAt(after, next, serverId)
    {
      assert KnownAt(state, m, serverId);
      TurnKnownAt(state, after, m, x, serverId);
    }
    forall durationMs, serverId, key
      ensures RememberedAt(after, next, durationMs, serverId, key)
    {
      assert RememberedAt(state, m, durationMs, serverId, key);
      if ColonFree(serverId) { TurnRemembered(state, after, m.turns, x, durationMs, serverId, key); }
    }
  }

  /** The anomalies that a report raises on the store. */
  function AnomaliesOn(state: map<string, Entry>, m: Memo, x: Turn): seq<Anomaly> {
    RunChecks(state, ChecksOf(x), DurationMs(x.settings), x.now).1 + m.Seen(x).anomalies
  }

  /** What is due on the reports of one server: the keys whose breaching run lasts long enough, then the idle processes
      whose run of reports does. */
  function DueOn(own: seq<Turn>): seq<Anomaly>
    requires own != []
  {
    DueAnomalies(ChecksOf(Last(own)), CheckRounds(own), DurationMs(Last(own).settings)) + LastAnomalies(IdleRounds(own))
  }

  /** RUN LENGTH ON THE SHARED STORE. An orderly server's report raises exactly what is due on that server's own reports,
      whatever the other servers sent in between. */
  lemma {:induction false} RaisesWhatIsDue(state: map<string, Entry>, m: Memo, x: Turn)
    requires Known(state, m) && ColonFree(x.serverId)
    requires Orderly(Own(m.turns, x.serverId) + [x], DurationMs(x.settings))
    ensures AnomaliesOn(state, m, x) == DueOn(Own(m.turns, x.serverId) + [x])
  {
    var id := x.serverId;
    InitSnoc(Own(m.turns, id), x);
    forall key
      ensures Remembers(state, m.turns, DurationMs(x.settings), id, key)
    {
      assert RememberedAt(state, m, DurationMs(x.settings), id, key);
    }
    TurnRaisesDue(state, m.turns, x);
    assert KnownAt(state, m, id);
    TurnRaisesIdle(m.TrackedOf(id), m.SavedOf(id), Own(m.turns, id), x);
  }

  lemma {:induction false} NotedRaisesDue(state: map<string, Entry>, m: Memo, x: Turn, own: seq<Turn>)
    requires Known(state, m) && ColonFree(x.serverId) && own == Own(m.Noted(x).turns, x.serverId)
    ensures Orderly(own, DurationMs(x.settings)) && own != [] ==> AnomaliesOn(state, m, x) == DueOn(own)
  {
    OwnSnoc(m.turns, x, x.serverId);
    if Orderly(own, DurationMs(x.settings)) { RaisesWhatIsDue(state, m, x); }
  }

  // ---------------------------------------------------------------------------
  // Offline servers
  // ---------------------------------------------------------------------------

  datatype Session = Session(serverId: string, lastReportAt: Option<int>)

  predicate IsOffline(x: Session, offlineSeconds: real, now: int) {
    (now - x.lastReportAt.GetOr(0)) as real > offlineSeconds * 1000.0
  }

  function OfflineAnomaly(x: Session, offlineSeconds: real, now: int): Anomaly {
    Anomaly(Offline, (now - x.lastReportAt.GetOr(0)) as real / 1000.0, offlineSeconds, "", None)
  }

  /** One reconciliation per session whose last report is too old. */
  function SweepOps(sessions: seq<Session>, offlineSeconds: real, now: int): seq<AlertRuns.Op> {
    if sessions == [] then []
    else
      var x := Last(sessions);
      if IsOffline(x, offlineSeconds, now) then
        SweepOps(Init(sessions), offlineSeconds, now)
        + [AlertRuns.Reconcile(x.serverId, [OfflineAnomaly(x, offlineSeconds, now)], Detection, now)]
      else SweepOps(Init(sessions), offlineSeconds, now)
  }

  // ---------------------------------------------------------------------------
  // The engine
  // ---------------------------------------------------------------------------

  ghost predicate NoOfflineCheck(checks: seq<Check>) {
    forall c :: c in checks ==> !c.anomaly.alertType.Offline?
  }

  lemma {:induction false} DisksNotOffline(serverId: string, disks: seq<DiskReport>, s: Settings)
    ensures NoOfflineCheck(DiskChecks(serverId, disks, s))
    decreases |disks|
  {
    if disks != [] {
      DisksNotOffline(serverId, Init(disks), s);
    }
  }

  lemma {:induction false} ChecksNotOffline(serverId: string, r: Report, s: Settings)
    ensures NoOfflineCheck(Checks(serverId, r, s))
  {
    DisksNotOffline(serverId, r.disks, s);
    assert NoOfflineCheck(TempChecks(serverId, r.cards, s));
  }

  lemma {:induction false} RunAnomalies(state: map<string, Entry>, checks: seq<Check>, durationMs: real, now: int)
    requires NoOfflineCheck(checks)
    ensures forall a :: a in RunChecks(state, checks, durationMs, now).1 ==> !a.alertType.Offline?
    decreases |checks|
  {
    if checks != [] {
      assert forall c :: c in Init(checks) ==> c in checks;
      RunAnomalies(state, Init(checks), durationMs, now);
      assert Last(checks) in checks;
    }
  }

  predicate NoneOffline(anomalies: seq<Anomaly>) {
    forall a :: a in anomalies ==> !a.alertType.Offline?
  }

  lemma {:induction false} SeeAllNoneOffline(t: Tracking, card: CardReport, xs: seq<Process>, s: Settings, now: int)
    requires NoneOffline(t.anomalies)
    ensures NoneOffline(SeeAll(t, card, xs, s, now).anomalies)
    decreases |xs|
  {
    if xs != [] {
      SeeAllNoneOffline(t, card, Init(xs), s, now);
    }
  }

  lemma {:induction false} SeeCardsNoneOffline(t: Tracking, cards: seq<CardReport>, s: Settings, now: int)
    requires NoneOffline(t.anomalies)
    ensures NoneOffline(SeeCards(t, cards, s, now).anomalies)
    decreases |cards|
  {
    if cards != [] {
      SeeCardsNoneOffline(t, Init(cards), s, now);
      SeeAllNoneOffline(SeeCards(t, Init(cards), s, now), Last(cards), Processes(Last(cards)), s, now);
    }
  }

  lemma {:induction false} DetectedNoneOffline(state: map<string, Entry>, m: Memo, x: Turn)
    ensures NoneOffline(AnomaliesOn(state, m, x))
  {
    ChecksNotOffline(x.serverId, x.report, x.settings);
    RunAnomalies(state, ChecksOf(x), DurationMs(x.settings), x.now);
    SeeCardsNoneOffline(Tracking(m.TrackedOf(x.serverId), {}, []), x.report.cards, x.settings, x.now);
  }

  class AlertEngine {
    const store: AlertStateStore<Entry>
    const db: AlertDb
    ghost var memo: Memo

    ghost predicate Valid()
      reads this, store, db
    {
      db.Valid() && Known(store.state, memo)
    }

    constructor ()
      ensures Valid() && db.State() == EMPTY_TABLES && store.state == map[] && memo.turns == []
      ensures fresh(store) && fresh(db)
    {
      var s := new AlertStateStore<Entry>();
      var d := new AlertDb();
      store, db := s, d;
      memo := Memo(map[], map[], []);
      NothingKnown();
    }

    method Detect(serverId: string, report: Report, settings: Settings, now: int) returns (anomalies: seq<Anomaly>)
      requires Valid() && ColonFree(serverId)
      modifies this, store
      ensures Valid() && memo == old(memo).Noted(Turn(serverId, report, settings, now))
      ensures anomalies == AnomaliesOn(old(store.state), old(memo), Turn(serverId, report, settings, now))
      ensures NoneOffline(anomalies)
      ensures Orderly(Own(memo.turns, serverId), DurationMs(settings)) && Own(memo.turns, serverId) != [] ==>
        anomalies == DueOn(Own(memo.turns, serverId))
    {
      ghost var before, m, x := store.state, memo, Turn(serverId, report, settings, now);
      var overThreshold := DetectThresholds(serverId, report, settings, store, now);
      assert KnownAt(before, m, serverId);
      ChecksKeepIndex(before, x, serverId, m.TrackedOf(serverId), m.SavedOf(serverId));
      assert TypedAt(store.state, SavedKey(serverId));
      var idle := DetectGpuIdle(
        serverId, report.cards, settings, store, now, m.TrackedOf(serverId), m.SavedOf(serverId));
      anomalies := overThreshold + idle;
      TurnKnown(before, store.state, m, x);
      DetectedNoneOffline(before, m, x);
      NotedRaisesDue(before, m, x, Own(m.Noted(x).turns, serverId));
      memo := m.Noted(x);
    }

    /** A report: one step of the closed loop with the anomalies it raises; every change is broadcast. */
    method ProcessReport(serverId: string, report: Report, settings: Settings, now: int)
      returns (allChanges: seq<Change>, broadcastable: seq<Change>)
      requires Valid() && ColonFree(serverId)
      modifies this, store, db
      ensures Valid() && memo == old(memo).Noted(Turn(serverId, report, settings, now))
      ensures var anomalies := AnomaliesOn(old(store.state), old(memo), Turn(serverId, report, settings, now));
        var op := AlertRuns.Reconcile(serverId, anomalies, Detection, now);
        AlertRuns.Steps(old(db.State()), op, db.State(), allChanges) && AlertRuns.FromEngine(op)
      ensures broadcastable == allChanges
    {
      ghost var t := db.State();
      var anomalies := Detect(serverId, report, settings, now);
      allChanges := db.ReconcileAlerts(serverId, anomalies, Detection, now);
      broadcastable := AlertRuns.Broadcast(allChanges);
      AlertRuns.ReconcileIsBroadcast(t, db.State(), serverId, anomalies, Detection, now, allChanges);
    }

    /** A sweep: one step of the closed loop for each server that is offline. */
    method SweepOffline(sessions: seq<Session>, offlineSeconds: real, now: int)
      returns (allChanges: seq<Change>, broadcastable: seq<Change>)
      requires Valid()
      modifies db
      ensures Valid()
      ensures AlertRuns.Ran(old(db.State()), SweepOps(sessions, offlineSeconds, now), db.State(), allChanges)
      ensures broadcastable == allChanges
    {
      ghost var start := db.State();
      allChanges, broadcastable := [], [];
      for n := 0 to |sessions|
        invariant Valid()
        invariant AlertRuns.Ran(start, SweepOps(sessions[..n], offlineSeconds, now), db.State(), allChanges)
        invariant broadcastable == allChanges
      {
        var x := sessions[n];
        assert sessions[..n + 1] == sessions[..n] + [x];
        InitSnoc(sessions[..n], x);
        if !IsOffline(x, offlineSeconds, now) { continue; }
        ghost var before := db.State();
        var anomalies := [OfflineAnomaly(x, offlineSeconds, now)];
        var changes := db.ReconcileAlerts(x.serverId, anomalies, Detection, now);
        AlertRuns.ReconcileIsBroadcast(before, db.State(), x.serverId, anomalies, Detection, now, changes);
        AlertRuns.RanSnoc(start, SweepOps(sessions[..n], offlineSeconds, now), before, allChanges,
                          AlertRuns.Reconcile(x.serverId, anomalies, Detection, now), db.State(), changes);
        allChanges := allChanges + changes;
        broadcastable := broadcastable + AlertRuns.Broadcast(changes);
      }
      assert sessions[..|sessions|] == sessions;
    }
  }
}
