/** What raises an anomaly, in terms of the reports and the settings alone. */
module ReportMeaning {
  import opened Basics
  import opened Text
  import opened AlertSpec
  import opened AlertInputs
  import opened StateStore
  import opened Thresholds
  import opened GpuIdle
  import opened GpuIdleFacts
  import opened EngineRuns
  import opened AlertEngines
  import AlertRuns

  // ---------------------------------------------------------------------------
  // Runs of observations with gaps
  // ---------------------------------------------------------------------------

  /** The readings there are. */
  function Filtered(obs: seq<Option<Reading>>): seq<Reading> {
    if obs == [] then []
    else if Last(obs).Some? then Filtered(Init(obs)) + [Last(obs).value]
    else Filtered(Init(obs))
  }

  /** There is a breaching reading at `r`, and none from there on that does not breach. */
  predicate RunFrom(obs: seq<Option<Reading>>, r: int) {
    && 0 <= r < |obs| && obs[r].Some?
    && forall j :: r <= j < |obs| && obs[j].Some? ==> obs[j].value.breaching
  }

  /** The run at the end of the readings begins with `x`, which stands at `r`. */
  ghost predicate BeginsAt(obs: seq<Option<Reading>>, x: Reading, r: int) {
    RunFrom(obs, r) && obs[r].value == x && forall q :: RunFrom(obs, q) ==> r <= q
  }

  ghost predicate RunBegins(obs: seq<Option<Reading>>) {
    var rs := Filtered(obs);
    if RunStart(rs) < |rs| then exists r :: BeginsAt(obs, rs[RunStart(rs)], r) else forall q :: !RunFrom(obs, q)
  }

  lemma {:induction false} RunSnoc(obs: seq<Option<Reading>>, x: Option<Reading>, q: int)
    ensures RunFrom(obs + [x], q) <==>
      (x.None? && RunFrom(obs, q)) || (x.Some? && x.value.breaching && (RunFrom(obs, q) || q == |obs|))
  {
    var all := obs + [x];
    assert all[|obs|] == x;
    assert forall j :: 0 <= j < |obs| ==> all[j] == obs[j];
  }

  lemma {:induction false} FilteredSnoc(obs: seq<Option<Reading>>, x: Option<Reading>)
    ensures Filtered(obs + [x]) == if x.Some? then Filtered(obs) + [x.value] else Filtered(obs)
  {
    InitSnoc(obs, x);
  }

  lemma {:induction false} StartSnoc(rs: seq<Reading>, x: Reading)
    ensures RunStart(rs + [x]) == if x.breaching then RunStart(rs) else |rs| + 1
  {
    InitSnoc(rs, x);
  }

  lemma {:induction false} RunGoesOn(obs: seq<Option<Reading>>, x: Option<Reading>)
    requires RunBegins(obs)
    ensures RunBegins(obs + [x])
  {
    var rs, all := Filtered(obs), obs + [x];
    FilteredSnoc(obs, x);
    forall q
      ensures RunFrom(all, q) <==>
        (x.None? && RunFrom(obs, q)) || (x.Some? && x.value.breaching && (RunFrom(obs, q) || q == |obs|))
    {
      RunSnoc(obs, x, q);
    }
    if x.Some? { StartSnoc(rs, x.value); }
    if RunStart(rs) < |rs| && (x.None? || x.value.breaching) {
      var r :| BeginsAt(obs, rs[RunStart(rs)], r);
      assert BeginsAt(all, rs[RunStart(rs)], r);
    } else if x.Some? && x.value.breaching {
      assert all[|obs|] == x;
      assert BeginsAt(all, x.value, |obs|);
    }
  }

  lemma {:induction false} RunAlwaysBegins(obs: seq<Option<Reading>>)
    ensures RunBegins(obs)
    decreases |obs|
  {
    if obs != [] {
      RunAlwaysBegins(Init(obs));
      RunGoesOn(Init(obs), Last(obs));
      assert obs == Init(obs) + [Last(obs)];
    }
  }

  predicate InTime(obs: seq<Option<Reading>>) {
    forall i, j :: 0 <= i <= j < |obs| && obs[i].Some? && obs[j].Some? ==> obs[i].value.now <= obs[j].value.now
  }

  predicate LastsFrom(obs: seq<Option<Reading>>, durationMs: real, r: int)
    requires obs != [] && Last(obs).Some?
  {
    RunFrom(obs, r) && (Last(obs).value.now - obs[r].value.now) as real >= durationMs
  }

  lemma {:induction false} DueMeans(obs: seq<Option<Reading>>, durationMs: real)
    requires obs != [] && Last(obs).Some? && InTime(obs)
    ensures Due(Filtered(obs), durationMs) <==> exists r :: LastsFrom(obs, durationMs, r)
  {
    var rs := Filtered(obs);
    RunAlwaysBegins(obs);
    if RunStart(rs) < |rs| {
      var r :| BeginsAt(obs, rs[RunStart(rs)], r);
      if q :| LastsFrom(obs, durationMs, q) {
        assert r <= q && obs[r].value.now <= obs[q].value.now;
      }
      assert Due(rs, durationMs) <==> LastsFrom(obs, durationMs, r);
    }
  }

  // ---------------------------------------------------------------------------
  // What a report measures
  // ---------------------------------------------------------------------------

  datatype Level = Level(value: real, threshold: real, details: Option<Details>)

  predicate DiskShows(x: Turn, d: DiskReport, f: string, m: Level) {
    d in x.report.disks && d.mountPoint == f && d.mountPoint in x.settings.diskMountPoints
    && m == Level(d.usagePercent, x.settings.diskThreshold, Some(DiskDetails(d.mountPoint, d.filesystem)))
  }

  predicate CardShows(x: Turn, c: CardReport, f: string, m: Level) {
    c in x.report.cards && f == "gpu" + Decimal(c.index)
    && m == Level(c.temperature, x.settings.gpuTempThreshold, Some(TempDetails(c.index, c.name)))
  }

  /** The report says `m` about the kind `t` and the fingerprint `f`: processor, memory, a watched mount point, a card. */
  ghost predicate Measures(x: Turn, t: AlertType, f: string, m: Level) {
    match t
    case Cpu => f == "" && m == Level(x.report.cpuPercent, x.settings.cpuThreshold, None)
    case Memory => f == "" && m == Level(x.report.memoryPercent, x.settings.memoryThreshold, None)
    case Disk => exists d :: DiskShows(x, d, f, m)
    case GpuTemp => exists c :: CardShows(x, c, f, m)
    case _ => false
  }

  ghost predicate Measured(x: Turn, t: AlertType, f: string) {
    exists m :: Measures(x, t, f, m)
  }

  ghost predicate High(x: Turn, t: AlertType, f: string) {
    exists m :: Measures(x, t, f, m) && m.value >= m.threshold
  }

  function KeyFor(serverId: string, t: AlertType, f: string): string {
    if t.Cpu? then CpuStateKey(serverId) else ThresholdStateKey(serverId, t, f)
  }

  /** The check is what the report measures. */
  predicate CheckOf(c: Check, serverId: string, t: AlertType, f: string, m: Level) {
    && c.anomaly == Anomaly(t, m.value, m.threshold, f, m.details)
    && c.key == KeyFor(serverId, t, f) && c.value == m.value && c.breaching == (m.value >= m.threshold)
  }

  ghost predicate CheckedBy(checks: seq<Check>, serverId: string, t: AlertType, f: string, m: Level) {
    exists c :: c in checks && CheckOf(c, serverId, t, f, m)
  }

  ghost predicate Meant(c: Check, x: Turn) {
    exists m :: Measures(x, c.anomaly.alertType, c.anomaly.fingerprint, m)
      && CheckOf(c, x.serverId, c.anomaly.alertType, c.anomaly.fingerprint, m)
  }

  lemma {:induction false} DiskCheckIn(serverId: string, disks: seq<DiskReport>, s: Settings, d: DiskReport)
    requires d in disks && d.mountPoint in s.diskMountPoints
    ensures DiskCheck(serverId, d, s) in DiskChecks(serverId, disks, s)
    decreases |disks|
  {
    if d != Last(disks) { DiskCheckIn(serverId, Init(disks), s, d); }
  }

  lemma {:induction false} DiskCheckFrom(serverId: string, disks: seq<DiskReport>, s: Settings, c: Check)
    returns (d: DiskReport)
    requires c in DiskChecks(serverId, disks, s)
    ensures d in disks && d.mountPoint in s.diskMountPoints && c == DiskCheck(serverId, d, s)
    decreases |disks|
  {
    d := Last(disks);
    if d.mountPoint !in s.diskMountPoints || c != DiskCheck(serverId, d, s) {
      d := DiskCheckFrom(serverId, Init(disks), s, c);
    }
  }

  /** Everything the report measures is checked. */
  lemma {:induction false} MeasuredIsChecked(x: Turn, t: AlertType, f: string, m: Level)
    requires Measures(x, t, f, m)
    ensures CheckedBy(ChecksOf(x), x.serverId, t, f, m)
  {
    var id, r, s := x.serverId, x.report, x.settings;
    if t.Cpu? {
      assert CheckOf(CpuCheck(id, r, s), id, t, f, m);
    } else if t.Memory? {
      assert CheckOf(MemoryCheck(id, r, s), id, t, f, m);
    } else if t.Disk? {
      var d :| DiskShows(x, d, f, m);
      DiskCheckIn(id, r.disks, s, d);
      assert CheckOf(DiskCheck(id, d, s), id, t, f, m);
    } else {
      var c :| CardShows(x, c, f, m);
      var i :| 0 <= i < |r.cards| && r.cards[i] == c;
      assert TempChecks(id, r.cards, s)[i] == TempCheck(id, c, s);
      assert CheckOf(TempCheck(id, c, s), id, t, f, m);
    }
  }

  lemma {:induction false} MeantBy(x: Turn, c: Check, t: AlertType, f: string, m: Level)
    requires Measures(x, t, f, m) && CheckOf(c, x.serverId, t, f, m)
    ensures Meant(c, x)
  {
  }

  lemma {:induction false} DiskIsMeant(x: Turn, d: DiskReport)
    requires d in x.report.disks && d.mountPoint in x.settings.diskMountPoints
    ensures Meant(DiskCheck(x.serverId, d, x.settings), x)
  {
    var m := Level(d.usagePercent, x.settings.diskThreshold, Some(DiskDetails(d.mountPoint, d.filesystem)));
    assert DiskShows(x, d, d.mountPoint, m);
    MeantBy(x, DiskCheck(x.serverId, d, x.settings), Disk, d.mountPoint, m);
  }

  lemma {:induction false} CardIsMeant(x: Turn, card: CardReport)
    requires card in x.report.cards
    ensures Meant(TempCheck(x.serverId, card, x.settings), x)
  {
    var f := "gpu" + Decimal(card.index);
    var m := Level(card.temperature, x.settings.gpuTempThreshold, Some(TempDetails(card.index, card.name)));
    assert CardShows(x, card, f, m);
    MeantBy(x, TempCheck(x.serverId, card, x.settings), GpuTemp, f, m);
  }

  lemma {:induction false} HeadIsMeant(x: Turn)
    ensures Meant(CpuCheck(x.serverId, x.report, x.settings), x)
    ensures Meant(MemoryCheck(x.serverId, x.report, x.settings), x)
  {
    MeantBy(x, CpuCheck(x.serverId, x.report, x.settings), Cpu, "", Level(x.report.cpuPercent, x.settings.cpuThreshold, None));
    MeantBy(x, MemoryCheck(x.serverId, x.report, x.settings), Memory, "",
            Level(x.report.memoryPercent, x.settings.memoryThreshold, None));
  }

  /** Every check is of something the report measures. */
  lemma {:induction false} CheckIsMeant(x: Turn, c: Check)
    requires c in ChecksOf(x)
    ensures Meant(c, x)
  {
    var id, r, s := x.serverId, x.report, x.settings;
    var disks, temps := DiskChecks(id, r.disks, s), TempChecks(id, r.cards, s);
    assert c == CpuCheck(id, r, s) || c == MemoryCheck(id, r, s) || c in disks || c in temps;
    if c in disks {
      var d := DiskCheckFrom(id, r.disks, s, c);
      DiskIsMeant(x, d);
    } else if c in temps {
      var i :| 0 <= i < |temps| && temps[i] == c;
      CardIsMeant(x, r.cards[i]);
    } else {
      HeadIsMeant(x);
    }
  }

  // ---------------------------------------------------------------------------
  // The readings of one kind
  // ---------------------------------------------------------------------------

  ghost predicate WellFormedReport(x: Turn) {
    DistinctCards(x.report.cards) && DistinctMounts(x.report.disks)
  }

  lemma {:induction false} KeyForInjective(serverId: string, t: AlertType, f: string, u: AlertType, g: string)
    requires KeyFor(serverId, t, f) == KeyFor(serverId, u, g) && (t.Cpu? ==> f == "") && (u.Cpu? ==> g == "")
    ensures t == u && f == g
  {
    if t.Cpu? && !u.Cpu? {
      CpuKeyDiffers(serverId, u, g);
    } else if u.Cpu? && !t.Cpu? {
      CpuKeyDiffers(serverId, t, f);
    } else if !t.Cpu? {
      KeysDiffer(serverId, t, f, u, g);
    }
  }

  lemma {:induction false} ReadingsNone(checks: seq<Check>, now: int, key: string)
    requires forall c :: c in checks ==> c.key != key
    ensures ReadingsIn(checks, now, key) == []
    decreases |checks|
  {
    if checks != [] {
      assert Last(checks) in checks;
      ReadingsNone(Init(checks), now, key);
    }
  }

  lemma {:induction false} ReadingsOne(checks: seq<Check>, now: int, c: Check)
    requires NoDup(KeysOf(checks)) && c in checks
    ensures ReadingsIn(checks, now, c.key) == [Reading(now, c.value, c.breaching)]
    decreases |checks|
  {
    FrontDistinct(checks);
    if c == Last(checks) {
      forall d | d in Init(checks) ensures d.key != c.key { var i :| 0 <= i < |Init(checks)| && Init(checks)[i] == d; }
      ReadingsNone(Init(checks), now, c.key);
    } else {
      assert checks == Init(checks) + [Last(checks)];
      var i :| 0 <= i < |Init(checks)| && Init(checks)[i] == c;
      ReadingsOne(Init(checks), now, c);
    }
  }

  /** What a report says about one kind: nothing, or a reading. */
  ghost predicate ObsIs(x: Turn, t: AlertType, f: string, o: Option<Reading>) {
    if o.None? then !Measured(x, t, f)
    else exists m :: Measures(x, t, f, m) && o.value == Reading(x.now, m.value, m.value >= m.threshold)
  }

  lemma {:induction false} ReportReadings(x: Turn, t: AlertType, f: string) returns (o: Option<Reading>)
    requires WellFormedReport(x) && (t.Cpu? ==> f == "")
    ensures ObsIs(x, t, f, o)
    ensures ReadingsIn(ChecksOf(x), x.now, KeyFor(x.serverId, t, f)) == if o.Some? then [o.value] else []
  {
    ReportKeysDistinct(x.serverId, x.report, x.settings);
    if Measured(x, t, f) {
      var m :| Measures(x, t, f, m);
      MeasuredIsChecked(x, t, f, m);
      var c :| c in ChecksOf(x) && CheckOf(c, x.serverId, t, f, m);
      ReadingsOne(ChecksOf(x), x.now, c);
      o := Some(Reading(x.now, m.value, m.value >= m.threshold));
    } else {
      forall c | c in ChecksOf(x)
        ensures c.key != KeyFor(x.serverId, t, f)
      {
        CheckIsMeant(x, c);
        if c.key == KeyFor(x.serverId, t, f) {
          KeyForInjective(x.serverId, t, f, c.anomaly.alertType, c.anomaly.fingerprint);
        }
      }
      ReadingsNone(ChecksOf(x), x.now, KeyFor(x.serverId, t, f));
      o := None;
    }
  }

  lemma {:induction false} MeasuresOnce(x: Turn, t: AlertType, f: string, m: Level, n: Level)
    requires WellFormedReport(x) && Measures(x, t, f, m) && Measures(x, t, f, n)
    ensures m == n
  {
    if t.Disk? {
      var d, e :| DiskShows(x, d, f, m) && DiskShows(x, e, f, n);
      var i, j :| 0 <= i < |x.report.disks| && 0 <= j < |x.report.disks| && x.report.disks[i] == d && x.report.disks[j] == e;
    } else if t.GpuTemp? {
      var c, d :| CardShows(x, c, f, m) && CardShows(x, d, f, n);
      SamePrefix("gpu", Decimal(c.index), Decimal(d.index));
      DecimalInjective(c.index, d.index);
      var i, j :| 0 <= i < |x.report.cards| && 0 <= j < |x.report.cards| && x.report.cards[i] == c && x.report.cards[j] == d;
    }
  }

  lemma {:induction false} ObsMeans(x: Turn, t: AlertType, f: string, o: Option<Reading>)
    requires WellFormedReport(x) && ObsIs(x, t, f, o)
    ensures o.Some? <==> Measured(x, t, f)
    ensures o.Some? ==> o.value.now == x.now && (o.value.breaching <==> High(x, t, f))
  {
    if o.Some? && High(x, t, f) {
      var m :| Measures(x, t, f, m) && o.value == Reading(x.now, m.value, m.value >= m.threshold);
      var n :| Measures(x, t, f, n) && n.value >= n.threshold;
      MeasuresOnce(x, t, f, m, n);
    }
  }

  // ---------------------------------------------------------------------------
  // What a report raises
  // ---------------------------------------------------------------------------

  /** The reports of one server. */
  predicate From(own: seq<Turn>, serverId: string) {
    forall i :: 0 <= i < |own| ==> own[i].serverId == serverId
  }

  ghost predicate AllWellFormed(own: seq<Turn>) {
    forall i :: 0 <= i < |own| ==> WellFormedReport(own[i])
  }

  predicate ClockForward(own: seq<Turn>) {
    forall i, j :: 0 <= i <= j < |own| ==> own[i].now <= own[j].now
  }

  ghost predicate Observes(own: seq<Turn>, t: AlertType, f: string, obs: seq<Option<Reading>>) {
    |obs| == |own| && forall i :: 0 <= i < |own| ==> ObsIs(own[i], t, f, obs[i])
  }

  lemma {:induction false} ObservesSnoc(own: seq<Turn>, x: Turn, t: AlertType, f: string, obs: seq<Option<Reading>>,
        o: Option<Reading>)
    requires Observes(own, t, f, obs) && ObsIs(x, t, f, o)
    ensures Observes(own + [x], t, f, obs + [o])
  {
  }

  /** The readings under the key of one kind are what the server's reports say about it. */
  lemma {:induction false} Observations(own: seq<Turn>, serverId: string, t: AlertType, f: string)
    returns (obs: seq<Option<Reading>>)
    requires From(own, serverId) && AllWellFormed(own) && (t.Cpu? ==> f == "")
    ensures Observes(own, t, f, obs) && Filtered(obs) == ReadingsOf(CheckRounds(own), KeyFor(serverId, t, f))
    decreases |own|
  {
    if own == [] {
      obs := [];
    } else {
      var front, x := Init(own), Last(own);
      assert own == front + [x];
      var before := Observations(front, serverId, t, f);
      var o := ReportReadings(x, t, f);
      obs := before + [o];
      ObservesSnoc(front, x, t, f, before, o);
      FilteredSnoc(before, o);
      RoundsSnoc(front, x);
      ReadingsSnoc(CheckRounds(front), Thresholds.Round(ChecksOf(x), x.now), KeyFor(serverId, t, f));
    }
  }

  /** From the report at `r` on the kind is measured high whenever it is measured, and there it is. */
  ghost predicate HighFrom(own: seq<Turn>, t: AlertType, f: string, r: int) {
    0 <= r < |own| && High(own[r], t, f) && forall j :: r <= j < |own| && Measured(own[j], t, f) ==> High(own[j], t, f)
  }

  lemma {:induction false} RunIsHigh(own: seq<Turn>, t: AlertType, f: string, obs: seq<Option<Reading>>, r: int)
    requires AllWellFormed(own) && Observes(own, t, f, obs)
    ensures RunFrom(obs, r) <==> HighFrom(own, t, f, r)
    ensures RunFrom(obs, r) ==> obs[r].value.now == own[r].now
  {
    forall j | 0 <= j < |own|
      ensures obs[j].Some? <==> Measured(own[j], t, f)
      ensures obs[j].Some? ==> obs[j].value.now == own[j].now && (obs[j].value.breaching <==> High(own[j], t, f))
    {
      ObsMeans(own[j], t, f, obs[j]);
    }
  }

  /** In milliseconds; no duration, or a negative one, counts as none. */
  function WaitMs(s: Settings): real {
    if s.thresholdDurationSeconds.Some? && s.thresholdDurationSeconds.value > 0.0 then
      s.thresholdDurationSeconds.value * 1000.0
    else 0.0
  }

  ghost predicate LongFrom(own: seq<Turn>, t: AlertType, f: string, r: int)
    requires own != []
  {
    HighFrom(own, t, f, r) && (Last(own).now - own[r].now) as real >= WaitMs(Last(own).settings)
  }

  /** The kind has been high without a break for the last report's duration. */
  ghost predicate LongHigh(own: seq<Turn>, t: AlertType, f: string) {
    own != [] && exists r :: LongFrom(own, t, f, r)
  }

  lemma {:induction false} InTimeOf(own: seq<Turn>, t: AlertType, f: string, obs: seq<Option<Reading>>)
    requires AllWellFormed(own) && ClockForward(own) && Observes(own, t, f, obs)
    ensures InTime(obs)
  {
    forall i, j | 0 <= i <= j < |obs| && obs[i].Some? && obs[j].Some?
      ensures obs[i].value.now <= obs[j].value.now
    {
      ObsMeans(own[i], t, f, obs[i]);
      ObsMeans(own[j], t, f, obs[j]);
    }
  }

  lemma {:induction false} LastsIsLong(own: seq<Turn>, t: AlertType, f: string, obs: seq<Option<Reading>>, r: int)
    requires own != [] && AllWellFormed(own) && Observes(own, t, f, obs) && Measured(Last(own), t, f)
    ensures obs != [] && Last(obs).Some?
    ensures LastsFrom(obs, WaitMs(Last(own).settings), r) <==> LongFrom(own, t, f, r)
  {
    var n := |own| - 1;
    assert ObsIs(own[n], t, f, obs[n]);
    ObsMeans(own[n], t, f, obs[n]);
    RunIsHigh(own, t, f, obs, r);
  }

  lemma {:induction false} ObservedIsLongHigh(own: seq<Turn>, t: AlertType, f: string, obs: seq<Option<Reading>>)
    requires own != [] && AllWellFormed(own) && Observes(own, t, f, obs) && Measured(Last(own), t, f)
    requires ClockForward(own)
    ensures Due(Filtered(obs), WaitMs(Last(own).settings)) <==> LongHigh(own, t, f)
  {
    InTimeOf(own, t, f, obs);
    LastsIsLong(own, t, f, obs, 0);
    DueMeans(obs, WaitMs(Last(own).settings));
    forall r
      ensures LastsFrom(obs, WaitMs(Last(own).settings), r) <==> LongFrom(own, t, f, r)
    {
      LastsIsLong(own, t, f, obs, r);
    }
  }

  /** The readings of a kind that the last report measures are due exactly if it has been high for long enough. */
  lemma {:induction false} DueIsLongHigh(own: seq<Turn>, serverId: string, t: AlertType, f: string)
    requires own != [] && From(own, serverId) && AllWellFormed(own) && ClockForward(own) && (t.Cpu? ==> f == "")
    requires Measured(Last(own), t, f)
    ensures Due(ReadingsOf(CheckRounds(own), KeyFor(serverId, t, f)), DurationMs(Last(own).settings)) <==> LongHigh(own, t, f)
  {
    var obs := Observations(own, serverId, t, f);
    ObservedIsLongHigh(own, t, f, obs);
    assert DurationMs(Last(own).settings) == WaitMs(Last(own).settings);
  }

  predicate Yields(c: Check, rounds: seq<Thresholds.Round>, durationMs: real, a: Anomaly) {
    c.anomaly == a && Due(ReadingsOf(rounds, c.key), durationMs)
  }

  lemma {:induction false} DueAnomalyOf(checks: seq<Check>, rounds: seq<Thresholds.Round>, durationMs: real, a: Anomaly)
    ensures a in DueAnomalies(checks, rounds, durationMs) <==> exists c :: c in checks && Yields(c, rounds, durationMs, a)
    decreases |checks|
  {
    if checks != [] {
      DueAnomalyOf(Init(checks), rounds, durationMs, a);
      assert checks == Init(checks) + [Last(checks)];
      assert Yields(Last(checks), rounds, durationMs, a) <==>
        Last(checks).anomaly == a && Due(ReadingsOf(rounds, Last(checks).key), durationMs);
    }
  }

  function LevelOf(a: Anomaly): Level {
    Level(a.value, a.threshold, a.details)
  }

  /** The due anomalies are those of the kinds that the last report measures and that have been high for long enough. */
  lemma {:induction false} DueExactly(own: seq<Turn>, serverId: string, a: Anomaly)
    requires own != [] && From(own, serverId) && AllWellFormed(own) && ClockForward(own)
    ensures a in DueAnomalies(ChecksOf(Last(own)), CheckRounds(own), DurationMs(Last(own).settings)) <==>
      Measures(Last(own), a.alertType, a.fingerprint, LevelOf(a)) && LongHigh(own, a.alertType, a.fingerprint)
  {
    var x, d := Last(own), DurationMs(Last(own).settings);
    var checks, rounds := ChecksOf(Last(own)), CheckRounds(own);
    assert x == own[|own| - 1];
    DueAnomalyOf(checks, rounds, d, a);
    if c :| c in checks && Yields(c, rounds, d, a) {
      CheckIsMeant(x, c);
      DueIsLongHigh(own, serverId, a.alertType, a.fingerprint);
    }
    if Measures(x, a.alertType, a.fingerprint, LevelOf(a)) && LongHigh(own, a.alertType, a.fingerprint) {
      MeasuredIsChecked(x, a.alertType, a.fingerprint, LevelOf(a));
      var c :| c in checks && CheckOf(c, x.serverId, a.alertType, a.fingerprint, LevelOf(a));
      DueIsLongHigh(own, serverId, a.alertType, a.fingerprint);
      assert Yields(c, rounds, d, a);
    }
  }

  // ---------------------------------------------------------------------------
  // In the engine
  // ---------------------------------------------------------------------------

  lemma {:induction false} OwnIsFrom(turns: seq<Turn>, serverId: string)
    ensures From(Own(turns, serverId), serverId)
    decreases |turns|
  {
    if turns != [] { OwnIsFrom(Init(turns), serverId); }
  }

  predicate OnlyIdle(anomalies: seq<Anomaly>) {
    forall a :: a in anomalies ==> a.alertType.GpuIdleMemory?
  }

  lemma {:induction false} SeeAllOnlyIdle(t: Tracking, card: CardReport, xs: seq<Process>, s: Settings, now: int)
    requires OnlyIdle(t.anomalies)
    ensures OnlyIdle(SeeAll(t, card, xs, s, now).anomalies)
    decreases |xs|
  {
    if xs != [] { SeeAllOnlyIdle(t, card, Init(xs), s, now); }
  }

  lemma {:induction false} SeeCardsOnlyIdle(t: Tracking, cards: seq<CardReport>, s: Settings, now: int)
    requires OnlyIdle(t.anomalies)
    ensures OnlyIdle(SeeCards(t, cards, s, now).anomalies)
    decreases |cards|
  {
    if cards != [] {
      SeeCardsOnlyIdle(t, Init(cards), s, now);
      SeeAllOnlyIdle(SeeCards(t, Init(cards), s, now), Last(cards), Processes(Last(cards)), s, now);
    }
  }

  lemma {:induction false} OrderlyParts(own: seq<Turn>, durationMs: real)
    requires Orderly(own, durationMs)
    ensures AllWellFormed(own) && ClockForward(own)
  {
  }

  /** A report of any server, with the reports of other servers in between, raises an anomaly about its processor, its memory,
      a watched mount point or a card's temperature exactly if the report measures that value against that report's own
      threshold, and every report of the server that measures it, back to one at least the duration ago, shows it at or
      above its threshold. */
  lemma {:induction false} RaisedExactly(state: map<string, Entry>, m: Memo, x: Turn, own: seq<Turn>, a: Anomaly)
    requires Known(state, m) && ColonFree(x.serverId)
    requires own == Own(m.turns, x.serverId) + [x] && Orderly(own, DurationMs(x.settings))
    requires !a.alertType.GpuIdleMemory?
    ensures a in AnomaliesOn(state, m, x) <==>
      Measures(x, a.alertType, a.fingerprint, LevelOf(a)) && LongHigh(own, a.alertType, a.fingerprint)
  {
    RaisesWhatIsDue(state, m, x);
    OwnIsFrom(m.turns, x.serverId);
    OrderlyParts(own, DurationMs(x.settings));
    assert Last(own) == x;
    SeeCardsOnlyIdle(Tracking(m.TrackedOf(x.serverId), {}, []), x.report.cards, x.settings, x.now);
    DueExactly(own, x.serverId, a);
    DueOnParts(state, m, x, own);
  }

  lemma {:induction false} DueOnParts(state: map<string, Entry>, m: Memo, x: Turn, own: seq<Turn>)
    requires own != [] && Last(own) == x && AnomaliesOn(state, m, x) == DueOn(own)
    ensures forall a :: a in AnomaliesOn(state, m, x) && !a.alertType.GpuIdleMemory? ==>
      a in DueAnomalies(ChecksOf(x), CheckRounds(own), DurationMs(x.settings))
    ensures forall a :: a in DueAnomalies(ChecksOf(x), CheckRounds(own), DurationMs(x.settings)) ==>
      a in AnomaliesOn(state, m, x)
  {
    var r := Last(IdleRounds(own));
    SeeCardsOnlyIdle(Tracking(TrackedOver(Init(IdleRounds(own))), {}, []), r.cards, r.settings, r.now);
  }

  // ---------------------------------------------------------------------------
  // Offline servers
  // ---------------------------------------------------------------------------

  /** Milliseconds since the session's last report; one that never reported counts from time 0. */
  function SilentMs(x: Session, now: int): int {
    match x.lastReportAt
    case Some(last) => now - last
    case None => now
  }

  predicate TooSilent(x: Session, offlineSeconds: real, now: int) {
    SilentMs(x, now) as real > offlineSeconds * 1000.0
  }

  /** One reconciliation with the offline anomaly alone. */
  predicate OfflineOp(op: AlertRuns.Op, x: Session, offlineSeconds: real, now: int) {
    op == AlertRuns.Reconcile(x.serverId, [Anomaly(Offline, SilentMs(x, now) as real / 1000.0, offlineSeconds, "", None)],
                              Detection, now)
  }

  /** `at` lists, in order, exactly the places of the sessions that are silent for too long, and the operations are theirs. */
  ghost predicate SweepsAt(ops: seq<AlertRuns.Op>, sessions: seq<Session>, offlineSeconds: real, now: int, at: seq<int>) {
    && |at| == |ops|
    && (forall i, j :: 0 <= i < j < |at| ==> at[i] < at[j])
    && (forall n :: n in at <==> 0 <= n < |sessions| && TooSilent(sessions[n], offlineSeconds, now))
    && (forall i :: 0 <= i < |at| ==> 0 <= at[i] < |sessions| && OfflineOp(ops[i], sessions[at[i]], offlineSeconds, now))
  }

  lemma {:induction false} SweepsSnoc(ops: seq<AlertRuns.Op>, sessions: seq<Session>, x: Session, offlineSeconds: real,
        now: int, at: seq<int>, op: AlertRuns.Op)
    requires SweepsAt(ops, sessions, offlineSeconds, now, at) && OfflineOp(op, x, offlineSeconds, now)
    ensures if TooSilent(x, offlineSeconds, now) then
              SweepsAt(ops + [op], sessions + [x], offlineSeconds, now, at + [|sessions|])
            else SweepsAt(ops, sessions + [x], offlineSeconds, now, at)
  {
    var all := sessions + [x];
    assert all[|sessions|] == x && forall j :: 0 <= j < |sessions| ==> all[j] == sessions[j];
    assert forall i :: 0 <= i < |at| ==> at[i] in at;
    if TooSilent(x, offlineSeconds, now) {
      var more := at + [|sessions|];
      forall n
        ensures n in more <==> 0 <= n < |all| && TooSilent(all[n], offlineSeconds, now)
      {
        assert n in more <==> n in at || n == |sessions|;
      }
    }
  }

  /** A sweep reconciles, in order, exactly the sessions whose last report is more than the configured time ago, each with
      the one anomaly that says for how long. */
  lemma {:induction false} SweepExactly(sessions: seq<Session>, offlineSeconds: real, now: int) returns (at: seq<int>)
    ensures SweepsAt(SweepOps(sessions, offlineSeconds, now), sessions, offlineSeconds, now, at)
    decreases |sessions|
  {
    if sessions == [] {
      at := [];
    } else {
      var front, x := Init(sessions), Last(sessions);
      assert sessions == front + [x];
      var before := SweepExactly(front, offlineSeconds, now);
      var op := AlertRuns.Reconcile(x.serverId, [OfflineAnomaly(x, offlineSeconds, now)], Detection, now);
      SweepsSnoc(SweepOps(front, offlineSeconds, now), front, x, offlineSeconds, now, before, op);
      at := if TooSilent(x, offlineSeconds, now) then before + [|front|] else before;
    }
  }
}
