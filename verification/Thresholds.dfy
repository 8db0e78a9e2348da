/** The threshold detectors: a value has to stay over its threshold for a while before an anomaly is raised. */
module Thresholds {
  import opened Basics
  import opened Text
  import opened AlertSpec
  import opened AlertInputs
  import opened StateStore

  // ---------------------------------------------------------------------------
  // The two machines
  // ---------------------------------------------------------------------------

  function DurationMs(settings: Settings): real {
    MaxReal(0.0, settings.thresholdDurationSeconds.GetOr(0.0)) * 1000.0
  }

  function Initial(value: real): ThresholdState {
    ThresholdState(false, value, None)
  }

  predicate LongEnough(now: int, first: int, durationMs: real) {
    durationMs == 0.0 || (now - first) as real >= durationMs
  }

  function Next(s: Option<ThresholdState>, value: real, breaching: bool, durationMs: real, now: int): ThresholdState {
    var was := s.GetOr(Initial(value));
    if breaching then
      var first := was.firstBreachedAt.GetOr(now);
      ThresholdState(was.isActive || LongEnough(now, first, durationMs), value, Some(first))
    else ThresholdState(false, value, None)
  }

  /** The CPU detector, written separately: it branches on being active first. */
  function NextCpu(s: Option<ThresholdState>, value: real, threshold: real, durationMs: real,
        now: int): ThresholdState {
    var was := s.GetOr(Initial(value));
    if was.isActive then
      var stays := value >= threshold;
      ThresholdState(stays, value, if stays then was.firstBreachedAt else None)
    else if value >= threshold then
      var first := was.firstBreachedAt.GetOr(now);
      ThresholdState(LongEnough(now, first, durationMs), value, Some(first))
    else ThresholdState(false, value, None)
  }

  /** An active state knows when its breach began. */
  predicate Sound(s: Option<ThresholdState>) {
    s.Some? && s.value.isActive ==> s.value.firstBreachedAt.Some?
  }

  /** The two machines take the same steps exactly from the sound states, and every step leads to a sound state. */
  lemma {:induction false} SameMachine(s: Option<ThresholdState>, threshold: real, durationMs: real, now: int)
    ensures Sound(s) <==> forall value :: NextCpu(s, value, threshold, durationMs, now) ==
                                          Next(s, value, value >= threshold, durationMs, now)
    ensures forall value, breaching :: Sound(Some(Next(s, value, breaching, durationMs, now)))
  {
    if !Sound(s) {
      assert NextCpu(s, threshold, threshold, durationMs, now) !=
             Next(s, threshold, threshold >= threshold, durationMs, now);
    }
  }

  // ---------------------------------------------------------------------------
  // Run length
  // ---------------------------------------------------------------------------

  datatype Reading = Reading(now: int, value: real, breaching: bool)

  /** The state after a sequence of readings, from nothing. */
  function After(rs: seq<Reading>, durationMs: real): Option<ThresholdState> {
    if rs == [] then None
    else Some(Next(After(Init(rs), durationMs), Last(rs).value, Last(rs).breaching, durationMs, Last(rs).now))
  }

  /** Where the unbroken run of breaching readings at the end begins. */
  function RunStart(rs: seq<Reading>): (i: nat)
    ensures i <= |rs|
    ensures forall j :: i <= j < |rs| ==> rs[j].breaching
    ensures i > 0 ==> !rs[i - 1].breaching
    ensures rs != [] && rs[|rs| - 1].breaching ==> i < |rs|
  {
    if rs == [] then 0 else if !Last(rs).breaching then |rs| else RunStart(Init(rs))
  }

  predicate Spans(rs: seq<Reading>, durationMs: real, j: nat)
    requires RunStart(rs) <= j < |rs|
  {
    LongEnough(rs[j].now, rs[RunStart(rs)].now, durationMs)
  }

  /** Whatever the clock does: active exactly if some reading of the run at the end came late enough after its start. */
  lemma {:induction false} ActiveExactly(rs: seq<Reading>, durationMs: real)
    requires rs != [] && durationMs >= 0.0
    ensures var s := After(rs, durationMs).value;
      && (s.isActive <==> exists j :: RunStart(rs) <= j < |rs| && Spans(rs, durationMs, j))
      && s.firstBreachedAt == (if RunStart(rs) < |rs| then Some(rs[RunStart(rs)].now) else None)
      && s.lastValue == Last(rs).value
    decreases |rs|
  {
    var front, start, n := Init(rs), RunStart(rs), |rs|;
    if !Last(rs).breaching {
    } else if front == [] {
      assert After(front, durationMs).None?;
      assert Spans(rs, durationMs, 0) <==> LongEnough(rs[0].now, rs[0].now, durationMs);
    } else {
      ActiveExactly(front, durationMs);
      var was := After(front, durationMs).value;
      assert start == RunStart(front);
      if start < |front| {
        assert forall j :: start <= j < |front| ==> (Spans(front, durationMs, j) <==> Spans(rs, durationMs, j));
      }
      assert Spans(rs, durationMs, n - 1) <==> LongEnough(rs[n - 1].now, rs[start].now, durationMs);
    }
  }

  predicate NonDecreasing(rs: seq<Reading>) {
    forall i, j :: 0 <= i <= j < |rs| ==> rs[i].now <= rs[j].now
  }

  /** RUN LENGTH. With a clock that never goes back, a key is active after a sequence of readings exactly if the last
      one breaches and the unbroken run of breaching readings at the end lasts at least the duration. */
  lemma {:induction false} ActiveIsRunLength(rs: seq<Reading>, durationMs: real)
    requires rs != [] && durationMs >= 0.0 && NonDecreasing(rs)
    ensures After(rs, durationMs).value.isActive <==>
      Last(rs).breaching && (Last(rs).now - rs[RunStart(rs)].now) as real >= durationMs
  {
    ActiveExactly(rs, durationMs);
    if Last(rs).breaching {
      assert Spans(rs, durationMs, |rs| - 1) <==> (Last(rs).now - rs[RunStart(rs)].now) as real >= durationMs;
    }
  }

  // ---------------------------------------------------------------------------
  // The checks of one report
  // ---------------------------------------------------------------------------

  datatype Check = Check(key: string, value: real, breaching: bool, anomaly: Anomaly)

  function CpuStateKey(serverId: string): string {
    "threshold:cpu:" + serverId
  }

  function ThresholdStateKey(serverId: string, alertType: AlertType, fingerprint: string): string {
    "threshold:" + TypeName(alertType) + ":" + serverId + ":" + fingerprint
  }

  function CpuCheck(serverId: string, r: Report, s: Settings): Check {
    Check(CpuStateKey(serverId), r.cpuPercent, r.cpuPercent >= s.cpuThreshold,
          Anomaly(Cpu, r.cpuPercent, s.cpuThreshold, "", None))
  }

  function MemoryCheck(serverId: string, r: Report, s: Settings): Check {
    Check(ThresholdStateKey(serverId, Memory, ""), r.memoryPercent, r.memoryPercent >= s.memoryThreshold,
          Anomaly(Memory, r.memoryPercent, s.memoryThreshold, "", None))
  }

  function DiskCheck(serverId: string, d: DiskReport, s: Settings): Check {
    Check(ThresholdStateKey(serverId, Disk, d.mountPoint), d.usagePercent, d.usagePercent >= s.diskThreshold,
          Anomaly(Disk, d.usagePercent, s.diskThreshold, d.mountPoint, Some(DiskDetails(d.mountPoint, d.filesystem))))
  }

  function CardFingerprint(index: int): string {
    "gpu" + Decimal(index)
  }

  function TempCheck(serverId: string, c: CardReport, s: Settings): Check {
    Check(ThresholdStateKey(serverId, GpuTemp, CardFingerprint(c.index)), c.temperature, c.temperature >= s.gpuTempThreshold,
          Anomaly(GpuTemp, c.temperature, s.gpuTempThreshold, CardFingerprint(c.index), Some(TempDetails(c.index, c.name))))
  }

  function DiskChecks(serverId: string, disks: seq<DiskReport>, s: Settings): seq<Check> {
    if disks == [] then []
    else if Last(disks).mountPoint in s.diskMountPoints then
      DiskChecks(serverId, Init(disks), s) + [DiskCheck(serverId, Last(disks), s)]
    else DiskChecks(serverId, Init(disks), s)
  }

  function TempChecks(serverId: string, cards: seq<CardReport>, s: Settings): (r: seq<Check>)
    ensures |r| == |cards| && forall i :: 0 <= i < |r| ==> r[i] == TempCheck(serverId, cards[i], s)
  {
    if cards == [] then [] else TempChecks(serverId, Init(cards), s) + [TempCheck(serverId, Last(cards), s)]
  }

  function Checks(serverId: string, r: Report, s: Settings): seq<Check> {
    [CpuCheck(serverId, r, s)] + [MemoryCheck(serverId, r, s)] + DiskChecks(serverId, r.disks, s) + TempChecks(serverId, r.cards, s)
  }

  function Stored(state: map<string, Entry>, key: string): Option<ThresholdState> {
    if key in state && state[key].OfThreshold? then Some(state[key].threshold) else None
  }

  /** The store and the anomalies after the checks, in order. */
  function RunChecks(state: map<string, Entry>, checks: seq<Check>, durationMs: real, now: int): (map<string, Entry>,
        seq<Anomaly>) {
    if checks == [] then (state, [])
    else
      var (before, anomalies) := RunChecks(state, Init(checks), durationMs, now);
      var c := Last(checks);
      var next := Next(Stored(before, c.key), c.value, c.breaching, durationMs, now);
      (before[c.key := OfThreshold(next)], if next.isActive then anomalies + [c.anomaly] else anomalies)
  }

  ghost predicate AllSound(state: map<string, Entry>) {
    forall key :: Sound(Stored(state, key))
  }

  // ---------------------------------------------------------------------------
  // The detectors, on the store
  // ---------------------------------------------------------------------------

  lemma {:induction false} RunSnoc(state: map<string, Entry>, checks: seq<Check>, c: Check, durationMs: real, now: int)
    ensures var (before, anomalies) := RunChecks(state, checks, durationMs, now);
      var next := Next(Stored(before, c.key), c.value, c.breaching, durationMs, now);
      RunChecks(state, checks + [c], durationMs, now) ==
        (before[c.key := OfThreshold(next)], if next.isActive then anomalies + [c.anomaly] else anomalies)
  {
  }

  method UpdateThresholdState(c: Check, durationMs: real, store: AlertStateStore<Entry>,
        now: int) returns (active: bool)
    requires "threshold:" <= c.key && Typed(store.state) && AllSound(store.state)
    modifies store
    ensures Typed(store.state) && AllSound(store.state)
    ensures var next := Next(Stored(old(store.state), c.key), c.value, c.breaching, durationMs, now);
      store.state == old(store.state)[c.key := OfThreshold(next)] && active == next.isActive
  {
    ghost var before := store.state;
    assert TypedAt(before, c.key);
    var entry := store.Get(c.key);
    var state := if entry.Some? then entry.value.threshold else Initial(c.value);
    if c.breaching {
      if state.firstBreachedAt.None? {
        state := state.(firstBreachedAt := Some(now));
      }
      if durationMs == 0.0 || (now - state.firstBreachedAt.value) as real >= durationMs {
        state := state.(isActive := true);
      }
    } else {
      state := state.(isActive := false, firstBreachedAt := None);
    }
    state := state.(lastValue := c.value);
    store.Set(c.key, OfThreshold(state));
    active := state.isActive;
    KindsApart(c.key);
    forall key
      ensures TypedAt(store.state, key) && Sound(Stored(store.state, key))
    {
      assert TypedAt(before, key) && Sound(Stored(before, key));
    }
  }

  method DetectCpuThreshold(serverId: string, r: Report, s: Settings, store: AlertStateStore<Entry>, now: int)
    returns (active: bool)
    requires Typed(store.state) && AllSound(store.state)
    modifies store
    ensures Typed(store.state) && AllSound(store.state)
    ensures var c := CpuCheck(serverId, r, s);
      var next := Next(Stored(old(store.state), c.key), c.value, c.breaching, DurationMs(s), now);
      store.state == old(store.state)[c.key := OfThreshold(next)] && active == next.isActive
  {
    ghost var before := store.state;
    var key := CpuStateKey(serverId);
    assert TypedAt(before, key) && Sound(Stored(before, key));
    var entry := store.Get(key);
    var state := if entry.Some? then entry.value.threshold else Initial(r.cpuPercent);
    if state.isActive {
      state := state.(isActive := r.cpuPercent >= s.cpuThreshold);
      if !state.isActive {
        state := state.(firstBreachedAt := None);
      }
    } else if r.cpuPercent >= s.cpuThreshold {
      if state.firstBreachedAt.None? {
        state := state.(firstBreachedAt := Some(now));
      }
      var durationMs := DurationMs(s);
      if durationMs == 0.0 || (now - state.firstBreachedAt.value) as real >= durationMs {
        state := state.(isActive := true);
      }
    } else {
      state := state.(firstBreachedAt := None);
    }
    state := state.(lastValue := r.cpuPercent);
    store.Set(key, OfThreshold(state));
    active := state.isActive;
    assert state == NextCpu(Stored(before, key), r.cpuPercent, s.cpuThreshold, DurationMs(s), now);
    SameMachine(Stored(before, key), s.cpuThreshold, DurationMs(s), now);
    KindsApart(key);
    forall k
      ensures TypedAt(store.state, k) && Sound(Stored(store.state, k))
    {
      assert TypedAt(before, k) && Sound(Stored(before, k));
    }
  }

  /** The checks done so far have led from `start` to the current store and anomalies. */
  ghost predicate Ran(start: map<string, Entry>, checks: seq<Check>, durationMs: real, now: int, state: map<string,
        Entry>,
    anomalies: seq<Anomaly>)
  {
    RunChecks(start, checks, durationMs, now) == (state, anomalies)
  }

  /** One more check: updates the store, and adds the anomaly if its key is active. */
  method RunCheck(c: Check, s: Settings, store: AlertStateStore<Entry>, now: int, anomalies0: seq<Anomaly>,
      ghost start: map<string, Entry>, ghost checks: seq<Check>)
    returns (anomalies: seq<Anomaly>)
    requires "threshold:" <= c.key && Typed(store.state) && AllSound(store.state)
    requires Ran(start, checks, DurationMs(s), now, store.state, anomalies0)
    modifies store
    ensures Typed(store.state) && AllSound(store.state)
    ensures Ran(start, checks + [c], DurationMs(s), now, store.state, anomalies)
  {
    var active := UpdateThresholdState(c, DurationMs(s), store, now);
    anomalies := if active then anomalies0 + [c.anomaly] else anomalies0;
    RunSnoc(start, checks, c, DurationMs(s), now);
  }

  method DetectDisks(serverId: string, disks: seq<DiskReport>, s: Settings, store: AlertStateStore<Entry>, now: int,
      anomalies0: seq<Anomaly>, ghost start: map<string, Entry>, ghost checks: seq<Check>)
    returns (anomalies: seq<Anomaly>)
    requires Typed(store.state) && AllSound(store.state)
    requires Ran(start, checks, DurationMs(s), now, store.state, anomalies0)
    modifies store
    ensures Typed(store.state) && AllSound(store.state)
    ensures Ran(start, checks + DiskChecks(serverId, disks, s), DurationMs(s), now, store.state, anomalies)
  {
    anomalies := anomalies0;
    assert checks + DiskChecks(serverId, disks[..0], s) == checks;
    for n := 0 to |disks|
      invariant Typed(store.state) && AllSound(store.state)
      invariant Ran(start, checks + DiskChecks(serverId, disks[..n], s), DurationMs(s), now, store.state, anomalies)
    {
      assert disks[..n + 1] == disks[..n] + [disks[n]];
      InitSnoc(disks[..n], disks[n]);
      if disks[n].mountPoint !in s.diskMountPoints { continue; }
      var c := DiskCheck(serverId, disks[n], s);
      ghost var so := checks + DiskChecks(serverId, disks[..n], s);
      anomalies := RunCheck(c, s, store, now, anomalies, start, so);
      ConcatAssociates(checks, DiskChecks(serverId, disks[..n], s), [c]);
    }
    assert disks[..|disks|] == disks;
  }

  lemma {:induction false} TempSnoc(serverId: string, cards: seq<CardReport>, n: nat, s: Settings)
    requires n < |cards|
    ensures TempChecks(serverId, cards[..n + 1], s) == TempChecks(serverId, cards[..n], s) + [TempCheck(serverId, cards[n], s)]
  {
  }

  method DetectTemperatures(serverId: string, cards: seq<CardReport>, s: Settings, store: AlertStateStore<Entry>,
        now: int,
      anomalies0: seq<Anomaly>, ghost start: map<string, Entry>, ghost checks: seq<Check>)
    returns (anomalies: seq<Anomaly>)
    requires Typed(store.state) && AllSound(store.state)
    requires Ran(start, checks, DurationMs(s), now, store.state, anomalies0)
    modifies store
    ensures Typed(store.state) && AllSound(store.state)
    ensures Ran(start, checks + TempChecks(serverId, cards, s), DurationMs(s), now, store.state, anomalies)
  {
    anomalies := anomalies0;
    assert checks + TempChecks(serverId, cards[..0], s) == checks;
    for n := 0 to |cards|
      invariant Typed(store.state) && AllSound(store.state)
      invariant Ran(start, checks + TempChecks(serverId, cards[..n], s), DurationMs(s), now, store.state, anomalies)
    {
      var c := TempCheck(serverId, cards[n], s);
      ghost var so := checks + TempChecks(serverId, cards[..n], s);
      anomalies := RunCheck(c, s, store, now, anomalies, start, so);
      TempSnoc(serverId, cards, n, s);
      ConcatAssociates(checks, TempChecks(serverId, cards[..n], s), [c]);
    }
    assert cards[..|cards|] == cards;
  }

  /** Runs all checks of a report against the store. */
  method DetectThresholds(serverId: string, r: Report, s: Settings, store: AlertStateStore<Entry>, now: int)
    returns (anomalies: seq<Anomaly>)
    requires Typed(store.state) && AllSound(store.state)
    modifies store
    ensures Typed(store.state) && AllSound(store.state)
    ensures Ran(old(store.state), Checks(serverId, r, s), DurationMs(s), now, store.state, anomalies)
  {
    ghost var start := store.state;
    var cpu, memory := CpuCheck(serverId, r, s), MemoryCheck(serverId, r, s);
    var active := DetectCpuThreshold(serverId, r, s, store, now);
    anomalies := if active then [cpu.anomaly] else [];
    RunSnoc(start, [], cpu, DurationMs(s), now);
    assert [] + [cpu] == [cpu] && [] + [cpu.anomaly] == [cpu.anomaly];
    assert RunChecks(start, [], DurationMs(s), now) == (start, []);
    anomalies := RunCheck(memory, s, store, now, anomalies, start, [cpu]);
    anomalies := DetectDisks(serverId, r.disks, s, store, now, anomalies, start, [cpu] + [memory]);
    anomalies := DetectTemperatures(
      serverId, r.cards, s, store, now, anomalies, start, [cpu] + [memory] + DiskChecks(serverId, r.disks, s));
  }

  // ---------------------------------------------------------------------------
  // Across reports
  // ---------------------------------------------------------------------------

  datatype Round = Round(checks: seq<Check>, now: int)

  /** The store after the rounds, starting with no threshold state, and the anomalies of the last round. */
  function Over(rounds: seq<Round>, durationMs: real): (map<string, Entry>, seq<Anomaly>) {
    if rounds == [] then (map[], [])
    else RunChecks(Over(Init(rounds), durationMs).0, Last(rounds).checks, durationMs, Last(rounds).now)
  }

  function ReadingsIn(checks: seq<Check>, now: int, key: string): seq<Reading> {
    if checks == [] then []
    else if Last(checks).key == key then
      ReadingsIn(Init(checks), now, key) + [Reading(now, Last(checks).value, Last(checks).breaching)]
    else ReadingsIn(Init(checks), now, key)
  }

  /** Every reading of one key, in order; reports that do not mention the key contribute none. */
  function ReadingsOf(rounds: seq<Round>, key: string): seq<Reading> {
    if rounds == [] then []
    else ReadingsOf(Init(rounds), key) + ReadingsIn(Last(rounds).checks, Last(rounds).now, key)
  }

  lemma {:induction false} AfterSnoc(rs: seq<Reading>, x: Reading, durationMs: real)
    ensures After(rs + [x], durationMs) == Some(Next(After(rs, durationMs), x.value, x.breaching, durationMs, x.now))
  {
  }

  lemma {:induction false} RoundAfter(state: map<string, Entry>, checks: seq<Check>, durationMs: real, now: int,
        key: string,
      before: seq<Reading>)
    requires Stored(state, key) == After(before, durationMs)
    ensures Stored(RunChecks(state, checks, durationMs, now).0, key) == After(before + ReadingsIn(checks, now, key), durationMs)
    decreases |checks|
  {
    if checks == [] {
      assert before + [] == before;
    } else {
      var front, c := Init(checks), Last(checks);
      RoundAfter(state, front, durationMs, now, key, before);
      if c.key == key {
        var x := Reading(now, c.value, c.breaching);
        AfterSnoc(before + ReadingsIn(front, now, key), x, durationMs);
        ConcatAssociates(before, ReadingsIn(front, now, key), [x]);
      }
    }
  }

  /** After any reports, the stored state of a key is what its own readings alone make of it. */
  lemma {:induction false} StoredIsAfter(rounds: seq<Round>, durationMs: real, key: string)
    ensures Stored(Over(rounds, durationMs).0, key) == After(ReadingsOf(rounds, key), durationMs)
    decreases |rounds|
  {
    if rounds != [] {
      StoredIsAfter(Init(rounds), durationMs, key);
      RoundAfter(Over(Init(rounds), durationMs).0, Last(rounds).checks, durationMs, Last(rounds).now, key,
                 ReadingsOf(Init(rounds), key));
    }
  }

  function KeysOf(checks: seq<Check>): seq<string> {
    seq(|checks|, i requires 0 <= i < |checks| => checks[i].key)
  }

  /** The anomalies of the checks whose key is active in `state`, in order. */
  function Raised(checks: seq<Check>, state: map<string, Entry>): seq<Anomaly> {
    if checks == [] then []
    else
      var s := Stored(state, Last(checks).key);
      if s.Some? && s.value.isActive then Raised(Init(checks), state) + [Last(checks).anomaly] else Raised(Init(checks), state)
  }

  lemma {:induction false} RaisedSame(checks: seq<Check>, a: map<string, Entry>, b: map<string, Entry>)
    requires forall i :: 0 <= i < |checks| ==> Stored(a, checks[i].key) == Stored(b, checks[i].key)
    ensures Raised(checks, a) == Raised(checks, b)
    decreases |checks|
  {
    if checks != [] {
      assert forall i :: 0 <= i < |Init(checks)| ==> Init(checks)[i] == checks[i];
      RaisedSame(Init(checks), a, b);
    }
  }

  /** With distinct keys, the anomalies of a report are exactly those of its active keys. */
  lemma {:induction false} AnomaliesAreRaised(state: map<string, Entry>, checks: seq<Check>, durationMs: real, now: int)
    requires NoDup(KeysOf(checks))
    ensures RunChecks(state, checks, durationMs, now).1 == Raised(checks, RunChecks(state, checks, durationMs, now).0)
    decreases |checks|
  {
    if checks != [] {
      var front, c := Init(checks), Last(checks);
      FrontDistinct(checks);
      AnomaliesAreRaised(state, front, durationMs, now);
      var (before, _) := RunChecks(state, front, durationMs, now);
      var after := RunChecks(state, checks, durationMs, now).0;
      RaisedSame(front, before, after);
    }
  }

  lemma {:induction false} FrontDistinct(checks: seq<Check>)
    requires NoDup(KeysOf(checks)) && checks != []
    ensures NoDup(KeysOf(Init(checks)))
    ensures forall i :: 0 <= i < |Init(checks)| ==> Init(checks)[i].key != Last(checks).key
  {
    var keys := KeysOf(checks);
    forall i, j | 0 <= i < j < |Init(checks)|
      ensures Apart(KeysOf(Init(checks)), i, j)
    {
      assert Apart(keys, i, j);
    }
    forall i | 0 <= i < |Init(checks)|
      ensures Init(checks)[i].key != Last(checks).key
    {
      assert Apart(keys, i, |checks| - 1);
    }
  }

  /** The last reading breaches, and the unbroken run of breaching readings lasts at least the duration. */
  predicate Due(rs: seq<Reading>, durationMs: real) {
    rs != [] && Last(rs).breaching && (Last(rs).now - rs[RunStart(rs)].now) as real >= durationMs
  }

  function DueAnomalies(checks: seq<Check>, rounds: seq<Round>, durationMs: real): seq<Anomaly> {
    if checks == [] then []
    else if Due(ReadingsOf(rounds, Last(checks).key), durationMs) then
      DueAnomalies(Init(checks), rounds, durationMs) + [Last(checks).anomaly]
    else DueAnomalies(Init(checks), rounds, durationMs)
  }

  lemma {:induction false} RaisedIsDue(checks: seq<Check>, rounds: seq<Round>, durationMs: real)
    requires durationMs >= 0.0 && forall key :: NonDecreasing(ReadingsOf(rounds, key))
    ensures Raised(checks, Over(rounds, durationMs).0) == DueAnomalies(checks, rounds, durationMs)
    decreases |checks|
  {
    if checks != [] {
      RaisedIsDue(Init(checks), rounds, durationMs);
      var rs := ReadingsOf(rounds, Last(checks).key);
      StoredIsAfter(rounds, durationMs, Last(checks).key);
      if rs != [] {
        ActiveIsRunLength(rs, durationMs);
      }
    }
  }

  /** RUN LENGTH ACROSS REPORTS. After any reports with a clock that never goes back, the last one raises the anomalies of
      exactly those of its keys whose unbroken run of breaching readings lasts at least the duration. */
  lemma {:induction false} ReportRaisesDue(rounds: seq<Round>, durationMs: real)
    requires rounds != [] && durationMs >= 0.0 && NoDup(KeysOf(Last(rounds).checks))
    requires forall i, j :: 0 <= i <= j < |rounds| ==> rounds[i].now <= rounds[j].now
    ensures Over(rounds, durationMs).1 == DueAnomalies(Last(rounds).checks, rounds, durationMs)
  {
    AnomaliesAreRaised(Over(Init(rounds), durationMs).0, Last(rounds).checks, durationMs, Last(rounds).now);
    forall key
      ensures NonDecreasing(ReadingsOf(rounds, key))
    {
      ReadingsInOrder(rounds, key);
    }
    RaisedIsDue(Last(rounds).checks, rounds, durationMs);
  }

  lemma {:induction false} ReadingsInAt(checks: seq<Check>, now: int, key: string)
    ensures forall i :: 0 <= i < |ReadingsIn(checks, now, key)| ==> ReadingsIn(checks, now, key)[i].now == now
    decreases |checks|
  {
    if checks != [] {
      ReadingsInAt(Init(checks), now, key);
    }
  }

  lemma {:induction false} ReadingsInOrder(rounds: seq<Round>, key: string)
    requires forall i, j :: 0 <= i <= j < |rounds| ==> rounds[i].now <= rounds[j].now
    ensures NonDecreasing(ReadingsOf(rounds, key))
    ensures forall i :: 0 <= i < |ReadingsOf(rounds, key)| ==> rounds != [] && ReadingsOf(rounds, key)[i].now <= Last(rounds).now
    decreases |rounds|
  {
    if rounds != [] {
      var front := Init(rounds);
      assert forall i :: 0 <= i < |front| ==> front[i] == rounds[i];
      ReadingsInOrder(front, key);
      ReadingsInAt(Last(rounds).checks, Last(rounds).now, key);
      assert front != [] ==> Last(front) == rounds[|rounds| - 2];
    }
  }

  // ---------------------------------------------------------------------------
  // The keys of one report are distinct
  // ---------------------------------------------------------------------------

  predicate DistinctMounts(disks: seq<DiskReport>) {
    forall i, j :: 0 <= i < j < |disks| ==> disks[i].mountPoint != disks[j].mountPoint
  }

  predicate DistinctCards(cards: seq<CardReport>) {
    forall i, j :: 0 <= i < j < |cards| ==> cards[i].index != cards[j].index
  }

  /** Type and fingerprint of a check, which its key spells out. */
  ghost predicate KeyedBy(c: Check, serverId: string, t: AlertType, fingerprint: string) {
    !t.Cpu? && c.key == ThresholdStateKey(serverId, t, fingerprint)
  }

  lemma {:induction false} KeyParts(serverId: string, t: AlertType, f: string)
    ensures ThresholdStateKey(serverId, t, f) == "threshold:" + (TypeName(t) + ":" + (serverId + ":" + f))
  {
  }

  lemma {:induction false} KeysDiffer(serverId: string, t: AlertType, f: string, u: AlertType, g: string)
    requires ThresholdStateKey(serverId, t, f) == ThresholdStateKey(serverId, u, g)
    ensures t == u && f == g
  {
    var a, b := serverId + ":" + f, serverId + ":" + g;
    KeyParts(serverId, t, f);
    KeyParts(serverId, u, g);
    SamePrefix("threshold:", TypeName(t) + ":" + a, TypeName(u) + ":" + b);
    TypeNameInjective(t, u);
    TypeNameInjective(u, t);
    SplitAtColon(TypeName(t), a, TypeName(u), b);
    SamePrefix(serverId + ":", f, g);
  }

  lemma {:induction false} CpuKeyDiffers(serverId: string, t: AlertType, f: string)
    requires !t.Cpu?
    ensures CpuStateKey(serverId) != ThresholdStateKey(serverId, t, f)
  {
  }

  ghost predicate DiskKeysAt(serverId: string, disks: seq<DiskReport>, c: Check) {
    exists d :: d in disks && KeyedBy(c, serverId, Disk, d.mountPoint)
  }

  lemma {:induction false} DiskKeysDistinct(serverId: string, disks: seq<DiskReport>, s: Settings)
    requires DistinctMounts(disks)
    ensures NoDup(KeysOf(DiskChecks(serverId, disks, s)))
    ensures forall c :: c in DiskChecks(serverId, disks, s) ==> DiskKeysAt(serverId, disks, c)
    decreases |disks|
  {
    if disks != [] {
      var front, d := Init(disks), Last(disks);
      DiskKeysDistinct(serverId, front, s);
      var before, c := DiskChecks(serverId, front, s), DiskCheck(serverId, d, s);
      assert disks == front + [d];
      assert DiskKeysAt(serverId, disks, c);
      forall i | 0 <= i < |before|
        ensures KeysOf(before)[i] != c.key && DiskKeysAt(serverId, disks, before[i])
      {
        assert before[i] in before;
        var e :| e in front && KeyedBy(before[i], serverId, Disk, e.mountPoint);
        if before[i].key == c.key { KeysDiffer(serverId, Disk, e.mountPoint, Disk, d.mountPoint); }
      }
      ConcatNoDup(KeysOf(before), [c.key]);
      assert KeysOf(before + [c]) == KeysOf(before) + [c.key];
    }
  }

  lemma {:induction false} TempKeysDistinct(serverId: string, cards: seq<CardReport>, s: Settings)
    requires DistinctCards(cards)
    ensures NoDup(KeysOf(TempChecks(serverId, cards, s)))
  {
    var keys := KeysOf(TempChecks(serverId, cards, s));
    forall i, j | 0 <= i < j < |keys|
      ensures Apart(keys, i, j)
    {
      if keys[i] == keys[j] {
        KeysDiffer(serverId, GpuTemp, CardFingerprint(cards[i].index), GpuTemp, CardFingerprint(cards[j].index));
        SamePrefix("gpu", Decimal(cards[i].index), Decimal(cards[j].index));
        DecimalInjective(cards[i].index, cards[j].index);
      }
    }
  }

  function HeadKeys(serverId: string): seq<string> {
    [CpuStateKey(serverId)] + [ThresholdStateKey(serverId, Memory, "")]
  }

  lemma {:induction false} HeadApart(serverId: string, t: AlertType, f: string)
    requires t.Disk? || t.GpuTemp?
    ensures ThresholdStateKey(serverId, t, f) !in HeadKeys(serverId)
  {
    CpuKeyDiffers(serverId, t, f);
    if ThresholdStateKey(serverId, t, f) == ThresholdStateKey(serverId, Memory, "") {
      KeysDiffer(serverId, t, f, Memory, "");
    }
  }

  lemma {:induction false} DiskApart(serverId: string, disks: seq<DiskReport>, cards: seq<CardReport>, s: Settings,
        c: Check)
    requires DiskKeysAt(serverId, disks, c)
    ensures c.key !in HeadKeys(serverId) && c.key !in KeysOf(TempChecks(serverId, cards, s))
  {
    var d :| d in disks && KeyedBy(c, serverId, Disk, d.mountPoint);
    HeadApart(serverId, Disk, d.mountPoint);
    forall j | 0 <= j < |cards|
      ensures c.key != TempCheck(serverId, cards[j], s).key
    {
      if c.key == TempCheck(serverId, cards[j], s).key {
        KeysDiffer(serverId, Disk, d.mountPoint, GpuTemp, CardFingerprint(cards[j].index));
      }
    }
  }

  lemma {:induction false} ChecksKeys(serverId: string, r: Report, s: Settings)
    ensures KeysOf(Checks(serverId, r, s)) ==
      HeadKeys(serverId) + KeysOf(DiskChecks(serverId, r.disks, s)) + KeysOf(TempChecks(serverId, r.cards, s))
  {
    var head := [CpuCheck(serverId, r, s)] + [MemoryCheck(serverId, r, s)];
    KeysConcat(head, DiskChecks(serverId, r.disks, s));
    KeysConcat(head + DiskChecks(serverId, r.disks, s), TempChecks(serverId, r.cards, s));
    assert KeysOf(head) == HeadKeys(serverId);
  }

  lemma {:induction false} KeysConcat(a: seq<Check>, b: seq<Check>)
    ensures KeysOf(a + b) == KeysOf(a) + KeysOf(b)
  {
  }

  /** A report with distinct mount points and distinct card indices has no key twice. */
  lemma {:induction false} ReportKeysDistinct(serverId: string, r: Report, s: Settings)
    requires DistinctMounts(r.disks) && DistinctCards(r.cards)
    ensures NoDup(KeysOf(Checks(serverId, r, s)))
  {
    var disks, temps := DiskChecks(serverId, r.disks, s), TempChecks(serverId, r.cards, s);
    DiskKeysDistinct(serverId, r.disks, s);
    TempKeysDistinct(serverId, r.cards, s);
    CpuKeyDiffers(serverId, Memory, "");
    ConcatNoDup([CpuStateKey(serverId)], [ThresholdStateKey(serverId, Memory, "")]);
    forall i | 0 <= i < |disks|
      ensures KeysOf(disks)[i] !in HeadKeys(serverId) && KeysOf(disks)[i] !in KeysOf(temps)
    {
      assert disks[i] in disks;
      DiskApart(serverId, r.disks, r.cards, s, disks[i]);
    }
    ConcatNoDup(HeadKeys(serverId), KeysOf(disks));
    forall j | 0 <= j < |temps|
      ensures KeysOf(temps)[j] !in HeadKeys(serverId)
    {
      HeadApart(serverId, GpuTemp, CardFingerprint(r.cards[j].index));
    }
    ConcatNoDup(HeadKeys(serverId) + KeysOf(disks), KeysOf(temps));
    ChecksKeys(serverId, r, s);
  }
}
