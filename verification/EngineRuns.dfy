/** What the engine's shared store holds after the reports of several servers, and what a report raises then. */
module EngineRuns {
  import opened Basics
  import opened Text
  import opened AlertSpec
  import opened AlertInputs
  import opened StateStore
  import opened Thresholds
  import opened GpuIdle
  import opened GpuIdleFacts

  /** One report as the engine gets it. */
  datatype Turn = Turn(serverId: string, report: Report, settings: Settings, now: int)

  function ChecksOf(x: Turn): seq<Check> {
    Checks(x.serverId, x.report, x.settings)
  }

  /** The turns of one server, in order. */
  function Own(turns: seq<Turn>, serverId: string): seq<Turn> {
    if turns == [] then []
    else if Last(turns).serverId == serverId then Own(Init(turns), serverId) + [Last(turns)]
    else Own(Init(turns), serverId)
  }

  function CheckRounds(turns: seq<Turn>): (r: seq<Thresholds.Round>)
    ensures |r| == |turns|
    ensures forall i :: 0 <= i < |r| ==> r[i] == Thresholds.Round(ChecksOf(turns[i]), turns[i].now)
  {
    seq(|turns|, i requires 0 <= i < |turns| => Thresholds.Round(ChecksOf(turns[i]), turns[i].now))
  }

  function IdleRounds(turns: seq<Turn>): (r: seq<IdleRound>)
    ensures |r| == |turns|
    ensures forall i :: 0 <= i < |r| ==> r[i] == IdleRound(turns[i].report.cards, turns[i].settings, turns[i].now)
  {
    seq(|turns|, i requires 0 <= i < |turns| => IdleRound(turns[i].report.cards, turns[i].settings, turns[i].now))
  }

  lemma {:induction false} OwnSnoc(turns: seq<Turn>, x: Turn, serverId: string)
    ensures Own(turns + [x], serverId) ==
      if x.serverId == serverId then Own(turns, serverId) + [x] else Own(turns, serverId)
  {
    InitSnoc(turns, x);
  }

  lemma {:induction false} RoundsSnoc(turns: seq<Turn>, x: Turn)
    ensures CheckRounds(turns + [x]) == CheckRounds(turns) + [Thresholds.Round(ChecksOf(x), x.now)]
    ensures IdleRounds(turns + [x]) == IdleRounds(turns) + [IdleRound(x.report.cards, x.settings, x.now)]
  {
  }

  // ---------------------------------------------------------------------------
  // Whose key it is
  // ---------------------------------------------------------------------------

  ghost predicate NamesAt(serverId: string, t: AlertType, fingerprint: string, key: string) {
    !t.Cpu? && key == ThresholdStateKey(serverId, t, fingerprint)
  }

  /** The key is a threshold key of the server. */
  ghost predicate Names(serverId: string, key: string) {
    key == CpuStateKey(serverId) || exists t, f :: NamesAt(serverId, t, f, key)
  }

  lemma {:induction false} CpuKeyParts(serverId: string)
    ensures CpuStateKey(serverId) == "threshold:" + ("cpu" + ":" + serverId)
  {
  }

  lemma {:induction false} CpuKeyForeign(a: string, b: string, t: AlertType, f: string)
    requires !t.Cpu?
    ensures CpuStateKey(a) != ThresholdStateKey(b, t, f)
  {
    if CpuStateKey(a) == ThresholdStateKey(b, t, f) {
      CpuKeyParts(a);
      KeyParts(b, t, f);
      SamePrefix("threshold:", "cpu" + ":" + a, TypeName(t) + ":" + (b + ":" + f));
      TypeNameInjective(Cpu, t);
      TypeNameInjective(t, Cpu);
      SplitAtColon("cpu", a, TypeName(t), b + ":" + f);
    }
  }

  lemma {:induction false} KeysForeign(a: string, t: AlertType, f: string, b: string, u: AlertType, g: string)
    requires ColonFree(a) && ColonFree(b) && ThresholdStateKey(a, t, f) == ThresholdStateKey(b, u, g)
    ensures a == b
  {
    KeyParts(a, t, f);
    KeyParts(b, u, g);
    SamePrefix("threshold:", TypeName(t) + ":" + (a + ":" + f), TypeName(u) + ":" + (b + ":" + g));
    TypeNameInjective(t, u);
    TypeNameInjective(u, t);
    SplitAtColon(TypeName(t), a + ":" + f, TypeName(u), b + ":" + g);
    SplitAtColon(a, f, b, g);
  }

  /** Ids without a colon keep the servers' keys apart. */
  lemma {:induction false} NamesOneServer(a: string, b: string, key: string)
    requires ColonFree(a) && ColonFree(b) && Names(a, key) && Names(b, key)
    ensures a == b
  {
    if key == CpuStateKey(a) && key == CpuStateKey(b) {
      SamePrefix("threshold:cpu:", a, b);
    } else if key == CpuStateKey(a) {
      var u, g :| NamesAt(b, u, g, key);
      CpuKeyForeign(a, b, u, g);
    } else {
      var t, f :| NamesAt(a, t, f, key);
      if key == CpuStateKey(b) {
        CpuKeyForeign(b, a, t, f);
      } else {
        var u, g :| NamesAt(b, u, g, key);
        KeysForeign(a, t, f, b, u, g);
      }
    }
  }

  lemma {:induction false} DiskChecksNamed(serverId: string, disks: seq<DiskReport>, s: Settings)
    ensures forall c :: c in DiskChecks(serverId, disks, s) ==> Names(serverId, c.key)
    decreases |disks|
  {
    if disks != [] {
      DiskChecksNamed(serverId, Init(disks), s);
      var d := DiskCheck(serverId, Last(disks), s);
      assert NamesAt(serverId, Disk, Last(disks).mountPoint, d.key);
    }
  }

  lemma {:induction false} ChecksNamed(serverId: string, r: Report, s: Settings)
    ensures forall c :: c in Checks(serverId, r, s) ==> Names(serverId, c.key) && "threshold:" <= c.key
  {
    DiskChecksNamed(serverId, r.disks, s);
    assert NamesAt(serverId, Memory, "", MemoryCheck(serverId, r, s).key);
    forall c | c in TempChecks(serverId, r.cards, s)
      ensures Names(serverId, c.key)
    {
      var i :| 0 <= i < |r.cards| && c == TempCheck(serverId, r.cards[i], s);
      assert NamesAt(serverId, GpuTemp, CardFingerprint(r.cards[i].index), c.key);
    }
    forall c | c in Checks(serverId, r, s)
      ensures "threshold:" <= c.key
    {
      NamedIsThreshold(serverId, c.key);
    }
  }

  lemma {:induction false} NamedIsThreshold(serverId: string, key: string)
    requires Names(serverId, key)
    ensures "threshold:" <= key
  {
  }

  // ---------------------------------------------------------------------------
  // What the store knows
  // ---------------------------------------------------------------------------

  ghost predicate Steady(turns: seq<Turn>, durationMs: real) {
    forall i :: 0 <= i < |turns| ==> DurationMs(turns[i].settings) == durationMs
  }

  /** The state under a server's key is what that server's own readings of it make of it. */
  ghost predicate Remembers(state: map<string, Entry>, turns: seq<Turn>, durationMs: real, serverId: string,
        key: string) {
    Names(serverId, key) && Steady(Own(turns, serverId), durationMs) ==>
      Stored(state, key) == After(ReadingsOf(CheckRounds(Own(turns, serverId)), key), durationMs)
  }

  ghost predicate DistinctTurns(turns: seq<Turn>) {
    forall i :: 0 <= i < |turns| ==> DistinctCards(turns[i].report.cards)
  }

  /** The server's idle entries are those of its own reports, and the saved set names them. */
  ghost predicate Tracks(tracked: map<Pair, TrackedProcess>, saved: set<Pair>, own: seq<Turn>) {
    DistinctTurns(own) ==> tracked == TrackedOver(IdleRounds(own)) && saved == tracked.Keys
  }

  lemma {:induction false} SteadyFront(turns: seq<Turn>, x: Turn, durationMs: real)
    ensures Steady(turns + [x], durationMs) <==> Steady(turns, durationMs) && DurationMs(x.settings) == durationMs
  {
    assert (turns + [x])[|turns|] == x;
    if Steady(turns + [x], durationMs) {
      forall i | 0 <= i < |turns|
        ensures DurationMs(turns[i].settings) == durationMs
      {
        assert (turns + [x])[i] == turns[i];
      }
    }
  }

  lemma {:induction false} ReadingsSnoc(rounds: seq<Thresholds.Round>, r: Thresholds.Round, key: string)
    ensures ReadingsOf(rounds + [r], key) == ReadingsOf(rounds, key) + ReadingsIn(r.checks, r.now, key)
  {
    InitSnoc(rounds, r);
  }

  lemma {:induction false} ChecksElsewhere(state: map<string, Entry>, checks: seq<Check>, durationMs: real, now: int,
        key: string)
    requires forall c :: c in checks ==> c.key != key
    ensures Stored(RunChecks(state, checks, durationMs, now).0, key) == Stored(state, key)
    decreases |checks|
  {
    if checks != [] {
      assert Last(checks) in checks;
      ChecksElsewhere(state, Init(checks), durationMs, now, key);
    }
  }

  function AfterChecks(state: map<string, Entry>, x: Turn): map<string, Entry> {
    RunChecks(state, ChecksOf(x), DurationMs(x.settings), x.now).0
  }

  lemma {:induction false} OwnChecksRemembered(state: map<string, Entry>, turns: seq<Turn>, x: Turn, durationMs: real,
        key: string)
    requires Remembers(state, turns, durationMs, x.serverId, key)
    ensures Remembers(AfterChecks(state, x), turns + [x], durationMs, x.serverId, key)
  {
    var own := Own(turns, x.serverId);
    OwnSnoc(turns, x, x.serverId);
    SteadyFront(own, x, durationMs);
    RoundsSnoc(own, x);
    var r := Thresholds.Round(ChecksOf(x), x.now);
    ReadingsSnoc(CheckRounds(own), r, key);
    if Names(x.serverId, key) && Steady(own + [x], durationMs) {
      RoundAfter(state, ChecksOf(x), durationMs, x.now, key, ReadingsOf(CheckRounds(own), key));
    }
  }

  lemma {:induction false} OtherChecksRemembered(state: map<string, Entry>, turns: seq<Turn>, x: Turn, durationMs: real,
        serverId: string, key: string)
    requires Remembers(state, turns, durationMs, serverId, key)
    requires ColonFree(serverId) && ColonFree(x.serverId) && serverId != x.serverId
    ensures Remembers(AfterChecks(state, x), turns + [x], durationMs, serverId, key)
  {
    OwnSnoc(turns, x, serverId);
    if Names(serverId, key) {
      ChecksNamed(x.serverId, x.report, x.settings);
      forall c | c in ChecksOf(x)
        ensures c.key != key
      {
        if c.key == key { NamesOneServer(serverId, x.serverId, key); }
      }
      ChecksElsewhere(state, ChecksOf(x), DurationMs(x.settings), x.now, key);
    }
  }

  /** A report keeps the memory of every server's threshold keys: the detectors of the other kind do not touch them. */
  lemma {:induction false} TurnRemembered(state: map<string, Entry>, after: map<string, Entry>, turns: seq<Turn>, x: Turn,
        durationMs: real, serverId: string, key: string)
    requires Remembers(state, turns, durationMs, serverId, key)
    requires ColonFree(serverId) && ColonFree(x.serverId)
    requires OnlyOwn(AfterChecks(state, x), after, x.serverId)
    ensures Remembers(after, turns + [x], durationMs, serverId, key)
  {
    if serverId == x.serverId {
      OwnChecksRemembered(state, turns, x, durationMs, key);
    } else {
      OtherChecksRemembered(state, turns, x, durationMs, serverId, key);
    }
    if Names(serverId, key) {
      ThresholdKeyForeign(x.serverId, serverId, key);
      assert Found(after, key) == Found(AfterChecks(state, x), key);
    }
  }

  lemma {:induction false} ThresholdKeyForeign(idle: string, serverId: string, key: string)
    requires Names(serverId, key)
    ensures !StartsWith(key, ServerPrefix(idle)) && key != SavedKey(idle)
  {
    NamedIsThreshold(serverId, key);
    KindsApart(key);
    KeyKinds(idle, (0, 0), 0);
    KindsApart(SavedKey(idle));
    if StartsWith(key, ServerPrefix(idle)) { PrefixOfPrefix("gpu_idle:", idle + ":", key); }
  }

  lemma {:induction false} TurnTracked(tracked: map<Pair, TrackedProcess>, saved: set<Pair>, own: seq<Turn>, x: Turn)
    requires Tracks(tracked, saved, own)
    ensures var t := SeeCards(Tracking(tracked, {}, []), x.report.cards, x.settings, x.now);
      Tracks(Kept(t, saved), t.seen, own + [x])
  {
    var all, r := own + [x], IdleRound(x.report.cards, x.settings, x.now);
    if DistinctTurns(all) {
      assert all[|own|] == x;
      forall i | 0 <= i < |own| ensures DistinctCards(own[i].report.cards) { assert all[i] == own[i]; }
      RoundsSnoc(own, x);
      InitSnoc(IdleRounds(own), r);
      IndexAgrees(tracked, r.cards, r.settings, r.now);
    }
  }

  // ---------------------------------------------------------------------------
  // What a report raises
  // ---------------------------------------------------------------------------

  /** One server's reports with a clock that never goes back, one duration, distinct cards and distinct mount points. */
  ghost predicate Orderly(own: seq<Turn>, durationMs: real) {
    && Steady(own, durationMs) && DistinctTurns(own)
    && (forall i :: 0 <= i < |own| ==> DistinctMounts(own[i].report.disks))
    && (forall i, j :: 0 <= i <= j < |own| ==> own[i].now <= own[j].now)
  }

  lemma {:induction false} StoredAlike(state: map<string, Entry>, turns: seq<Turn>, x: Turn, key: string)
    requires Names(x.serverId, key) && Remembers(state, turns, DurationMs(x.settings), x.serverId, key)
    requires Steady(Own(turns, x.serverId) + [x], DurationMs(x.settings))
    ensures Stored(AfterChecks(state, x), key)
         == Stored(Over(CheckRounds(Own(turns, x.serverId) + [x]), DurationMs(x.settings)).0, key)
  {
    OwnSnoc(turns, x, x.serverId);
    OwnChecksRemembered(state, turns, x, DurationMs(x.settings), key);
    StoredIsAfter(CheckRounds(Own(turns, x.serverId) + [x]), DurationMs(x.settings), key);
  }

  lemma {:induction false} OrderlyReadings(own: seq<Turn>, durationMs: real, key: string)
    requires Orderly(own, durationMs)
    ensures Thresholds.NonDecreasing(ReadingsOf(CheckRounds(own), key))
  {
    ReadingsInOrder(CheckRounds(own), key);
  }

  /** What the checks of an orderly server's report raise is what is due on that server's own readings. */
  lemma {:induction false} TurnRaisesDue(state: map<string, Entry>, turns: seq<Turn>, x: Turn)
    requires forall key :: Remembers(state, turns, DurationMs(x.settings), x.serverId, key)
    requires Orderly(Own(turns, x.serverId) + [x], DurationMs(x.settings))
    ensures RunChecks(state, ChecksOf(x), DurationMs(x.settings), x.now).1
         == DueAnomalies(ChecksOf(x), CheckRounds(Own(turns, x.serverId) + [x]), DurationMs(x.settings))
  {
    var d, checks, own := DurationMs(x.settings), ChecksOf(x), Own(turns, x.serverId) + [x];
    var rounds, after := CheckRounds(own), AfterChecks(state, x);
    calc {
      RunChecks(state, checks, d, x.now).1;
      {
        assert own[|own| - 1] == x;
        ReportKeysDistinct(x.serverId, x.report, x.settings);
        AnomaliesAreRaised(state, checks, d, x.now);
      }
      Raised(checks, after);
      {
        ChecksNamed(x.serverId, x.report, x.settings);
        forall i | 0 <= i < |checks|
          ensures Stored(after, checks[i].key) == Stored(Over(rounds, d).0, checks[i].key)
        {
          assert checks[i] in checks;
          StoredAlike(state, turns, x, checks[i].key);
        }
        RaisedSame(checks, after, Over(rounds, d).0);
      }
      Raised(checks, Over(rounds, d).0);
      {
        forall key ensures Thresholds.NonDecreasing(ReadingsOf(rounds, key)) { OrderlyReadings(own, d, key); }
        RaisedIsDue(checks, rounds, d);
      }
      DueAnomalies(checks, rounds, d);
    }
  }

  lemma {:induction false} TurnRaisesIdle(tracked: map<Pair, TrackedProcess>, saved: set<Pair>, own: seq<Turn>, x: Turn)
    requires Tracks(tracked, saved, own) && DistinctTurns(own + [x])
    ensures SeeCards(Tracking(tracked, {}, []), x.report.cards, x.settings, x.now).anomalies
         == LastAnomalies(IdleRounds(own + [x]))
  {
    var all, r := own + [x], IdleRound(x.report.cards, x.settings, x.now);
    forall i | 0 <= i < |own| ensures DistinctCards(own[i].report.cards) { assert all[i] == own[i]; }
    RoundsSnoc(own, x);
    InitSnoc(IdleRounds(own), r);
  }
}
