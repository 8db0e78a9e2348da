/** What raises an idle-memory anomaly, and what it says, in terms of the reports and the settings alone. */
module IdleMeaning {
  import opened Basics
  import opened Text
  import opened AlertSpec
  import opened AlertInputs
  import opened StateStore
  import opened Thresholds
  import opened GpuIdle
  import opened GpuIdleFacts
  import opened EngineRuns
  import opened AlertEngines
  import opened ReportMeaning

  // ---------------------------------------------------------------------------
  // What a report shows
  // ---------------------------------------------------------------------------

  predicate AllocationHas(a: AllocationReport, pid: int) {
    a.pid == Some(pid) && a.user.Some? && a.user.value != ""
  }

  /** A task with a user has the process on the card, or another user does. */
  predicate ListsPid(card: CardReport, pid: int) {
    SomeHas(card.allocations, pid) || (exists u :: u in card.userProcesses && u.pid == pid)
  }

  /** At least the configured percentage of the memory is used, and at most the configured utilization. */
  predicate IdleButFull(card: CardReport, s: Settings) {
    && (if card.memoryTotalMb > 0.0 then card.memoryUsedMb * 100.0 >= s.idleMemoryPercent * card.memoryTotalMb
        else s.idleMemoryPercent <= 0.0)
    && card.utilization <= s.idleUtilizationPercent
  }

  predicate ShownOn(card: CardReport, s: Settings, g: int, pid: int) {
    card.index == g && IdleButFull(card, s) && ListsPid(card, pid)
  }

  /** The report shows the process on an idle card whose memory is in use. */
  predicate Shown(x: Turn, g: int, pid: int) {
    exists card :: card in x.report.cards && ShownOn(card, x.settings, g, pid)
  }

  lemma {:induction false} IdleMeans(card: CardReport, s: Settings)
    ensures IdleWithMemory(card, s) <==> IdleButFull(card, s)
  {
    if card.memoryTotalMb > 0.0 {
      var share := card.memoryUsedMb / card.memoryTotalMb;
      assert share * card.memoryTotalMb == card.memoryUsedMb;
      ScaledOrder(share * 100.0, s.idleMemoryPercent, card.memoryTotalMb);
      assert share * 100.0 * card.memoryTotalMb == card.memoryUsedMb * 100.0;
    }
  }

  lemma {:induction false} ScaledOrder(a: real, b: real, k: real)
    requires k > 0.0
    ensures a >= b <==> a * k >= b * k
  {
    if a >= b { assert (a - b) * k >= 0.0; } else { assert (b - a) * k > 0.0; }
  }

  predicate OfPid(xs: seq<Process>, pid: int) {
    exists x :: x in xs && x.pid == pid
  }

  predicate SomeHas(allocations: seq<AllocationReport>, pid: int) {
    exists a :: a in allocations && AllocationHas(a, pid)
  }

  lemma {:induction false} OfPidConcat(xs: seq<Process>, ys: seq<Process>, pid: int)
    ensures OfPid(xs + ys, pid) <==> OfPid(xs, pid) || OfPid(ys, pid)
  {
    if x :| x in xs && x.pid == pid { assert x in xs + ys; }
    if y :| y in ys && y.pid == pid { assert y in xs + ys; }
  }

  lemma {:induction false} OneOfPid(x: Process, pid: int)
    ensures OfPid([x], pid) <==> x.pid == pid
  {
    assert x in [x];
  }

  lemma {:induction false} SomeHasSnoc(front: seq<AllocationReport>, a: AllocationReport, pid: int)
    ensures SomeHas(front + [a], pid) <==> SomeHas(front, pid) || AllocationHas(a, pid)
  {
    if b :| b in front && AllocationHas(b, pid) { assert b in front + [a]; }
    assert a in front + [a];
  }

  lemma {:induction false} AllocationsMean(allocations: seq<AllocationReport>, pid: int)
    ensures OfPid(FromAllocations(allocations), pid) <==> SomeHas(allocations, pid)
    decreases |allocations|
  {
    if allocations != [] {
      var a, front := Last(allocations), Init(allocations);
      AllocationsMean(front, pid);
      assert allocations == front + [a];
      SomeHasSnoc(front, a, pid);
      if a.pid.Some? && a.user.GetOr("") != "" {
        var x := Process(a.pid.value, a.user.value, a.command.GetOr(""), Some(a.taskId), a.actualVramMb.GetOr(a.declaredVramMb));
        assert FromAllocations(allocations) == FromAllocations(front) + [x];
        OneOfPid(x, pid);
        OfPidConcat(FromAllocations(front), [x], pid);
      }
    }
  }

  lemma {:induction false} ProcessesMean(card: CardReport, pid: int)
    ensures OfPid(Processes(card), pid) <==> ListsPid(card, pid)
  {
    AllocationsMean(card.allocations, pid);
    var users := seq(|card.userProcesses|, i requires 0 <= i < |card.userProcesses| => FromUser(card.userProcesses[i]));
    assert Processes(card) == FromAllocations(card.allocations) + users;
    OfPidConcat(FromAllocations(card.allocations), users, pid);
    if u :| u in card.userProcesses && u.pid == pid {
      var i :| 0 <= i < |card.userProcesses| && card.userProcesses[i] == u;
      assert users[i] in users && users[i].pid == pid;
    }
    if x :| x in users && x.pid == pid {
      var i :| 0 <= i < |users| && users[i] == x;
      assert card.userProcesses[i] in card.userProcesses;
    }
  }

  /** The process is one of a task's allocation that has a pid and a user, or one of another user. */
  predicate ListedAs(card: CardReport, x: Process) {
    SomeIs(card.allocations, x) || (exists u :: u in card.userProcesses && x == Process(u.pid, u.user, "", None, u.vramMb))
  }

  predicate OfAllocation(a: AllocationReport, x: Process) {
    && a.user == Some(x.user) && x.taskId == Some(a.taskId)
    && x.command == (if a.command.Some? then a.command.value else "")
    && x.vramMb == if a.actualVramMb.Some? then a.actualVramMb.value else a.declaredVramMb
  }

  predicate SomeIs(allocations: seq<AllocationReport>, x: Process) {
    exists a :: a in allocations && AllocationHas(a, x.pid) && OfAllocation(a, x)
  }

  lemma {:induction false} SomeIsSnoc(front: seq<AllocationReport>, a: AllocationReport, x: Process)
    ensures SomeIs(front + [a], x) <==> SomeIs(front, x) || (AllocationHas(a, x.pid) && OfAllocation(a, x))
  {
    if b :| b in front && AllocationHas(b, x.pid) && OfAllocation(b, x) { assert b in front + [a]; }
    assert a in front + [a];
  }

  lemma {:induction false} AllocationsAre(allocations: seq<AllocationReport>, x: Process)
    ensures x in FromAllocations(allocations) <==> SomeIs(allocations, x)
    decreases |allocations|
  {
    if allocations != [] {
      var a, front := Last(allocations), Init(allocations);
      assert allocations == front + [a];
      AllocationsAre(front, x);
      SomeIsSnoc(front, a, x);
      if a.pid.Some? && a.user.GetOr("") != "" {
        var y := Process(a.pid.value, a.user.value, a.command.GetOr(""), Some(a.taskId), a.actualVramMb.GetOr(a.declaredVramMb));
        assert FromAllocations(allocations) == FromAllocations(front) + [y];
        assert x == y <==> AllocationHas(a, x.pid) && OfAllocation(a, x);
      }
    }
  }

  /** The detector looks at exactly these processes. */
  lemma {:induction false} ProcessesAre(card: CardReport, x: Process)
    ensures x in Processes(card) <==> ListedAs(card, x)
  {
    AllocationsAre(card.allocations, x);
    var users := seq(|card.userProcesses|, i requires 0 <= i < |card.userProcesses| => FromUser(card.userProcesses[i]));
    assert Processes(card) == FromAllocations(card.allocations) + users;
    if u :| u in card.userProcesses && x == Process(u.pid, u.user, "", None, u.vramMb) {
      var i :| 0 <= i < |card.userProcesses| && card.userProcesses[i] == u;
      assert users[i] == x;
    }
  }

  lemma {:induction false} UsesMeans(card: CardReport, s: Settings, g: int, pid: int)
    ensures Uses(card, s, (g, pid)) <==> ShownOn(card, s, g, pid)
  {
    IdleMeans(card, s);
    ProcessesMean(card, pid);
  }

  lemma {:induction false} ListedMeans(x: Turn, g: int, pid: int)
    ensures Listed(x.report.cards, x.settings, (g, pid)) <==> Shown(x, g, pid)
  {
    forall card
      ensures Uses(card, x.settings, (g, pid)) <==> ShownOn(card, x.settings, g, pid)
    {
      UsesMeans(card, x.settings, g, pid);
    }
  }

  // ---------------------------------------------------------------------------
  // When it is raised
  // ---------------------------------------------------------------------------

  ghost predicate ShownFrom(own: seq<Turn>, g: int, pid: int, r: int) {
    0 <= r < |own| && forall j :: r <= j < |own| ==> Shown(own[j], g, pid)
  }

  ghost predicate LongShownFrom(own: seq<Turn>, g: int, pid: int, r: int)
    requires own != []
  {
    ShownFrom(own, g, pid, r) && (Last(own).now - own[r].now) as real >= Last(own).settings.idleDurationSeconds * 1000.0
  }

  /** Every report shows the process, back to one at least the duration ago. */
  ghost predicate LongShown(own: seq<Turn>, g: int, pid: int) {
    own != [] && exists r :: LongShownFrom(own, g, pid, r)
  }

  function FingerprintFor(g: int, pid: int): string {
    "gpu" + Decimal(g) + ":pid" + Decimal(pid)
  }

  ghost predicate RaisesIdle(anomalies: seq<Anomaly>, g: int, pid: int) {
    exists a :: a in anomalies && a.alertType.GpuIdleMemory? && a.fingerprint == FingerprintFor(g, pid)
  }

  lemma {:induction false} PresenceMeans(own: seq<Turn>, g: int, pid: int, r: int)
    ensures var rs := Presence(IdleRounds(own), (g, pid));
      && |rs| == |own|
      && (forall j :: 0 <= j < |own| ==> rs[j].now == own[j].now && (rs[j].breaching <==> Shown(own[j], g, pid)))
  {
    forall j | 0 <= j < |own|
      ensures Listed(own[j].report.cards, own[j].settings, (g, pid)) <==> Shown(own[j], g, pid)
    {
      ListedMeans(own[j], g, pid);
    }
  }

  lemma {:induction false} PresenceIsLong(own: seq<Turn>, g: int, pid: int)
    requires own != [] && ClockForward(own)
    ensures var rs := Presence(IdleRounds(own), (g, pid));
      && |rs| == |own|
      && (Last(rs).breaching
          && (Last(own).now - rs[RunStart(rs)].now) as real >= Last(own).settings.idleDurationSeconds * 1000.0
         <==> LongShown(own, g, pid))
  {
    var rs := Presence(IdleRounds(own), (g, pid));
    PresenceMeans(own, g, pid, 0);
    var s := RunStart(rs);
    if Last(rs).breaching {
      assert ShownFrom(own, g, pid, s);
    }
    forall r | ShownFrom(own, g, pid, r)
      ensures s <= r && Last(rs).breaching
    {
      assert Shown(own[|own| - 1], g, pid);
      assert s > 0 ==> !rs[s - 1].breaching;
    }
    if r :| LongShownFrom(own, g, pid, r) {
      assert own[s].now <= own[r].now;
      assert LongShownFrom(own, g, pid, s);
    }
    assert Last(rs).breaching ==> (LongShownFrom(own, g, pid, s) <==>
      (Last(own).now - rs[s].now) as real >= Last(own).settings.idleDurationSeconds * 1000.0);
  }

  lemma {:induction false} RunAnomaliesMeant(state: map<string, Entry>, checks: seq<Check>, durationMs: real, now: int,
        a: Anomaly)
    requires a in RunChecks(state, checks, durationMs, now).1
    ensures exists c :: c in checks && c.anomaly == a
    decreases |checks|
  {
    if a in RunChecks(state, Init(checks), durationMs, now).1 {
      RunAnomaliesMeant(state, Init(checks), durationMs, now, a);
      assert checks == Init(checks) + [Last(checks)];
    } else {
      assert Last(checks) in checks;
    }
  }

  lemma {:induction false} ChecksRaiseNoIdle(state: map<string, Entry>, x: Turn, a: Anomaly)
    requires a in RunChecks(state, ChecksOf(x), DurationMs(x.settings), x.now).1
    ensures !a.alertType.GpuIdleMemory?
  {
    RunAnomaliesMeant(state, ChecksOf(x), DurationMs(x.settings), x.now, a);
    var c :| c in ChecksOf(x) && c.anomaly == a;
    CheckIsMeant(x, c);
  }

  lemma {:induction false} IdlePart(state: map<string, Entry>, m: Memo, x: Turn, g: int, pid: int)
    ensures RaisesIdle(AnomaliesOn(state, m, x), g, pid) <==> Raises(m.Seen(x).anomalies, (g, pid))
  {
    var checked := RunChecks(state, ChecksOf(x), DurationMs(x.settings), x.now).1;
    SeeCardsOnlyIdle(Tracking(m.TrackedOf(x.serverId), {}, []), x.report.cards, x.settings, x.now);
    if a :| a in checked && a.alertType.GpuIdleMemory? { ChecksRaiseNoIdle(state, x, a); }
    if a :| a in m.Seen(x).anomalies && a.fingerprint == Fingerprint((g, pid)) {
      assert a in AnomaliesOn(state, m, x);
    }
  }

  /** A report of any server, with the reports of other servers in between, raises an idle-memory anomaly about a process
      exactly if every report of the server, back to one at least the duration ago, shows the process on a card that is
      idle and whose memory is in use, each by its own settings. */
  lemma {:induction false} IdleRaisedExactly(state: map<string, Entry>, m: Memo, x: Turn, own: seq<Turn>, g: int, pid: int)
    requires Known(state, m) && ColonFree(x.serverId) && own == Own(m.turns, x.serverId) + [x]
    requires DistinctTurns(own) && ClockForward(own) && x.settings.idleDurationSeconds > 0.0
    ensures RaisesIdle(AnomaliesOn(state, m, x), g, pid) <==> LongShown(own, g, pid)
  {
    assert KnownAt(state, m, x.serverId);
    TurnRaisesIdle(m.TrackedOf(x.serverId), m.SavedOf(x.serverId), Own(m.turns, x.serverId), x);
    IdlePart(state, m, x, g, pid);
    assert Last(own) == x;
    IdleRunIsLong(own, g, pid);
  }

  lemma {:induction false} IdleRunIsLong(own: seq<Turn>, g: int, pid: int)
    requires own != [] && DistinctTurns(own) && ClockForward(own) && Last(own).settings.idleDurationSeconds > 0.0
    ensures Raises(LastAnomalies(IdleRounds(own)), (g, pid)) <==> LongShown(own, g, pid)
  {
    var rounds := IdleRounds(own);
    forall i | 0 <= i < |rounds| ensures DistinctCards(rounds[i].cards) { assert DistinctCards(own[i].report.cards); }
    RaisedIsRunLength(rounds, (g, pid));
    PresenceIsLong(own, g, pid);
  }

  // ---------------------------------------------------------------------------
  // What it says
  // ---------------------------------------------------------------------------

  function PercentOf(card: CardReport): real {
    if card.memoryTotalMb > 0.0 then card.memoryUsedMb / card.memoryTotalMb * 100.0 else 0.0
  }

  /** Rounded to whole seconds, halves up. */
  function SecondsSince(first: int, now: int): int {
    ((now - first) as real / 1000.0 + 0.5).Floor
  }

  /** Who a process is: its user and its task. */
  datatype Origin = Origin(user: string, taskId: Option<string>)

  /** The anomaly about process `pid` of the card, of this origin and first seen at `first`. */
  predicate Says(a: Anomaly, card: CardReport, s: Settings, now: int, pid: int, o: Origin, first: int, command: string,
        vramMb: real) {
    a == Anomaly(GpuIdleMemory, PercentOf(card), s.idleMemoryPercent, FingerprintFor(card.index, pid),
                 Some(IdleDetails(card.index, pid, o.user, command, o.taskId, vramMb, card.utilization,
                                  (PercentOf(card) * 10.0 + 0.5).Floor as real / 10.0, SecondsSince(first, now))))
  }

  function OriginOf(e: TrackedProcess): Origin {
    Origin(e.user, e.taskId)
  }

  /** The command is that of a listed process of the pid, or the one known before. */
  predicate CommandFrom(xs: seq<Process>, pid: int, known: string, command: string) {
    command == known || exists x :: x in xs && x.pid == pid && x.command == command
  }

  predicate VramFrom(xs: seq<Process>, pid: int, vramMb: real) {
    exists x :: x in xs && x.pid == pid && x.vramMb == vramMb
  }

  /** The anomaly follows from the entry `e` that the process had before and from the listed processes. */
  ghost predicate SaysFrom(a: Anomaly, card: CardReport, xs: seq<Process>, s: Settings, now: int, pid: int,
        e: TrackedProcess) {
    exists command, vramMb :: CommandFrom(xs, pid, e.command, command) && VramFrom(xs, pid, vramMb)
      && Says(a, card, s, now, pid, OriginOf(e), e.firstSeenAt, command, vramMb)
  }

  /** The entry `f` continues `e`. */
  predicate Continues(e: TrackedProcess, f: TrackedProcess, xs: seq<Process>, pid: int) {
    OriginOf(f) == OriginOf(e) && f.firstSeenAt == e.firstSeenAt && CommandFrom(xs, pid, e.command, f.command)
  }

  predicate NewFrom(f: TrackedProcess, xs: seq<Process>, pid: int, now: int) {
    f.firstSeenAt == now && exists x :: x in xs && x.pid == pid && OriginOf(f) == Origin(x.user, x.taskId)
  }

  /** What a card's processes make of the entry of `p`. */
  ghost predicate EntryFate(t: Tracking, r: Tracking, card: CardReport, xs: seq<Process>, now: int, p: Pair) {
    && (p in t.tracked ==> p in r.tracked && Continues(t.tracked[p], r.tracked[p], xs, p.1))
    && (p in r.tracked && p !in t.tracked ==> p.0 == card.index && NewFrom(r.tracked[p], xs, p.1, now))
  }

  ghost predicate AnomalyFate(t: Tracking, r: Tracking, card: CardReport, xs: seq<Process>, s: Settings, now: int,
        a: Anomaly) {
    a in r.anomalies ==> a in t.anomalies || exists pid ::
      (card.index, pid) in t.tracked && SaysFrom(a, card, xs, s, now, pid, t.tracked[(card.index, pid)])
  }

  lemma {:induction false} MoreListed(xs: seq<Process>, x: Process, pid: int, known: string, command: string, vramMb: real)
    ensures CommandFrom(xs, pid, known, command) ==> CommandFrom(xs + [x], pid, known, command)
    ensures VramFrom(xs, pid, vramMb) ==> VramFrom(xs + [x], pid, vramMb)
    ensures x.pid == pid ==> VramFrom(xs + [x], pid, x.vramMb) && CommandFrom(xs + [x], pid, known, x.command)
  {
    assert x in xs + [x];
    assert forall y :: y in xs ==> y in xs + [x];
  }

  lemma {:induction false} EntryFateStep(t: Tracking, m: Tracking, card: CardReport, xs: seq<Process>, x: Process,
        s: Settings, now: int, p: Pair)
    requires EntryFate(t, m, card, xs, now, p)
    ensures EntryFate(t, See(m, card, x, s, now), card, xs + [x], now, p)
  {
    assert x in xs + [x];
    assert forall y :: y in xs ==> y in xs + [x];
    if p in t.tracked {
      MoreListed(xs, x, p.1, t.tracked[p].command, m.tracked[p].command, 0.0);
    }
  }

  lemma {:induction false} EntryFateAll(t: Tracking, card: CardReport, xs: seq<Process>, s: Settings, now: int, p: Pair)
    ensures EntryFate(t, SeeAll(t, card, xs, s, now), card, xs, now, p)
    decreases |xs|
  {
    if xs != [] {
      EntryFateAll(t, card, Init(xs), s, now, p);
      EntryFateStep(t, SeeAll(t, card, Init(xs), s, now), card, Init(xs), Last(xs), s, now, p);
      assert xs == Init(xs) + [Last(xs)];
    }
  }

  lemma {:induction false} RaisedSays(t: Tracking, m: Tracking, card: CardReport, xs: seq<Process>, x: Process, s: Settings,
        now: int)
    requires (card.index, x.pid) in m.tracked && EntryFate(t, m, card, xs, now, (card.index, x.pid))
    requires s.idleDurationSeconds > 0.0
    ensures var p := (card.index, x.pid); var f := Refreshed(m.tracked[p], card, x, now);
      Lasting(f, s, now) ==>
        p in t.tracked && SaysFrom(IdleAnomaly(card, x.pid, f, s, now), card, xs + [x], s, now, x.pid, t.tracked[p])
  {
    var p := (card.index, x.pid);
    var f := Refreshed(m.tracked[p], card, x, now);
    if Lasting(f, s, now) {
      var e := t.tracked[p];
      MoreListed(xs, x, x.pid, e.command, m.tracked[p].command, 0.0);
      assert CommandFrom(xs + [x], x.pid, e.command, f.command) && VramFrom(xs + [x], x.pid, f.vramMb);
      assert Says(IdleAnomaly(card, x.pid, f, s, now), card, s, now, x.pid, OriginOf(e), e.firstSeenAt, f.command, f.vramMb);
    }
  }

  lemma {:induction false} SaysStill(a: Anomaly, card: CardReport, xs: seq<Process>, x: Process, s: Settings, now: int,
        pid: int, e: TrackedProcess)
    requires SaysFrom(a, card, xs, s, now, pid, e)
    ensures SaysFrom(a, card, xs + [x], s, now, pid, e)
  {
    var command, vramMb :| CommandFrom(xs, pid, e.command, command) && VramFrom(xs, pid, vramMb)
      && Says(a, card, s, now, pid, OriginOf(e), e.firstSeenAt, command, vramMb);
    MoreListed(xs, x, pid, e.command, command, vramMb);
  }

  lemma {:induction false} AnomalyFateAll(t: Tracking, card: CardReport, xs: seq<Process>, s: Settings, now: int, a: Anomaly)
    requires s.idleDurationSeconds > 0.0
    ensures AnomalyFate(t, SeeAll(t, card, xs, s, now), card, xs, s, now, a)
    decreases |xs|
  {
    if xs != [] {
      var front, x, m := Init(xs), Last(xs), SeeAll(t, card, Init(xs), s, now);
      assert xs == front + [x];
      AnomalyFateAll(t, card, front, s, now, a);
      if a in m.anomalies && a !in t.anomalies {
        var pid :| (card.index, pid) in t.tracked && SaysFrom(a, card, front, s, now, pid, t.tracked[(card.index, pid)]);
        SaysStill(a, card, front, x, s, now, pid, t.tracked[(card.index, pid)]);
      }
      EntryFateAll(t, card, front, s, now, (card.index, x.pid));
      if (card.index, x.pid) in m.tracked { RaisedSays(t, m, card, front, x, s, now); }
    }
  }

  // ---------------------------------------------------------------------------
  // Over a report, and over reports
  // ---------------------------------------------------------------------------

  ghost predicate AboutCard(a: Anomaly, before: map<Pair, TrackedProcess>, card: CardReport, s: Settings, now: int,
        pid: int) {
    && ShownOn(card, s, card.index, pid) && (card.index, pid) in before
    && SaysFrom(a, card, Processes(card), s, now, pid, before[(card.index, pid)])
  }

  /** The anomaly is about a process of one of the cards. */
  ghost predicate AboutReport(a: Anomaly, before: map<Pair, TrackedProcess>, cards: seq<CardReport>, s: Settings, now: int) {
    exists card, pid :: card in cards && AboutCard(a, before, card, s, now, pid)
  }

  predicate SameEntry(a: map<Pair, TrackedProcess>, b: map<Pair, TrackedProcess>, p: Pair) {
    (p in a <==> p in b) && (p in b ==> a[p] == b[p])
  }

  lemma {:induction false} SameBefore(before: map<Pair, TrackedProcess>, front: seq<CardReport>, c: CardReport, s: Settings,
        now: int, p: Pair)
    requires DistinctCards(front + [c]) && p.0 == c.index && s.idleDurationSeconds > 0.0
    ensures SameEntry(SeeCards(Tracking(before, {}, []), front, s, now).tracked, before, p)
  {
    var all := front + [c];
    forall i, j | 0 <= i < j < |front| ensures front[i].index != front[j].index { assert all[i].index != all[j].index; }
    forall d | d in front
      ensures d.index != c.index
    {
      var i :| 0 <= i < |front| && front[i] == d;
      assert all[i].index != all[|front|].index;
    }
    SeeCardsFate(Tracking(before, {}, []), front, s, now, p);
  }

  lemma {:induction false} CardRaisesAbout(t: Tracking, before: map<Pair, TrackedProcess>, c: CardReport, s: Settings,
        now: int, a: Anomaly)
    requires s.idleDurationSeconds > 0.0
    requires forall pid :: SameEntry(t.tracked, before, (c.index, pid))
    requires a in SeeCard(t, c, s, now).anomalies && a !in t.anomalies
    ensures exists pid :: AboutCard(a, before, c, s, now, pid)
  {
    AnomalyFateAll(t, c, Processes(c), s, now, a);
    forall pid ensures (c.index, pid) in t.tracked ==> t.tracked[(c.index, pid)] == before[(c.index, pid)] && (c.index, pid) in before {
      assert SameEntry(t.tracked, before, (c.index, pid));
    }
    var pid :| (c.index, pid) in t.tracked && SaysFrom(a, c, Processes(c), s, now, pid, t.tracked[(c.index, pid)]);
    SaysListed(a, c, s, now, pid, t.tracked[(c.index, pid)]);
    IdleMeans(c, s);
    ProcessesMean(c, pid);
    assert AboutCard(a, before, c, s, now, pid);
  }

  lemma {:induction false} SaysListed(a: Anomaly, c: CardReport, s: Settings, now: int, pid: int, e: TrackedProcess)
    requires SaysFrom(a, c, Processes(c), s, now, pid, e)
    ensures OfPid(Processes(c), pid)
  {
  }

  /** What an idle-memory anomaly of a report says. */
  lemma {:induction false} ReportSays(before: map<Pair, TrackedProcess>, cards: seq<CardReport>, s: Settings, now: int,
        a: Anomaly)
    requires s.idleDurationSeconds > 0.0 && DistinctCards(cards)
    requires a in SeeCards(Tracking(before, {}, []), cards, s, now).anomalies
    ensures AboutReport(a, before, cards, s, now)
    decreases |cards|
  {
    var front, c := Init(cards), Last(cards);
    var m := SeeCards(Tracking(before, {}, []), front, s, now);
    assert cards == front + [c];
    if a in m.anomalies {
      ReportSays(before, front, s, now, a);
      var card, pid :| card in front && AboutCard(a, before, card, s, now, pid);
      assert card in cards;
    } else {
      forall pid
        ensures SameEntry(m.tracked, before, (c.index, pid))
      {
        SameBefore(before, front, c, s, now, (c.index, pid));
      }
      CardRaisesAbout(m, before, c, s, now, a);
      var pid :| AboutCard(a, before, c, s, now, pid);
      assert c in cards;
    }
  }

  ghost predicate ListsOrigin(card: CardReport, g: int, pid: int, o: Origin) {
    card.index == g && exists x :: x in Processes(card) && x.pid == pid && o == Origin(x.user, x.taskId)
  }

  /** A card of the report lists the process with this origin. */
  ghost predicate ShowsOrigin(cards: seq<CardReport>, p: Pair, o: Origin) {
    exists card :: card in cards && ListsOrigin(card, p.0, p.1, o)
  }

  /** A process that stays tracked keeps its origin; a new one gets one that the report lists. */
  ghost predicate OriginFate(before: map<Pair, TrackedProcess>, after: map<Pair, TrackedProcess>, cards: seq<CardReport>,
        p: Pair) {
    p in after ==>
      if p in before then OriginOf(after[p]) == OriginOf(before[p]) else ShowsOrigin(cards, p, OriginOf(after[p]))
  }

  lemma {:induction false} CardOrigin(t: Tracking, before: map<Pair, TrackedProcess>, c: CardReport, s: Settings, now: int,
        p: Pair)
    requires SameEntry(t.tracked, before, p)
    ensures OriginFate(before, SeeCard(t, c, s, now).tracked, [c], p)
  {
    EntryFateAll(t, c, Processes(c), s, now, p);
    assert c in [c];
  }

  lemma {:induction false} CardKeepsOrigin(t: Tracking, c: CardReport, s: Settings, now: int, p: Pair)
    requires p.0 != c.index && p in SeeCard(t, c, s, now).tracked
    ensures p in t.tracked && OriginOf(SeeCard(t, c, s, now).tracked[p]) == OriginOf(t.tracked[p])
  {
    EntryFateAll(t, c, Processes(c), s, now, p);
  }

  lemma {:induction false} OriginStill(before: map<Pair, TrackedProcess>, after: map<Pair, TrackedProcess>,
        later: map<Pair, TrackedProcess>, some: seq<CardReport>, cards: seq<CardReport>, p: Pair)
    requires OriginFate(before, after, some, p) && forall c :: c in some ==> c in cards
    requires p in later ==> p in after && OriginOf(later[p]) == OriginOf(after[p])
    ensures OriginFate(before, later, cards, p)
  {
    if p in later && p !in before {
      var card :| card in some && ListsOrigin(card, p.0, p.1, OriginOf(after[p]));
      assert card in cards;
    }
  }

  lemma {:induction false} ReportOrigin(before: map<Pair, TrackedProcess>, cards: seq<CardReport>, s: Settings, now: int,
        p: Pair)
    requires s.idleDurationSeconds > 0.0 && DistinctCards(cards)
    ensures OriginFate(before, SeeCards(Tracking(before, {}, []), cards, s, now).tracked, cards, p)
    decreases |cards|
  {
    if cards != [] {
      var front, c := Init(cards), Last(cards);
      var m := SeeCards(Tracking(before, {}, []), front, s, now);
      var r := SeeCard(m, c, s, now);
      assert cards == front + [c];
      if p.0 == c.index {
        SameBefore(before, front, c, s, now, p);
        CardOrigin(m, before, c, s, now, p);
        OriginStill(before, r.tracked, r.tracked, [c], cards, p);
      } else {
        ReportOrigin(before, front, s, now, p);
        if p in r.tracked { CardKeepsOrigin(m, c, s, now, p); }
        OriginStill(before, m.tracked, r.tracked, front, cards, p);
      }
    }
  }

  /** One report, whatever its duration. */
  lemma {:induction false} TurnOrigin(before: map<Pair, TrackedProcess>, r: IdleRound, p: Pair)
    requires DistinctCards(r.cards)
    ensures OriginFate(before, Kept(SeeCards(Tracking(before, {}, []), r.cards, r.settings, r.now), before.Keys), r.cards, p)
  {
    var d := r.settings.(idleDurationSeconds := 1.0);
    var t := SeeCards(Tracking(before, {}, []), r.cards, r.settings, r.now);
    SeeCardsSameIndex(Tracking(before, {}, []), r.cards, r.settings, d, r.now);
    ReportOrigin(before, r.cards, d, r.now, p);
    OriginStill(before, t.tracked, Kept(t, before.Keys), r.cards, r.cards, p);
  }

  /** A process that stays tracked stays in its run of reports; a new one begins it with the last report. */
  lemma {:induction false} RunGrows(rounds: seq<IdleRound>, p: Pair)
    requires WellFormed(rounds) && rounds != [] && p in TrackedOver(rounds)
    ensures var start, front := RunStart(Presence(rounds, p)), Init(rounds);
      if p in TrackedOver(front) then start == RunStart(Presence(front, p)) else start == |front|
  {
    var front := Init(rounds);
    assert forall i :: 0 <= i < |front| ==> front[i] == rounds[i];
    TrackedIsRun(front, p);
    TrackedIsRun(rounds, p);
    PresenceFront(rounds, p);
  }

  /** A tracked process has the origin that the first report of its unbroken run lists. */
  lemma {:induction false} OriginIsFirst(rounds: seq<IdleRound>, p: Pair)
    requires WellFormed(rounds)
    ensures var start, tracked := RunStart(Presence(rounds, p)), TrackedOver(rounds);
      p in tracked ==> start < |rounds| && ShowsOrigin(rounds[start].cards, p, OriginOf(tracked[p]))
    decreases |rounds|
  {
    if p in TrackedOver(rounds) {
      var front, r := Init(rounds), Last(rounds);
      assert forall i :: 0 <= i < |front| ==> front[i] == rounds[i];
      OriginIsFirst(front, p);
      RunGrows(rounds, p);
      TurnOrigin(TrackedOver(front), r, p);
    }
  }

  // ---------------------------------------------------------------------------
  // In the engine
  // ---------------------------------------------------------------------------

  /** The unbroken run of reports that show the process begins at `r`. */
  ghost predicate ShownSince(own: seq<Turn>, g: int, pid: int, r: int) {
    ShownFrom(own, g, pid, r) && (r > 0 ==> !Shown(own[r - 1], g, pid))
  }

  /** The anomaly names the process, the user and task that the first report of the run lists for it, the time since that
      report, and the figures of the last report. */
  ghost predicate Tells(own: seq<Turn>, a: Anomaly, card: CardReport, pid: int, r: int)
    requires own != []
  {
    && card in Last(own).report.cards && ShownSince(own, card.index, pid, r)
    && exists o, command, vramMb :: TellsOf(own, a, card, pid, r, o, command, vramMb)
  }

  ghost predicate TellsOf(own: seq<Turn>, a: Anomaly, card: CardReport, pid: int, r: int, o: Origin, command: string,
        vramMb: real)
    requires own != []
  {
    && 0 <= r < |own| && ShowsOrigin(own[r].report.cards, (card.index, pid), o) && VramFrom(Processes(card), pid, vramMb)
    && Says(a, card, Last(own).settings, Last(own).now, pid, o, own[r].now, command, vramMb)
  }

  lemma {:induction false} RunStartIsFirst(own: seq<Turn>, g: int, pid: int)
    requires DistinctTurns(own) && (g, pid) in TrackedOver(IdleRounds(own))
    ensures var r := RunStart(Presence(IdleRounds(own), (g, pid)));
      && ShownSince(own, g, pid, r) && TrackedOver(IdleRounds(own))[(g, pid)].firstSeenAt == own[r].now
      && ShowsOrigin(own[r].report.cards, (g, pid), OriginOf(TrackedOver(IdleRounds(own))[(g, pid)]))
  {
    var rounds := IdleRounds(own);
    forall i | 0 <= i < |rounds| ensures DistinctCards(rounds[i].cards) { assert DistinctCards(own[i].report.cards); }
    TrackedIsRun(rounds, (g, pid));
    OriginIsFirst(rounds, (g, pid));
    PresenceMeans(own, g, pid, 0);
  }

  lemma {:induction false} SinceSnoc(own: seq<Turn>, x: Turn, g: int, pid: int, r: int)
    requires ShownSince(own, g, pid, r) && Shown(x, g, pid)
    ensures ShownSince(own + [x], g, pid, r)
  {
    var all := own + [x];
    assert all[|own|] == x && forall j :: 0 <= j < |own| ==> all[j] == own[j];
  }

  /** What the anomalies of the idle detector say after any reports of one server. */
  lemma {:induction false} IdleTells(before: seq<Turn>, x: Turn, a: Anomaly)
    requires DistinctTurns(before + [x]) && x.settings.idleDurationSeconds > 0.0
    requires a in LastAnomalies(IdleRounds(before + [x]))
    ensures exists card, pid, r :: Tells(before + [x], a, card, pid, r)
  {
    var own := before + [x];
    assert own[|before|] == x && forall j :: 0 <= j < |before| ==> own[j] == before[j];
    assert DistinctTurns(before) by {
      forall i | 0 <= i < |before| ensures DistinctCards(before[i].report.cards) { assert own[i] == before[i]; }
    }
    RoundsSnoc(before, x);
    InitSnoc(IdleRounds(before), IdleRound(x.report.cards, x.settings, x.now));
    var tracked := TrackedOver(IdleRounds(before));
    ReportSays(tracked, x.report.cards, x.settings, x.now, a);
    var card, pid :| card in x.report.cards && AboutCard(a, tracked, card, x.settings, x.now, pid);
    RunStartIsFirst(before, card.index, pid);
    var r := RunStart(Presence(IdleRounds(before), (card.index, pid)));
    SinceSnoc(before, x, card.index, pid, r);
    var e := tracked[(card.index, pid)];
    var command, vramMb :| CommandFrom(Processes(card), pid, e.command, command) && VramFrom(Processes(card), pid, vramMb)
      && Says(a, card, x.settings, x.now, pid, OriginOf(e), e.firstSeenAt, command, vramMb);
    assert TellsOf(own, a, card, pid, r, OriginOf(e), command, vramMb);
    assert Tells(own, a, card, pid, r);
  }

  /** The same of a report among the reports of other servers. */
  lemma {:induction false} RaisedTells(state: map<string, Entry>, m: Memo, x: Turn, a: Anomaly)
    requires Known(state, m) && ColonFree(x.serverId) && DistinctTurns(Own(m.turns, x.serverId) + [x])
    requires x.settings.idleDurationSeconds > 0.0 && a in AnomaliesOn(state, m, x) && a.alertType.GpuIdleMemory?
    ensures exists card, pid, r :: Tells(Own(m.turns, x.serverId) + [x], a, card, pid, r)
  {
    var own := Own(m.turns, x.serverId);
    assert KnownAt(state, m, x.serverId);
    TurnRaisesIdle(m.TrackedOf(x.serverId), m.SavedOf(x.serverId), own, x);
    if a in RunChecks(state, ChecksOf(x), DurationMs(x.settings), x.now).1 { ChecksRaiseNoIdle(state, x, a); }
    IdleTells(own, x, a);
  }
}
