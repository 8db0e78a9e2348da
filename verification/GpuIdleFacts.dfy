/** What the idle-memory detector's index holds, and when a process becomes an anomaly. */
module GpuIdleFacts {
  import opened Basics
  import opened Text
  import opened AlertSpec
  import opened AlertInputs
  import opened StateStore
  import opened Thresholds
  import opened GpuIdle

  ghost predicate Raises(anomalies: seq<Anomaly>, p: Pair) {
    exists a :: a in anomalies && a.fingerprint == Fingerprint(p)
  }

  /** The fingerprint names the card and the process. */
  lemma {:induction false} FingerprintInjective(p: Pair, q: Pair)
    ensures Fingerprint(p) == Fingerprint(q) <==> p == q
  {
    if Fingerprint(p) == Fingerprint(q) {
      FingerprintParts(p);
      FingerprintParts(q);
      SamePrefix("gpu", Decimal(p.0) + ":" + ("pid" + Decimal(p.1)), Decimal(q.0) + ":" + ("pid" + Decimal(q.1)));
      DecimalHasNoColon(p.0);
      DecimalHasNoColon(q.0);
      SplitAtColon(Decimal(p.0), "pid" + Decimal(p.1), Decimal(q.0), "pid" + Decimal(q.1));
      SamePrefix("pid", Decimal(p.1), Decimal(q.1));
      DecimalInjective(p.0, q.0);
      DecimalInjective(p.1, q.1);
    }
  }

  lemma {:induction false} FingerprintParts(p: Pair)
    ensures Fingerprint(p) == "gpu" + (Decimal(p.0) + ":" + ("pid" + Decimal(p.1)))
  {
  }

  // ---------------------------------------------------------------------------
  // One card
  // ---------------------------------------------------------------------------

  /** The pair was tracked before the report and first seen long enough ago. */
  predicate DueBefore(before: map<Pair, TrackedProcess>, p: Pair, s: Settings, now: int) {
    p in before && Lasting(before[p], s, now)
  }

  function FirstSeen(before: map<Pair, TrackedProcess>, p: Pair, now: int): int {
    if p in before then before[p].firstSeenAt else now
  }

  predicate Untouched(t: Tracking, r: Tracking, p: Pair) {
    (p in r.tracked <==> p in t.tracked) && (p in t.tracked ==> r.tracked[p] == t.tracked[p]) && (p in r.seen <==> p in t.seen)
  }

  lemma {:induction false} RaisesSnoc(anomalies: seq<Anomaly>, a: Anomaly, p: Pair, q: Pair)
    requires a.fingerprint == Fingerprint(q)
    ensures Raises(anomalies + [a], p) <==> Raises(anomalies, p) || p == q
  {
    FingerprintInjective(p, q);
    if p == q {
      assert a in anomalies + [a];
    }
    if Raises(anomalies, p) {
      var b :| b in anomalies && b.fingerprint == Fingerprint(p);
      assert b in anomalies + [a];
    }
  }

  /** The effect of a card's processes on one pair. */
  ghost predicate CardFate(t: Tracking, r: Tracking, card: CardReport, xs: seq<Process>, s: Settings, now: int,
        p: Pair) {
    if card.index == p.0 && exists x :: x in xs && x.pid == p.1 then
      && p in r.tracked && p in r.seen
      && r.tracked[p].firstSeenAt == FirstSeen(t.tracked, p, now)
      && (Raises(r.anomalies, p) <==> Raises(t.anomalies, p) || DueBefore(t.tracked, p, s, now))
    else Untouched(t, r, p) && (Raises(r.anomalies, p) <==> Raises(t.anomalies, p))
  }

  lemma {:induction false} SeeFate(t: Tracking, m: Tracking, card: CardReport, xs: seq<Process>, s: Settings, now: int,
        p: Pair)
    requires s.idleDurationSeconds > 0.0 && xs != []
    requires CardFate(t, m, card, Init(xs), s, now, p)
    ensures CardFate(t, See(m, card, Last(xs), s, now), card, xs, s, now, p)
  {
    var x, r := Last(xs), See(m, card, Last(xs), s, now);
    var q := (card.index, x.pid);
    assert xs == Init(xs) + [x];
    assert x in xs;
    assert forall y :: y in xs <==> y in Init(xs) || y == x;
    if q in m.tracked && Lasting(Refreshed(m.tracked[q], card, x, now), s, now) {
      RaisesSnoc(m.anomalies, IdleAnomaly(card, x.pid, Refreshed(m.tracked[q], card, x, now), s, now), p, q);
    }
  }

  lemma {:induction false} SeeAllFate(t: Tracking, card: CardReport, xs: seq<Process>, s: Settings, now: int, p: Pair)
    requires s.idleDurationSeconds > 0.0
    ensures CardFate(t, SeeAll(t, card, xs, s, now), card, xs, s, now, p)
    decreases |xs|
  {
    if xs != [] {
      SeeAllFate(t, card, Init(xs), s, now, p);
      SeeFate(t, SeeAll(t, card, Init(xs), s, now), card, xs, s, now, p);
    }
  }

  // ---------------------------------------------------------------------------
  // One report
  // ---------------------------------------------------------------------------

  predicate OnCard(cards: seq<CardReport>, g: int) {
    exists c :: c in cards && c.index == g
  }

  /** The effect of the cards so far on one pair, when nothing was seen before. */
  ghost predicate Fate(t: Tracking, r: Tracking, cards: seq<CardReport>, s: Settings, now: int, p: Pair) {
    && (p in r.seen <==> Listed(cards, s, p))
    && (Listed(cards, s, p) ==> p in r.tracked && r.tracked[p].firstSeenAt == FirstSeen(t.tracked, p, now))
    && (!Listed(cards, s, p) && p in r.tracked ==> p in t.tracked)
    && (!OnCard(cards, p.0) ==> (p in r.tracked <==> p in t.tracked) && (p in t.tracked ==> r.tracked[p] == t.tracked[p]))
    && (Raises(r.anomalies, p) <==> Listed(cards, s, p) && DueBefore(t.tracked, p, s, now))
  }

  lemma {:induction false} ListedSnoc(cards: seq<CardReport>, c: CardReport, s: Settings, p: Pair)
    ensures Listed(cards + [c], s, p) <==> Listed(cards, s, p) || Uses(c, s, p)
    ensures OnCard(cards + [c], p.0) <==> OnCard(cards, p.0) || c.index == p.0
    ensures Listed(cards, s, p) ==> OnCard(cards, p.0)
  {
  }

  lemma {:induction false} SeeCardsFate(t: Tracking, cards: seq<CardReport>, s: Settings, now: int, p: Pair)
    requires s.idleDurationSeconds > 0.0 && DistinctCards(cards) && t.seen == {} && t.anomalies == []
    ensures Fate(t, SeeCards(t, cards, s, now), cards, s, now, p)
    decreases |cards|
  {
    if cards != [] {
      var front, c := Init(cards), Last(cards);
      assert cards == front + [c];
      SeeCardsFate(t, front, s, now, p);
      ListedSnoc(front, c, s, p);
      var m := SeeCards(t, front, s, now);
      assert !OnCard(front, c.index);
      SeeAllFate(m, c, Processes(c), s, now, p);
    }
  }

  /** The duration decides what is raised, and nothing else. */
  predicate SameIndex(t: Tracking, u: Tracking) {
    t.tracked == u.tracked && t.seen == u.seen
  }

  lemma {:induction false} SeeAllSameIndex(t: Tracking, u: Tracking, card: CardReport, xs: seq<Process>, s: Settings,
        d: Settings, now: int)
    requires SameIndex(t, u)
    ensures SameIndex(SeeAll(t, card, xs, s, now), SeeAll(u, card, xs, d, now))
    decreases |xs|
  {
    if xs != [] {
      SeeAllSameIndex(t, u, card, Init(xs), s, d, now);
    }
  }

  lemma {:induction false} SeeCardsSameIndex(t: Tracking, cards: seq<CardReport>, s: Settings, d: Settings, now: int)
    requires d == s.(idleDurationSeconds := d.idleDurationSeconds)
    ensures SameIndex(SeeCards(t, cards, s, now), SeeCards(t, cards, d, now))
    decreases |cards|
  {
    if cards != [] {
      var c := Last(cards);
      SeeCardsSameIndex(t, Init(cards), s, d, now);
      assert IdleWithMemory(c, s) <==> IdleWithMemory(c, d);
      SeeAllSameIndex(SeeCards(t, Init(cards), s, now), SeeCards(t, Init(cards), d, now), c, Processes(c), s, d, now);
    }
  }

  lemma {:induction false} ListedAlike(cards: seq<CardReport>, s: Settings, d: Settings, p: Pair)
    requires d == s.(idleDurationSeconds := d.idleDurationSeconds)
    ensures Listed(cards, s, p) <==> Listed(cards, d, p)
  {
    if c :| c in cards && Uses(c, s, p) { assert Uses(c, d, p); }
    if c :| c in cards && Uses(c, d, p) { assert Uses(c, s, p); }
  }

  /** INDEX. For distinct card indices and whatever duration, if the saved set named exactly the tracked pairs before a
      report, then after it the tracked pairs and the saved set are both exactly the pairs that hold memory on an idle
      card; and a pair that is listed again keeps the time it was first seen. */
  lemma {:induction false} IndexAgrees(tracked: map<Pair, TrackedProcess>, cards: seq<CardReport>, s: Settings,
        now: int)
    requires DistinctCards(cards)
    ensures var t := SeeCards(Tracking(tracked, {}, []), cards, s, now); var kept := Kept(t, tracked.Keys);
      && kept.Keys == t.seen
      && (forall p :: p in t.seen <==> Listed(cards, s, p))
      && (forall p :: p in kept ==> kept[p].firstSeenAt == FirstSeen(tracked, p, now))
  {
    var d := s.(idleDurationSeconds := 1.0);
    var t0 := Tracking(tracked, {}, []);
    var t := SeeCards(t0, cards, s, now);
    SeeCardsSameIndex(t0, cards, s, d, now);
    forall p
      ensures p in Kept(t, tracked.Keys) <==> p in t.seen
      ensures p in t.seen <==> Listed(cards, s, p)
      ensures p in t.seen ==> t.tracked[p].firstSeenAt == FirstSeen(tracked, p, now)
    {
      ListedAlike(cards, s, d, p);
      SeeCardsFate(t0, cards, d, now, p);
    }
  }

  /** ANOMALY. For a positive duration, a pair is raised exactly if it holds memory on an idle card and was first seen
      long enough ago. */
  lemma {:induction false} AnomalyExactly(tracked: map<Pair, TrackedProcess>, cards: seq<CardReport>, s: Settings,
        now: int, p: Pair)
    requires s.idleDurationSeconds > 0.0 && DistinctCards(cards)
    ensures var t := SeeCards(Tracking(tracked, {}, []), cards, s, now);
      Raises(t.anomalies, p) <==> Listed(cards, s, p) && DueBefore(tracked, p, s, now)
  {
    SeeCardsFate(Tracking(tracked, {}, []), cards, s, now, p);
  }

  // ---------------------------------------------------------------------------
  // Across reports
  // ---------------------------------------------------------------------------

  datatype IdleRound = IdleRound(cards: seq<CardReport>, settings: Settings, now: int)

  function TrackedOver(rounds: seq<IdleRound>): map<Pair, TrackedProcess> {
    if rounds == [] then map[]
    else
      var before, r := TrackedOver(Init(rounds)), Last(rounds);
      Kept(SeeCards(Tracking(before, {}, []), r.cards, r.settings, r.now), before.Keys)
  }

  function LastAnomalies(rounds: seq<IdleRound>): seq<Anomaly>
    requires rounds != []
  {
    var r := Last(rounds);
    SeeCards(Tracking(TrackedOver(Init(rounds)), {}, []), r.cards, r.settings, r.now).anomalies
  }

  /** Whether each report lists the pair. */
  function Presence(rounds: seq<IdleRound>, p: Pair): (rs: seq<Reading>)
    ensures |rs| == |rounds|
  {
    seq(|rounds|, i requires 0 <= i < |rounds| => Reading(rounds[i].now, 0.0, Listed(rounds[i].cards, rounds[i].settings, p)))
  }

  predicate WellFormed(rounds: seq<IdleRound>) {
    forall i :: 0 <= i < |rounds| ==> DistinctCards(rounds[i].cards)
  }

  lemma {:induction false} PresenceFront(rounds: seq<IdleRound>, p: Pair)
    requires rounds != []
    ensures var rs, r := Presence(rounds, p), Last(rounds);
      Init(rs) == Presence(Init(rounds), p) && Last(rs) == Reading(r.now, 0.0, Listed(r.cards, r.settings, p))
  {
  }

  lemma {:induction false} TrackedStep(before: map<Pair, TrackedProcess>, r: IdleRound, p: Pair)
    requires DistinctCards(r.cards)
    ensures var next := Kept(SeeCards(Tracking(before, {}, []), r.cards, r.settings, r.now), before.Keys);
      && (p in next <==> Listed(r.cards, r.settings, p))
      && (p in next ==> next[p].firstSeenAt == FirstSeen(before, p, r.now))
  {
    IndexAgrees(before, r.cards, r.settings, r.now);
  }

  /** A tracked pair is one that the last report lists, and it was first seen when its unbroken run of reports began. */
  lemma {:induction false} TrackedIsRun(rounds: seq<IdleRound>, p: Pair)
    requires WellFormed(rounds)
    ensures var rs := Presence(rounds, p);
      && (p in TrackedOver(rounds) <==> RunStart(rs) < |rs|)
      && (p in TrackedOver(rounds) ==> TrackedOver(rounds)[p].firstSeenAt == rs[RunStart(rs)].now)
    decreases |rounds|
  {
    if rounds != [] {
      var front, r := Init(rounds), Last(rounds);
      assert forall i :: 0 <= i < |front| ==> front[i] == rounds[i];
      TrackedIsRun(front, p);
      PresenceFront(rounds, p);
      TrackedStep(TrackedOver(front), r, p);
      assert RunStart(Presence(rounds, p)) == if Last(Presence(rounds, p)).breaching then RunStart(Presence(front, p)) else |rounds|;
    }
  }

  /** RUN LENGTH. A pair is raised in the last report, if its duration is positive, exactly if that report lists it and the
      unbroken run of reports that list it lasts at least the duration. */
  lemma {:induction false} RaisedIsRunLength(rounds: seq<IdleRound>, p: Pair)
    requires rounds != [] && WellFormed(rounds) && Last(rounds).settings.idleDurationSeconds > 0.0
    ensures var rs := Presence(rounds, p);
      Raises(LastAnomalies(rounds), p) <==>
        Last(rs).breaching
        && (Last(rounds).now - rs[RunStart(rs)].now) as real >= Last(rounds).settings.idleDurationSeconds * 1000.0
  {
    var front, r, rs := Init(rounds), Last(rounds), Presence(rounds, p);
    assert forall i :: 0 <= i < |front| ==> front[i] == rounds[i];
    TrackedIsRun(front, p);
    PresenceFront(rounds, p);
    AnomalyExactly(TrackedOver(front), r.cards, r.settings, r.now, p);
  }

  // ---------------------------------------------------------------------------
  // Several servers share the store
  // ---------------------------------------------------------------------------

  /** Server ids are generated without colons. */
  predicate ColonFree(serverId: string) {
    ':' !in serverId
  }

  lemma {:induction false} PrefixesApart(a: string, b: string, key: string)
    requires ColonFree(a) && ColonFree(b) && a != b
    ensures !(StartsWith(key, ServerPrefix(a)) && StartsWith(key, ServerPrefix(b)))
    ensures SavedKey(a) != SavedKey(b) && !StartsWith(SavedKey(a), ServerPrefix(b))
  {
    if StartsWith(key, ServerPrefix(a)) && StartsWith(key, ServerPrefix(b)) {
      var x, y := key[|ServerPrefix(a)|..], key[|ServerPrefix(b)|..];
      assert key == ServerPrefix(a) + x && key == ServerPrefix(b) + y;
      ConcatAssociates("gpu_idle:", a + ":", x);
      ConcatAssociates("gpu_idle:", b + ":", y);
      SamePrefix("gpu_idle:", a + ":" + x, b + ":" + y);
      SplitAtColon(a, x, b, y);
    }
    if SavedKey(a) == SavedKey(b) { SamePrefix("gpu_idle_keys:", a, b); }
    assert SavedKey(a)[8] == '_' && ServerPrefix(b)[8] == ':';
  }

  /** What one server's report does to the store leaves the index of every other server as it was. */
  lemma {:induction false} OtherServersKeepTheirIndex(before: map<string, Entry>, after: map<string, Entry>,
        serverId: string,
      other: string, tracked: map<Pair, TrackedProcess>, saved: set<Pair>)
    requires ColonFree(serverId) && ColonFree(other) && serverId != other
    requires OnlyOwn(before, after, serverId) && Index(before, other, tracked, saved)
    ensures Index(after, other, tracked, saved)
  {
    forall p
      ensures HoldsAt(after, other, tracked, p)
    {
      assert HoldsAt(before, other, tracked, p);
      KeyKinds(other, p, 0);
      PrefixesApart(serverId, other, StoreKey(other, p));
      assert SavedKey(serverId) != StoreKey(other, p) by { PrefixesApart(serverId, other, SavedKey(serverId)); }
      assert Found(after, StoreKey(other, p)) == Found(before, StoreKey(other, p));
    }
    forall key
      ensures OwnAt(after, other, key)
    {
      assert OwnAt(before, other, key);
      PrefixesApart(serverId, other, key);
      assert StartsWith(key, ServerPrefix(other)) ==> Found(after, key) == Found(before, key);
    }
    PrefixesApart(other, serverId, SavedKey(other));
    assert Found(after, SavedKey(other)) == Found(before, SavedKey(other));
  }
}
