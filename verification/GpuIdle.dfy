/** The detector of processes that hold GPU memory on an idle card. It keeps one store entry per process under string
    keys, and the set of those keys as a secondary index. */
module GpuIdle {
  import opened Basics
  import opened Text
  import opened AlertSpec
  import opened AlertInputs
  import opened StateStore

  // ---------------------------------------------------------------------------
  // What a report says
  // ---------------------------------------------------------------------------

  /** A GPU index and a process id. */
  type Pair = (int, int)

  datatype Process = Process(pid: int, user: string, command: string, taskId: Option<string>, vramMb: real)

  function FromAllocations(allocations: seq<AllocationReport>): seq<Process> {
    if allocations == [] then []
    else
      var a := Last(allocations);
      if a.pid.Some? && a.user.GetOr("") != "" then
        FromAllocations(Init(allocations))
        + [Process(a.pid.value, a.user.value, a.command.GetOr(""), Some(a.taskId), a.actualVramMb.GetOr(a.declaredVramMb))]
      else FromAllocations(Init(allocations))
  }

  function FromUser(p: UserProcessReport): Process {
    Process(p.pid, p.user, "", None, p.vramMb)
  }

  /** The task processes with a pid and a user, then the other users' processes. */
  function Processes(card: CardReport): seq<Process> {
    FromAllocations(card.allocations)
    + seq(|card.userProcesses|, i requires 0 <= i < |card.userProcesses| => FromUser(card.userProcesses[i]))
  }

  function MemoryPercent(card: CardReport): real {
    if card.memoryTotalMb > 0.0 then card.memoryUsedMb / card.memoryTotalMb * 100.0 else 0.0
  }

  predicate IdleWithMemory(card: CardReport, s: Settings) {
    MemoryPercent(card) >= s.idleMemoryPercent && card.utilization <= s.idleUtilizationPercent
  }

  predicate Uses(card: CardReport, s: Settings, p: Pair) {
    card.index == p.0 && IdleWithMemory(card, s) && exists x :: x in Processes(card) && x.pid == p.1
  }

  /** The process holds memory on an idle card of the report. */
  predicate Listed(cards: seq<CardReport>, s: Settings, p: Pair) {
    exists c :: c in cards && Uses(c, s, p)
  }

  // ---------------------------------------------------------------------------
  // What the detector keeps, without strings
  // ---------------------------------------------------------------------------

  datatype Tracking = Tracking(tracked: map<Pair, TrackedProcess>, seen: set<Pair>, anomalies: seq<Anomaly>)

  /** Math.round */
  function Round(x: real): int {
    (x + 0.5).Floor
  }

  function Fingerprint(p: Pair): string {
    "gpu" + Decimal(p.0) + ":pid" + Decimal(p.1)
  }

  function IdleAnomaly(card: CardReport, pid: int, e: TrackedProcess, s: Settings, now: int): Anomaly {
    Anomaly(GpuIdleMemory, MemoryPercent(card), s.idleMemoryPercent, Fingerprint((card.index, pid)),
      Some(IdleDetails(card.index, pid, e.user, e.command, e.taskId, e.vramMb, e.utilization,
                       Round(MemoryPercent(card) * 10.0) as real / 10.0, Round((now - e.firstSeenAt) as real / 1000.0))))
  }

  predicate Lasting(e: TrackedProcess, s: Settings, now: int) {
    (now - e.firstSeenAt) as real >= s.idleDurationSeconds * 1000.0
  }

  function Refreshed(e: TrackedProcess, card: CardReport, x: Process, now: int): TrackedProcess {
    e.(lastSeenAt := now, vramMb := x.vramMb, utilization := card.utilization, memoryPercent := MemoryPercent(card),
       command := if x.command != "" then x.command else e.command)
  }

  function Discovered(card: CardReport, x: Process, now: int): TrackedProcess {
    TrackedProcess(now, now, card.index, x.pid, x.user, x.command, x.taskId, x.vramMb, card.utilization, MemoryPercent(card))
  }

  function See(t: Tracking, card: CardReport, x: Process, s: Settings, now: int): Tracking {
    var p := (card.index, x.pid);
    if p in t.tracked then
      var e := Refreshed(t.tracked[p], card, x, now);
      Tracking(t.tracked[p := e], t.seen + {p},
               if Lasting(e, s, now) then t.anomalies + [IdleAnomaly(card, x.pid, e, s, now)] else t.anomalies)
    else Tracking(t.tracked[p := Discovered(card, x, now)], t.seen + {p}, t.anomalies)
  }

  function SeeAll(t: Tracking, card: CardReport, xs: seq<Process>, s: Settings, now: int): Tracking {
    if xs == [] then t else See(SeeAll(t, card, Init(xs), s, now), card, Last(xs), s, now)
  }

  function WithoutCard(tracked: map<Pair, TrackedProcess>, g: int): map<Pair, TrackedProcess> {
    map p | p in tracked && p.0 != g :: tracked[p]
  }

  function SeeCard(t: Tracking, card: CardReport, s: Settings, now: int): Tracking {
    if IdleWithMemory(card, s) && Processes(card) != [] then SeeAll(t, card, Processes(card), s, now)
    else t.(tracked := WithoutCard(t.tracked, card.index))
  }

  function SeeCards(t: Tracking, cards: seq<CardReport>, s: Settings, now: int): Tracking {
    if cards == [] then t else SeeCard(SeeCards(t, Init(cards), s, now), Last(cards), s, now)
  }

  /** The entries after a report: those saved last time but not seen now are gone. */
  function Kept(t: Tracking, saved: set<Pair>): map<Pair, TrackedProcess> {
    map p | p in t.tracked && !(p in saved && p !in t.seen) :: t.tracked[p]
  }

  // ---------------------------------------------------------------------------
  // String keys
  // ---------------------------------------------------------------------------

  function ServerPrefix(serverId: string): string {
    "gpu_idle:" + (serverId + ":")
  }

  function PairText(p: Pair): string {
    Decimal(p.0) + ":" + Decimal(p.1)
  }

  function StoreKey(serverId: string, p: Pair): string {
    ServerPrefix(serverId) + PairText(p)
  }

  function CardPrefix(serverId: string, g: int): string {
    ServerPrefix(serverId) + (Decimal(g) + ":")
  }

  function SavedKey(serverId: string): string {
    "gpu_idle_keys:" + serverId
  }

  lemma {:induction false} PairTextInjective(p: Pair, q: Pair)
    requires PairText(p) == PairText(q)
    ensures p == q
  {
    DecimalHasNoColon(p.0);
    DecimalHasNoColon(q.0);
    SplitAtColon(Decimal(p.0), Decimal(p.1), Decimal(q.0), Decimal(q.1));
    DecimalInjective(p.0, q.0);
    DecimalInjective(p.1, q.1);
  }

  lemma {:induction false} StoreKeyInjective(serverId: string, p: Pair, q: Pair)
    ensures StoreKey(serverId, p) == StoreKey(serverId, q) <==> p == q
  {
    if StoreKey(serverId, p) == StoreKey(serverId, q) {
      SamePrefix(ServerPrefix(serverId), PairText(p), PairText(q));
      PairTextInjective(p, q);
    }
  }

  /** The prefix of a card matches exactly that card's keys: "1:" is no prefix of "12:". */
  lemma {:induction false} CardPrefixExact(serverId: string, g: int, p: Pair)
    ensures StartsWith(StoreKey(serverId, p), CardPrefix(serverId, g)) <==> p.0 == g
  {
    var a, b := ServerPrefix(serverId), Decimal(g) + ":";
    if p.0 == g {
      ConcatAssociates(a, b, Decimal(p.1));
      assert a + b <= (a + b) + Decimal(p.1);
    }
    if StartsWith(StoreKey(serverId, p), CardPrefix(serverId, g)) {
      var rest := StoreKey(serverId, p)[|a + b|..];
      assert StoreKey(serverId, p) == (a + b) + rest;
      ConcatAssociates(a, b, rest);
      SamePrefix(a, PairText(p), b + rest);
      DecimalHasNoColon(p.0);
      DecimalHasNoColon(g);
      SplitAtColon(Decimal(p.0), Decimal(p.1), Decimal(g), rest);
      DecimalInjective(p.0, g);
    }
  }

  lemma {:induction false} KeyKinds(serverId: string, p: Pair, g: int)
    ensures StartsWith(StoreKey(serverId, p), ServerPrefix(serverId)) && "gpu_idle:" <= StoreKey(serverId, p)
    ensures CardPrefix(serverId, g)[..|ServerPrefix(serverId)|] == ServerPrefix(serverId)
    ensures !StartsWith(SavedKey(serverId), ServerPrefix(serverId)) && "gpu_idle_keys:" <= SavedKey(serverId)
    ensures SavedKey(serverId) != StoreKey(serverId, p) && !StartsWith(SavedKey(serverId), CardPrefix(serverId, g))
  {
    assert SavedKey(serverId)[8] == '_';
    assert ServerPrefix(serverId)[8] == ':';
    assert StoreKey(serverId, p)[8] == ':' && CardPrefix(serverId, g)[8] == ':';
  }

  // ---------------------------------------------------------------------------
  // The store as an index
  // ---------------------------------------------------------------------------

  function Found(state: map<string, Entry>, key: string): Option<Entry> {
    if key in state then Some(state[key]) else None
  }

  function Wanted(tracked: map<Pair, TrackedProcess>, p: Pair): Option<Entry> {
    if p in tracked then Some(OfProcess(tracked[p])) else None
  }

  ghost predicate HoldsAt(state: map<string, Entry>, serverId: string, tracked: map<Pair, TrackedProcess>, p: Pair) {
    Found(state, StoreKey(serverId, p)) == Wanted(tracked, p)
  }

  ghost predicate OwnAt(state: map<string, Entry>, serverId: string, key: string) {
    key in state && StartsWith(key, ServerPrefix(serverId)) ==> exists p :: key == StoreKey(serverId, p)
  }

  function KeySet(serverId: string, pairs: set<Pair>): set<string> {
    set p | p in pairs :: StoreKey(serverId, p)
  }

  function SavedKeys(state: map<string, Entry>, serverId: string): set<string> {
    if SavedKey(serverId) in state && state[SavedKey(serverId)].OfKeys? then state[SavedKey(serverId)].keys else {}
  }

  /** The store holds exactly `tracked` under the server's prefix. */
  ghost predicate Holds(state: map<string, Entry>, serverId: string, tracked: map<Pair, TrackedProcess>) {
    (forall p :: HoldsAt(state, serverId, tracked, p)) && forall key :: OwnAt(state, serverId, key)
  }

  ghost predicate Index(state: map<string, Entry>, serverId: string, tracked: map<Pair, TrackedProcess>,
        saved: set<Pair>) {
    Holds(state, serverId, tracked) && SavedKeys(state, serverId) == KeySet(serverId, saved)
  }

  /** Only keys under the server's prefix changed. */
  ghost predicate OnlyUnder(before: map<string, Entry>, after: map<string, Entry>, serverId: string) {
    forall key :: !StartsWith(key, ServerPrefix(serverId)) ==> Found(after, key) == Found(before, key)
  }

  lemma {:induction false} SetKeeps(state: map<string, Entry>, serverId: string, tracked: map<Pair, TrackedProcess>,
        p: Pair, e: TrackedProcess)
    requires Holds(state, serverId, tracked)
    ensures Holds(state[StoreKey(serverId, p) := OfProcess(e)], serverId, tracked[p := e])
    ensures OnlyUnder(state, state[StoreKey(serverId, p) := OfProcess(e)], serverId)
  {
    var after, next := state[StoreKey(serverId, p) := OfProcess(e)], tracked[p := e];
    KeyKinds(serverId, p, 0);
    forall q
      ensures HoldsAt(after, serverId, next, q)
    {
      assert HoldsAt(state, serverId, tracked, q);
      StoreKeyInjective(serverId, p, q);
    }
    forall key
      ensures OwnAt(after, serverId, key)
    {
      assert OwnAt(state, serverId, key);
    }
  }

  lemma {:induction false} PruneKeeps(state: map<string, Entry>, serverId: string, tracked: map<Pair, TrackedProcess>,
        g: int)
    requires Holds(state, serverId, tracked)
    ensures Holds(Pruned(state, CardPrefix(serverId, g)), serverId, WithoutCard(tracked, g))
    ensures OnlyUnder(state, Pruned(state, CardPrefix(serverId, g)), serverId)
  {
    var after := Pruned(state, CardPrefix(serverId, g));
    forall q
      ensures HoldsAt(after, serverId, WithoutCard(tracked, g), q)
    {
      assert HoldsAt(state, serverId, tracked, q);
      CardPrefixExact(serverId, g, q);
    }
    forall key
      ensures OwnAt(after, serverId, key)
    {
      assert OwnAt(state, serverId, key);
    }
    forall key | !StartsWith(key, ServerPrefix(serverId))
      ensures Found(after, key) == Found(state, key)
    {
      if StartsWith(key, CardPrefix(serverId, g)) {
        PrefixOfPrefix(ServerPrefix(serverId), Decimal(g) + ":", key);
      }
    }
  }

  lemma {:induction false} PrefixOfPrefix(a: string, b: string, key: string)
    requires StartsWith(key, a + b)
    ensures StartsWith(key, a)
  {
    assert a <= a + b;
  }

  lemma {:induction false} DeleteKeeps(state: map<string, Entry>, serverId: string, tracked: map<Pair, TrackedProcess>,
        p: Pair)
    requires Holds(state, serverId, tracked)
    ensures Holds(state - {StoreKey(serverId, p)}, serverId, tracked - {p})
    ensures OnlyUnder(state, state - {StoreKey(serverId, p)}, serverId)
  {
    var after := state - {StoreKey(serverId, p)};
    KeyKinds(serverId, p, 0);
    forall q
      ensures HoldsAt(after, serverId, tracked - {p}, q)
    {
      assert HoldsAt(state, serverId, tracked, q);
      StoreKeyInjective(serverId, p, q);
    }
    forall key
      ensures OwnAt(after, serverId, key)
    {
      assert OwnAt(state, serverId, key);
    }
  }

  // ---------------------------------------------------------------------------
  // The detector, on the store
  // ---------------------------------------------------------------------------

  method CollectGpuProcesses(card: CardReport) returns (procs: seq<Process>)
    ensures procs == Processes(card)
  {
    procs := [];
    for n := 0 to |card.allocations|
      invariant procs == FromAllocations(card.allocations[..n])
    {
      var a := card.allocations[n];
      assert card.allocations[..n + 1] == card.allocations[..n] + [a];
      InitSnoc(card.allocations[..n], a);
      if a.pid.Some? && a.user.GetOr("") != "" {
        procs := procs + [Process(a.pid.value, a.user.value, a.command.GetOr(""), Some(a.taskId),
                                  a.actualVramMb.GetOr(a.declaredVramMb))];
      }
    }
    assert card.allocations[..|card.allocations|] == card.allocations;
    ghost var tasks := procs;
    for n := 0 to |card.userProcesses|
      invariant procs == tasks + seq(n, i requires 0 <= i < n => FromUser(card.userProcesses[i]))
    {
      procs := procs + [FromUser(card.userProcesses[n])];
    }
  }

  /** What the loops over cards and processes keep: the store holds the tracked entries, and nothing else changed. */
  ghost predicate InStep(start: map<string, Entry>, state: map<string, Entry>, serverId: string, t: Tracking,
        seenKeys: set<string>,
    anomalies: seq<Anomaly>)
  {
    && Holds(state, serverId, t.tracked) && OnlyUnder(start, state, serverId)
    && seenKeys == KeySet(serverId, t.seen) && anomalies == t.anomalies
  }

  lemma {:induction false} KeySetAdd(serverId: string, pairs: set<Pair>, p: Pair)
    ensures KeySet(serverId, pairs + {p}) == KeySet(serverId, pairs) + {StoreKey(serverId, p)}
  {
  }

  method TrackProcess(serverId: string, card: CardReport, x: Process, s: Settings, store: AlertStateStore<Entry>,
        now: int,
      seenKeys0: set<string>, anomalies0: seq<Anomaly>, ghost start: map<string, Entry>, ghost t: Tracking)
    returns (seenKeys: set<string>, anomalies: seq<Anomaly>)
    requires InStep(start, store.state, serverId, t, seenKeys0, anomalies0)
    modifies store
    ensures InStep(start, store.state, serverId, See(t, card, x, s, now), seenKeys, anomalies)
  {
    ghost var before, p := store.state, (card.index, x.pid);
    var key := StoreKey(serverId, (card.index, x.pid));
    seenKeys, anomalies := seenKeys0 + {key}, anomalies0;
    KeySetAdd(serverId, t.seen, p);
    assert HoldsAt(before, serverId, t.tracked, p);
    var existing := store.Get(key);
    if existing.Some? {
      var e := Refreshed(existing.value.process, card, x, now);
      if (now - e.firstSeenAt) as real >= s.idleDurationSeconds * 1000.0 {
        anomalies := anomalies + [IdleAnomaly(card, x.pid, e, s, now)];
      }
      store.Set(key, OfProcess(e));
      SetKeeps(before, serverId, t.tracked, p, e);
    } else {
      store.Set(key, OfProcess(Discovered(card, x, now)));
      SetKeeps(before, serverId, t.tracked, p, Discovered(card, x, now));
    }
  }

  method TrackCard(serverId: string, card: CardReport, s: Settings, store: AlertStateStore<Entry>, now: int,
      seenKeys0: set<string>, anomalies0: seq<Anomaly>, ghost start: map<string, Entry>, ghost t: Tracking)
    returns (seenKeys: set<string>, anomalies: seq<Anomaly>)
    requires InStep(start, store.state, serverId, t, seenKeys0, anomalies0)
    modifies store
    ensures InStep(start, store.state, serverId, SeeCard(t, card, s, now), seenKeys, anomalies)
  {
    seenKeys, anomalies := seenKeys0, anomalies0;
    if MemoryPercent(card) < s.idleMemoryPercent || card.utilization > s.idleUtilizationPercent {
      PruneKeeps(store.state, serverId, t.tracked, card.index);
      store.PruneByPrefix(CardPrefix(serverId, card.index));
      return;
    }
    var procs := CollectGpuProcesses(card);
    if procs == [] {
      PruneKeeps(store.state, serverId, t.tracked, card.index);
      store.PruneByPrefix(CardPrefix(serverId, card.index));
      return;
    }
    for n := 0 to |procs|
      invariant InStep(start, store.state, serverId, SeeAll(t, card, procs[..n], s, now), seenKeys, anomalies)
    {
      assert procs[..n + 1] == procs[..n] + [procs[n]];
      InitSnoc(procs[..n], procs[n]);
      seenKeys, anomalies := TrackProcess(
        serverId, card, procs[n], s, store, now, seenKeys, anomalies, start, SeeAll(t, card, procs[..n], s, now));
    }
    assert procs[..|procs|] == procs;
  }

  /** The tracked entries while the saved pairs in `left` have not been looked at. */
  function Dropping(t: Tracking, saved: set<Pair>, left: set<Pair>): map<Pair, TrackedProcess> {
    map p | p in t.tracked && !(p in saved && p !in left && p !in t.seen) :: t.tracked[p]
  }

  lemma {:induction false} DropStep(t: Tracking, saved: set<Pair>, left: set<Pair>, p: Pair)
    requires p in left && left <= saved
    ensures Dropping(t, saved, left - {p}) == if p in t.seen then Dropping(t, saved, left) else Dropping(t, saved, left) - {p}
    ensures Dropping(t, saved, saved) == t.tracked && Dropping(t, saved, {}) == Kept(t, saved)
  {
  }

  lemma {:induction false} NoKeysLeft(serverId: string, left: set<Pair>)
    requires KeySet(serverId, left) == {}
    ensures left == {}
  {
    forall p
      ensures p !in left
    {
      SeenKey(serverId, left, p);
    }
  }

  /** The keys saved at the last report and not seen in this one are deleted. */
  method DropUnseen(serverId: string, store: AlertStateStore<Entry>, prevKeys: set<string>, seenKeys: set<string>,
      ghost t: Tracking, ghost saved: set<Pair>)
    requires Holds(store.state, serverId, t.tracked)
    requires prevKeys == KeySet(serverId, saved) && seenKeys == KeySet(serverId, t.seen)
    modifies store
    ensures Holds(store.state, serverId, Kept(t, saved)) && OnlyUnder(old(store.state), store.state, serverId)
  {
    var rest := prevKeys;
    ghost var left := saved;
    assert Dropping(t, saved, saved) == t.tracked;
    while rest != {}
      invariant left <= saved && rest == KeySet(serverId, left)
      invariant Holds(store.state, serverId, Dropping(t, saved, left)) && OnlyUnder(old(store.state), store.state, serverId)
      decreases |rest|
    {
      var key :| key in rest;
      ghost var p, before := PairOf(serverId, left, key), store.state;
      rest := rest - {key};
      RemoveKey(serverId, left, p);
      SeenKey(serverId, t.seen, p);
      DropStep(t, saved, left, p);
      if key !in seenKeys {
        DeleteKeeps(before, serverId, Dropping(t, saved, left), p);
        var _ := store.Delete(key);
        UnderTwice(old(store.state), before, store.state, serverId);
      }
      left := left - {p};
    }
    NoKeysLeft(serverId, left);
    assert Dropping(t, saved, {}) == Kept(t, saved);
  }

  ghost function PairOf(serverId: string, pairs: set<Pair>, key: string): (p: Pair)
    requires key in KeySet(serverId, pairs)
    ensures p in pairs && key == StoreKey(serverId, p)
  {
    var p :| p in pairs && key == StoreKey(serverId, p);
    p
  }

  lemma {:induction false} RemoveKey(serverId: string, left: set<Pair>, p: Pair)
    requires p in left
    ensures KeySet(serverId, left - {p}) == KeySet(serverId, left) - {StoreKey(serverId, p)}
  {
    forall q | q in left
      ensures StoreKey(serverId, q) == StoreKey(serverId, p) <==> q == p
    {
      StoreKeyInjective(serverId, p, q);
    }
  }

  lemma {:induction false} SeenKey(serverId: string, pairs: set<Pair>, p: Pair)
    ensures StoreKey(serverId, p) in KeySet(serverId, pairs) <==> p in pairs
  {
    forall q | q in pairs
      ensures StoreKey(serverId, q) == StoreKey(serverId, p) <==> q == p
    {
      StoreKeyInjective(serverId, p, q);
    }
  }

  lemma {:induction false} UnderTwice(a: map<string, Entry>, b: map<string, Entry>, c: map<string, Entry>,
        serverId: string)
    requires OnlyUnder(a, b, serverId) && OnlyUnder(b, c, serverId)
    ensures OnlyUnder(a, c, serverId)
  {
  }

  /** Only keys under the server's prefix, and its saved key set, changed. */
  ghost predicate OnlyOwn(before: map<string, Entry>, after: map<string, Entry>, serverId: string) {
    forall key :: !StartsWith(key, ServerPrefix(serverId)) && key != SavedKey(serverId) ==> Found(after, key) == Found(before, key)
  }

  lemma {:induction false} SaveKeeps(state: map<string, Entry>, serverId: string, tracked: map<Pair, TrackedProcess>,
        seen: set<Pair>)
    requires Holds(state, serverId, tracked)
    ensures Index(state[SavedKey(serverId) := OfKeys(KeySet(serverId, seen))], serverId, tracked, seen)
  {
    var after := state[SavedKey(serverId) := OfKeys(KeySet(serverId, seen))];
    forall p
      ensures HoldsAt(after, serverId, tracked, p)
    {
      assert HoldsAt(state, serverId, tracked, p);
      KeyKinds(serverId, p, 0);
    }
    KeyKinds(serverId, (0, 0), 0);
    forall key
      ensures OwnAt(after, serverId, key)
    {
      assert OwnAt(state, serverId, key);
    }
  }

  /** The detector does to the string-keyed store what `SeeCards` and `Kept` do to the pairs. */
  method DetectGpuIdle(serverId: string, cards: seq<CardReport>, s: Settings, store: AlertStateStore<Entry>, now: int,
      ghost tracked: map<Pair, TrackedProcess>, ghost saved: set<Pair>)
    returns (anomalies: seq<Anomaly>)
    requires Index(store.state, serverId, tracked, saved)
    requires TypedAt(store.state, SavedKey(serverId))
    modifies store
    ensures var t := SeeCards(Tracking(tracked, {}, []), cards, s, now);
      anomalies == t.anomalies && Index(store.state, serverId, Kept(t, saved), t.seen)
    ensures SavedKey(serverId) in store.state && store.state[SavedKey(serverId)].OfKeys?
    ensures OnlyOwn(old(store.state), store.state, serverId)
  {
    ghost var start, t0 := store.state, Tracking(tracked, {}, []);
    var seenKeys: set<string> := {};
    anomalies := [];
    assert SeeCards(t0, cards[..0], s, now) == t0;
    for n := 0 to |cards|
      invariant InStep(start, store.state, serverId, SeeCards(t0, cards[..n], s, now), seenKeys, anomalies)
    {
      assert cards[..n + 1] == cards[..n] + [cards[n]];
      InitSnoc(cards[..n], cards[n]);
      seenKeys, anomalies := TrackCard(
        serverId, cards[n], s, store, now, seenKeys, anomalies, start, SeeCards(t0, cards[..n], s, now));
    }
    assert cards[..|cards|] == cards;
    ghost var t := SeeCards(t0, cards, s, now);
    KeyKinds(serverId, (0, 0), 0);
    assert Found(store.state, SavedKey(serverId)) == Found(start, SavedKey(serverId));
    var saving := store.Get(SavedKey(serverId));
    var prevKeys: set<string> := if saving.Some? then saving.value.keys else {};
    ghost var middle := store.state;
    DropUnseen(serverId, store, prevKeys, seenKeys, t, saved);
    UnderTwice(start, middle, store.state, serverId);
    SaveKeeps(store.state, serverId, Kept(t, saved), t.seen);
    store.Set(SavedKey(serverId), OfKeys(seenKeys));
  }
}
