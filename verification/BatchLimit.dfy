/** Where an exclusive task is queued behind a shared one that reserves nothing, some node lets the batch give the same GPU
    to both. So the condition on the queue is exact, for what a batch gives and for deciding as the tasks would singly. */
module BatchLimit {
  import opened Basics
  import opened Models
  import opened Attribution
  import opened AttributionFacts
  import opened Scheduling
  import opened SchedulingFacts
  import opened BatchRefinement

  // ---------------------------------------------------------------------------
  // GPUs given twice
  // ---------------------------------------------------------------------------

  /** Decision `y` gives GPU `g`, which was given before: it is in `made`, or an earlier decision gives it. */
  ghost predicate GivenAgain(made: set<int>, ds: seq<Decision>, y: int, g: int)
    requires 0 <= y < |ds|
  {
    g in ds[y].gpuIds && (g in made || exists x :: 0 <= x < y && g in ds[x].gpuIds)
  }

  /** A decision about the task gives a GPU again. */
  ghost predicate Overlap(made: set<int>, ds: seq<Decision>, id: TaskId) {
    exists y, g :: 0 <= y < |ds| && ds[y].taskId == id && GivenAgain(made, ds, y, g)
  }

  function Given(d: Decision): set<int> {
    set g | g in d.gpuIds
  }

  lemma {:induction false} OverlapLater(made: set<int>, d: Decision, rest: seq<Decision>, id: TaskId)
    requires Overlap(made + Given(d), rest, id)
    ensures Overlap(made, [d] + rest, id)
  {
    var y, g :| 0 <= y < |rest| && rest[y].taskId == id && GivenAgain(made + Given(d), rest, y, g);
    var ds := [d] + rest;
    if g in made {
    } else if g in Given(d) {
      assert ds[0] == d;
    } else {
      var x :| 0 <= x < y && g in rest[x].gpuIds;
      assert ds[x + 1] == rest[x];
    }
    assert ds[y + 1] == rest[y] && GivenAgain(made, ds, y + 1, g);
  }

  lemma {:induction false} OverlapSplit(made: set<int>, d: Decision, rest: seq<Decision>, id: TaskId)
    requires Overlap(made, [d] + rest, id)
    ensures (d.taskId == id && exists g :: g in d.gpuIds && g in made) || Overlap(made + Given(d), rest, id)
  {
    var ds := [d] + rest;
    var y, g :| 0 <= y < |ds| && ds[y].taskId == id && GivenAgain(made, ds, y, g);
    if y > 0 {
      assert ds[y] == rest[y - 1];
      if g !in made + Given(d) {
        var x :| 0 <= x < y && g in ds[x].gpuIds;
        assert x > 0 && ds[x] == rest[x - 1];
      }
      assert GivenAgain(made + Given(d), rest, y - 1, g);
    }
  }

  // ---------------------------------------------------------------------------
  // One at a time nothing is given twice
  // ---------------------------------------------------------------------------

  /** Every GPU given so far shows a task. */
  ghost predicate Occupied(current: Sample, made: set<int>) {
    forall i :: 0 <= i < |current| && current[i].gpuIndex in made ==> current[i].pmeowTasks != []
  }

  ghost predicate OnlyWhole(tasks: seq<Task>, id: TaskId) {
    forall t :: t in tasks && t.id == id ==> RequestOf(t) == WholeGpu
  }

  lemma {:induction false} MaterialisedDistinct(current: Sample, t: Task, gpus: seq<int>, made: set<int>)
    requires DistinctGpus(current) && Occupied(current, made)
    ensures var next := Materialised(current, t, gpus);
      DistinctGpus(next) && Occupied(next, made + Given(Decision(t.id, gpus)))
  {
  }

  lemma {:induction false} WholePickIsNew(t: Task, view: View, made: set<int>)
    requires DistinctGpus(view.current) && Occupied(view.current, made) && RequestOf(t) == WholeGpu
    requires view.PickFor(t, NO_PENDING).Some?
    ensures forall g :: g in view.PickFor(t, NO_PENDING).value ==> g !in made
  {
    var gpus := view.PickFor(t, NO_PENDING).value;
    forall g | g in gpus
      ensures g !in made
    {
      var i := PickedFits(view, NO_PENDING, t, gpus, g);
      WholeGpuIsBare(view, NO_PENDING, i);
    }
  }

  /** Scheduled one at a time, an exclusive task never gets a GPU that was given before. */
  lemma {:induction false} OneByOneAlone(tasks: seq<Task>, view: View, made: set<int>, id: TaskId)
    requires DistinctGpus(view.current) && Occupied(view.current, made) && OnlyWhole(tasks, id)
    ensures !Overlap(made, OneByOne(tasks, view), id)
    decreases |tasks|
  {
    if tasks != [] {
      var t, picked := tasks[0], view.PickFor(tasks[0], NO_PENDING);
      assert t in tasks;
      if picked.Some? {
        var d, next := Decision(t.id, picked.value), view.(current := Materialised(view.current, t, picked.value));
        MaterialisedDistinct(view.current, t, picked.value, made);
        OneByOneAlone(tasks[1..], next, made + Given(d), id);
        if t.id == id { WholePickIsNew(t, view, made); }
        if Overlap(made, [d] + OneByOne(tasks[1..], next), id) { OverlapSplit(made, d, OneByOne(tasks[1..], next), id); }
      } else {
        OneByOneAlone(tasks[1..], view, made, id);
      }
    }
  }

  // ---------------------------------------------------------------------------
  // Counting
  // ---------------------------------------------------------------------------

  lemma {:induction false} SubsetCount(a: set<int>, b: set<int>)
    requires a <= b
    ensures |a| <= |b|
  {
    assert b == a + (b - a);
  }

  // ---------------------------------------------------------------------------
  // A crowd of small idle cards
  // ---------------------------------------------------------------------------

  /** An idle card of 1 MB, too small for any positive reservation. */
  function SmallCard(g: int): GpuSummary {
    EmptyCard(g, 1.0)
  }

  /** `n` such cards, with the indices from `base` on. */
  function Crowd(base: int, n: nat): (r: Sample)
    ensures |r| == n && forall i :: 0 <= i < n ==> r[i] == SmallCard(base + i)
  {
    seq(n, i requires 0 <= i < n => SmallCard(base + i))
  }

  lemma {:induction false} CrowdDistinct(base: int, n: nat)
    ensures DistinctGpus(Crowd(base, n))
  {
    var crowd := Crowd(base, n);
    forall i, j | 0 <= i < j < n
      ensures crowd[i].gpuIndex != crowd[j].gpuIndex
    {
      assert crowd[i] == SmallCard(base + i) && crowd[j] == SmallCard(base + j);
    }
  }

  /** The sample shows the crowd and nothing else, or cards with smaller indices only. */
  ghost predicate QuietSample(sample: Sample, base: int, n: nat) {
    sample == Crowd(base, n) || forall j :: 0 <= j < |sample| ==> sample[j].gpuIndex < base
  }

  /** A view of the crowd, whatever happened on other cards before. */
  ghost predicate CrowdLike(view: View, base: int, n: nat) {
    view.current == Crowd(base, n) && forall i :: 0 <= i < |view.history| ==> QuietSample(view.history[i].sample, base, n)
  }

  /** The cards that no exclusive decision of the batch has taken. */
  function Left(base: int, n: nat, pending: Pending): set<int> {
    set g | base <= g < base + n && g !in pending.exclusive
  }

  lemma {:induction false} AllLeft(base: int, n: nat)
    ensures |Left(base, n, NO_PENDING)| == n
    decreases n
  {
    if n > 0 {
      AllLeft(base, n - 1);
      assert Left(base, n, NO_PENDING) == Left(base, n - 1, NO_PENDING) + {base + n - 1};
    }
  }

  ghost predicate NoneShared(pending: Pending) {
    forall g :: MapGet(pending.shared, g) == 0.0
  }

  ghost predicate Unburdened(gpu: GpuSummary, g: int) {
    gpu.gpuIndex == g ==> gpu.userProcesses == [] && gpu.unknownProcesses == []
  }

  lemma {:induction false} UnburdenedPeak(seen: seq<GpuSummary>, g: int)
    requires forall k :: 0 <= k < |seen| ==> Unburdened(seen[k], g)
    ensures Peak(seen, g) == 0.0
    decreases |seen|
  {
    if seen != [] {
      forall k | 0 <= k < |Init(seen)| ensures Unburdened(Init(seen)[k], g) { assert Unburdened(seen[k], g); }
      UnburdenedPeak(Init(seen), g);
      assert Unburdened(seen[|seen| - 1], g);
    }
  }

  lemma {:induction false} QuietUnburdened(sample: Sample, base: int, n: nat, g: int)
    requires QuietSample(sample, base, n) && g >= base
    ensures forall j :: 0 <= j < |sample| ==> Unburdened(sample[j], g)
  {
  }

  lemma {:induction false} FlatUnburdened(history: seq<TimedSample>, base: int, n: nat, g: int)
    requires (forall i :: 0 <= i < |history| ==> QuietSample(history[i].sample, base, n)) && g >= base
    ensures forall k :: 0 <= k < |Flat(history)| ==> Unburdened(Flat(history)[k], g)
    decreases |history|
  {
    if history != [] {
      assert QuietSample(history[|history| - 1].sample, base, n);
      forall i | 0 <= i < |Init(history)|
        ensures QuietSample(Init(history)[i].sample, base, n)
      {
        assert QuietSample(history[i].sample, base, n);
      }
      FlatUnburdened(Init(history), base, n, g);
      QuietUnburdened(Last(history).sample, base, n, g);
    }
  }

  lemma {:induction false} NotPresent(sample: Sample, g: int)
    requires forall j :: 0 <= j < |sample| ==> sample[j].gpuIndex != g
    ensures FirstFor(sample, g).None?
  {
    if sample != [] { NotPresent(sample[1..], g); }
  }

  lemma {:induction false} QuietIdle(sample: Sample, base: int, n: nat, i: nat)
    requires QuietSample(sample, base, n) && i < n
    ensures IdleIfPresent(sample, base + i)
  {
    if sample == Crowd(base, n) {
      CrowdDistinct(base, n);
      FirstForIndex(sample, i);
      assert UnmanagedMb(sample[i]) == 0.0;
    } else {
      NotPresent(sample, base + i);
    }
  }

  lemma {:induction false} BareCardLedger(gpu: GpuSummary, seen: seq<GpuSummary>, pending: Pending)
    requires gpu.pmeowTasks == [] && gpu.usedMb == 0.0 && 0.0 <= gpu.totalMb <= 1.0
    requires MapGet(pending.shared, gpu.gpuIndex) == 0.0 && Peak(seen, gpu.gpuIndex) == 0.0
    ensures var l := LedgerOf(gpu, seen, pending);
      && l.gpuIndex == gpu.gpuIndex && l.managedMb == 0.0 && (l.exclusiveOwner <==> gpu.gpuIndex in pending.exclusive)
      && 0.0 <= l.effectiveFreeMb < 1.0 && l.utilization == gpu.utilization && l.vramUtilization == 0.0
  {
  }

  lemma {:induction false} SmallCardLedger(view: View, base: int, n: nat, pending: Pending, i: nat)
    requires CrowdLike(view, base, n) && NoneShared(pending) && i < n
    ensures var l := view.LedgersWith(pending)[i];
      && l.gpuIndex == base + i && l.managedMb == 0.0 && (l.exclusiveOwner <==> base + i in pending.exclusive)
      && 0.0 <= l.effectiveFreeMb < 1.0 && l.utilization == 0.0 && l.vramUtilization == 0.0
  {
    var g, seen := base + i, Flat(view.history) + view.current;
    FlatUnburdened(view.history, base, n, g);
    QuietUnburdened(view.current, base, n, g);
    UnburdenedPeak(seen, g);
    assert MapGet(pending.shared, g) == 0.0;
    BareCardLedger(view.current[i], seen, pending);
  }

  lemma {:induction false} CrowdLedgersDistinct(view: View, base: int, n: nat, pending: Pending)
    requires CrowdLike(view, base, n)
    ensures DistinctGpus(view.current) && DistinctLedgers(view.LedgersWith(pending))
  {
    CrowdDistinct(base, n);
  }

  lemma {:induction false} SmallCardFits(view: View, base: int, n: nat, request: Request, pending: Pending, i: nat)
    requires CrowdLike(view, base, n) && NoneShared(pending) && (request == WholeGpu || request == SharedMb(0)) && i < n
    ensures var l := view.LedgersWith(pending)[i];
      l.gpuIndex == base + i && (Fits(l, request, view.history, view.current) <==> base + i in Left(base, n, pending))
  {
    SmallCardLedger(view, base, n, pending, i);
    QuietIdle(view.current, base, n, i);
    forall k | 0 <= k < |view.history|
      ensures IdleIfPresent(view.history[k].sample, base + i)
    {
      QuietIdle(view.history[k].sample, base, n, i);
    }
  }

  /** For an exclusive task, and for a shared one that reserves nothing, all cards left are eligible. */
  lemma {:induction false} CrowdEligible(view: View, base: int, n: nat, t: Task, pending: Pending)
    requires CrowdLike(view, base, n) && NoneShared(pending)
    requires RequestOf(t) == WholeGpu || RequestOf(t) == SharedMb(0)
    ensures |view.EligibleFor(t, pending)| == |Left(base, n, pending)|
  {
    var ledgers := view.LedgersWith(pending);
    forall l | l in ledgers
      ensures Fits(l, RequestOf(t), view.history, view.current) <==> l.gpuIndex in Left(base, n, pending)
    {
      var i :| 0 <= i < |ledgers| && ledgers[i] == l;
      SmallCardFits(view, base, n, RequestOf(t), pending, i);
    }
    forall g | g in Left(base, n, pending)
      ensures exists l :: l in ledgers && l.gpuIndex == g
    {
      SmallCardFits(view, base, n, RequestOf(t), pending, g - base);
      assert ledgers[g - base] in ledgers;
    }
    CrowdLedgersDistinct(view, base, n, pending);
    EligibleCounted(ledgers, RequestOf(t), view.history, view.current, Left(base, n, pending));
  }

  /** A positive reservation fits nowhere. */
  lemma {:induction false} CrowdRefuses(view: View, base: int, n: nat, t: Task, pending: Pending)
    requires CrowdLike(view, base, n) && NoneShared(pending)
    requires RequestOf(t).SharedMb? && RequestOf(t).mb > 0 && t.requireGpuCount > 0
    ensures view.PickFor(t, pending).None?
  {
    var ledgers := view.LedgersWith(pending);
    forall l | l in ledgers
      ensures !Fits(l, RequestOf(t), view.history, view.current)
    {
      var i :| 0 <= i < |ledgers| && ledgers[i] == l;
      SmallCardLedger(view, base, n, pending, i);
    }
    NoElements(view.EligibleFor(t, pending));
  }

  lemma {:induction false} FitsAreLeft(view: View, base: int, n: nat, request: Request, pending: Pending, l: Ledger)
    requires CrowdLike(view, base, n) && NoneShared(pending)
    requires l in view.LedgersWith(pending) && Fits(l, request, view.history, view.current)
    ensures l.gpuIndex in Left(base, n, pending)
  {
    var ledgers := view.LedgersWith(pending);
    var i :| 0 <= i < |ledgers| && ledgers[i] == l;
    SmallCardLedger(view, base, n, pending, i);
  }

  /** What a pick among the cards left takes. */
  lemma {:induction false} CrowdPick(view: View, base: int, n: nat, t: Task, pending: Pending)
    requires CrowdLike(view, base, n) && NoneShared(pending) && t.requireGpuCount >= 0
    requires view.PickFor(t, pending).Some?
    ensures var given := Given(Decision(t.id, view.PickFor(t, pending).value));
      |given| == t.requireGpuCount && given <= Left(base, n, pending)
  {
    var request, count := RequestOf(t), t.requireGpuCount;
    var ledgers := view.LedgersWith(pending);
    CrowdLedgersDistinct(view, base, n, pending);
    PickCorrect(ledgers, request, count, view.history, view.current);
    var chosen := Chosen(ledgers, request, count, view.history, view.current);
    forall l | l in chosen
      ensures l.gpuIndex in Left(base, n, pending)
    {
      FitsAreLeft(view, base, n, request, pending, l);
    }
    PickedDistinct(view, t, pending);
    ChosenWithin(chosen, Left(base, n, pending));
    DistinctCount(GpuIds(chosen));
  }

  lemma {:induction false} ChosenWithin(chosen: seq<Ledger>, left: set<int>)
    requires forall l :: l in chosen ==> l.gpuIndex in left
    ensures forall g :: g in GpuIds(chosen) ==> g in left
  {
  }

  // ---------------------------------------------------------------------------
  // Behind the shared task
  // ---------------------------------------------------------------------------

  ghost predicate Askable(t: Task) {
    Queueable(t) && t.requireGpuCount >= 0
  }

  ghost predicate AllAskable(tasks: seq<Task>) {
    forall t :: t in tasks ==> Askable(t)
  }

  lemma {:induction false} AddNothing(m: map<int, real>, gpus: seq<int>, mb: real, g: int)
    requires MapGet(m, g) == 0.0 && mb == 0.0
    ensures MapGet(AddShared(m, gpus, mb), g) == 0.0
    decreases |gpus|
  {
    if gpus != [] {
      AddNothing(m, Init(gpus), mb, g);
    }
  }

  /** A shared task leaves nothing in the pending maps of a crowd, and neither does one that takes no GPU. */
  lemma {:induction false} NoneSharedAfter(view: View, base: int, n: nat, t: Task, batch: Batch)
    requires CrowdLike(view, base, n) && NoneShared(batch.pending) && Askable(t)
    ensures var after := After(t, Evaluate(t, view, batch), batch).pending;
      NoneShared(after) && (!TakesWhole(t) ==> after.exclusive == batch.pending.exclusive)
  {
    var e := Evaluate(t, view, batch);
    if e.canRun {
      if t.requireGpuCount == 0 {
        PickNone(view, batch.pending, t);
      } else if t.vramMode.Shared? {
        if RequestOf(t).mb > 0 { CrowdRefuses(view, base, n, t, batch.pending); }
        var before, mb := batch.pending.shared, RequestOf(t).mb as real;
        var added := AddShared(before, e.gpuIds, mb);
        forall g
          ensures MapGet(added, g) == 0.0
        {
          assert MapGet(before, g) == 0.0;
          AddNothing(before, e.gpuIds, mb, g);
        }
      }
    }
  }

  /** The GPUs given once the task is decided. */
  function MadeAfter(made: set<int>, e: Evaluation): set<int> {
    if e.canRun then made + Given(Decision(e.taskId, e.gpuIds)) else made
  }

  /** What overlaps behind the first task overlaps in all. */
  lemma {:induction false} OverlapBehind(tasks: seq<Task>, view: View, batch: Batch, made: set<int>, id: TaskId)
    requires tasks != []
    requires var e := Evaluate(tasks[0], view, batch);
      Overlap(MadeAfter(made, e), Decisions(Schedule(tasks[1..], view, After(tasks[0], e, batch))), id)
    ensures Overlap(made, Decisions(Schedule(tasks, view, batch)), id)
  {
    var e := Evaluate(tasks[0], view, batch);
    var rest := Decisions(Schedule(tasks[1..], view, After(tasks[0], e, batch)));
    ScheduleStep(tasks, view, batch);
    if e.canRun {
      OverlapLater(made, Decision(tasks[0].id, e.gpuIds), rest, id);
    } else {
      assert [] + rest == rest;
    }
  }

  /** Fewer cards left are new than the exclusive task asks for, so it gets one that was given before. */
  lemma {:induction false} WholeOverlaps(view: View, base: int, n: nat, tasks: seq<Task>, batch: Batch, made: set<int>)
    requires CrowdLike(view, base, n) && NoneShared(batch.pending)
    requires tasks != [] && Askable(tasks[0]) && TakesWhole(tasks[0])
    requires |Left(base, n, batch.pending) - made| < tasks[0].requireGpuCount <= |Left(base, n, batch.pending)|
    ensures Overlap(made, Decisions(Schedule(tasks, view, batch)), tasks[0].id)
  {
    var t, left := tasks[0], Left(base, n, batch.pending);
    CrowdEligible(view, base, n, t, batch.pending);
    CrowdPick(view, base, n, t, batch.pending);
    var e := Evaluate(t, view, batch);
    var given := Given(Decision(t.id, e.gpuIds));
    if given * made == {} {
      assert forall h :: h in given ==> h !in made by {
        forall h | h in given ensures h !in made { assert h !in given * made; }
      }
      SubsetCount(given, left - made);
    }
    var g := Element(given * made);
    ScheduleStep(tasks, view, batch);
    var ds := Decisions(Schedule(tasks, view, batch));
    assert ds[0] == Decision(t.id, e.gpuIds);
    assert GivenAgain(made, ds, 0, g);
  }

  /** The first exclusive task that takes GPUs stands at place `j`. */
  ghost predicate FirstWhole(tasks: seq<Task>, j: nat) {
    j < |tasks| && TakesWhole(tasks[j]) && forall k :: 0 <= k < j ==> !TakesWhole(tasks[k])
  }

  lemma {:induction false} TailOk(tasks: seq<Task>)
    requires tasks != [] && AllAskable(tasks) && DistinctIds(tasks)
    ensures Askable(tasks[0]) && AllAskable(tasks[1..]) && DistinctIds(tasks[1..])
  {
    assert tasks[0] in tasks;
    forall i, j | 0 <= i < j < |tasks[1..]|
      ensures tasks[1..][i].id != tasks[1..][j].id
    {
      assert tasks[i + 1].id != tasks[j + 1].id;
    }
  }

  lemma {:induction false} FewerNew(left: set<int>, made: set<int>, more: set<int>)
    requires made <= more
    ensures |left - more| <= |left - made|
  {
    SubsetCount(left - more, left - made);
  }

  lemma {:induction false} OverlapsBehind(view: View, base: int, n: nat, tasks: seq<Task>, batch: Batch, j: nat,
        made: set<int>)
    requires CrowdLike(view, base, n) && NoneShared(batch.pending)
    requires AllAskable(tasks) && DistinctIds(tasks) && FirstWhole(tasks, j)
    requires |Left(base, n, batch.pending) - made| < tasks[j].requireGpuCount <= |Left(base, n, batch.pending)|
    ensures Overlap(made, Decisions(Schedule(tasks, view, batch)), tasks[j].id)
    decreases |tasks|
  {
    TailOk(tasks);
    if j == 0 {
      WholeOverlaps(view, base, n, tasks, batch, made);
    } else {
      var e := Evaluate(tasks[0], view, batch);
      var after := After(tasks[0], e, batch);
      NoneSharedAfter(view, base, n, tasks[0], batch);
      assert Left(base, n, after.pending) == Left(base, n, batch.pending);
      FewerNew(Left(base, n, batch.pending), made, MadeAfter(made, e));
      OverlapsBehind(view, base, n, tasks[1..], after, j - 1, MadeAfter(made, e));
      OverlapBehind(tasks, view, batch, made, tasks[j].id);
    }
  }

  // ---------------------------------------------------------------------------
  // Up to the shared task
  // ---------------------------------------------------------------------------

  /** How many GPUs the exclusive tasks from place `p` up to place `i` ask for. */
  function Asked(tasks: seq<Task>, p: nat, i: nat): int
    requires p <= i <= |tasks|
    decreases i - p
  {
    if p == i then 0 else (if TakesWhole(tasks[p]) then tasks[p].requireGpuCount else 0) + Asked(tasks, p + 1, i)
  }

  lemma {:induction false} AskedNat(tasks: seq<Task>, p: nat, i: nat)
    requires AllAskable(tasks) && p <= i <= |tasks|
    ensures Asked(tasks, p, i) >= 0
    decreases i - p
  {
    if p < i {
      assert tasks[p] in tasks;
      AskedNat(tasks, p + 1, i);
    }
  }

  /** The first shared task that reserves nothing stands at `i`, and the first exclusive task behind it at `j`. */
  ghost predicate FirstPair(tasks: seq<Task>, i: nat, j: nat) {
    && i < j < |tasks| && TakesNothing(tasks[i]) && (forall k :: 0 <= k < i ==> !TakesNothing(tasks[k]))
    && TakesWhole(tasks[j]) && (forall k :: i < k < j ==> !TakesWhole(tasks[k]))
  }

  /** A shared task that reserves nothing is given as many of the cards left as it asks for. */
  lemma {:induction false} FreelyGiven(view: View, base: int, n: nat, t: Task, batch: Batch, made: set<int>)
    requires CrowdLike(view, base, n) && NoneShared(batch.pending)
    requires Askable(t) && TakesNothing(t) && t.requireGpuCount <= |Left(base, n, batch.pending)|
    ensures |Left(base, n, batch.pending) - MadeAfter(made, Evaluate(t, view, batch))|
         <= |Left(base, n, batch.pending)| - t.requireGpuCount
  {
    var left, e := Left(base, n, batch.pending), Evaluate(t, view, batch);
    CrowdEligible(view, base, n, t, batch.pending);
    CrowdPick(view, base, n, t, batch.pending);
    FewerNew(left, Given(Decision(t.id, e.gpuIds)), MadeAfter(made, e));
  }

  /** So many that too few stay new for the exclusive task. */
  lemma {:induction false} PairOverlaps(view: View, base: int, n: nat, tasks: seq<Task>, batch: Batch, j: nat,
        made: set<int>)
    requires CrowdLike(view, base, n) && NoneShared(batch.pending)
    requires AllAskable(tasks) && DistinctIds(tasks) && FirstPair(tasks, 0, j)
    requires |Left(base, n, batch.pending)| == Max(tasks[0].requireGpuCount, tasks[j].requireGpuCount)
    ensures Overlap(made, Decisions(Schedule(tasks, view, batch)), tasks[j].id)
  {
    var e := Evaluate(tasks[0], view, batch);
    var after := After(tasks[0], e, batch);
    TailOk(tasks);
    assert tasks[j] in tasks;
    FreelyGiven(view, base, n, tasks[0], batch, made);
    NoneSharedAfter(view, base, n, tasks[0], batch);
    assert Left(base, n, after.pending) == Left(base, n, batch.pending);
    FirstWholeBehind(tasks, 0, j);
    OverlapsBehind(view, base, n, tasks[1..], after, j - 1, MadeAfter(made, e));
    OverlapBehind(tasks, view, batch, made, tasks[j].id);
  }

  lemma {:induction false} FirstWholeBehind(tasks: seq<Task>, i: nat, j: nat)
    requires i == 0 && FirstPair(tasks, i, j)
    ensures FirstWhole(tasks[1..], j - 1) && tasks[1..][j - 1] == tasks[j]
  {
  }

  lemma {:induction false} PairBehind(tasks: seq<Task>, i: nat, j: nat)
    requires AllAskable(tasks) && DistinctIds(tasks) && FirstPair(tasks, i, j)
    ensures AllAskable(tasks[i..]) && DistinctIds(tasks[i..]) && FirstPair(tasks[i..], 0, j - i)
    ensures tasks[i..][0] == tasks[i] && tasks[i..][j - i] == tasks[j]
  {
    forall x, y | 0 <= x < y < |tasks[i..]|
      ensures tasks[i..][x].id != tasks[i..][y].id
    {
      assert tasks[i + x].id != tasks[i + y].id;
    }
  }

  lemma {:induction false} LeftAfter(view: View, base: int, n: nat, t: Task, batch: Batch)
    requires CrowdLike(view, base, n) && NoneShared(batch.pending) && Askable(t)
    requires TakesWhole(t) ==> t.requireGpuCount <= |Left(base, n, batch.pending)|
    ensures var after := After(t, Evaluate(t, view, batch), batch).pending;
      |Left(base, n, after)| == |Left(base, n, batch.pending)| - (if TakesWhole(t) then t.requireGpuCount else 0)
  {
    var e := Evaluate(t, view, batch);
    var after := After(t, e, batch).pending;
    if TakesWhole(t) {
      CrowdEligible(view, base, n, t, batch.pending);
      CrowdPick(view, base, n, t, batch.pending);
      assert Left(base, n, after) == Left(base, n, batch.pending) - Given(Decision(t.id, e.gpuIds));
    } else {
      NoneSharedAfter(view, base, n, t, batch);
      assert Left(base, n, after) == Left(base, n, batch.pending);
    }
  }

  /** How many more cards are left than the exclusive tasks from `p` up to `i` ask for. */
  function Spare(base: int, n: nat, tasks: seq<Task>, pending: Pending, p: nat, i: nat): int
    requires p <= i <= |tasks|
  {
    |Left(base, n, pending)| - Asked(tasks, p, i)
  }

  lemma {:induction false} SpareStep(view: View, base: int, n: nat, tasks: seq<Task>, batch: Batch, p: nat, i: nat)
    requires CrowdLike(view, base, n) && NoneShared(batch.pending) && AllAskable(tasks) && p < i <= |tasks|
    requires Spare(base, n, tasks, batch.pending, p, i) >= 0
    ensures var after := After(tasks[p], Evaluate(tasks[p], view, batch), batch).pending;
      Spare(base, n, tasks, after, p + 1, i) == Spare(base, n, tasks, batch.pending, p, i)
  {
    assert tasks[p] in tasks;
    AskedNat(tasks, p + 1, i);
    LeftAfter(view, base, n, tasks[p], batch);
  }

  /** When the exclusive tasks ahead of the pair are served, just enough cards are left for the larger of the pair, and
      the pair overlaps. */
  lemma {:induction false} Overlaps(view: View, base: int, n: nat, tasks: seq<Task>, batch: Batch, p: nat, i: nat, j: nat,
        made: set<int>)
    requires CrowdLike(view, base, n) && NoneShared(batch.pending)
    requires AllAskable(tasks) && DistinctIds(tasks) && FirstPair(tasks, i, j) && p <= i
    requires Spare(base, n, tasks, batch.pending, p, i) == Max(tasks[i].requireGpuCount, tasks[j].requireGpuCount)
    ensures Overlap(made, Decisions(Schedule(tasks[p..], view, batch)), tasks[j].id)
    decreases i - p
  {
    if p == i {
      PairBehind(tasks, i, j);
      PairOverlaps(view, base, n, tasks[i..], batch, j - i, made);
    } else {
      var t, rest := tasks[p], tasks[p..];
      var e := Evaluate(t, view, batch);
      assert t in tasks && tasks[i] in tasks && rest[0] == t && rest[1..] == tasks[p + 1..];
      NoneSharedAfter(view, base, n, t, batch);
      SpareStep(view, base, n, tasks, batch, p, i);
      Overlaps(view, base, n, tasks, After(t, e, batch), p + 1, i, j, MadeAfter(made, e));
      OverlapBehind(rest, view, batch, made, tasks[j].id);
    }
  }

  // ---------------------------------------------------------------------------
  // The exact condition
  // ---------------------------------------------------------------------------

  lemma {:induction false} FirstPairOf(tasks: seq<Task>) returns (i: nat, j: nat)
    requires !NothingBeforeWhole(tasks)
    ensures FirstPair(tasks, i, j)
  {
    var x, y :| 0 <= x < y < |tasks| && !NotBehind(tasks, x, y);
    i := 0;
    while !TakesNothing(tasks[i])
      decreases x - i
      invariant i <= x && forall k :: 0 <= k < i ==> !TakesNothing(tasks[k])
    {
      i := i + 1;
    }
    j := i + 1;
    while !TakesWhole(tasks[j])
      decreases y - j
      invariant i < j <= y && forall k :: i < k < j ==> !TakesWhole(tasks[k])
    {
      j := j + 1;
    }
  }

  /** Where an exclusive task stands behind a shared one that reserves nothing, on every crowd of the right size the batch
      gives some exclusive task a GPU that it has given before. */
  lemma {:induction false} CrowdOverlaps(tasks: seq<Task>) returns (n: nat, j: nat)
    requires AllAskable(tasks) && DistinctIds(tasks) && !NothingBeforeWhole(tasks)
    ensures j < |tasks| && TakesWhole(tasks[j])
    ensures forall view, base :: CrowdLike(view, base, n) ==>
      Overlap({}, Decisions(Schedule(tasks, view, EMPTY_BATCH)), tasks[j].id)
  {
    var i;
    i, j := FirstPairOf(tasks);
    assert tasks[i] in tasks && tasks[j] in tasks;
    AskedNat(tasks, 0, i);
    n := Asked(tasks, 0, i) + Max(tasks[i].requireGpuCount, tasks[j].requireGpuCount);
    forall view, base | CrowdLike(view, base, n)
      ensures Overlap({}, Decisions(Schedule(tasks, view, EMPTY_BATCH)), tasks[j].id)
    {
      AllLeft(base, n);
      Overlaps(view, base, n, tasks, EMPTY_BATCH, 0, i, j, {});
      assert tasks[0..] == tasks;
    }
  }

  function CrowdView(n: nat): View {
    View(Crowd(0, n), [])
  }

  lemma {:induction false} NamedOnce(tasks: seq<Task>, j: nat)
    requires DistinctIds(tasks) && j < |tasks| && TakesWhole(tasks[j])
    ensures OnlyWhole(tasks, tasks[j].id)
  {
    forall t | t in tasks && t.id == tasks[j].id
      ensures t == tasks[j]
    {
      var k :| 0 <= k < |tasks| && tasks[k] == t;
    }
  }

  /** No decision for an exclusive task gives a GPU that the batch gave before. */
  ghost predicate WholeAlone(tasks: seq<Task>, view: View) {
    forall j :: 0 <= j < |tasks| && TakesWhole(tasks[j]) ==>
      !Overlap({}, Decisions(Schedule(tasks, view, EMPTY_BATCH)), tasks[j].id)
  }

  /** The exact condition on the queue, for what a batch gives: on every node and history every exclusive task gets GPUs
      of its own, if and only if no exclusive task stands behind a shared one that reserves nothing. */
  lemma {:induction false} AloneExactly(tasks: seq<Task>)
    requires AllAskable(tasks) && DistinctIds(tasks)
    ensures (forall view: View :: DistinctGpus(view.current) ==> WholeAlone(tasks, view)) <==> NothingBeforeWhole(tasks)
  {
    if NothingBeforeWhole(tasks) {
      forall view: View | DistinctGpus(view.current)
        ensures WholeAlone(tasks, view)
      {
        BatchEqualsOneByOne(tasks, view);
        forall j | 0 <= j < |tasks| && TakesWhole(tasks[j])
          ensures !Overlap({}, OneByOne(tasks, view), tasks[j].id)
        {
          NamedOnce(tasks, j);
          OneByOneAlone(tasks, view, {}, tasks[j].id);
        }
      }
    } else {
      var n, j := CrowdOverlaps(tasks);
      CrowdDistinct(0, n);
      assert CrowdLike(CrowdView(n), 0, n);
      assert !WholeAlone(tasks, CrowdView(n));
    }
  }

  /** The same condition, for deciding as the tasks would singly: the two agree on every node and history if and only if
      it holds. */
  lemma {:induction false} AgreesExactly(tasks: seq<Task>)
    requires AllAskable(tasks) && DistinctIds(tasks)
    ensures (forall view: View :: DistinctGpus(view.current) ==> Agrees(tasks, view)) <==> NothingBeforeWhole(tasks)
  {
    if NothingBeforeWhole(tasks) {
      forall view: View | DistinctGpus(view.current)
        ensures Agrees(tasks, view)
      {
        BatchEqualsOneByOne(tasks, view);
      }
    } else {
      var n, j := CrowdOverlaps(tasks);
      CrowdDistinct(0, n);
      assert CrowdLike(CrowdView(n), 0, n);
      NamedOnce(tasks, j);
      OneByOneAlone(tasks, CrowdView(n), {}, tasks[j].id);
      assert !Agrees(tasks, CrowdView(n));
    }
  }
}
