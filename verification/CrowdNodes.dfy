/** Snapshots of a crowd of small idle cards that no live task uses. */
module CrowdNodes {
  import opened Basics
  import opened Models
  import opened OrderedDicts
  import opened QueueSpec
  import opened Attribution
  import opened Node
  import BatchLimit

  function CrowdCard(base: int, i: int): GpuCard {
    GpuCard(base + i, 1.0, 0.0, 0.0)
  }

  function CrowdCards(base: int, n: nat): (r: seq<GpuCard>)
    ensures |r| == n && forall i :: 0 <= i < n ==> r[i] == CrowdCard(base, i)
  {
    seq(n, i requires 0 <= i < n => CrowdCard(base, i))
  }

  predicate InCrowd(base: int, n: nat, g: int) {
    base <= g < base + n
  }

  function Interval(base: int, n: nat): set<int> {
    set g | base <= g < base + n && InCrowd(base, n, g)
  }

  lemma {:induction false} CrowdTable(base: int, n: nat, value: GpuCard -> real, v: real)
    requires forall i :: 0 <= i < n ==> value(CrowdCard(base, i)) == v
    ensures var m := CardTable(CrowdCards(base, n), value);
      m.Keys == Interval(base, n) && forall g :: g in m ==> m[g] == v
    decreases n
  {
    if n > 0 {
      var cards := CrowdCards(base, n);
      assert Init(cards) == CrowdCards(base, n - 1);
      assert Last(cards) == CrowdCard(base, n - 1);
      CrowdTable(base, n - 1, value, v);
      assert Interval(base, n) == Interval(base, n - 1) + {base + n - 1};
    }
  }

  lemma {:induction false} CrowdReadings(base: int, n: nat, g: int)
    requires base <= g < base + n
    ensures var m := Readings(CrowdCards(base, n));
      && GpuIndices([], m) == Interval(base, n)
      && MapGet(m.memory, g) == 1.0 && MapGet(m.used.value, g) == 0.0 && MapGet(m.utilization.value, g) == 0.0
  {
    CrowdTable(base, n, (c: GpuCard) => c.totalMb, 1.0);
    CrowdTable(base, n, (c: GpuCard) => c.usedMb, 0.0);
    CrowdTable(base, n, (c: GpuCard) => c.utilization, 0.0);
  }

  /** An increasing list of all numbers of an interval. */
  lemma {:induction false} IntervalInOrder(r: seq<int>, base: int, n: nat)
    requires forall x :: x in r <==> base <= x < base + n
    requires forall i, j :: 0 <= i < j < |r| ==> r[i] < r[j]
    ensures |r| == n && forall i :: 0 <= i < n ==> r[i] == base + i
    decreases n
  {
    if n == 0 {
      NoElements(r);
    } else {
      assert base in r;
      assert r[0] in r;
      forall x
        ensures x in r[1..] <==> base + 1 <= x < base + n
      {
        if x in r && x != r[0] { assert x in r[1..]; }
        if x in r[1..] {
          var k :| 0 <= k < |r[1..]| && r[1..][k] == x;
          assert r[0] < r[k + 1];
        }
      }
      IntervalInOrder(r[1..], base + 1, n - 1);
      forall i | 0 <= i < n
        ensures r[i] == base + i
      {
        if i > 0 { assert r[i] == r[1..][i - 1]; }
      }
    }
  }

  ghost predicate NoneOn(pairs: seq<(Task, int)>, g: int) {
    forall i :: 0 <= i < |pairs| ==> pairs[i].1 != g
  }

  lemma {:induction false} NoneSilent(observed: set<(TaskId, int)>, pairs: seq<(Task, int)>, g: int)
    requires NoneOn(pairs, g)
    ensures SilentAllocations(observed, pairs, g) == []
    decreases |pairs|
  {
    if pairs != [] { NoneSilent(observed, Init(pairs), g); }
  }

  lemma {:induction false} NoneClaims(tasks: seq<Task>, g: int)
    requires forall t :: t in tasks ==> !AssignedTo(t, g)
    ensures NoneOn(Claims(tasks), g)
    decreases |tasks|
  {
    if tasks != [] {
      var last := Last(tasks);
      assert last in tasks;
      NoneClaims(Init(tasks), g);
      assert NoneOn(PairsOf(last, last.assignedGpus.GetOr([])), g);
    }
  }

  /** A card without processes and claims shows nothing. */
  lemma {:induction false} CardShowsNothing(tasks: seq<Task>, base: int, n: nat, g: int)
    requires base <= g < base + n && forall t :: t in tasks ==> !AssignedTo(t, g)
    ensures SummaryOf(PidOwners(tasks), [], tasks, Readings(CrowdCards(base, n)), g) == BatchLimit.SmallCard(g)
  {
    CrowdReadings(base, n, g);
    NoneClaims(tasks, g);
    NoneSilent(Observed(PidOwners(tasks), []), Claims(tasks), g);
  }

  /** No live task uses a card from `base` on. */
  ghost predicate AllBelow(live: map<TaskId, Task>, base: int) {
    forall k, g :: k in live && AssignedTo(live[k], g) ==> g < base
  }

  lemma {:induction false} ListedAreLive(q: QueueState, t: Task) returns (k: TaskId)
    requires QueueInv(q) && t in GpuTasks(q)
    ensures k in q.Live() && q.Live()[k] == t
  {
    var i :| 0 <= i < |GpuTasks(q)| && GpuTasks(q)[i] == t;
    var n := |q.running.order|;
    k := if i < n then q.running.order[i] else q.reserved.order[i - n];
  }

  lemma {:induction false} CrowdIndices(base: int, n: nat)
    requires n > 0
    ensures var r := SortedInts(GpuIndices([], Readings(CrowdCards(base, n))));
      |r| == n && forall i :: 0 <= i < n ==> r[i] == base + i
  {
    CrowdReadings(base, n, base);
    IntervalInOrder(SortedInts(GpuIndices([], Readings(CrowdCards(base, n)))), base, n);
  }

  ghost predicate Unused(tasks: seq<Task>, base: int) {
    forall t, g :: t in tasks && AssignedTo(t, g) ==> g < base
  }

  lemma {:induction false} SummaryAt(tasks: seq<Task>, m: NodeReadings, i: nat, g: int)
    requires i < |SortedInts(GpuIndices([], m))| && SortedInts(GpuIndices([], m))[i] == g
    ensures |Attributed([], tasks, m)| == |SortedInts(GpuIndices([], m))|
    ensures Attributed([], tasks, m)[i] == SummaryOf(PidOwners(tasks), [], tasks, m, g)
  {
  }

  lemma {:induction false} CrowdAttributed(tasks: seq<Task>, base: int, n: nat)
    requires n > 0 && Unused(tasks, base)
    ensures Attributed([], tasks, Readings(CrowdCards(base, n))) == BatchLimit.Crowd(base, n)
  {
    var m := Readings(CrowdCards(base, n));
    var r, crowd := Attributed([], tasks, m), BatchLimit.Crowd(base, n);
    CrowdIndices(base, n);
    forall i | 0 <= i < n
      ensures |r| == n && r[i] == crowd[i]
    {
      SummaryAt(tasks, m, i, base + i);
      CardShowsNothing(tasks, base, n, base + i);
    }
    assert |r| == n;
  }

  /** The snapshot of the crowd is the crowd, whatever the live tasks hold elsewhere. */
  lemma {:induction false} CrowdSample(q: QueueState, base: int, n: nat)
    requires QueueInv(q) && AllBelow(q.Live(), base)
    ensures SampleOf(q, CrowdCards(base, n), []) == BatchLimit.Crowd(base, n)
  {
    if n > 0 {
      forall t, g | t in GpuTasks(q) && AssignedTo(t, g)
        ensures g < base
      {
        var k := ListedAreLive(q, t);
      }
      CrowdAttributed(GpuTasks(q), base, n);
    }
  }
}
