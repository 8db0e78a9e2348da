/** The declared memory that a set of live tasks puts on one GPU. */
module Loads {
  import opened Basics
  import opened Models
  import opened Attribution
  import Scheduling

  function Contribution(t: Task, g: int): int {
    if AssignedTo(t, g) then Declared(t, g) else 0
  }

  /** Declared memory of all tasks in `live` assigned to GPU `g`. */
  ghost function Load(live: map<TaskId, Task>, g: int): int {
    if live == map[] then 0
    else
      var k :| k in live;
      Contribution(live[k], g) + Load(live - {k}, g)
  }

  /** The sum does not depend on the order in which the tasks are taken. */
  lemma {:induction false} LoadSplit(live: map<TaskId, Task>, k: TaskId, g: int)
    requires k in live
    ensures Load(live, g) == Contribution(live[k], g) + Load(live - {k}, g)
    decreases |live|
  {
    var p :| p in live && Load(live, g) == Contribution(live[p], g) + Load(live - {p}, g);
    if p != k {
      LoadSplit(live - {p}, k, g);
      LoadSplit(live - {k}, p, g);
      assert live - {p} - {k} == live - {k} - {p};
    }
  }

  lemma {:induction false} LoadAdd(live: map<TaskId, Task>, k: TaskId, t: Task, g: int)
    requires k !in live
    ensures Load(live[k := t], g) == Load(live, g) + Contribution(t, g)
  {
    LoadSplit(live[k := t], k, g);
    assert live[k := t] - {k} == live;
  }

  /** Dropping tasks and keeping the contributions of the rest cannot raise the load. */
  lemma {:induction false} LoadShrinks(live: map<TaskId, Task>, next: map<TaskId, Task>, g: int)
    requires next.Keys <= live.Keys
    requires forall k :: k in next ==> Contribution(next[k], g) == Contribution(live[k], g)
    requires forall k :: k in live ==> Contribution(live[k], g) >= 0
    ensures Load(next, g) <= Load(live, g)
    decreases |live|
  {
    if live != map[] {
      var k :| k in live;
      LoadSplit(live, k, g);
      LoadShrinks(live - {k}, next - {k}, g);
      if k in next {
        LoadSplit(next, k, g);
      } else {
        assert next - {k} == next;
      }
    }
  }

  lemma {:induction false} LoadNone(live: map<TaskId, Task>, g: int)
    requires forall k :: k in live ==> Contribution(live[k], g) == 0
    ensures Load(live, g) == 0
    decreases |live|
  {
    if live != map[] {
      var k :| k in live;
      LoadSplit(live, k, g);
      LoadNone(live - {k}, g);
    }
  }

  lemma {:induction false} LoadOnlyOne(live: map<TaskId, Task>, k: TaskId, g: int)
    requires k in live && forall j :: j in live && j != k ==> Contribution(live[j], g) == 0
    ensures Load(live, g) == Contribution(live[k], g)
  {
    LoadSplit(live, k, g);
    LoadNone(live - {k}, g);
  }

  // ---------------------------------------------------------------------------
  // The ledger counts at least the load
  // ---------------------------------------------------------------------------

  ghost predicate ListedAt(allocations: seq<TaskAllocation>, t: Task, g: int, i: int)
    requires 0 <= i < |allocations|
  {
    allocations[i].taskId == t.id && allocations[i].declaredMb == Declared(t, g)
  }

  ghost predicate Listed(allocations: seq<TaskAllocation>, t: Task, g: int) {
    exists i :: 0 <= i < |allocations| && ListedAt(allocations, t, g, i)
  }

  lemma {:induction false} ManagedWithout(s: seq<TaskAllocation>, i: nat)
    requires i < |s|
    ensures Scheduling.ManagedMb(s)
         == Scheduling.ManagedMb(s[..i] + s[i + 1..]) + (if s[i].declaredMb > 0 then s[i].declaredMb else 0)
    decreases |s|
  {
    var r := s[..i] + s[i + 1..];
    if i == |s| - 1 {
      assert r == Init(s);
    } else {
      ManagedWithout(Init(s), i);
      assert Init(r) == Init(s)[..i] + Init(s)[i + 1..];
      assert Last(r) == Last(s);
    }
  }

  lemma {:induction false} ListedWithout(s: seq<TaskAllocation>, i: nat, t: Task, g: int)
    requires i < |s| && Listed(s, t, g) && s[i].taskId != t.id
    ensures Listed(s[..i] + s[i + 1..], t, g)
  {
    var r := s[..i] + s[i + 1..];
    var j :| 0 <= j < |s| && ListedAt(s, t, g, j);
    assert ListedAt(r, t, g, if j < i then j else j - 1);
  }

  /** If every live task on the GPU is listed with its declaration, the ledger's managed memory covers the load. */
  lemma {:induction false} ManagedCoversLoad(live: map<TaskId, Task>, allocations: seq<TaskAllocation>, g: int)
    requires forall k :: k in live ==> live[k].id == k
    requires forall k :: k in live && AssignedTo(live[k], g) ==> Listed(allocations, live[k], g)
    ensures Load(live, g) <= Scheduling.ManagedMb(allocations)
    decreases |live|
  {
    if live != map[] {
      var k :| k in live;
      LoadSplit(live, k, g);
      var rest := live - {k};
      if AssignedTo(live[k], g) {
        var i :| 0 <= i < |allocations| && ListedAt(allocations, live[k], g, i);
        ManagedWithout(allocations, i);
        var fewer := allocations[..i] + allocations[i + 1..];
        forall j | j in rest && AssignedTo(rest[j], g)
          ensures Listed(fewer, rest[j], g)
        {
          assert live[j] == rest[j] && live[j].id == j;
          ListedWithout(allocations, i, rest[j], g);
        }
        ManagedCoversLoad(rest, fewer, g);
      } else {
        ManagedCoversLoad(rest, allocations, g);
      }
    }
  }
}
