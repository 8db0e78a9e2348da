/** What one tick of the task queue means, without reference to the order in which it works:
    a running task takes its first buffered completion, otherwise a running or reserved task takes
    its first runtime observation, and nothing else changes state. */
module TickMeaning {
  import opened Basics
  import opened Models
  import opened OrderedDicts
  import opened QueueSpec

  function FirstCompletion(cs: seq<Completion>, id: TaskId): Option<Completion> {
    if cs == [] then None else if cs[0].taskId == id then Some(cs[0]) else FirstCompletion(cs[1..], id)
  }

  function FirstRuntime(os: seq<RuntimeObservation>, id: TaskId): Option<RuntimeObservation> {
    if os == [] then None else if os[0].taskId == id then Some(os[0]) else FirstRuntime(os[1..], id)
  }

  /** The record a live task ends with in the coming tick, if it ends. */
  function Verdict(q: QueueState, id: TaskId): Option<Task> {
    if id in q.running.vals && FirstCompletion(q.completions, id).Some? then
      Some(EndedByCompletion(q.running.vals[id], FirstCompletion(q.completions, id).value))
    else if id in q.Live() && FirstRuntime(q.runtimes, id).Some? then
      Some(EndedByRuntime(q.Live()[id], FirstRuntime(q.runtimes, id).value))
    else None
  }

  lemma {:induction false} PopAbsent(d: OrderedDict<Task>, k: TaskId)
    requires d.Valid() && k !in d.vals
    ensures d.Pop(k) == d
  {
    assert d.vals - {k} == d.vals;
  }

  function Elems(ids: seq<TaskId>): set<TaskId> {
    set id | id in ids
  }

  /** `q1` is `q` after the live tasks in `ids` moved, in that order, to the terminal collection. */
  ghost predicate Moved(q: QueueState, q1: QueueState, ids: seq<TaskId>) {
    && NoDup(ids) && Elems(ids) <= q.Live().Keys
    && q1.queued == q.queued && q1.runtimes == q.runtimes
    && q1.running.vals == q.running.vals - Elems(ids)
    && q1.reserved.vals == q.reserved.vals - Elems(ids)
    && q1.terminal.order == q.terminal.order + ids
    && q1.terminal.vals.Keys == q.terminal.vals.Keys + Elems(ids)
    && q1.terminal.vals - Elems(ids) == q.terminal.vals
  }

  lemma {:induction false} MovedLive(q: QueueState, q1: QueueState, ids: seq<TaskId>)
    requires Moved(q, q1, ids)
    ensures q1.Live() == q.Live() - Elems(ids)
  {
  }

  lemma {:induction false} MovedNothing(q: QueueState)
    requires QueueInv(q)
    ensures Moved(q, q, [])
  {
    assert Elems([]) == {};
    assert q.terminal.vals - {} == q.terminal.vals;
    assert q.running.vals - {} == q.running.vals;
    assert q.reserved.vals - {} == q.reserved.vals;
  }

  lemma {:induction false} FinishedLive(q: QueueState, t: Task)
    requires QueueInv(q) && t.status.IsTerminal() && t.id in q.Live()
    ensures Moved(q, Finish(q, t), [t.id]) && Finish(q, t).terminal.vals[t.id] == t
  {
    PopAbsent(q.queued, t.id);
    assert Elems([t.id]) == {t.id};
    assert q.terminal.vals[t.id := t] - {t.id} == q.terminal.vals;
  }

  lemma {:induction false} NoDupConcat(a: seq<TaskId>, b: seq<TaskId>)
    requires NoDup(a) && NoDup(b) && Elems(a) !! Elems(b)
    ensures NoDup(a + b) && Elems(a + b) == Elems(a) + Elems(b)
  {
    forall x | x in a ensures x !in b { assert x in Elems(a); }
    ConcatNoDup(a, b);
  }

  lemma {:induction false} MovedConcat(q: QueueState, q1: QueueState, a: seq<TaskId>, q2: QueueState, b: seq<TaskId>)
    requires q.Live().Keys !! q.terminal.vals.Keys
    requires Moved(q, q1, a) && Moved(q1, q2, b)
    ensures Moved(q, q2, a + b)
    ensures Elems(a + b) == Elems(a) + Elems(b)
    ensures forall id :: id in Elems(a) ==> id in q1.terminal.vals && id in q2.terminal.vals && q2.terminal.vals[id] == q1.terminal.vals[id]
  {
    assert Elems(a) !! Elems(b) by {
      assert q1.Live().Keys == q.Live().Keys - Elems(a);
    }
    NoDupConcat(a, b);
    assert q2.running.vals == q.running.vals - Elems(a + b);
    assert q2.reserved.vals == q.reserved.vals - Elems(a + b);
    assert q2.terminal.order == q.terminal.order + (a + b);
    forall id | id in Elems(a)
      ensures id in q1.terminal.vals && id in q2.terminal.vals && q2.terminal.vals[id] == q1.terminal.vals[id]
    {
      assert id in q2.terminal.vals - Elems(b);
    }
    assert q2.terminal.vals - Elems(a + b) == (q2.terminal.vals - Elems(b)) - Elems(a);
  }

  /** `q1` and `ids` are what is left of `q` and who ended, once `cs` has been consumed. */
  ghost predicate AfterCompletions(q: QueueState, cs: seq<Completion>, q1: QueueState, ids: seq<TaskId>) {
    && Moved(q, q1, ids)
    && (forall id :: id in Elems(ids) <==> id in q.running.vals && FirstCompletion(cs, id).Some?)
    && (forall id :: id in Elems(ids) && id in q1.terminal.vals ==>
          q1.terminal.vals[id] == EndedByCompletion(q.running.vals[id], FirstCompletion(cs, id).value))
  }

  ghost predicate AfterRuntimes(q: QueueState, os: seq<RuntimeObservation>, q1: QueueState, ids: seq<TaskId>) {
    && Moved(q, q1, ids) && q1.completions == q.completions
    && (forall id :: id in Elems(ids) <==> id in q.Live() && FirstRuntime(os, id).Some?)
    && (forall id :: id in Elems(ids) && id in q1.terminal.vals ==>
          q1.terminal.vals[id] == EndedByRuntime(q.Live()[id], FirstRuntime(os, id).value))
  }

  lemma {:induction false} CompletionsStep(q: QueueState, cs: seq<Completion>, q1: QueueState, q2: QueueState,
        ids: seq<TaskId>)
    requires cs != [] && cs[0].taskId in q.running.vals
    requires q.Live().Keys !! q.terminal.vals.Keys && q.running.vals.Keys !! q.reserved.vals.Keys
    requires Moved(q, q1, [cs[0].taskId])
    requires q1.terminal.vals[cs[0].taskId] == EndedByCompletion(q.running.vals[cs[0].taskId], cs[0])
    requires AfterCompletions(q1, cs[1..], q2, ids)
    ensures AfterCompletions(q, cs, q2, [cs[0].taskId] + ids)
  {
    var id := cs[0].taskId;
    MovedConcat(q, q1, [id], q2, ids);
    assert Elems([id]) == {id};
    assert q1.running.vals == q.running.vals - {id};
    assert id in Elems([id]);
  }

  lemma {:induction false} RuntimesStep(q: QueueState, os: seq<RuntimeObservation>, q1: QueueState, q2: QueueState,
        ids: seq<TaskId>)
    requires os != [] && os[0].taskId in q.Live()
    requires q.Live().Keys !! q.terminal.vals.Keys && q.running.vals.Keys !! q.reserved.vals.Keys
    requires Moved(q, q1, [os[0].taskId])
    requires q1.terminal.vals[os[0].taskId] == EndedByRuntime(q.Live()[os[0].taskId], os[0])
    requires AfterRuntimes(q1, os[1..], q2, ids) && q1.completions == q.completions
    ensures AfterRuntimes(q, os, q2, [os[0].taskId] + ids)
  {
    var id := os[0].taskId;
    MovedConcat(q, q1, [id], q2, ids);
    assert Elems([id]) == {id};
    MovedLive(q, q1, [id]);
    forall k
      ensures k in Elems([id] + ids) <==> k in q.Live() && FirstRuntime(os, k).Some?
      ensures k in Elems([id] + ids) && k in q2.terminal.vals ==>
                q2.terminal.vals[k] == EndedByRuntime(q.Live()[k], FirstRuntime(os, k).value)
    {
      if k != id {
        assert k in Elems([id] + ids) <==> k in Elems(ids);
        assert k in q1.Live() <==> k in q.Live();
      }
    }
  }

  lemma {:induction false} CompletionsMeaning(q: QueueState, cs: seq<Completion>)
    requires QueueInv(q)
    ensures AfterCompletions(q, cs, ConsumeCompletions(q, cs).0, ConsumeCompletions(q, cs).1)
    decreases |cs|
  {
    if cs == [] {
      MovedNothing(q);
    } else if cs[0].taskId in q.running.vals {
      var ended := EndedByCompletion(q.running.vals[cs[0].taskId], cs[0]);
      var next := Finish(q, ended);
      FinishedLive(q, ended);
      CompletionsMeaning(next, cs[1..]);
      var (q2, ids) := ConsumeCompletions(next, cs[1..]);
      CompletionsStep(q, cs, next, q2, ids);
    } else {
      CompletionsMeaning(q, cs[1..]);
    }
  }

  lemma {:induction false} RuntimesMeaning(q: QueueState, os: seq<RuntimeObservation>)
    requires QueueInv(q)
    ensures AfterRuntimes(q, os, ConsumeRuntimes(q, os).0, ConsumeRuntimes(q, os).1)
    decreases |os|
  {
    if os == [] {
      MovedNothing(q);
    } else if os[0].taskId in q.Live() {
      var ended := EndedByRuntime(q.Live()[os[0].taskId], os[0]);
      var next := Finish(q, ended);
      FinishedLive(q, ended);
      RuntimesMeaning(next, os[1..]);
      var (q2, ids) := ConsumeRuntimes(next, os[1..]);
      RuntimesStep(q, os, next, q2, ids);
    } else {
      RuntimesMeaning(q, os[1..]);
    }
  }

  /** The ids of the terminal tasks after a tick, before the cap: the unreported old ones, then the new ones. */
  function Candidates(q: QueueState): seq<TaskId>
    requires QueueInv(q)
  {
    UnreportedIds(q.terminal.order, q.terminal.vals) + Tick(q).1
  }

  lemma {:induction false} VerdictsTogether(q: QueueState, q1: QueueState, a: seq<TaskId>, q2: QueueState,
        b: seq<TaskId>)
    requires q.Live().Keys !! q.terminal.vals.Keys && q.running.vals.Keys !! q.reserved.vals.Keys
    requires AfterCompletions(q, q.completions, q1, a) && AfterRuntimes(q1, q.runtimes, q2, b)
    ensures Moved(q, q2, a + b) && q2.completions == q1.completions
    ensures forall id :: id in Elems(a + b) <==> Verdict(q, id).Some?
    ensures forall id :: id in Elems(a + b) && id in q2.terminal.vals ==> q2.terminal.vals[id] == Verdict(q, id).value
  {
    MovedConcat(q, q1, a, q2, b);
    MovedLive(q, q1, a);
    forall id
      ensures id in Elems(a + b) <==> Verdict(q, id).Some?
      ensures id in Elems(a + b) && id in q2.terminal.vals ==> q2.terminal.vals[id] == Verdict(q, id).value
    {
      assert id in Elems(a + b) <==> id in Elems(a) || id in Elems(b);
      if id in Elems(a) {
      } else if id in q.Live() {
        assert id in q1.Live() && q1.Live()[id] == q.Live()[id];
      }
    }
  }

  lemma {:induction false} ConsumedMeaning(q: QueueState)
    requires QueueInv(q)
    ensures var (q1, a) := ConsumeCompletions(q, q.completions);
      var (q2, b) := ConsumeRuntimes(q1.(completions := []), q1.runtimes);
      && Moved(q, q2, a + b) && q2.completions == []
      && (forall id :: id in Elems(a + b) <==> Verdict(q, id).Some?)
      && (forall id :: id in Elems(a + b) && id in q2.terminal.vals ==> q2.terminal.vals[id] == Verdict(q, id).value)
  {
    var (q0, a) := ConsumeCompletions(q, q.completions);
    var q1 := q0.(completions := []);
    var (q2, b) := ConsumeRuntimes(q1, q1.runtimes);
    CompletionsMeaning(q, q.completions);
    RuntimesMeaning(q1, q1.runtimes);
    VerdictsTogether(q, q1, a, q2, b);
  }

  /** One tick, exactly. No id is returned twice; the returned tasks are those with a verdict; every other
      live task is untouched; the terminal collection is the newest 64 of the unreported old tasks followed by
      the new ones, each new one carrying its verdict. */
  lemma {:induction false} TickCorrect(q: QueueState)
    requires QueueInv(q)
    ensures var (r, ended) := Tick(q); var all := Candidates(q);
      && NoDup(ended)
      && (forall id :: id in ended <==> Verdict(q, id).Some?)
      && r.queued == q.queued && r.completions == [] && r.runtimes == []
      && r.running.vals == q.running.vals - Elems(ended)
      && r.reserved.vals == q.reserved.vals - Elems(ended)
      && r.terminal.order == all[if |all| > MAX_TERMINAL then |all| - MAX_TERMINAL else 0..]
      && (forall id :: id in r.terminal.vals ==>
            Verdict(q, id).Some? || id in q.terminal.vals)
      && (forall id :: id in r.terminal.vals ==>
            r.terminal.vals[id] == if Verdict(q, id).Some? then Verdict(q, id).value else q.terminal.vals[id])
  {
    var (q1, a) := ConsumeCompletions(q, q.completions);
    var (q2, b) := ConsumeRuntimes(q1.(completions := []), q1.runtimes);
    ConsumedMeaning(q);
    forall id
      ensures id in a + b <==> Verdict(q, id).Some?
    {
      assert id in Elems(a + b) <==> id in a + b;
    }
    TerminalAfterTick(q, q2, a + b);
  }

  lemma {:induction false} KeptAreUnreported(q: QueueState, id: TaskId)
    requires QueueInv(q) && id in Tick(q).0.terminal.vals
    ensures !Tick(q).0.terminal.vals[id].reportedSinceTerminal
  {
    var q1 := ConsumeCompletions(q, q.completions).0.(completions := []);
    CappedIsSuffix(Unreported(ConsumeRuntimes(q1, q1.runtimes).0.terminal));
  }

  lemma {:induction false} TerminalAfterTick(q: QueueState, q2: QueueState, ended: seq<TaskId>)
    requires QueueInv(q) && Moved(q, q2, ended) && q2.terminal.Valid()
    requires forall id :: id in Elems(ended) <==> Verdict(q, id).Some?
    requires forall id :: id in Elems(ended) && id in q2.terminal.vals ==> q2.terminal.vals[id] == Verdict(q, id).value
    ensures var r := Capped(Unreported(q2.terminal));
      var all := UnreportedIds(q.terminal.order, q.terminal.vals) + ended;
      && r.order == all[if |all| > MAX_TERMINAL then |all| - MAX_TERMINAL else 0..]
      && (forall id :: id in r.vals ==> Verdict(q, id).Some? || id in q.terminal.vals)
      && (forall id :: id in r.vals ==>
            r.vals[id] == if Verdict(q, id).Some? then Verdict(q, id).value else q.terminal.vals[id])
  {
    NewOnesUnreported(q, q2, ended);
    CappedIsSuffix(Unreported(q2.terminal));
    var r := Capped(Unreported(q2.terminal));
    forall id | id in r.vals
      ensures Verdict(q, id).Some? || id in q.terminal.vals
      ensures r.vals[id] == if Verdict(q, id).Some? then Verdict(q, id).value else q.terminal.vals[id]
    {
      assert r.vals[id] == q2.terminal.vals[id];
      MovedEntry(q, q2, ended, id);
    }
  }

  lemma {:induction false} MovedEntry(q: QueueState, q2: QueueState, ended: seq<TaskId>, id: TaskId)
    requires Moved(q, q2, ended) && id in q2.terminal.vals
    requires id in Elems(ended) <==> Verdict(q, id).Some?
    requires id in Elems(ended) ==> q2.terminal.vals[id] == Verdict(q, id).value
    ensures Verdict(q, id).Some? || id in q.terminal.vals
    ensures q2.terminal.vals[id] == if Verdict(q, id).Some? then Verdict(q, id).value else q.terminal.vals[id]
  {
    if id !in Elems(ended) {
      assert id in q2.terminal.vals - Elems(ended);
    }
  }

  lemma {:induction false} AllUnreported(b: seq<TaskId>, vals: map<TaskId, Task>)
    requires forall k :: k in b ==> k in vals && !vals[k].reportedSinceTerminal
    ensures UnreportedIds(b, vals) == b
  {
    if b != [] {
      AllUnreported(b[1..], vals);
    }
  }

  lemma {:induction false} UnreportedConcat(a: seq<TaskId>, b: seq<TaskId>, vals: map<TaskId, Task>)
    requires forall k :: k in a + b ==> k in vals
    requires forall k :: k in b ==> !vals[k].reportedSinceTerminal
    ensures (forall k :: k in a ==> k in vals) && UnreportedIds(a + b, vals) == UnreportedIds(a, vals) + b
  {
    forall k | k in a ensures k in vals { assert k in a + b; }
    if a == [] {
      AllUnreported(b, vals);
      assert a + b == b;
    } else {
      assert (a + b)[1..] == a[1..] + b;
      UnreportedConcat(a[1..], b, vals);
    }
  }

  lemma {:induction false} UnreportedSame(a: seq<TaskId>, vals: map<TaskId, Task>, vals': map<TaskId, Task>)
    requires forall k :: k in a ==> k in vals && k in vals' && vals[k] == vals'[k]
    ensures UnreportedIds(a, vals) == UnreportedIds(a, vals')
  {
    if a != [] {
      UnreportedSame(a[1..], vals, vals');
    }
  }

  lemma {:induction false} VerdictUnreported(q: QueueState, q2: QueueState, k: TaskId)
    requires Verdict(q, k).Some? && k in q2.terminal.vals && q2.terminal.vals[k] == Verdict(q, k).value
    ensures !q2.terminal.vals[k].reportedSinceTerminal
  {
  }

  lemma {:induction false} NewOnesUnreported(q: QueueState, q2: QueueState, ended: seq<TaskId>)
    requires QueueInv(q) && Moved(q, q2, ended)
    requires q2.terminal.Valid()
    requires forall id :: id in Elems(ended) ==> Verdict(q, id).Some? && q2.terminal.vals[id] == Verdict(q, id).value
    ensures Unreported(q2.terminal).order == UnreportedIds(q.terminal.order, q.terminal.vals) + ended
  {
    forall k | k in ended
      ensures k in q2.terminal.vals && !q2.terminal.vals[k].reportedSinceTerminal
    {
      VerdictUnreported(q, q2, k);
    }
    forall k | k in q.terminal.order
      ensures k in q2.terminal.vals && q2.terminal.vals[k] == q.terminal.vals[k]
    {
      assert k in q2.terminal.vals - Elems(ended);
    }
    UnreportedConcat(q.terminal.order, ended, q2.terminal.vals);
    UnreportedSame(q.terminal.order, q2.terminal.vals, q.terminal.vals);
  }

  /** The branch that skips an already terminal task is never taken: running and reserved tasks are not terminal. */
  lemma {:induction false} TerminalSkipUnreachable(q: QueueState, id: TaskId)
    requires QueueInv(q) && id in q.Live()
    ensures !q.Live()[id].status.IsTerminal()
  {
  }
}
