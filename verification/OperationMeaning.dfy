/** What the daemon's operations do to the task they name and to the others, in plain terms. */
module OperationMeaning {
  import opened Basics
  import opened Models
  import opened OrderedDicts
  import opened QueueSpec
  import opened Node
  import NodeSafety
  import TickMeaning

  /** The task is known and was submitted to run in the foreground. */
  predicate KnownForeground(q: QueueState, id: TaskId) {
    || (id in q.queued.vals && q.queued.vals[id].launchMode.Foreground?)
    || (id in q.reserved.vals && q.reserved.vals[id].launchMode.Foreground?)
    || (id in q.running.vals && q.running.vals[id].launchMode.Foreground?)
    || (id in q.terminal.vals && q.terminal.vals[id].launchMode.Foreground?)
  }

  /** Nothing that waits for the next tick is about the task. */
  predicate NothingPending(q: QueueState, id: TaskId) {
    (forall c :: c in q.completions ==> c.taskId != id) && (forall o :: o in q.runtimes ==> o.taskId != id)
  }

  /** The task keeps its place and its record, except that an ended one may be dropped. */
  predicate Kept(q: QueueState, r: QueueState, k: TaskId) {
    && (k in r.queued.vals <==> k in q.queued.vals) && (k in q.queued.vals ==> r.queued.vals[k] == q.queued.vals[k])
    && (k in r.reserved.vals <==> k in q.reserved.vals) && (k in q.reserved.vals ==> r.reserved.vals[k] == q.reserved.vals[k])
    && (k in r.running.vals <==> k in q.running.vals) && (k in q.running.vals ==> r.running.vals[k] == q.running.vals[k])
    && (k in r.terminal.vals ==> k in q.terminal.vals && r.terminal.vals[k] == q.terminal.vals[k])
  }

  /** The task is live no longer, and its record, while it is listed, says how, why and when it ended. */
  predicate EndedAs(q: QueueState, r: QueueState, id: TaskId, status: TaskStatus, reason: EndReason, at: real,
        exitCode: Option<int>) {
    && id in q.Live() && id !in r.Live() && id !in r.queued.vals
    && (id in r.terminal.vals ==> r.terminal.vals[id] == Ended(q.Live()[id], status, reason, at, exitCode))
  }

  function Ended(t: Task, status: TaskStatus, reason: EndReason, at: real, exitCode: Option<int>): Task {
    t.(status := status, endReason := Some(reason), finishedAt := Some(at), exitCode := exitCode,
       reportedSinceTerminal := false)
  }

  predicate StartedAs(q: QueueState, r: QueueState, id: TaskId, pid: int, now: real)
    requires id in q.reserved.vals
  {
    && id !in r.reserved.vals && id in r.running.vals
    && r.running.vals[id] == q.reserved.vals[id].(status := Running, pid := Some(pid), startedAt := Some(now))
  }

  predicate CancelledAs(r: QueueState, id: TaskId, now: real) {
    && id !in r.Live() && id !in r.queued.vals && id in r.terminal.vals
    && r.terminal.vals[id].status.Cancelled? && r.terminal.vals[id].finishedAt == Some(now)
    && r.terminal.vals[id].endReason == Some(CancelledByUser) && r.terminal.vals[id].exitCode.None?
  }

  function ExitStatus(exitCode: int): TaskStatus {
    if exitCode == 0 then Succeeded else Failed
  }

  function ExitReason(exitCode: int): EndReason {
    if exitCode == 0 then ExitZero else ExitNonzero
  }

  lemma {:induction false} NoneFor(cs: seq<Completion>, os: seq<RuntimeObservation>, id: TaskId)
    requires (forall c :: c in cs ==> c.taskId != id) && (forall o :: o in os ==> o.taskId != id)
    ensures TickMeaning.FirstCompletion(cs, id).None? && TickMeaning.FirstRuntime(os, id).None?
    decreases |cs| + |os|
  {
    if cs != [] { NoneFor(cs[1..], os, id); }
    if os != [] { NoneFor(cs, os[1..], id); }
  }

  lemma {:induction false} FirstAppended(cs: seq<Completion>, c: Completion, id: TaskId)
    requires forall d :: d in cs ==> d.taskId != id
    ensures TickMeaning.FirstCompletion(cs + [c], id) == if c.taskId == id then Some(c) else None
    decreases |cs|
  {
    if cs == [] {
      assert cs + [c] == [c] && [c][1..] == [];
    } else {
      assert (cs + [c])[1..] == cs[1..] + [c];
      FirstAppended(cs[1..], c, id);
    }
  }

  lemma {:induction false} FirstObserved(os: seq<RuntimeObservation>, o: RuntimeObservation, id: TaskId)
    requires forall p :: p in os ==> p.taskId != id
    ensures TickMeaning.FirstRuntime(os + [o], id) == if o.taskId == id then Some(o) else None
    decreases |os|
  {
    if os == [] {
      assert os + [o] == [o] && [o][1..] == [];
    } else {
      assert (os + [o])[1..] == os[1..] + [o];
      FirstObserved(os[1..], o, id);
    }
  }

  lemma {:induction false} TickKeeps(q: QueueState, k: TaskId)
    requires QueueInv(q) && TickMeaning.Verdict(q, k).None?
    ensures Kept(q, Tick(q).0, k)
  {
    TickMeaning.TickCorrect(q);
    assert k in TickMeaning.Elems(Tick(q).1) <==> k in Tick(q).1;
  }

  lemma {:induction false} TickEnds(q: QueueState, k: TaskId, status: TaskStatus, reason: EndReason, at: real,
        exitCode: Option<int>)
    requires QueueInv(q) && k in q.Live()
    requires TickMeaning.Verdict(q, k) == Some(AsEnded(q.Live()[k], status, reason, at, exitCode))
    ensures EndedAs(q, Tick(q).0, k, status, reason, at, exitCode)
  {
    TickMeaning.TickCorrect(q);
    assert k in TickMeaning.Elems(Tick(q).1) <==> k in Tick(q).1;
  }

  lemma {:induction false} CompletionEnds(q: QueueState, id: TaskId, exitCode: int, now: real)
    requires QueueInv(q) && id in q.running.vals && NothingPending(q, id)
    ensures var q' := q.(completions := q.completions + [Completion(id, exitCode, now)]);
      EndedAs(q, Tick(q').0, id, ExitStatus(exitCode), ExitReason(exitCode), now, Some(exitCode))
  {
    var q' := q.(completions := q.completions + [Completion(id, exitCode, now)]);
    FirstAppended(q.completions, Completion(id, exitCode, now), id);
    assert q'.Live() == q.Live();
    TickEnds(q', id, ExitStatus(exitCode), ExitReason(exitCode), now, Some(exitCode));
  }

  lemma {:induction false} CompletionKeeps(q: QueueState, c: Completion, k: TaskId)
    requires QueueInv(q) && k != c.taskId && NothingPending(q, k)
    ensures Kept(q, Tick(q.(completions := q.completions + [c])).0, k)
  {
    FirstAppended(q.completions, c, k);
    NoneFor([], q.runtimes, k);
    TickKeeps(q.(completions := q.completions + [c]), k);
  }

  lemma {:induction false} FinishDoes(s: NodeState, id: TaskId, exitCode: int, now: real, cfg: Config) returns (r: QueueState)
    requires QueueInv(s.q)
    ensures Do(s, FinishStep(id, exitCode, now), cfg) == s.(q := r)
    ensures r == if KnownForeground(s.q, id) then
                   Tick(s.q.(completions := s.q.completions + [Completion(id, exitCode, now)])).0
                 else s.q
  {
    r := Do(s, FinishStep(id, exitCode, now), cfg).q;
  }

  /** Finishing a task does nothing unless it is known and runs in the foreground. A running one that nothing else is pending
      about ends at once, as succeeded exactly for exit code 0; every other task that nothing is pending about stays. */
  lemma {:induction false} FinishExactly(s: NodeState, id: TaskId, exitCode: int, now: real, cfg: Config, k: TaskId)
    requires QueueInv(s.q)
    ensures var r := Do(s, FinishStep(id, exitCode, now), cfg);
      && (!KnownForeground(s.q, id) ==> r == s)
      && (KnownForeground(s.q, id) && id in s.q.running.vals && NothingPending(s.q, id) ==>
            EndedAs(s.q, r.q, id, ExitStatus(exitCode), ExitReason(exitCode), now, Some(exitCode)))
      && (k != id && NothingPending(s.q, k) ==> Kept(s.q, r.q, k))
  {
    var r := FinishDoes(s, id, exitCode, now, cfg);
    if id in s.q.running.vals && NothingPending(s.q, id) { CompletionEnds(s.q, id, exitCode, now); }
    if k != id && NothingPending(s.q, k) { CompletionKeeps(s.q, Completion(id, exitCode, now), k); }
  }

  /** A failed foreground launch does nothing unless the task is reserved in the foreground. One that nothing else is pending
      about ends at once as abnormal; every other task that nothing is pending about stays. */
  lemma {:induction false} FailExactly(s: NodeState, id: TaskId, now: real, cfg: Config, k: TaskId)
    requires QueueInv(s.q)
    ensures var r := Do(s, FailStep(id, now), cfg); var here := id in s.q.reserved.vals && KnownForeground(s.q, id);
      && (!here ==> r == s)
      && (here && NothingPending(s.q, id) ==> EndedAs(s.q, r.q, id, Abnormal, LaunchFailed, now, None))
      && (k != id && NothingPending(s.q, k) ==> Kept(s.q, r.q, k))
  {
    var o := RuntimeObservation(id, LaunchFailed, now);
    var q := s.q.(runtimes := s.q.runtimes + [o]);
    if NothingPending(s.q, id) {
      FirstObserved(s.q.runtimes, o, id);
      NoneFor(s.q.completions, [], id);
      if id in s.q.reserved.vals { TickEnds(q, id, Abnormal, LaunchFailed, now, None); }
    }
    if k != id && NothingPending(s.q, k) {
      FirstObserved(s.q.runtimes, o, k);
      NoneFor(s.q.completions, [], k);
      TickKeeps(q, k);
    }
  }

  /** Confirming a launch starts a reserved task with that pid at that time, and otherwise does nothing; other tasks stay. */
  lemma {:induction false} ConfirmExactly(s: NodeState, id: TaskId, pid: int, now: real, cfg: Config, k: TaskId)
    requires QueueInv(s.q)
    ensures var r := Do(s, ConfirmStep(id, pid, now), cfg);
      && (id !in s.q.reserved.vals ==> r == s)
      && (id in s.q.reserved.vals ==> StartedAs(s.q, r.q, id, pid, now))
      && (k != id ==> Kept(s.q, r.q, k))
  {
  }

  /** Cancelling a known task ends it as cancelled at that time; an unknown one changes nothing; other tasks stay. */
  lemma {:induction false} CancelExactly(s: NodeState, id: TaskId, now: real, cfg: Config, k: TaskId)
    requires QueueInv(s.q)
    ensures var r := Do(s, CancelStep(id, now), cfg);
      && (id !in s.q.Ids() ==> r == s)
      && (id in s.q.Ids() ==> CancelledAs(r.q, id, now))
      && (k != id ==> Kept(s.q, r.q, k))
  {
    if id in s.q.Ids() {
      var t := s.q.Get(id).value;
      assert t.id == id;
      NodeSafety.FinishPlaces(s.q, AsEnded(t, Cancelled, CancelledByUser, now, None));
    }
  }

  /** A priority is stored with a queued task; nothing else changes but the order of the queue. */
  lemma {:induction false} PriorityExactly(s: NodeState, id: TaskId, priority: int, cfg: Config, k: TaskId)
    requires QueueInv(s.q)
    ensures var r := Do(s, PriorityStep(id, priority), cfg);
      && (id !in s.q.queued.vals ==> r == s)
      && (id in s.q.queued.vals ==> id in r.q.queued.vals && r.q.queued.vals[id] == s.q.queued.vals[id].(priority := priority))
      && (k != id ==> Kept(s.q, r.q, k))
  {
    if id in s.q.queued.vals {
      assert SetPriority(s.q, id, priority).queued.vals == s.q.queued.vals[id := s.q.queued.vals[id].(priority := priority)];
    }
  }

  /** After a tick at most 64 ended tasks are listed; if no more are left over than that, all of them are. */
  lemma {:induction false} AtMostSixtyFour(q: QueueState)
    requires QueueInv(q)
    ensures var r, all := Tick(q).0, TickMeaning.Candidates(q);
      && |r.terminal.order| <= 64
      && (|all| <= 64 ==> r.terminal.order == all)
      && (|all| > 64 ==> |r.terminal.order| == 64 && r.terminal.order == all[|all| - 64..])
  {
    TickMeaning.TickCorrect(q);
  }
}
