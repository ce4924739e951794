/**
 * The one-slot deferred-call scheduler of qedarray.js (post_ and
 * executeEvents_).  A single global slot holds the continuation to run next;
 * posting onto a full slot logs a message and overwrites it, and the event
 * loop empties the slot before running what it held, until nothing is pending.
 *
 * A continuation is an opaque task; what running it does to the scheduler is
 * the list of tasks it posts, in order (`run`).  Nothing in the source bounds
 * how long the loop runs, so the model takes a rank that every surviving post
 * lowers.
 */
module Scheduler {

  datatype Option<T> = None | Some(value: T)

  /** The slot after posting each of `posts` in turn: the last post survives. */
  function AfterPosts<Task>(slot: Option<Task>, posts: seq<Task>): Option<Task>
  {
    if |posts| == 0 then slot else Some(posts[|posts| - 1])
  }

  /** How many of `posts` find the slot full: all of them if it starts full, all but the first otherwise. */
  function Overwrites<Task>(slot: Option<Task>, posts: seq<Task>): nat
  {
    if |posts| == 0 then 0 else if slot.Some? then |posts| else |posts| - 1
  }

  /** Every run that posts something leaves a last post of lower rank. */
  ghost predicate Decreasing<Task(!new)>(run: Task -> seq<Task>, rank: Task -> nat)
  {
    forall t {:trigger run(t)} :: |run(t)| > 0 ==> rank(run(t)[|run(t)| - 1]) < rank(t)
  }

  /** The continuations executeEvents_ runs, in order, starting from a slot holding `t`. */
  function Drain<Task(!new)>(t: Task, run: Task -> seq<Task>, ghost rank: Task -> nat): seq<Task>
    requires Decreasing(run, rank)
    decreases rank(t)
  {
    var posts := run(t);
    if |posts| == 0 then [t] else [t] + Drain(posts[|posts| - 1], run, rank)
  }

  /** What executeEvents_ runs from a slot: nothing when it is empty. */
  function DrainSlot<Task(!new)>(slot: Option<Task>, run: Task -> seq<Task>, ghost rank: Task -> nat): seq<Task>
    requires Decreasing(run, rank)
  {
    if slot.Some? then Drain(slot.value, run, rank) else []
  }

  /** How many posts find the slot full while the continuations of `trace` run, each starting on an empty slot. */
  function TotalOverwrites<Task>(trace: seq<Task>, run: Task -> seq<Task>): nat
  {
    if |trace| == 0 then 0
    else TotalOverwrites(trace[..|trace| - 1], run) + Overwrites(None, run(trace[|trace| - 1]))
  }

  lemma TotalAppend<Task>(trace: seq<Task>, t: Task, run: Task -> seq<Task>)
    ensures TotalOverwrites(trace + [t], run) == TotalOverwrites(trace, run) + Overwrites(None, run(t))
  {
    assert (trace + [t])[..|trace|] == trace;
  }

  class EventLoop<Task(!new)> {
    /** The global postHandler slot. */
    var pending: Option<Task>
    /** How many "postHandler not null" lines post_ has written to the console. */
    var logged: nat

    constructor ()
      ensures pending == None && logged == 0
    {
      pending := None;
      logged := 0;
    }

    /** post_: log when a continuation is already pending, then overwrite the slot. */
    method Post(h: Task)
      modifies this
      ensures pending == Some(h)
      ensures logged == old(logged) + Overwrites(old(pending), [h])
    {
      if pending != None {
        logged := logged + 1;
      }
      pending := Some(h);
    }

    /** Running a continuation: the posts it makes, one post_ after another. */
    method RunTask(t: Task, run: Task -> seq<Task>)
      modifies this
      ensures pending == AfterPosts(old(pending), run(t))
      ensures logged == old(logged) + Overwrites(old(pending), run(t))
    {
      var posts := run(t);
      var i := 0;
      while i < |posts|
        invariant 0 <= i <= |posts|
        invariant pending == AfterPosts(old(pending), posts[..i])
        invariant logged == old(logged) + Overwrites(old(pending), posts[..i])
      {
        Post(posts[i]);
        i := i + 1;
      }
      assert posts[..i] == posts;
    }

    /** One turn of executeEvents_: take the pending continuation out of the slot and run it. */
    method RunNext(run: Task -> seq<Task>) returns (fn: Task)
      requires pending.Some?
      modifies this
      ensures fn == old(pending).value
      ensures pending == AfterPosts(None, run(fn))
      ensures logged == old(logged) + Overwrites(None, run(fn))
    {
      fn := pending.value;
      pending := None;
      RunTask(fn, run);
    }

    /**
     * executeEvents_: while a continuation is pending, take it out of the slot
     * and run it.  Returns the continuations run, in order.
     */
    method ExecuteEvents(run: Task -> seq<Task>, ghost rank: Task -> nat) returns (trace: seq<Task>)
      requires Decreasing(run, rank)
      modifies this
      ensures pending == None
      ensures trace == DrainSlot(old(pending), run, rank)
      ensures logged == old(logged) + TotalOverwrites(trace, run)
    {
      trace := [];
      while pending != None
        invariant trace + DrainSlot(pending, run, rank) == DrainSlot(old(pending), run, rank)
        invariant logged == old(logged) + TotalOverwrites(trace, run)
        decreases |DrainSlot(old(pending), run, rank)| - |trace|
      {
        ghost var before := trace + DrainSlot(pending, run, rank);
        var fn := RunNext(run);
        DrainStep(trace, fn, run, rank);
        TotalAppend(trace, fn, run);
        trace := trace + [fn];
        assert trace + DrainSlot(pending, run, rank) == before;
      }
    }
  }

  /** Running the pending continuation from an empty slot leaves in the slot whatever the rest of the drain starts from. */
  lemma DrainStep<Task(!new)>(trace: seq<Task>, t: Task, run: Task -> seq<Task>, rank: Task -> nat)
    requires Decreasing(run, rank)
    ensures trace + Drain(t, run, rank) == (trace + [t]) + DrainSlot(AfterPosts(None, run(t)), run, rank)
  {
    assert Drain(t, run, rank) == [t] + DrainSlot(AfterPosts(None, run(t)), run, rank);
  }

  /**
   * The trace of executeEvents_ is the chain of surviving posts: it starts at
   * the pending continuation, each next one is the last post of the one
   * before, and the last one posts nothing.
   */
  lemma {:induction false} DrainChain<Task(!new)>(t: Task, run: Task -> seq<Task>, rank: Task -> nat)
    requires Decreasing(run, rank)
    ensures var tr := Drain(t, run, rank);
      |tr| >= 1 && tr[0] == t && run(tr[|tr| - 1]) == [] &&
      forall i | 0 <= i < |tr| - 1 :: run(tr[i]) != [] && tr[i + 1] == run(tr[i])[|run(tr[i])| - 1]
    decreases rank(t)
  {
    var posts := run(t);
    if |posts| > 0 {
      var next := posts[|posts| - 1];
      DrainChain(next, run, rank);
      var rest := Drain(next, run, rank);
      var tr := Drain(t, run, rank);
      assert tr == [t] + rest;
      forall i | 0 <= i < |tr| - 1
        ensures run(tr[i]) != [] && tr[i + 1] == run(tr[i])[|run(tr[i])| - 1]
      {
        if i > 0 {
          assert tr[i] == rest[i - 1] && tr[i + 1] == rest[i];
        }
      }
    }
  }

  /** When no continuation posts more than once, executeEvents_ never logs. */
  lemma {:induction false} SinglePostsNeverLog<Task>(trace: seq<Task>, run: Task -> seq<Task>)
    requires forall i | 0 <= i < |trace| :: |run(trace[i])| <= 1
    ensures TotalOverwrites(trace, run) == 0
    decreases |trace|
  {
    if |trace| > 0 {
      SinglePostsNeverLog(trace[..|trace| - 1], run);
      assert TotalOverwrites(trace, run) == TotalOverwrites(trace[..|trace| - 1], run) + 0;
    }
  }

  /**
   * The shape every loop of InsertLevel takes on the scheduler: the
   * continuation for counter value k runs the body and, while k < n, posts
   * the continuation for k + 1.
   */
  datatype LoopStep = LoopStep(k: nat, n: nat)

  function LoopRun(t: LoopStep): seq<LoopStep>
  {
    if t.k < t.n then [LoopStep(t.k + 1, t.n)] else []
  }

  function LoopRank(t: LoopStep): nat
  {
    if t.k < t.n then t.n - t.k else 0
  }

  /** The continuations for k, k+1, ..., n. */
  function Steps(k: nat, n: nat): (r: seq<LoopStep>)
    requires k <= n
    ensures |r| == n - k + 1 && forall i | 0 <= i < |r| :: r[i] == LoopStep(k + i, n)
    decreases n - k
  {
    if k == n then [LoopStep(n, n)] else [LoopStep(k, n)] + Steps(k + 1, n)
  }

  /** A loop resumed through the scheduler visits k, k+1, ..., n once each, in order, without a log message. */
  lemma {:induction false} LoopDrain(k: nat, n: nat)
    requires k <= n
    ensures Decreasing(LoopRun, LoopRank)
    ensures Drain(LoopStep(k, n), LoopRun, LoopRank) == Steps(k, n)
    ensures TotalOverwrites(Drain(LoopStep(k, n), LoopRun, LoopRank), LoopRun) == 0
    decreases n - k
  {
    if k < n {
      LoopDrain(k + 1, n);
    }
    SinglePostsNeverLog(Steps(k, n), LoopRun);
  }
}
