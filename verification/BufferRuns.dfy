/** What holds of every interleaving of the bounded buffer: safety, termination and its exact
  condition, and when the printed characters are the buffered ones. */
module BufferRuns {
  import opened Modulo
  import opened BoundedBuffer

  // ---- Safety ----

  /** Every reachable state: semaphores and threads in flight account for every slot; one thread at
    most is in a critical section; the buffer never over- or underflows; a producer never writes over
    an item that is still to be consumed, and a consumer's slot holds the oldest such item. */
  lemma Safety(c: Config, buf: seq<char>, sched: seq<nat>)
    requires 0 < |c.str| && 0 < c.size == |buf| && CanRun(c, Init(c, buf), sched)
    ensures var s := Run(c, Init(c, buf), sched);
            && s.full + s.empty + Sum(Busy, s.threads) == c.size == |s.buf|
            && 0 <= |s.log| - s.taken <= c.size
            && s.tail == |s.log| % c.size && s.head == s.taken % c.size
            && (forall t: nat, u: nat | t < |s.threads| && u < |s.threads| ::
                  InCritical(s.threads[t]) && InCritical(s.threads[u]) ==> t == u)
            && (forall t: nat | t < |s.threads| && s.threads[t].pc.Use? ::
                  if s.threads[t].role.Producer?
                  then forall k: nat | s.taken <= k < |s.log| :: k % c.size != s.tail
                  else s.taken < |s.log| && s.buf[s.head] == s.log[s.taken])
  {
    InitInv(c, buf);
    RunInv(c, Init(c, buf), sched);
    var s := Run(c, Init(c, buf), sched);
    Bounds(c, s);
    forall t: nat | t < |s.threads| && s.threads[t].pc.Use? && s.threads[t].role.Producer?
      ensures forall k: nat | s.taken <= k < |s.log| :: k % c.size != s.tail
    {
      forall k: nat | s.taken <= k < |s.log| ensures k % c.size != s.tail {
        OtherSlot(k, |s.log|, c.size);
      }
    }
  }

  // ---- Termination ----

  lemma StepBound(c: Config, s: State)
    requires Inv(c, s)
    ensures Shape(c, s) && Sum(Steps, s.threads) <= |s.threads| * (6 * |c.str|)
  {
    SumSteps(s.threads, |c.str|);
  }

  /** Every run is finite: at most 6 steps per thread and character. */
  lemma RunsAreBounded(c: Config, buf: seq<char>, sched: seq<nat>)
    requires 0 < |c.str| && 0 < c.size == |buf| && CanRun(c, Init(c, buf), sched)
    ensures |sched| <= (c.producers + c.consumers) * (6 * |c.str|)
  {
    hide Of, Sum, Inv, CanRun, Run;
    InitInv(c, buf);
    RunInv(c, Init(c, buf), sched);
    InitSum(c, buf, Steps);
    RunThreads(c, Init(c, buf), sched);
    StepBound(c, Run(c, Init(c, buf), sched));
  }

  lemma {:induction false} RunThreads(c: Config, s: State, sched: seq<nat>)
    requires CanRun(c, s, sched)
    ensures |Run(c, s, sched).threads| == |s.threads|
    decreases |sched|
  {
    if sched != [] {
      RunThreads(c, Next(c, s, sched[0]), sched[1..]);
    }
  }

  /** The condition under which all threads can finish: what is produced exceeds what is consumed by
    no more than the buffer holds, and not the other way round. */
  predicate InRange(c: Config) {
    0 <= |c.str| * c.producers - |c.str| * c.consumers <= c.size
  }

  lemma FinishedInRange(c: Config, s: State)
    requires Inv(c, s) && Finished(c, s)
    ensures InRange(c)
  {
    hide Sum, Of;
    SumPosts(s.threads, Producer, |c.str|);
    SumPosts(s.threads, Consumer, |c.str|);
    Bounds(c, s);
    SumOrder(s.threads, Producer);
    SumOrder(s.threads, Consumer);
    AllAtWait(s.threads);
  }

  lemma {:induction false} AllAtWait(ts: seq<Thread>)
    requires forall th | th in ts :: th.pc.Wait?
    ensures Sum(Busy, ts) == 0
    ensures forall role :: Sum(Waits(role), ts) == Sum(Posts(role), ts)
  {
    if ts != [] {
      AllAtWait(ts[1..]);
    }
  }

  /** A thread inside its loop body can move, or the one that holds the mutex can. */
  lemma BusyMeansEnabled(c: Config, s: State, t: nat)
    requires Inv(c, s) && t < |s.threads| && !s.threads[t].pc.Wait?
    ensures exists u: nat :: Enabled(c, s, u)
  {
    if s.threads[t].pc.Lock? && s.owner != Nobody {
      var h := s.owner.thread;
      HolderInside(c, s);
      assert Enabled(c, s, h);
    } else {
      assert Enabled(c, s, t);
    }
  }

  /** The mutex is held by an existing thread, which is in its critical section. */
  lemma HolderInside(c: Config, s: State)
    requires Inv(c, s) && s.owner.Held?
    ensures s.owner.thread < |s.threads| && InCritical(s.threads[s.owner.thread])
  {
  }

  /** In range, a state in which nobody can move is one in which everybody has finished. */
  lemma StuckMeansFinished(c: Config, s: State)
    requires Inv(c, s) && InRange(c) && Stuck(c, s)
    ensures Finished(c, s)
  {
    hide Sum, Of, Slots, Written;
    forall t: nat | t < |s.threads| ensures s.threads[t].pc.Wait? {
      if !s.threads[t].pc.Wait? {
        BusyMeansEnabled(c, s, t);
      }
    }
    AllAtWait(s.threads);
    Bounds(c, s);
    SumPosts(s.threads, Producer, |c.str|);
    SumPosts(s.threads, Consumer, |c.str|);
    forall t: nat | t < |s.threads|
      ensures s.threads[t].i < |c.str| ==> if s.threads[t].role.Producer? then s.full == 0 else s.empty == 0
    {
      assert !Enabled(c, s, t);
    }
    assert AllPosted(s.threads, Producer, |c.str|) && AllPosted(s.threads, Consumer, |c.str|);
    assert forall th | th in s.threads :: th.role == Producer || th.role == Consumer;
  }

  /** The threads j to k - 1, each once. */
  function Upto(j: nat, k: nat): seq<nat>
    decreases k - j
  {
    if j >= k then [] else [j] + Upto(j + 1, k)
  }

  lemma {:induction false} EachPasses(c: Config, s: State, j: nat, k: nat)
    requires Shape(c, s) && j <= k <= |s.threads| && k - j <= s.full
    requires forall t: nat | j <= t < k :: s.threads[t] == Thread(Producer, Wait, 0)
    ensures CanRun(c, s, Upto(j, k)) && |Run(c, s, Upto(j, k)).threads| == |s.threads|
    ensures forall t: nat | t < j :: Run(c, s, Upto(j, k)).threads[t] == s.threads[t]
    ensures forall t: nat | j <= t < k :: Run(c, s, Upto(j, k)).threads[t] == Thread(Producer, Lock, 0)
    decreases k - j
  {
    if j < k {
      assert Upto(j, k)[1..] == Upto(j + 1, k);
      EachPasses(c, Next(c, s, j), j + 1, k);
    }
  }

  /** Producers overlap: as many as there are slots are let past the semaphore one after the other,
    before any of them has done anything else. */
  lemma ProducersOverlap(c: Config, buf: seq<char>, k: nat)
    requires 0 < |c.str| && 0 < c.size == |buf| && k <= c.producers && k <= c.size
    ensures var s0 := Init(c, buf);
            && CanRun(c, s0, Upto(0, k)) && k <= |Run(c, s0, Upto(0, k)).threads|
            && forall t: nat | t < k :: Run(c, s0, Upto(0, k)).threads[t] == Thread(Producer, Lock, 0)
  {
    EachPasses(c, Init(c, buf), 0, k);
  }

  /** From any state some schedule runs until nobody can move. */
  lemma {:induction false} Drive(c: Config, s: State) returns (sched: seq<nat>)
    requires Inv(c, s)
    ensures CanRun(c, s, sched) && Stuck(c, Run(c, s, sched))
    decreases |s.threads| * (6 * |c.str|) - Sum(Steps, s.threads)
  {
    hide Sum, Of, Inv;
    if exists t: nat :: Enabled(c, s, t) {
      var t: nat :| Enabled(c, s, t);
      NextInv(c, s, t);
      StepCount(c, s, t);
      StepBound(c, Next(c, s, t));
      var rest := Drive(c, Next(c, s, t));
      sched := [t] + rest;
      assert sched[1..] == rest;
    } else {
      sched := [];
    }
  }

  /** All threads finish in every maximal run. */
  ghost predicate AlwaysFinishes(c: Config, buf: seq<char>) {
    forall sched: seq<nat> | CanRun(c, Init(c, buf), sched) && Stuck(c, Run(c, Init(c, buf), sched)) ::
      Finished(c, Run(c, Init(c, buf), sched))
  }

  /** Every maximal run of P producers and C consumers ends with all of them finished exactly when
    0 <= n * P - n * C <= B. */
  lemma TerminationCondition(c: Config, buf: seq<char>)
    requires 0 < |c.str| && 0 < c.size == |buf|
    ensures AlwaysFinishes(c, buf) <==> InRange(c)
  {
    hide Inv, Stuck, Finished, InRange, CanRun, Run, Init;
    InitInv(c, buf);
    var s0 := Init(c, buf);
    if AlwaysFinishes(c, buf) {
      var sched := Drive(c, s0);
      RunInv(c, s0, sched);
      FinishedInRange(c, Run(c, s0, sched));
    }
    if InRange(c) {
      forall sched: seq<nat> | CanRun(c, s0, sched) && Stuck(c, Run(c, s0, sched))
        ensures Finished(c, Run(c, s0, sched))
      {
        RunInv(c, s0, sched);
        StuckMeansFinished(c, Run(c, s0, sched));
      }
    }
  }

  /** With the string and the buffer of the program, equal counts, or one or two producers more than
    consumers, are the combinations that finish. */
  lemma ProgramCounts(c: Config)
    requires c.str == "Hello, World!" && c.size == 32
    ensures InRange(c) <==> 0 <= c.producers - c.consumers <= 2
  {
    assert |c.str| == 13;
  }
}
