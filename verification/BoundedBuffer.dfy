/** The bounded buffer: any number of producers and consumers over a ring buffer, two counting
  semaphores and a mutex, as a transition system with one atomic step of one thread at a time. */
module BoundedBuffer {
  import opened Modulo

  // ---- States and steps ----

  datatype Role = Producer | Consumer

  /** Where a thread is in the body of its loop. A thread at Wait whose index is n has finished. */
  datatype PC = Wait | Lock | Use | Advance | Unlock | Post

  datatype Thread = Thread(role: Role, pc: PC, i: nat)

  datatype Owner = Nobody | Held(thread: nat)

  /** prod_str, BUF_SIZE, and the two counts main is given. */
  datatype Config = Config(str: string, size: nat, producers: nat, consumers: nat)

  /** The shared state: full and empty are the semaphores (unfilled and filled slots). log and taken
    record what has been put into the buffer and how many items have been taken out; no step reads
    them. */
  datatype State = State(
    full: nat, empty: nat, owner: Owner,
    buf: seq<char>, head: nat, tail: nat,
    threads: seq<Thread>,
    log: seq<char>, taken: nat)

  predicate Shape(c: Config, s: State) {
    && 0 < |c.str| && 0 < c.size
    && |s.buf| == c.size && s.tail < c.size && s.head < c.size
    && forall th | th in s.threads :: th.i <= |c.str| && (th.pc.Wait? || th.i < |c.str|)
  }

  function Spawn(role: Role, n: nat): seq<Thread> {
    seq(n, (k: nat) => Thread(role, Wait, 0))
  }

  function Init(c: Config, buf: seq<char>): State {
    State(c.size, 0, Nobody, buf, 0, 0, Spawn(Producer, c.producers) + Spawn(Consumer, c.consumers), [], 0)
  }

  /** Thread t can take its next step: it is not blocked on a semaphore or the mutex, nor finished. */
  predicate Enabled(c: Config, s: State, t: nat) {
    && t < |s.threads|
    && var th := s.threads[t];
       match th.pc
       case Wait => th.i < |c.str| && (if th.role.Producer? then s.full > 0 else s.empty > 0)
       case Lock => s.owner == Nobody
       case _ => true
  }

  /** The thread after its step. */
  function Moves(th: Thread): Thread {
    match th.pc
    case Wait => th.(pc := Lock)
    case Lock => th.(pc := Use)
    case Use => th.(pc := Advance)
    case Advance => th.(pc := Unlock)
    case Unlock => th.(pc := Post)
    case Post => Thread(th.role, Wait, th.i + 1)
  }

  /** One step of thread t. At Use a producer writes its slot, a consumer prints prod_str[i] and reads
    nothing. */
  function Next(c: Config, s: State, t: nat): (s': State)
    requires Shape(c, s) && Enabled(c, s, t)
    ensures Shape(c, s')
  {
    var th := s.threads[t];
    var u := s.(threads := s.threads[t := Moves(th)]);
    match (th.role, th.pc)
    case (Producer, Wait) => u.(full := s.full - 1)
    case (Consumer, Wait) => u.(empty := s.empty - 1)
    case (_, Lock) => u.(owner := Held(t))
    case (Producer, Use) => u.(buf := s.buf[s.tail := c.str[th.i]])
    case (Consumer, Use) => u
    case (Producer, Advance) => u.(tail := (s.tail + 1) % c.size, log := s.log + [s.buf[s.tail]])
    case (Consumer, Advance) => u.(head := (s.head + 1) % c.size, taken := s.taken + 1)
    case (_, Unlock) => u.(owner := Nobody)
    case (Producer, Post) => u.(empty := s.empty + 1)
    case (Consumer, Post) => u.(full := s.full + 1)
  }

  /** A schedule names the thread of each step. */
  predicate CanRun(c: Config, s: State, sched: seq<nat>)
    decreases |sched|
  {
    sched == [] || (Shape(c, s) && Enabled(c, s, sched[0]) && CanRun(c, Next(c, s, sched[0]), sched[1..]))
  }

  function Run(c: Config, s: State, sched: seq<nat>): State
    requires CanRun(c, s, sched)
    decreases |sched|
  {
    if sched == [] then s else Run(c, Next(c, s, sched[0]), sched[1..])
  }

  predicate Finished(c: Config, s: State) {
    forall th | th in s.threads :: th.pc.Wait? && th.i == |c.str|
  }

  ghost predicate Stuck(c: Config, s: State) {
    forall t: nat :: !Enabled(c, s, t)
  }

  /** Initial states: main sets everything but the contents of the buffer. */
  predicate Start(c: Config, buf: seq<char>) {
    0 < |c.str| && 0 < c.size && |buf| == c.size
  }

  // ---- Counts over all threads ----

  /** What is counted: how often the producers (the consumers) have waited, moved their index and
    posted; how many there are; threads between their wait and their post; steps taken. */
  datatype Count = Waits(role: Role) | Shifts(role: Role) | Posts(role: Role) | Threads(role: Role) | Busy | Steps

  function Rank(pc: PC): nat {
    match pc
    case Wait => 0 case Lock => 1 case Use => 2 case Advance => 3 case Unlock => 4 case Post => 5
  }

  function Of(k: Count, th: Thread): nat {
    match k
    case Waits(role) => if th.role != role then 0 else th.i + if th.pc.Wait? then 0 else 1
    case Shifts(role) => if th.role != role then 0 else th.i + if th.pc.Unlock? || th.pc.Post? then 1 else 0
    case Posts(role) => if th.role != role then 0 else th.i
    case Threads(role) => if th.role != role then 0 else 1
    case Busy => if th.pc.Wait? then 0 else 1
    case Steps => 6 * th.i + Rank(th.pc)
  }

  function Sum(k: Count, ts: seq<Thread>): nat {
    if ts == [] then 0 else Of(k, ts[0]) + Sum(k, ts[1..])
  }

  lemma {:induction false} SumUpdate(k: Count, ts: seq<Thread>, t: nat, th: Thread)
    requires t < |ts|
    ensures Sum(k, ts[t := th]) + Of(k, ts[t]) == Sum(k, ts) + Of(k, th)
  {
    hide Of;
    if t == 0 {
      assert ts[t := th][1..] == ts[1..];
    } else {
      assert ts[t := th][1..] == ts[1..][t - 1 := th];
      SumUpdate(k, ts[1..], t - 1, th);
    }
  }

  lemma {:induction false} SumConcat(k: Count, a: seq<Thread>, b: seq<Thread>)
    ensures Sum(k, a + b) == Sum(k, a) + Sum(k, b)
  {
    hide Of;
    if a == [] {
      assert a + b == b;
    } else {
      assert (a + b)[1..] == a[1..] + b;
      SumConcat(k, a[1..], b);
    }
  }

  lemma {:induction false} SumSame(k: Count, ts: seq<Thread>, v: nat)
    requires forall th | th in ts :: Of(k, th) == v
    ensures Sum(k, ts) == |ts| * v
  {
    hide Of;
    if ts != [] {
      SumSame(k, ts[1..], v);
      Distr(|ts[1..]|, 1, v);
    }
  }

  lemma {:induction false} SumLe(k: Count, l: Count, ts: seq<Thread>)
    requires forall th | th in ts :: Of(k, th) <= Of(l, th)
    ensures Sum(k, ts) <= Sum(l, ts)
    ensures forall th | th in ts && Of(k, th) < Of(l, th) :: Sum(k, ts) < Sum(l, ts)
  {
    hide Of;
    if ts != [] {
      SumLe(k, l, ts[1..]);
      assert ts == [ts[0]] + ts[1..];
    }
  }

  /** Every thread waits before it shifts and shifts before it posts. */
  lemma SumOrder(ts: seq<Thread>, role: Role)
    ensures Sum(Posts(role), ts) <= Sum(Shifts(role), ts) <= Sum(Waits(role), ts)
    ensures forall th | th in ts && th.role == role && (th.pc.Lock? || th.pc.Use? || th.pc.Advance?) ::
              Sum(Shifts(role), ts) < Sum(Waits(role), ts)
  {
    SumLe(Posts(role), Shifts(role), ts);
    SumLe(Shifts(role), Waits(role), ts);
  }

  lemma {:induction false} SumBusy(ts: seq<Thread>)
    ensures Sum(Busy, ts) + Sum(Posts(Producer), ts) + Sum(Posts(Consumer), ts)
            == Sum(Waits(Producer), ts) + Sum(Waits(Consumer), ts)
  {
    if ts != [] {
      SumBusy(ts[1..]);
    }
  }

  /** No thread posts more than n times, and its role has posted n times per thread only when all its
    threads have. */
  lemma {:induction false} SumPosts(ts: seq<Thread>, role: Role, n: nat)
    requires forall th | th in ts :: th.i <= n
    ensures Sum(Posts(role), ts) <= n * Sum(Threads(role), ts)
    ensures Sum(Posts(role), ts) == n * Sum(Threads(role), ts) ==> AllPosted(ts, role, n)
    ensures AllPosted(ts, role, n) ==> Sum(Posts(role), ts) == n * Sum(Threads(role), ts)
  {
    if ts != [] {
      var h, m := ts[0], Sum(Threads(role), ts[1..]);
      SumPosts(ts[1..], role, n);
      Scale(m, n);
      AllPostedCons(h, ts[1..], role, n);
      assert ts == [h] + ts[1..];
    }
  }

  lemma Scale(m: nat, n: nat)
    ensures n * (m + 1) == n * m + n && n * (m + 0) == n * m
  {
  }

  predicate AllPosted(ts: seq<Thread>, role: Role, n: nat) {
    forall th | th in ts :: th.role == role ==> th.i == n
  }

  lemma AllPostedCons(h: Thread, ts: seq<Thread>, role: Role, n: nat)
    ensures AllPosted([h] + ts, role, n) <==> (h.role == role ==> h.i == n) && AllPosted(ts, role, n)
  {
    if AllPosted([h] + ts, role, n) {
      assert h in [h] + ts;
      assert forall th | th in ts :: th in [h] + ts;
    }
  }

  /** Steps taken never exceed 6 per character and thread. */
  lemma {:induction false} SumSteps(ts: seq<Thread>, n: nat)
    requires forall th | th in ts :: th.i <= n && (th.pc.Wait? || th.i < n)
    ensures Sum(Steps, ts) <= |ts| * (6 * n)
  {
    if ts != [] {
      SumSteps(ts[1..], n);
      Distr(|ts[1..]|, 1, 6 * n);
    }
  }

  // ---- The invariant ----

  predicate InCritical(th: Thread) { th.pc.Use? || th.pc.Advance? || th.pc.Unlock? }

  ghost predicate Counts(c: Config, s: State)
    requires 0 < c.size
  {
    var ts := s.threads;
    && Sum(Threads(Producer), ts) == c.producers && Sum(Threads(Consumer), ts) == c.consumers
    && s.full == c.size - Sum(Waits(Producer), ts) + Sum(Posts(Consumer), ts)
    && s.empty == Sum(Posts(Producer), ts) - Sum(Waits(Consumer), ts)
    && |s.log| == Sum(Shifts(Producer), ts) && s.taken == Sum(Shifts(Consumer), ts)
    && s.tail == |s.log| % c.size && s.head == s.taken % c.size
  }

  ghost predicate Exclusive(s: State) {
    && (forall t: nat | t < |s.threads| :: InCritical(s.threads[t]) <==> s.owner == Held(t))
    && (s.owner.Held? ==> s.owner.thread < |s.threads|)
  }

  ghost predicate Slots(c: Config, s: State)
    requires 0 < c.size == |s.buf|
  {
    forall k: nat | s.taken <= k < |s.log| :: s.buf[k % c.size] == s.log[k]
  }

  /** A producer between its write and its move of tail has its character in the slot. */
  ghost predicate Written(c: Config, s: State)
    requires Shape(c, s)
  {
    forall t: nat | t < |s.threads| && s.threads[t].role.Producer? && s.threads[t].pc.Advance? ::
      s.buf[s.tail] == c.str[s.threads[t].i]
  }

  ghost predicate Inv(c: Config, s: State) {
    Shape(c, s) && Counts(c, s) && Exclusive(s) && Slots(c, s) && Written(c, s)
  }

  lemma InitInv(c: Config, buf: seq<char>)
    requires Start(c, buf)
    ensures Inv(c, Init(c, buf))
  {
    hide Of, Sum;
    InitSum(c, buf, Waits(Producer));
    InitSum(c, buf, Waits(Consumer));
    InitSum(c, buf, Shifts(Producer));
    InitSum(c, buf, Shifts(Consumer));
    InitSum(c, buf, Posts(Producer));
    InitSum(c, buf, Posts(Consumer));
    InitSum(c, buf, Threads(Producer));
    InitSum(c, buf, Threads(Consumer));
    ModIs(0, 0, 0, c.size);
  }

  lemma InitSum(c: Config, buf: seq<char>, k: Count)
    ensures Sum(k, Init(c, buf).threads)
            == match k
               case Threads(Producer) => c.producers
               case Threads(Consumer) => c.consumers
               case _ => 0
  {
    SumConcat(k, Spawn(Producer, c.producers), Spawn(Consumer, c.consumers));
    SumSame(k, Spawn(Producer, c.producers), Of(k, Thread(Producer, Wait, 0)));
    SumSame(k, Spawn(Consumer, c.consumers), Of(k, Thread(Consumer, Wait, 0)));
  }

  /** The buffer never holds more than its size, and never fewer than no items. */
  lemma Bounds(c: Config, s: State)
    requires Inv(c, s)
    ensures 0 <= |s.log| - s.taken <= c.size
    ensures s.full + s.empty + Sum(Busy, s.threads) == c.size
    ensures forall t: nat | t < |s.threads| && s.threads[t].role.Producer?
                            && (s.threads[t].pc.Lock? || s.threads[t].pc.Use? || s.threads[t].pc.Advance?) ::
              |s.log| - s.taken < c.size
    ensures forall t: nat | t < |s.threads| && s.threads[t].role.Consumer?
                            && (s.threads[t].pc.Lock? || s.threads[t].pc.Use? || s.threads[t].pc.Advance?) ::
              s.taken < |s.log|
  {
    hide Of, Sum;
    SumOrder(s.threads, Producer);
    SumOrder(s.threads, Consumer);
    SumBusy(s.threads);
    assert forall t: nat | t < |s.threads| :: s.threads[t] in s.threads;
  }

  /** A step changes each count by what it changes for its thread. */
  lemma SumNext(k: Count, c: Config, s: State, t: nat)
    requires Shape(c, s) && Enabled(c, s, t)
    ensures Sum(k, Next(c, s, t).threads) + Of(k, s.threads[t]) == Sum(k, s.threads) + Of(k, Moves(s.threads[t]))
  {
    hide Sum, Of;
    SumUpdate(k, s.threads, t, Moves(s.threads[t]));
  }

  /** What a thread's step changes for that thread. */
  lemma OfMoves(th: Thread, role: Role)
    ensures Of(Waits(role), Moves(th)) - Of(Waits(role), th) == if th.role == role && th.pc.Wait? then 1 else 0
    ensures Of(Shifts(role), Moves(th)) - Of(Shifts(role), th) == if th.role == role && th.pc.Advance? then 1 else 0
    ensures Of(Posts(role), Moves(th)) - Of(Posts(role), th) == if th.role == role && th.pc.Post? then 1 else 0
    ensures Of(Threads(role), Moves(th)) == Of(Threads(role), th)
    ensures Of(Steps, Moves(th)) == Of(Steps, th) + 1
  {
  }

  lemma CountsNext(c: Config, s: State, t: nat)
    requires Inv(c, s) && Enabled(c, s, t)
    ensures Counts(c, Next(c, s, t))
    ensures Sum(Steps, Next(c, s, t).threads) == Sum(Steps, s.threads) + 1
  {
    hide Slots, Written, Exclusive, Sum, Of, Moves;
    OfMoves(s.threads[t], Producer);
    OfMoves(s.threads[t], Consumer);
    SumNext(Waits(Producer), c, s, t);
    SumNext(Waits(Consumer), c, s, t);
    SumNext(Shifts(Producer), c, s, t);
    SumNext(Shifts(Consumer), c, s, t);
    SumNext(Posts(Producer), c, s, t);
    SumNext(Posts(Consumer), c, s, t);
    SumNext(Threads(Producer), c, s, t);
    SumNext(Threads(Consumer), c, s, t);
    SumNext(Steps, c, s, t);
    NextSlot(|s.log|, c.size);
    NextSlot(s.taken, c.size);
  }

  lemma ExclusiveNext(c: Config, s: State, t: nat)
    requires Inv(c, s) && Enabled(c, s, t)
    ensures Exclusive(Next(c, s, t))
  {
    hide Slots, Written, Counts;
  }

  lemma SlotsNext(c: Config, s: State, t: nat)
    requires Inv(c, s) && Enabled(c, s, t)
    ensures Slots(c, Next(c, s, t))
  {
    hide Written, Exclusive;
    Bounds(c, s);
    if s.threads[t].role.Producer? && s.threads[t].pc.Use? {
      forall k: nat | s.taken <= k < |s.log| ensures k % c.size != s.tail {
        OtherSlot(k, |s.log|, c.size);
      }
    }
  }

  lemma WrittenNext(c: Config, s: State, t: nat)
    requires Inv(c, s) && Enabled(c, s, t)
    ensures Written(c, Next(c, s, t))
  {
    hide Slots, Counts;
    var s' := Next(c, s, t);
    forall u: nat | u < |s'.threads| && s'.threads[u].role.Producer? && s'.threads[u].pc.Advance?
      ensures s'.buf[s'.tail] == c.str[s'.threads[u].i]
    {
      if u != t {
        assert InCritical(s.threads[u]);
      }
    }
  }

  lemma NextInv(c: Config, s: State, t: nat)
    requires Inv(c, s) && Enabled(c, s, t)
    ensures Inv(c, Next(c, s, t))
  {
    CountsNext(c, s, t);
    ExclusiveNext(c, s, t);
    SlotsNext(c, s, t);
    WrittenNext(c, s, t);
  }

  // ---- When a thread is blocked ----

  /** Thread t has finished; or its semaphore has been taken as often as it was there initially or has
    been posted; or another thread is in the critical section. */
  ghost predicate Blocked(c: Config, s: State, t: nat)
    requires t < |s.threads|
  {
    var th, ts := s.threads[t], s.threads;
    || (th.pc.Wait? && th.i == |c.str|)
    || (th.pc.Wait? && th.role.Producer? && Sum(Waits(Producer), ts) == c.size + Sum(Posts(Consumer), ts))
    || (th.pc.Wait? && th.role.Consumer? && Sum(Waits(Consumer), ts) == Sum(Posts(Producer), ts))
    || (th.pc.Lock? && exists u: nat :: u < |ts| && InCritical(ts[u]))
  }

  /** A thread can move exactly when it is not blocked: nothing else ever holds it up. */
  lemma EnabledWhen(c: Config, s: State, t: nat)
    requires Inv(c, s)
    ensures Enabled(c, s, t) <==> t < |s.threads| && !Blocked(c, s, t)
  {
    hide Sum, Of, Slots, Written;
    if t < |s.threads| && s.threads[t].pc.Lock? && s.owner.Held? {
      assert InCritical(s.threads[s.owner.thread]);
    }
  }

  lemma {:induction false} RunInv(c: Config, s: State, sched: seq<nat>)
    requires Inv(c, s) && CanRun(c, s, sched)
    ensures Inv(c, Run(c, s, sched))
    ensures Sum(Steps, Run(c, s, sched).threads) == Sum(Steps, s.threads) + |sched|
    decreases |sched|
  {
    hide Inv, Sum;
    if sched != [] {
      NextInv(c, s, sched[0]);
      StepCount(c, s, sched[0]);
      RunInv(c, Next(c, s, sched[0]), sched[1..]);
    }
  }

  lemma StepCount(c: Config, s: State, t: nat)
    requires Inv(c, s) && Enabled(c, s, t)
    ensures Shape(c, s) && Sum(Steps, Next(c, s, t).threads) == Sum(Steps, s.threads) + 1
  {
    CountsNext(c, s, t);
  }
}
