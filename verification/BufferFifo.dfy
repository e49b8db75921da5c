/** The consumer prints prod_str[i] and never reads the buffer. When is that the character in the
  slot it consumes? */
module BufferFifo {
  import opened Modulo
  import opened BoundedBuffer
  import opened BufferRuns

  /** Every consumer about to print shows the character in the slot at head. */
  predicate PrintsSlot(c: Config, s: State) {
    && Shape(c, s)
    && forall t: nat | t < |s.threads| && s.threads[t].role.Consumer? && s.threads[t].pc.Use? ::
         s.buf[s.head] == c.str[s.threads[t].i]
  }

  ghost predicate AlwaysPrintsSlot(c: Config, buf: seq<char>) {
    forall sched: seq<nat> | CanRun(c, Init(c, buf), sched) :: PrintsSlot(c, Run(c, Init(c, buf), sched))
  }

  predicate Constant(str: string) {
    forall k | 0 <= k < |str| :: str[k] == str[0]
  }

  /** No thread of one of the roles, one of each, or a string of one repeated character. */
  predicate Faithful(c: Config) {
    || c.producers == 0 || c.consumers == 0
    || (c.producers == 1 && c.consumers == 1)
    || Constant(c.str)
  }

  // ---- Sufficient ----

  lemma {:induction false} RoleCount(ts: seq<Thread>, t: nat, role: Role)
    requires t < |ts| && ts[t].role == role
    ensures Sum(Threads(role), ts) >= 1
    ensures Sum(Threads(role), ts) == 1 ==> Sum(Shifts(role), ts) == Of(Shifts(role), ts[t])
  {
    if t > 0 {
      RoleCount(ts[1..], t - 1, role);
    } else if Sum(Threads(role), ts[1..]) == 0 {
      NoneOf(ts[1..], role);
    }
  }

  lemma {:induction false} NoneOf(ts: seq<Thread>, role: Role)
    requires Sum(Threads(role), ts) == 0
    ensures Sum(Shifts(role), ts) == 0
  {
    if ts != [] {
      NoneOf(ts[1..], role);
    }
  }

  /** What the log holds: with a single producer the string so far, with a constant string its one
    character. */
  ghost predicate LogOk(c: Config, s: State)
    requires 0 < |c.str|
  {
    && (c.producers == 1 ==> |s.log| <= |c.str| && forall k | 0 <= k < |s.log| :: s.log[k] == c.str[k])
    && (Constant(c.str) ==> forall k | 0 <= k < |s.log| :: s.log[k] == c.str[0])
  }

  lemma LogNext(c: Config, s: State, t: nat)
    requires Inv(c, s) && LogOk(c, s) && Enabled(c, s, t)
    ensures LogOk(c, Next(c, s, t))
  {
    hide Sum, Exclusive, Slots;
    if s.threads[t].role.Producer? && s.threads[t].pc.Advance? {
      RoleCount(s.threads, t, Producer);
      assert s.threads[t] in s.threads;
    }
  }

  lemma {:induction false} LogRun(c: Config, s: State, sched: seq<nat>)
    requires Inv(c, s) && LogOk(c, s) && CanRun(c, s, sched)
    ensures Inv(c, Run(c, s, sched)) && LogOk(c, Run(c, s, sched))
    decreases |sched|
  {
    hide Inv, LogOk;
    if sched != [] {
      NextInv(c, s, sched[0]);
      LogNext(c, s, sched[0]);
      LogRun(c, Next(c, s, sched[0]), sched[1..]);
    }
  }

  lemma FaithfulPrints(c: Config, s: State)
    requires Inv(c, s) && LogOk(c, s) && Faithful(c)
    ensures PrintsSlot(c, s)
  {
    hide Sum, Exclusive;
    Bounds(c, s);
    forall t: nat | t < |s.threads| && s.threads[t].role.Consumer? && s.threads[t].pc.Use?
      ensures s.buf[s.head] == c.str[s.threads[t].i]
    {
      assert s.buf[s.taken % c.size] == s.log[s.taken];
      RoleCount(s.threads, t, Consumer);
      if c.producers == 0 {
        NoneOf(s.threads, Producer);
      }
      assert s.threads[t] in s.threads;
    }
  }

  // ---- Necessary ----

  lemma {:induction false} RunConcat(c: Config, s: State, a: seq<nat>, b: seq<nat>)
    requires CanRun(c, s, a) && CanRun(c, Run(c, s, a), b)
    ensures CanRun(c, s, a + b) && Run(c, s, a + b) == Run(c, Run(c, s, a), b)
    decreases |a|
  {
    if a == [] {
      assert a + b == b;
    } else {
      assert (a + b)[1..] == a[1..] + b;
      RunConcat(c, Next(c, s, a[0]), a[1..], b);
    }
  }

  /** Every schedule can go on with every thread that can move. */
  lemma ScheduleExtends(c: Config, s: State, sched: seq<nat>, t: nat)
    requires Shape(c, s) && CanRun(c, s, sched) && Shape(c, Run(c, s, sched)) && Enabled(c, Run(c, s, sched), t)
    ensures CanRun(c, s, sched + [t]) && Run(c, s, sched + [t]) == Next(c, Run(c, s, sched), t)
  {
    var s1 := Run(c, s, sched);
    assert [t][1..] == [] && CanRun(c, s1, [t]);
    RunConcat(c, s, sched, [t]);
  }

  lemma RunNone(c: Config, s: State)
    ensures CanRun(c, s, []) && Run(c, s, []) == s
  {
  }

  lemma RunStep(c: Config, s: State, t: nat, rest: seq<nat>)
    requires Shape(c, s) && Enabled(c, s, t) && CanRun(c, Next(c, s, t), rest)
    ensures CanRun(c, s, [t] + rest) && Run(c, s, [t] + rest) == Run(c, Next(c, s, t), rest)
  {
    assert ([t] + rest)[1..] == rest;
  }

  /** A thread's next k steps, one after the other. */
  lemma {:induction false} Alone(c: Config, s: State, t: nat, k: nat) returns (sched: seq<nat>)
    requires Shape(c, s) && CanRunAlone(c, s, t, k)
    ensures CanRun(c, s, sched) && Run(c, s, sched) == RunAlone(c, s, t, k)
    decreases k
  {
    if k == 0 {
      sched := [];
    } else {
      var rest := Alone(c, Next(c, s, t), t, k - 1);
      RunStep(c, s, t, rest);
      sched := [t] + rest;
    }
  }

  predicate CanRunAlone(c: Config, s: State, t: nat, k: nat)
    requires Shape(c, s)
    decreases k
  {
    k == 0 || (Enabled(c, s, t) && CanRunAlone(c, Next(c, s, t), t, k - 1))
  }

  function RunAlone(c: Config, s: State, t: nat, k: nat): (s': State)
    requires Shape(c, s) && CanRunAlone(c, s, t, k)
    ensures Shape(c, s')
    decreases k
  {
    if k == 0 then s else RunAlone(c, Next(c, s, t), t, k - 1)
  }

  /** Nobody is inside the loop body and the buffer is empty. */
  predicate Calm(c: Config, s: State) {
    && Shape(c, s) && s.owner == Nobody
    && s.full == c.size && s.empty == 0 && s.head == s.tail
    && forall th | th in s.threads :: th.pc.Wait?
  }

  predicate Pair(c: Config, s: State, p: nat, q: nat) {
    && p < |s.threads| && q < |s.threads|
    && s.threads[p].role.Producer? && s.threads[p].i < |c.str|
    && s.threads[q].role.Consumer? && s.threads[q].i < |c.str|
  }

  /** Six steps of one thread, given one by one. */
  lemma SixSteps(c: Config, s: State, t: nat, s1: State, s2: State, s3: State, s4: State, s5: State, s6: State)
    requires Shape(c, s) && Enabled(c, s, t) && s1 == Next(c, s, t)
    requires Enabled(c, s1, t) && s2 == Next(c, s1, t)
    requires Enabled(c, s2, t) && s3 == Next(c, s2, t)
    requires Enabled(c, s3, t) && s4 == Next(c, s3, t)
    requires Enabled(c, s4, t) && s5 == Next(c, s4, t)
    requires Enabled(c, s5, t) && s6 == Next(c, s5, t)
    ensures CanRunAlone(c, s, t, 6) && RunAlone(c, s, t, 6) == s6
  {
    hide Enabled, Next;
    assert RunAlone(c, s6, t, 0) == s6;
    assert CanRunAlone(c, s5, t, 1) && RunAlone(c, s5, t, 1) == s6;
    assert CanRunAlone(c, s4, t, 2) && RunAlone(c, s4, t, 2) == s6;
    assert CanRunAlone(c, s3, t, 3) && RunAlone(c, s3, t, 3) == s6;
    assert CanRunAlone(c, s2, t, 4) && RunAlone(c, s2, t, 4) == s6;
    assert CanRunAlone(c, s1, t, 5) && RunAlone(c, s1, t, 5) == s6;
  }

  /** A producer's whole turn from a calm state: its character is in the slot at head. */
  lemma ProducerTurn(c: Config, s: State, p: nat)
    requires Calm(c, s) && p < |s.threads| && s.threads[p].role.Producer? && s.threads[p].i < |c.str|
    ensures CanRunAlone(c, s, p, 6)
    ensures var th := s.threads[p];
            RunAlone(c, s, p, 6)
            == s.(full := s.full - 1, empty := 1, buf := s.buf[s.tail := c.str[th.i]],
                  tail := (s.tail + 1) % c.size, log := s.log + [c.str[th.i]],
                  threads := s.threads[p := th.(i := th.i + 1)])
  {
    hide CanRunAlone, RunAlone;
    var th := s.threads[p];
    var s1 := Next(c, s, p);
    assert s1.threads == s.threads[p := th.(pc := Lock)];
    var s2 := Next(c, s1, p);
    assert s2.threads == s.threads[p := th.(pc := Use)];
    var s3 := Next(c, s2, p);
    assert s3.threads == s.threads[p := th.(pc := Advance)];
    var s4 := Next(c, s3, p);
    assert s4.threads == s.threads[p := th.(pc := Unlock)];
    var s5 := Next(c, s4, p);
    assert s5.threads == s.threads[p := th.(pc := Post)];
    var s6 := Next(c, s5, p);
    assert s6.threads == s.threads[p := th.(i := th.i + 1)];
    SixSteps(c, s, p, s1, s2, s3, s4, s5, s6);
  }

  /** A consumer that finds one item gets to its print in two steps. */
  lemma ConsumerPrints(c: Config, s: State, q: nat)
    requires Shape(c, s) && s.owner == Nobody && s.empty == 1
    requires q < |s.threads| && s.threads[q].role.Consumer? && s.threads[q].i < |c.str| && s.threads[q].pc.Wait?
    ensures CanRunAlone(c, s, q, 2)
    ensures RunAlone(c, s, q, 2)
            == s.(empty := 0, owner := Held(q), threads := s.threads[q := s.threads[q].(pc := Use)])
  {
    var th := s.threads[q];
    var s1 := Next(c, s, q);
    var s2 := Next(c, s1, q);
    assert s2.threads == s.threads[q := th.(pc := Use)];
    assert RunAlone(c, s2, q, 0) == s2;
    assert CanRunAlone(c, s1, q, 1) && RunAlone(c, s1, q, 1) == s2;
  }

  /** One step of a consumer. */
  lemma ConsumerNext(c: Config, s: State, q: nat)
    requires Shape(c, s) && Enabled(c, s, q) && s.threads[q].role.Consumer?
    ensures var th := s.threads[q];
            Next(c, s, q)
            == match th.pc
               case Wait => s.(empty := s.empty - 1, threads := s.threads[q := th.(pc := Lock)])
               case Lock => s.(owner := Held(q), threads := s.threads[q := th.(pc := Use)])
               case Use => s.(threads := s.threads[q := th.(pc := Advance)])
               case Advance =>
                 s.(head := (s.head + 1) % c.size, taken := s.taken + 1,
                    threads := s.threads[q := th.(pc := Unlock)])
               case Unlock => s.(owner := Nobody, threads := s.threads[q := th.(pc := Post)])
               case Post =>
                 s.(full := s.full + 1, threads := s.threads[q := Thread(Consumer, Wait, th.i + 1)])
  {
  }

  /** A consumer's whole turn then empties the buffer again. */
  lemma ConsumerTurn(c: Config, s: State, q: nat)
    requires Shape(c, s) && s.owner == Nobody && s.empty == 1
    requires q < |s.threads| && s.threads[q].role.Consumer? && s.threads[q].i < |c.str| && s.threads[q].pc.Wait?
    ensures CanRunAlone(c, s, q, 6)
    ensures var th := s.threads[q];
            RunAlone(c, s, q, 6)
            == s.(full := s.full + 1, empty := 0, head := (s.head + 1) % c.size, taken := s.taken + 1,
                  threads := s.threads[q := th.(i := th.i + 1)])
  {
    hide CanRunAlone, RunAlone, Next, Moves;
    var th := s.threads[q];
    ConsumerNext(c, s, q);
    var s1 := Next(c, s, q);
    assert s1.threads == s.threads[q := th.(pc := Lock)];
    ConsumerNext(c, s1, q);
    var s2 := Next(c, s1, q);
    assert s2.threads == s.threads[q := th.(pc := Use)];
    ConsumerNext(c, s2, q);
    var s3 := Next(c, s2, q);
    assert s3.threads == s.threads[q := th.(pc := Advance)];
    ConsumerNext(c, s3, q);
    var s4 := Next(c, s3, q);
    assert s4.threads == s.threads[q := th.(pc := Unlock)];
    ConsumerNext(c, s4, q);
    var s5 := Next(c, s4, q);
    assert s5.threads == s.threads[q := th.(pc := Post)];
    ConsumerNext(c, s5, q);
    var s6 := Next(c, s5, q);
    assert s6.threads == s.threads[q := th.(i := th.i + 1)];
    SixSteps(c, s, q, s1, s2, s3, s4, s5, s6);
  }

  /** One character through the buffer, from p to q. */
  lemma Round(c: Config, s: State, p: nat, q: nat) returns (sched: seq<nat>)
    requires Calm(c, s) && Pair(c, s, p, q)
    ensures CanRun(c, s, sched) && Calm(c, Run(c, s, sched))
    ensures Run(c, s, sched).threads
            == s.threads[p := s.threads[p].(i := s.threads[p].i + 1)][q := s.threads[q].(i := s.threads[q].i + 1)]
  {
    hide CanRunAlone, RunAlone;
    ProducerTurn(c, s, p);
    var a := Alone(c, s, p, 6);
    var s1 := RunAlone(c, s, p, 6);
    ConsumerTurn(c, s1, q);
    var b := Alone(c, s1, q, 6);
    RunConcat(c, s, a, b);
    sched := a + b;
    assert forall th | th in RunAlone(c, s1, q, 6).threads :: th.pc.Wait?;
  }

  lemma {:induction false} Rounds(c: Config, s: State, p: nat, q: nat, d: nat) returns (sched: seq<nat>)
    requires Calm(c, s) && p < |s.threads| && q < |s.threads|
    requires s.threads[p].role.Producer? && s.threads[p].i + d <= |c.str|
    requires s.threads[q].role.Consumer? && s.threads[q].i + d <= |c.str|
    ensures CanRun(c, s, sched) && Calm(c, Run(c, s, sched))
    ensures Run(c, s, sched).threads
            == s.threads[p := s.threads[p].(i := s.threads[p].i + d)][q := s.threads[q].(i := s.threads[q].i + d)]
    decreases d
  {
    hide Calm, CanRun, Run;
    if d == 0 {
      sched := [];
      RunNone(c, s);
    } else {
      var a := Round(c, s, p, q);
      var s1 := Run(c, s, a);
      var b := Rounds(c, s1, p, q, d - 1);
      RunConcat(c, s, a, b);
      sched := a + b;
    }
  }

  /** A producer and a consumer whose next characters differ lead to a print that is not in the slot. */
  lemma Mismatch(c: Config, s: State, p: nat, q: nat) returns (sched: seq<nat>)
    requires Calm(c, s) && Pair(c, s, p, q)
    requires c.str[s.threads[p].i] != c.str[s.threads[q].i]
    ensures CanRun(c, s, sched) && !PrintsSlot(c, Run(c, s, sched))
  {
    hide CanRunAlone, RunAlone;
    ProducerTurn(c, s, p);
    var a := Alone(c, s, p, 6);
    var s1 := RunAlone(c, s, p, 6);
    ConsumerPrints(c, s1, q);
    var b := Alone(c, s1, q, 2);
    RunConcat(c, s, a, b);
    sched := a + b;
    assert RunAlone(c, s1, q, 2).threads[q].pc.Use?;
  }

  lemma InitCalm(c: Config, buf: seq<char>)
    requires Start(c, buf)
    ensures Calm(c, Init(c, buf)) && |Init(c, buf).threads| == c.producers + c.consumers
    ensures forall t: nat | t < c.producers :: Init(c, buf).threads[t] == Thread(Producer, Wait, 0)
    ensures forall t: nat | c.producers <= t < c.producers + c.consumers ::
              Init(c, buf).threads[t] == Thread(Consumer, Wait, 0)
  {
  }

  lemma UnfaithfulFails(c: Config, buf: seq<char>) returns (sched: seq<nat>)
    requires Start(c, buf) && !Faithful(c)
    ensures CanRun(c, Init(c, buf), sched) && !PrintsSlot(c, Run(c, Init(c, buf), sched))
  {
    hide CanRun, Run, PrintsSlot, Init;
    var d :| 0 <= d < |c.str| && c.str[d] != c.str[0];
    var P, s := c.producers, Init(c, buf);
    InitCalm(c, buf);
    var a := Rounds(c, s, 0, P, d);
    var s1 := Run(c, s, a);
    var b;
    if P >= 2 {
      b := Mismatch(c, s1, 1, P);
    } else {
      b := Mismatch(c, s1, 0, P + 1);
    }
    RunConcat(c, s, a, b);
    sched := a + b;
  }

  /** The printed character is the consumed one in every run exactly for one producer and one
    consumer, or when the question does not arise: no thread of a role, or a constant string. */
  lemma PrintsSlotCondition(c: Config, buf: seq<char>)
    requires 0 < |c.str| && 0 < c.size == |buf|
    ensures AlwaysPrintsSlot(c, buf) <==> Faithful(c)
  {
    hide Inv, LogOk, CanRun, Run, PrintsSlot, Faithful;
    var s0 := Init(c, buf);
    InitInv(c, buf);
    if Faithful(c) {
      assert LogOk(c, s0) by {
        InitLog(c, buf);
      }
      forall sched: seq<nat> | CanRun(c, s0, sched) ensures PrintsSlot(c, Run(c, s0, sched)) {
        LogRun(c, s0, sched);
        FaithfulPrints(c, Run(c, s0, sched));
      }
    } else {
      var sched := UnfaithfulFails(c, buf);
    }
  }

  lemma InitLog(c: Config, buf: seq<char>)
    requires Start(c, buf)
    ensures LogOk(c, Init(c, buf))
  {
  }
}
