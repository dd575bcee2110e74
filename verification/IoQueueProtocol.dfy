/** The queue as a monitor shared by any number of threads (src/ioqueue.c:28-67).

    A step is one critical section, from taking the lock to releasing it in `pthread_cond_wait` or
    at the end of the call.  A thread asleep on a condition variable is in an `Asleep` set; a thread
    that was woken but has not yet retaken the lock is in a `Woken` set; any other thread may barge
    in between.  A signal wakes one sleeper of the scheduler's choice, a broadcast wakes all, and a
    sleeper may wake spuriously. */
module IoQueueProtocol {
  import opened Optional

  datatype Attempt<T> = MustWait | Drained | Got(item: T)

  /** What a getter that holds the lock finds. */
  function GetOutcome<T>(contents: seq<T>, closed: bool): Attempt<T> {
    if contents != [] then Got(contents[0])
    else if closed then Drained
    else MustWait
  }

  datatype Monitor<T> = Monitor(
    cap: nat, items: seq<T>, closed: bool,
    putAsleep: set<nat>, putWoken: set<nat>,
    getAsleep: set<nat>, getWoken: set<nat>)

  /** One critical section; `wake` is the sleeper the signal picks. */
  datatype Op<T> =
    | TryPut(thread: nat, item: T, wake: Option<nat>)
    | TryGet(thread: nat, wake: Option<nat>)
    | Close(thread: nat)
    | SpuriousPut(thread: nat)
    | SpuriousGet(thread: nat)

  predicate CanSignal(asleep: set<nat>, wake: Option<nat>) {
    match wake
    case None => asleep == {}
    case Some(t) => t in asleep
  }

  function Signalled(wake: Option<nat>): set<nat> {
    if wake.Some? then {wake.value} else {}
  }

  /** A thread outside any wait may start any call; a woken one resumes the call it sleeps in. */
  ghost predicate Enabled<T>(m: Monitor<T>, op: Op<T>) {
    match op
    case TryPut(t, _, wake) =>
      && t !in m.putAsleep + m.getAsleep + m.getWoken
      && (|m.items| < m.cap ==> CanSignal(m.getAsleep, wake))
    case TryGet(t, wake) =>
      && t !in m.getAsleep + m.putAsleep + m.putWoken
      && (m.items != [] ==> CanSignal(m.putAsleep, wake))
    case Close(t) => t !in m.putAsleep + m.putWoken + m.getAsleep + m.getWoken
    case SpuriousPut(t) => t in m.putAsleep
    case SpuriousGet(t) => t in m.getAsleep
  }

  /** The scheduler is free: any sleeper may wake for no reason, any thread that does not sleep may step
      in ahead of those woken, and a signal may go to any sleeper. */
  lemma SchedulerIsFree<T>(m: Monitor<T>, t: nat, x: T, sleeper: nat)
    ensures t in m.putAsleep ==> Enabled(m, SpuriousPut(t))
    ensures t in m.getAsleep ==> Enabled(m, SpuriousGet(t))
    ensures t !in m.putAsleep + m.putWoken + m.getAsleep + m.getWoken ==>
      && Enabled(m, Close(t))
      && (sleeper in m.getAsleep ==> Enabled(m, TryPut(t, x, Some(sleeper))))
      && (sleeper in m.putAsleep ==> Enabled(m, TryGet(t, Some(sleeper))))
      && (m.getAsleep == {} ==> Enabled(m, TryPut(t, x, None)))
      && (m.putAsleep == {} ==> Enabled(m, TryGet(t, None)))
  {
  }

  function Step<T>(m: Monitor<T>, op: Op<T>): Monitor<T> {
    match op
    case TryPut(t, x, wake) =>
      if |m.items| == m.cap then
        m.(putAsleep := m.putAsleep + {t}, putWoken := m.putWoken - {t})
      else
        m.(items := m.items + [x], putWoken := m.putWoken - {t},
           getAsleep := m.getAsleep - Signalled(wake), getWoken := m.getWoken + Signalled(wake))
    case TryGet(t, wake) =>
      (match GetOutcome(m.items, m.closed)
       case MustWait => m.(getAsleep := m.getAsleep + {t}, getWoken := m.getWoken - {t})
       case Drained => m.(getWoken := m.getWoken - {t})
       case Got(_) =>
         m.(items := m.items[1..], getWoken := m.getWoken - {t},
            putAsleep := m.putAsleep - Signalled(wake), putWoken := m.putWoken + Signalled(wake)))
    case Close(_) =>
      m.(closed := true, getAsleep := {}, getWoken := m.getWoken + m.getAsleep)
    case SpuriousPut(t) => m.(putAsleep := m.putAsleep - {t}, putWoken := m.putWoken + {t})
    case SpuriousGet(t) => m.(getAsleep := m.getAsleep - {t}, getWoken := m.getWoken + {t})
  }

  function Fresh<T>(cap: nat): Monitor<T> {
    Monitor(cap, [], false, {}, {}, {}, {})
  }

  /** While anyone sleeps, enough woken threads are on their way to use up all there is to use. */
  ghost predicate NoLostWakeup<T>(m: Monitor<T>) {
    && (m.getAsleep != {} ==> |m.getWoken| >= |m.items|)
    && (m.putAsleep != {} ==> |m.putWoken| >= m.cap - |m.items|)
    && (m.closed ==> m.getAsleep == {})
  }

  ghost predicate Inv<T>(m: Monitor<T>) {
    && 0 < m.cap && |m.items| <= m.cap
    && m.putAsleep !! m.putWoken && m.getAsleep !! m.getWoken
    && NoLostWakeup(m)
  }

  lemma CardAdd(s: set<nat>, t: nat)
    ensures t !in s ==> |s + {t}| == |s| + 1
    ensures t in s ==> |s - {t}| == |s| - 1
    ensures t !in s ==> s - {t} == s
  {
  }

  lemma PutKeepsInv<T>(m: Monitor<T>, t: nat, x: T, wake: Option<nat>)
    requires Inv(m) && Enabled(m, TryPut(t, x, wake))
    ensures Inv(Step(m, TryPut(t, x, wake)))
  {
    CardAdd(m.putWoken, t);
    if wake.Some? { CardAdd(m.getWoken, wake.value); }
  }

  lemma GetKeepsInv<T>(m: Monitor<T>, t: nat, wake: Option<nat>)
    requires Inv(m) && Enabled(m, TryGet(t, wake))
    ensures Inv(Step(m, TryGet(t, wake)))
  {
    CardAdd(m.getWoken, t);
    if wake.Some? { CardAdd(m.putWoken, wake.value); }
  }

  lemma StepKeepsInv<T>(m: Monitor<T>, op: Op<T>)
    requires Inv(m) && Enabled(m, op)
    ensures Inv(Step(m, op)) && Step(m, op).cap == m.cap
  {
    match op
    case TryPut(t, x, wake) => PutKeepsInv(m, t, x, wake);
    case TryGet(t, wake) => GetKeepsInv(m, t, wake);
    case Close(_) =>
    case SpuriousPut(t) => CardAdd(m.putWoken, t);
    case SpuriousGet(t) => CardAdd(m.getWoken, t);
  }

  /** Usable work and a sleeper never coexist without a woken peer that will do the work. */
  lemma SleeperHasWokenPeer<T>(m: Monitor<T>)
    requires Inv(m)
    ensures m.getAsleep != {} && m.items != [] ==>
      exists t :: t in m.getWoken
    ensures m.putAsleep != {} && |m.items| < m.cap ==>
      exists t :: t in m.putWoken
  {
    assert |m.getWoken| > 0 ==> exists t :: t in m.getWoken by {
      if |m.getWoken| > 0 { var t :| t in m.getWoken; }
    }
    assert |m.putWoken| > 0 ==> exists t :: t in m.putWoken by {
      if |m.putWoken| > 0 { var t :| t in m.putWoken; }
    }
  }

  // ----- Runs: every interleaving of any number of threads -----

  /** A monitor with the items put and got so far, each in lock order. */
  datatype Traced<T> = Traced(m: Monitor<T>, put: seq<T>, got: seq<T>)

  function TracedStep<T>(s: Traced<T>, op: Op<T>): Traced<T> {
    Traced(
      Step(s.m, op),
      if op.TryPut? && |s.m.items| != s.m.cap then s.put + [op.item] else s.put,
      if op.TryGet? && GetOutcome(s.m.items, s.m.closed).Got? then s.got + [s.m.items[0]] else s.got)
  }

  ghost predicate IsRun<T>(s: Traced<T>, ops: seq<Op<T>>)
    decreases |ops|
  {
    ops != [] ==> Enabled(s.m, ops[0]) && IsRun(TracedStep(s, ops[0]), ops[1..])
  }

  function After<T>(s: Traced<T>, ops: seq<Op<T>>): Traced<T>
    decreases |ops|
  {
    if ops == [] then s else After(TracedStep(s, ops[0]), ops[1..])
  }

  ghost predicate TracedInv<T>(s: Traced<T>) {
    Inv(s.m) && s.put == s.got + s.m.items
  }

  lemma TracedStepIsFifo<T>(s: Traced<T>, op: Op<T>)
    requires s.put == s.got + s.m.items
    ensures TracedStep(s, op).put == TracedStep(s, op).got + TracedStep(s, op).m.items
  {
    if op.TryGet? && s.m.items != [] {
      assert s.m.items == [s.m.items[0]] + s.m.items[1..];
      assert s.put == (s.got + [s.m.items[0]]) + s.m.items[1..];
    } else if op.TryPut? && |s.m.items| != s.m.cap {
      assert s.put + [op.item] == s.got + (s.m.items + [op.item]);
    }
  }

  lemma {:induction false} RunKeepsInv<T>(s: Traced<T>, ops: seq<Op<T>>)
    requires TracedInv(s) && IsRun(s, ops)
    ensures TracedInv(After(s, ops)) && After(s, ops).m.cap == s.m.cap
    decreases |ops|
  {
    if ops != [] {
      var op := ops[0];
      StepKeepsInv(s.m, op);
      TracedStepIsFifo(s, op);
      RunKeepsInv(TracedStep(s, op), ops[1..]);
    }
  }

  /** Over every run of a new queue: no wakeup is lost, no getter sleeps once it is closed, the
      bound is respected, and what was got is a prefix of what was put, in order, the rest queued. */
  lemma QueueIsSafeFifo<T>(cap: nat, ops: seq<Op<T>>)
    requires cap > 0 && IsRun(Traced(Fresh(cap), [], []), ops)
    ensures var z := After(Traced(Fresh(cap), [], []), ops);
      && NoLostWakeup(z.m)
      && z.got <= z.put && z.put[|z.got|..] == z.m.items
      && |z.m.items| <= cap
  {
    RunKeepsInv(Traced(Fresh(cap), [], []), ops);
  }

  /** No put comes after the close (main closes the work queue after its last put; the workers are
      joined before the output queue is closed). */
  ghost predicate NoPutOnceClosed<T>(s: Traced<T>, ops: seq<Op<T>>)
    decreases |ops|
  {
    ops != [] ==> !(s.m.closed && ops[0].TryPut?) && NoPutOnceClosed(TracedStep(s, ops[0]), ops[1..])
  }

  lemma {:induction false} ClosedAndEmptyForever<T>(s: Traced<T>, ops: seq<Op<T>>)
    requires s.m.closed && s.m.items == [] && NoPutOnceClosed(s, ops)
    ensures var z := After(s, ops);
      z.m.closed && z.m.items == [] && z.put == s.put && z.got == s.got
    decreases |ops|
  {
    if ops != [] { ClosedAndEmptyForever(TracedStep(s, ops[0]), ops[1..]); }
  }

  /** A getter is told NULL exactly when the queue is closed and empty; if no put follows the close,
      everything that is ever put has by then been taken. */
  lemma NullMeansEverythingWasTaken<T>(cap: nat, ops: seq<Op<T>>, later: seq<Op<T>>)
    requires cap > 0 && IsRun(Traced(Fresh(cap), [], []), ops)
    requires var s := After(Traced(Fresh(cap), [], []), ops);
      GetOutcome(s.m.items, s.m.closed).Drained? && NoPutOnceClosed(s, later)
    ensures var s := After(Traced(Fresh(cap), [], []), ops);
      var z := After(s, later);
      s.m.closed && s.got == z.put == z.got
  {
    RunKeepsInv(Traced(Fresh(cap), [], []), ops);
    ClosedAndEmptyForever(After(Traced(Fresh(cap), [], []), ops), later);
  }
}
