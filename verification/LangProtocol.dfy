/** Any number of threads making `lang_cache_get` calls, one after the other, on one cache
    (src/lang.c:154-222).

    A step is one critical section; the load between the two sections of a loader runs unlocked, so
    any other step may come in between, and its result is arbitrary.  A caller asleep on `loaded`
    is woken by the broadcast or spuriously, and then searches again. */
module LangProtocol {
  import opened Optional
  import opened Sums
  import opened Languages
  import opened LangCaches

  datatype Status = Idle | Trying | Asleep | Loading | Returned(result: Option<nat>)

  /** A thread and its latest call, for a name out of EXT_LANG; a thread that is idle has made none. */
  datatype Caller = Caller(name: string, status: Status)

  datatype State = State(entries: seq<string>, loading: seq<string>, callers: seq<Caller>)

  datatype Action =
    | Open(t: nat, name: string)
    | Look(t: nat)
    | Finish(t: nat, loaded: bool)
    | Spurious(t: nat)

  /** The thread is inside a call. */
  predicate InCall(c: Caller) {
    c.status == Trying || c.status == Asleep || c.status == Loading
  }

  ghost predicate Enabled(s: State, a: Action) {
    a.t < |s.callers| &&
    match a
    case Open(t, name) => !InCall(s.callers[t]) && name in LANGUAGES
    case Look(t) => s.callers[t].status == Trying
    case Finish(t, _) => s.callers[t].status == Loading
    case Spurious(t) => s.callers[t].status == Asleep
  }

  /** The scheduler is free: a thread takes any step its call is at, loads may go either way, a sleeper
      may wake for no reason, and a thread outside a call may begin one for any language. */
  lemma SchedulerIsFree(s: State, t: nat, loaded: bool, name: string)
    requires t < |s.callers|
    ensures match s.callers[t].status
      case Trying => Enabled(s, Look(t))
      case Asleep => Enabled(s, Spurious(t))
      case Loading => Enabled(s, Finish(t, loaded))
      case _ => name in LANGUAGES ==> Enabled(s, Open(t, name))
  {
  }

  function WakeAll(callers: seq<Caller>): (woken: seq<Caller>)
    ensures |woken| == |callers|
    ensures forall i :: 0 <= i < |callers| ==>
      woken[i] == if callers[i].status == Asleep then callers[i].(status := Trying) else callers[i]
  {
    seq(|callers|, i requires 0 <= i < |callers| =>
      if callers[i].status == Asleep then callers[i].(status := Trying) else callers[i])
  }

  function Set(callers: seq<Caller>, t: nat, status: Status): seq<Caller>
    requires t < |callers|
  {
    callers[t := callers[t].(status := status)]
  }

  function Step(s: State, a: Action): State
    requires a.t < |s.callers|
  {
    var name := s.callers[a.t].name;
    match a
    case Open(t, wanted) => s.(callers := s.callers[t := Caller(wanted, Trying)])
    case Look(t) =>
      (match Search(s.entries, s.loading, name)
       case Hit(i) => s.(callers := Set(s.callers, t, Returned(Some(i))))
       case InFlight => s.(callers := Set(s.callers, t, Asleep))
       case Full => s.(callers := Set(s.callers, t, Returned(None)))
       case Claimed => s.(loading := s.loading + [name], callers := Set(s.callers, t, Loading)))
    case Finish(t, loaded) =>
      var inserted := loaded && |s.entries| < MAX_LANGS;
      State(
        if inserted then s.entries + [name] else s.entries,
        SwapRemove(s.loading, name),
        WakeAll(Set(s.callers, t, Returned(if inserted then Some(|s.entries|) else None))))
    case Spurious(t) => s.(callers := Set(s.callers, t, Trying))
  }

  ghost predicate IsLoader(s: State, i: nat, name: string) {
    i < |s.callers| && s.callers[i] == Caller(name, Loading)
  }

  ghost predicate CallerOk(s: State, c: Caller) {
    && c.name in LANGUAGES
    && (c.status == Loading || c.status == Asleep ==> c.name in s.loading)
    && (c.status.Returned? && c.status.result.Some? ==>
          c.status.result.value < |s.entries| && s.entries[c.status.result.value] == c.name)
  }

  /** Names are distinct within and across `entries` and `loading`; each name in `loading` has
      exactly one loader; nobody sleeps for a name that nobody loads. */
  ghost predicate Inv(s: State) {
    && Distinct(s.entries + s.loading)
    && (forall n :: n in s.entries + s.loading ==> n in LANGUAGES)
    && (forall i :: 0 <= i < |s.callers| ==> CallerOk(s, s.callers[i]))
    && (forall n :: n in s.loading ==> exists i :: IsLoader(s, i, n))
    && (forall i: nat, j: nat, n :: IsLoader(s, i, n) && IsLoader(s, j, n) ==> i == j)
  }

  ghost predicate Initial(s: State) {
    s.entries == [] && s.loading == []
    && forall i :: 0 <= i < |s.callers| ==> s.callers[i].name in LANGUAGES && s.callers[i].status == Idle
  }

  lemma InitialIsOk(s: State)
    requires Initial(s)
    ensures Inv(s)
  {
  }

  /** A language in flight has a thread that loads it. */
  lemma SomeoneLoads(s: State)
    requires Inv(s)
    ensures s.loading != [] ==> exists i: nat :: i < |s.callers| && s.callers[i].status == Loading
  {
    if s.loading != [] {
      var name := s.loading[0];
      assert name in s.loading;
      var i :| IsLoader(s, i, name);
    }
  }

  // ----- Capacity -----

  /** Nine languages, so neither 32-slot array ever fills: the branches that report "Maximum number
      of languages" are dead. */
  lemma CapacityNeverReached(s: State)
    requires Inv(s)
    ensures |s.entries| + |s.loading| <= 9 < 32 == MAX_LANGS
    ensures forall name :: !Search(s.entries, s.loading, name).Full?
  {
    Pigeonhole(s.entries + s.loading, LANGUAGES);
    NineLanguages("", 0);
  }

  lemma SwapRemoveDropsOne(s: seq<string>, name: string)
    requires Distinct(s) && name in s
    ensures Distinct(SwapRemove(s, name))
    ensures forall n :: n in SwapRemove(s, name) <==> n in s && n != name
  {
    var i, r := IndexOf(s, name).value, SwapRemove(s, name);
    forall n | n in s && n != name ensures n in r {
      var k :| 0 <= k < |s| && s[k] == n;
      assert if k == |s| - 1 then r[i] == n else r[k] == n;
    }
  }

  // ----- Every step keeps the invariant -----

  lemma LookKeepsInv(s: State, t: nat)
    requires Inv(s) && Enabled(s, Look(t))
    ensures Inv(Step(s, Look(t)))
  {
    var s', name := Step(s, Look(t)), s.callers[t].name;
    CapacityNeverReached(s);
    assert CallerOk(s, s.callers[t]);
    DistinctParts(s.entries, s.loading);
    if Search(s.entries, s.loading, name) == Claimed {
      DistinctParts(s'.entries, s'.loading);
      assert IsLoader(s', t, name);
    }
    forall i | 0 <= i < |s'.callers| ensures CallerOk(s', s'.callers[i]) {
      assert CallerOk(s, s.callers[i]);
    }
    forall n | n in s'.loading ensures exists i :: IsLoader(s', i, n) {
      if n in s.loading {
        var i :| IsLoader(s, i, n);
        assert IsLoader(s', i, n);
      }
    }
    forall i: nat, j: nat, n | IsLoader(s', i, n) && IsLoader(s', j, n) ensures i == j {
      assert i != t ==> IsLoader(s, i, n) && CallerOk(s, s.callers[i]);
      assert j != t ==> IsLoader(s, j, n) && CallerOk(s, s.callers[j]);
    }
  }

  lemma FinishKeepsInv(s: State, t: nat, loaded: bool)
    requires Inv(s) && Enabled(s, Finish(t, loaded))
    ensures Inv(Step(s, Finish(t, loaded)))
    ensures Step(s, Finish(t, loaded)).callers[t].status.result == if loaded then Some(|s.entries|) else None
  {
    var s', name := Step(s, Finish(t, loaded)), s.callers[t].name;
    CapacityNeverReached(s);
    assert CallerOk(s, s.callers[t]) && IsLoader(s, t, name);
    DistinctParts(s.entries, s.loading);
    SwapRemoveDropsOne(s.loading, name);
    DistinctParts(s'.entries, s'.loading);
    forall i | 0 <= i < |s'.callers| ensures CallerOk(s', s'.callers[i]) {
      assert CallerOk(s, s.callers[i]);
      if s.callers[i].status == Loading && i != t {
        assert IsLoader(s, i, s.callers[i].name);
      }
    }
    forall n | n in s'.loading ensures exists i :: IsLoader(s', i, n) {
      var i :| IsLoader(s, i, n);
      assert IsLoader(s', i, n);
    }
    forall i: nat, j: nat, n | IsLoader(s', i, n) && IsLoader(s', j, n) ensures i == j {
      assert IsLoader(s, i, n) && IsLoader(s, j, n);
    }
  }

  lemma OpenKeepsInv(s: State, t: nat, name: string)
    requires Inv(s) && Enabled(s, Open(t, name))
    ensures Inv(Step(s, Open(t, name)))
  {
    var s' := Step(s, Open(t, name));
    forall i | 0 <= i < |s'.callers| ensures CallerOk(s', s'.callers[i]) {
      assert CallerOk(s, s.callers[i]);
    }
    forall n | n in s'.loading ensures exists i :: IsLoader(s', i, n) {
      var i :| IsLoader(s, i, n);
      assert IsLoader(s', i, n);
    }
    forall i: nat, j: nat, n | IsLoader(s', i, n) && IsLoader(s', j, n) ensures i == j {
      assert IsLoader(s, i, n) && IsLoader(s, j, n);
    }
  }

  lemma SpuriousKeepsInv(s: State, t: nat)
    requires Inv(s) && Enabled(s, Spurious(t))
    ensures Inv(Step(s, Spurious(t)))
  {
    var s' := Step(s, Spurious(t));
    forall i | 0 <= i < |s'.callers| ensures CallerOk(s', s'.callers[i]) {
      assert CallerOk(s, s.callers[i]);
    }
    forall n | n in s'.loading ensures exists i :: IsLoader(s', i, n) {
      var i :| IsLoader(s, i, n);
      assert IsLoader(s', i, n);
    }
    forall i: nat, j: nat, n | IsLoader(s', i, n) && IsLoader(s', j, n) ensures i == j {
      assert IsLoader(s, i, n) && IsLoader(s, j, n);
    }
  }

  lemma StepKeepsInv(s: State, a: Action)
    requires Inv(s) && Enabled(s, a)
    ensures Inv(Step(s, a))
  {
    match a
    case Open(t, name) => OpenKeepsInv(s, t, name);
    case Look(t) => LookKeepsInv(s, t);
    case Finish(t, loaded) => FinishKeepsInv(s, t, loaded);
    case Spurious(t) => SpuriousKeepsInv(s, t);
  }

  // ----- Runs -----

  ghost predicate IsRun(s: State, run: seq<Action>)
    decreases |run|
  {
    run != [] ==> Enabled(s, run[0]) && IsRun(Step(s, run[0]), run[1..])
  }

  ghost function After(s: State, run: seq<Action>): State
    requires IsRun(s, run)
    decreases |run|
  {
    if run == [] then s else After(Step(s, run[0]), run[1..])
  }

  /** Over every run: one load in flight per language at most, names distinct, nobody stranded;
      and whatever a call returned keeps naming its language, because `entries` only grows. */
  lemma {:induction false} RunIsSafe(s: State, run: seq<Action>)
    requires Inv(s) && IsRun(s, run)
    ensures var z := After(s, run);
      && Inv(z) && s.entries <= z.entries && |z.callers| == |s.callers|
      && forall i :: 0 <= i < |s.callers| && s.callers[i].status.Returned? && s.callers[i].status.result.Some? ==>
           var k := s.callers[i].status.result.value;
           k < |z.entries| && z.entries[k] == s.callers[i].name
    decreases |run|
  {
    if run != [] {
      StepKeepsInv(s, run[0]);
      RunIsSafe(Step(s, run[0]), run[1..]);
    }
    forall i | 0 <= i < |s.callers| ensures CallerOk(s, s.callers[i]) { }
  }

  /** Whatever interleaving led here, a thread asleep for a language has a live loader, whose next
      step, however the load turns out, wakes it. */
  lemma NobodyIsStranded(s: State, run: seq<Action>, i: nat) returns (j: nat)
    requires Initial(s) && IsRun(s, run)
    requires i < |After(s, run).callers| && After(s, run).callers[i].status == Asleep
    ensures var z := After(s, run);
      && z.callers[i].name in z.loading && IsLoader(z, j, z.callers[i].name)
      && forall loaded ::
           Enabled(z, Finish(j, loaded)) && Step(z, Finish(j, loaded)).callers[i] == z.callers[i].(status := Trying)
  {
    RunIsSafe(s, run);
    var z := After(s, run);
    assert CallerOk(z, z.callers[i]);
    j :| IsLoader(z, j, z.callers[i].name);
  }

  /** At most one load per language ever succeeds: a successful load of `name` needs `name` absent
      from `entries`, and puts it there for good. */
  lemma OneSuccessPerLanguage(s: State, t: nat, later: seq<Action>, u: nat)
    requires Inv(s) && Enabled(s, Finish(t, true)) && IsRun(Step(s, Finish(t, true)), later)
    requires var z := After(Step(s, Finish(t, true)), later);
      u < |z.callers| && z.callers[u].name == s.callers[t].name
    ensures s.callers[t].name !in s.entries
    ensures !Enabled(After(Step(s, Finish(t, true)), later), Finish(u, true))
  {
    assert CallerOk(s, s.callers[t]);
    DistinctParts(s.entries, s.loading);
    CapacityNeverReached(s);
    FinishKeepsInv(s, t, true);
    var next := Step(s, Finish(t, true));
    RunIsSafe(next, later);
    var z := After(next, later);
    assert z.entries[|s.entries|] == s.callers[t].name;
    DistinctParts(z.entries, z.loading);
    assert CallerOk(z, z.callers[u]);
  }

  // ----- Every call returns -----

  ghost predicate NoneInCall(s: State) {
    forall i :: 0 <= i < |s.callers| ==> !InCall(s.callers[i])
  }

  /** No deadlock: while some thread is inside a call, some thread can take a step of the call it is
      in that is not a spurious wakeup. */
  lemma SomeCallerCanMove(s: State) returns (a: Action)
    requires Inv(s) && !NoneInCall(s)
    ensures Enabled(s, a) && (a.Look? || a.Finish?)
  {
    var i: nat :| i < |s.callers| && InCall(s.callers[i]);
    assert CallerOk(s, s.callers[i]);
    match s.callers[i].status {
      case Trying => a := Look(i);
      case Loading => a := Finish(i, false);
      case Asleep =>
        var k :| IsLoader(s, k, s.callers[i].name);
        a := Finish(k, false);
    }
  }

  function Weight(c: Caller, n: nat): nat {
    match c.status
    case Trying => 2 * (n + 1) + 1
    case Asleep => 2 * (n + 1)
    case Loading => n + 1
    case Idle => 0
    case Returned(_) => 0
  }

  function Weights(s: State): (w: seq<nat>)
    ensures |w| == |s.callers|
  {
    seq(|s.callers|, i requires 0 <= i < |s.callers| => Weight(s.callers[i], |s.callers|))
  }

  ghost function Work(s: State): nat {
    Sum(Weights(s))
  }

  /** A broadcast makes every sleeper weigh one more, and there are fewer sleepers than callers. */
  lemma {:induction false} BroadcastCost(before: seq<nat>, after: seq<nat>)
    requires |before| == |after| && forall i :: 0 <= i < |before| ==> after[i] <= before[i] + 1
    ensures Sum(after) <= Sum(before) + |before|
  {
    if before != [] { BroadcastCost(before[1..], after[1..]); }
  }

  lemma FinishUsesWork(s: State, t: nat, loaded: bool)
    requires Enabled(s, Finish(t, loaded))
    ensures Work(Step(s, Finish(t, loaded))) < Work(s)
  {
    var mid, after := Weights(s)[t := 0], Weights(Step(s, Finish(t, loaded)));
    SumUpdate(Weights(s), t, 0);
    assert after[t] == 0;
    BroadcastCost(mid, after);
  }

  /** What one step may add to the work left: a new call, or the second look after a wakeup. */
  function Added(s: State, a: Action): nat {
    match a
    case Open(_, _) => 2 * (|s.callers| + 1) + 1
    case Spurious(_) => 1
    case _ => 0
  }

  lemma OtherUsesWork(s: State, a: Action)
    requires Inv(s) && Enabled(s, a) && !a.Finish?
    ensures Work(Step(s, a)) <= Work(s) + Added(s, a)
    ensures a.Look? ==> Work(Step(s, a)) < Work(s)
  {
    var s' := Step(s, a);
    CapacityNeverReached(s);
    SumUpdate(Weights(s), a.t, Weight(s'.callers[a.t], |s.callers|));
    assert Weights(s') == Weights(s)[a.t := Weight(s'.callers[a.t], |s.callers|)];
  }

  /** Every step inside a call uses up work, unless it is a spurious wakeup, which adds one unit; a new
      call adds 2n+3. */
  lemma StepUsesWork(s: State, a: Action)
    requires Inv(s) && Enabled(s, a)
    ensures Work(Step(s, a)) <= Work(s) + Added(s, a)
    ensures a.Look? || a.Finish? ==> Work(Step(s, a)) < Work(s)
  {
    hide Inv, Enabled, Step, Work;
    match a {
      case Finish(t, loaded) => FinishUsesWork(s, t, loaded);
      case _ => OtherUsesWork(s, a);
    }
  }

  function SpuriousCount(run: seq<Action>): nat {
    if run == [] then 0 else (if run[0].Spurious? then 1 else 0) + SpuriousCount(run[1..])
  }

  /** How many calls the run opens. */
  function CallCount(run: seq<Action>): nat {
    if run == [] then 0 else (if run[0].Open? then 1 else 0) + CallCount(run[1..])
  }

  /** `cost` for each call opened and two for each spurious wakeup. */
  function Budget(run: seq<Action>, cost: nat): nat {
    if run == [] then 0
    else (if run[0].Open? then cost else if run[0].Spurious? then 2 else 0) + Budget(run[1..], cost)
  }

  lemma {:induction false} BudgetCounts(run: seq<Action>, cost: nat)
    ensures Budget(run, cost) == cost * CallCount(run) + 2 * SpuriousCount(run)
  {
    if run != [] { BudgetCounts(run[1..], cost); }
  }

  lemma {:induction false} WorkBoundsRun(s: State, run: seq<Action>)
    requires Inv(s) && IsRun(s, run)
    ensures |run| + Work(After(s, run)) <= Work(s) + Budget(run, 2 * |s.callers| + 4)
    decreases |run|
  {
    hide Inv, Step, Work;
    if run != [] {
      StepKeepsInv(s, run[0]);
      StepUsesWork(s, run[0]);
      SameThreads(s, run[0]);
      WorkBoundsRun(Step(s, run[0]), run[1..]);
    }
  }

  lemma SameThreads(s: State, a: Action)
    requires a.t < |s.callers|
    ensures |Step(s, a).callers| == |s.callers|
  {
  }

  /** On `n` threads every call takes at most 2n+4 steps on average, plus two for each spurious
      wakeup, whichever loads fail. */
  lemma EveryCallReturns(s: State, run: seq<Action>)
    requires Initial(s) && IsRun(s, run)
    ensures |run| <= (2 * |s.callers| + 4) * CallCount(run) + 2 * SpuriousCount(run)
  {
    InitialIsOk(s);
    hide Inv, Initial, Enabled, Step, Work, IsRun, Budget;
    WorkBoundsRun(s, run);
    BudgetCounts(run, 2 * |s.callers| + 4);
    IdleWeighsNothing(s);
  }

  lemma IdleWeighsNothing(s: State)
    requires Initial(s)
    ensures Work(s) == 0
  {
    SumBound(Weights(s), 0);
  }

  /** A run can always be continued, without a spurious wakeup or a new call, until no thread is
      inside a call. */
  lemma NeverStuck(s: State, run: seq<Action>) returns (a: Action)
    requires Initial(s) && IsRun(s, run) && !NoneInCall(After(s, run))
    ensures Enabled(After(s, run), a) && (a.Look? || a.Finish?)
  {
    RunIsSafe(s, run);
    a := SomeCallerCanMove(After(s, run));
  }

  // ----- With a fixed load result per language, the schedule does not matter -----

  ghost predicate LoadsAs(s: State, run: seq<Action>, loads: string -> bool)
    requires IsRun(s, run)
    decreases |run|
  {
    run != [] ==>
      && (run[0].Finish? ==> run[0].loaded == loads(s.callers[run[0].t].name))
      && LoadsAs(Step(s, run[0]), run[1..], loads)
  }

  ghost predicate ResultsAgree(s: State, loads: string -> bool) {
    && (forall n :: n in s.entries ==> loads(n))
    && forall i :: 0 <= i < |s.callers| && s.callers[i].status.Returned? ==>
         s.callers[i].status.result.Some? == loads(s.callers[i].name)
  }

  lemma StepAgrees(s: State, a: Action, loads: string -> bool)
    requires Inv(s) && Enabled(s, a) && ResultsAgree(s, loads)
    requires a.Finish? ==> a.loaded == loads(s.callers[a.t].name)
    ensures ResultsAgree(Step(s, a), loads)
  {
    CapacityNeverReached(s);
    var s' := Step(s, a);
    forall i | 0 <= i < |s'.callers| && s'.callers[i].status.Returned?
      ensures s'.callers[i].status.result.Some? == loads(s'.callers[i].name)
    {
      if a.Look? && i == a.t {
        var name := s.callers[i].name;
        assert name in s.entries;
      }
    }
  }

  /** When loading a language always gives the same result, a call that returned got an entry
      exactly when its language loads, on every schedule. */
  lemma {:induction false} ResultIgnoresSchedule(s: State, run: seq<Action>, loads: string -> bool)
    requires Inv(s) && ResultsAgree(s, loads) && IsRun(s, run) && LoadsAs(s, run, loads)
    ensures ResultsAgree(After(s, run), loads)
    decreases |run|
  {
    if run != [] {
      StepKeepsInv(s, run[0]);
      StepAgrees(s, run[0], loads);
      ResultIgnoresSchedule(Step(s, run[0]), run[1..], loads);
    }
  }
}
