/**
 The shared informer factory's start and shutdown protocol. The value-level
 machine has one step for every point at which another goroutine can get in
 between: a critical section that only reads and writes under the lock is one
 step, a Start in progress holds the lock over one step for each informer it
 visits, and the informers' goroutines finish whenever they like.
 */
module InformerFactory {
  import opened Wrappers

  /** reflect.Type of an API object, and the identity of one call of Shutdown. */
  type ObjectType = nat
  type Caller = nat

  /** An informer object; every call of a constructor makes a new one. */
  datatype Informer = Informer(id: nat, resync: nat)

  datatype Config = Config(customResync: map<ObjectType, nat>, defaultResync: nat)

  function ResyncPeriod(c: Config, t: ObjectType): nat { GetOr(c.customResync, t, c.defaultResync) }

  datatype Goroutine = Goroutine(informerType: ObjectType, informer: Informer)

  /** Who holds the lock between two steps: nobody, or a Start that still has types to visit. */
  datatype Lock = Free | Starting(pending: set<ObjectType>)

  datatype State = State(
    informers: map<ObjectType, Informer>,
    made: nat,
    startedInformers: set<ObjectType>,
    launched: seq<Goroutine>,
    finished: set<nat>,
    wg: int,
    shuttingDown: bool,
    lock: Lock,
    waiting: set<Caller>,
    returned: set<Caller>)

  const INITIAL := State(map[], 0, {}, [], {}, 0, false, Free, {}, {})

  // ----- Steps -----

  datatype Step =
    | InformerFor(t: ObjectType)
    | StartEnter
    | StartVisit(t: ObjectType)
    | StartExit
    | Finish(goroutine: nat)
    | ShutdownMark(caller: Caller)
    | ShutdownReturn(caller: Caller)

  predicate Enabled(s: State, step: Step) {
    match step
    case InformerFor(_) => s.lock.Free?
    case StartEnter => s.lock.Free?
    case StartVisit(t) => s.lock.Starting? && t in s.lock.pending && t in s.informers
    case StartExit => s.lock.Starting? && s.lock.pending == {}
    case Finish(g) => g < |s.launched| && g !in s.finished
    case ShutdownMark(c) => s.lock.Free? && c !in s.waiting && c !in s.returned
    case ShutdownReturn(c) => c in s.waiting && s.wg == 0
  }

  /** InformerFor: the informer registered for the type, made on the first call. */
  function Register(c: Config, s: State, t: ObjectType): State {
    if t in s.informers then s
    else s.(informers := s.informers[t := Informer(s.made, ResyncPeriod(c, t))], made := s.made + 1)
  }

  /** The body of Start's loop. */
  function Visit(s: State, t: ObjectType): State
    requires t in s.informers
  {
    if t in s.startedInformers then s
    else s.(wg := s.wg + 1,
            launched := s.launched + [Goroutine(t, s.informers[t])],
            startedInformers := s.startedInformers + {t})
  }

  function Next(c: Config, s: State, step: Step): State
    requires Enabled(s, step)
  {
    match step
    case InformerFor(t) => Register(c, s, t)
    case StartEnter => if s.shuttingDown then s else s.(lock := Starting(s.informers.Keys))
    case StartVisit(t) => Visit(s, t).(lock := Starting(s.lock.pending - {t}))
    case StartExit => s.(lock := Free)
    case Finish(g) => s.(finished := s.finished + {g}, wg := s.wg - 1)
    case ShutdownMark(caller) => s.(shuttingDown := true, waiting := s.waiting + {caller})
    case ShutdownReturn(caller) => s.(waiting := s.waiting - {caller}, returned := s.returned + {caller})
  }

  ghost predicate IsRun(c: Config, run: seq<State>, steps: seq<Step>) {
    && |run| == |steps| + 1
    && run[0] == INITIAL
    && forall i :: 0 <= i < |steps| ==> Enabled(run[i], steps[i]) && run[i + 1] == Next(c, run[i], steps[i])
  }

  // ----- Invariant -----

  /** Informers are distinct objects with the period configured for their type. */
  ghost predicate Registered(c: Config, s: State) {
    && (forall t :: t in s.informers ==> s.informers[t].id < s.made && s.informers[t].resync == ResyncPeriod(c, t))
    && (forall t, t' :: t in s.informers && t' in s.informers && t != t' ==> s.informers[t].id != s.informers[t'].id)
  }

  /** The goroutines launched are those of the started types, one for each. */
  ghost predicate LaunchedOnce(s: State) {
    && (forall k :: 0 <= k < |s.launched| ==>
          && s.launched[k].informerType in s.startedInformers
          && s.launched[k].informerType in s.informers
          && s.launched[k].informer == s.informers[s.launched[k].informerType])
    && (forall j, k :: 0 <= j < k < |s.launched| ==> s.launched[j].informerType != s.launched[k].informerType)
    && (forall t :: t in s.startedInformers ==> exists k :: 0 <= k < |s.launched| && s.launched[k].informerType == t)
  }

  /** The wait group counts the goroutines launched and not finished. */
  ghost predicate Counted(s: State) {
    && s.wg == |s.launched| - |s.finished|
    && forall g :: g in s.finished ==> g < |s.launched|
  }

  ghost predicate Locked(s: State) {
    s.lock.Starting? ==> !s.shuttingDown && s.informers.Keys == s.startedInformers + s.lock.pending
  }

  ghost predicate ShutDownProperly(s: State) {
    && (s.waiting != {} || s.returned != {} ==> s.shuttingDown)
    && (s.returned != {} ==> s.wg == 0)
  }

  ghost predicate Invariant(c: Config, s: State) {
    Registered(c, s) && LaunchedOnce(s) && Counted(s) && Locked(s) && ShutDownProperly(s)
  }

  // ----- Counting goroutines -----

  function Below(n: nat): (s: set<nat>)
    ensures forall k: nat :: k in s <==> k < n
    ensures |s| == n
  {
    if n == 0 then {} else Below(n - 1) + {n - 1}
  }

  /** Goroutines launched and not finished yet. */
  function Running(s: State): set<nat> { Below(|s.launched|) - s.finished }

  lemma WaitGroupCountsRunning(s: State)
    requires Counted(s)
    ensures s.wg == |Running(s)|
  {
    assert Below(|s.launched|) * s.finished == s.finished;
  }

  lemma VisitLaunchesOnce(s: State, t: ObjectType)
    requires LaunchedOnce(s) && t in s.informers
    ensures LaunchedOnce(Visit(s, t))
  {
    var s' := Visit(s, t);
    if t !in s.startedInformers {
      assert s'.launched[|s.launched|].informerType == t;
      forall u | u in s'.startedInformers
        ensures exists k :: 0 <= k < |s'.launched| && s'.launched[k].informerType == u
      {
        if u != t {
          var k :| 0 <= k < |s.launched| && s.launched[k].informerType == u;
          assert s'.launched[k].informerType == u;
        }
      }
    }
  }

  lemma RegisterKeepsLaunched(c: Config, s: State, t: ObjectType)
    requires LaunchedOnce(s)
    ensures LaunchedOnce(Register(c, s, t))
  {
    var s' := Register(c, s, t);
    forall u | u in s'.startedInformers
      ensures exists k :: 0 <= k < |s'.launched| && s'.launched[k].informerType == u
    {
      assert u in s.startedInformers;
    }
  }

  lemma SameLaunched(s: State, s': State)
    requires LaunchedOnce(s)
    requires s'.launched == s.launched && s'.informers == s.informers && s'.startedInformers == s.startedInformers
    ensures LaunchedOnce(s')
  {
    forall t | t in s'.startedInformers
      ensures exists k :: 0 <= k < |s'.launched| && s'.launched[k].informerType == t
    {
      assert t in s.startedInformers;
    }
  }

  lemma RegisterKeepsRegistered(c: Config, s: State, t: ObjectType)
    requires Registered(c, s)
    ensures Registered(c, Register(c, s, t))
  {
  }

  lemma StepKeepsLaunched(c: Config, s: State, step: Step)
    requires LaunchedOnce(s) && Enabled(s, step)
    ensures LaunchedOnce(Next(c, s, step))
  {
    match step
    case InformerFor(t) => RegisterKeepsLaunched(c, s, t);
    case StartVisit(t) =>
      VisitLaunchesOnce(s, t);
      SameLaunched(Visit(s, t), Next(c, s, step));
    case _ => SameLaunched(s, Next(c, s, step));
  }

  lemma FinishKeepsCounts(c: Config, s: State, g: nat)
    requires Counted(s) && ShutDownProperly(s) && Enabled(s, Finish(g))
    ensures Counted(Next(c, s, Finish(g))) && ShutDownProperly(Next(c, s, Finish(g)))
  {
    WaitGroupCountsRunning(s);
    assert g in Running(s);
  }

  lemma StepKeepsCounts(c: Config, s: State, step: Step)
    requires Invariant(c, s) && Enabled(s, step)
    ensures Counted(Next(c, s, step)) && ShutDownProperly(Next(c, s, step))
  {
    match step
    case Finish(g) => FinishKeepsCounts(c, s, g);
    case _ =>
  }

  lemma StepKeepsLocked(c: Config, s: State, step: Step)
    requires LaunchedOnce(s) && Locked(s) && Enabled(s, step)
    ensures Locked(Next(c, s, step))
  {
    StartedAreRegistered(s);
  }

  /** Every step keeps the invariant. */
  lemma StepKeepsInvariant(c: Config, s: State, step: Step)
    requires Invariant(c, s) && Enabled(s, step)
    ensures Invariant(c, Next(c, s, step))
  {
    if step.InformerFor? { RegisterKeepsRegistered(c, s, step.t); }
    StepKeepsLaunched(c, s, step);
    StepKeepsCounts(c, s, step);
    StepKeepsLocked(c, s, step);
  }

  lemma StartedAreRegistered(s: State)
    requires LaunchedOnce(s)
    ensures s.startedInformers <= s.informers.Keys
  {
    forall t | t in s.startedInformers
      ensures t in s.informers
    {
      var k :| 0 <= k < |s.launched| && s.launched[k].informerType == t;
    }
  }

  lemma {:induction false} RunKeepsInvariant(c: Config, run: seq<State>, steps: seq<Step>, i: nat)
    requires IsRun(c, run, steps) && i < |run|
    ensures Invariant(c, run[i])
  {
    if i == 0 {
      assert Invariant(c, INITIAL);
    } else {
      RunKeepsInvariant(c, run, steps, i - 1);
      StepKeepsInvariant(c, run[i - 1], steps[i - 1]);
    }
  }

  // ----- What every run has -----

  /** One step neither forgets nor replaces an informer, and launches only before shutdown. */
  lemma StepExtends(c: Config, s: State, step: Step)
    requires Invariant(c, s) && Enabled(s, step)
    ensures forall t :: t in s.informers ==>
              t in Next(c, s, step).informers && Next(c, s, step).informers[t] == s.informers[t]
    ensures s.launched <= Next(c, s, step).launched && s.finished <= Next(c, s, step).finished
    ensures s.shuttingDown ==> Next(c, s, step).shuttingDown && Next(c, s, step).launched == s.launched
    ensures s.returned <= Next(c, s, step).returned
  {
  }

  /** A type's informer is the same object for the rest of the run. */
  lemma {:induction false} OneInformerForEver(c: Config, run: seq<State>, steps: seq<Step>, i: nat, j: nat,
                                              t: ObjectType)
    requires IsRun(c, run, steps) && i <= j < |run| && t in run[i].informers
    ensures t in run[j].informers && run[j].informers[t] == run[i].informers[t]
    decreases j
  {
    if i < j {
      OneInformerForEver(c, run, steps, i, j - 1, t);
      RunKeepsInvariant(c, run, steps, j - 1);
      StepExtends(c, run[j - 1], steps[j - 1]);
    }
  }

  /** Any two calls of InformerFor for one type answer the same informer; calls for different types do not. */
  lemma CallsAgree(c: Config, run: seq<State>, steps: seq<Step>, i: nat, j: nat)
    requires IsRun(c, run, steps) && i <= j < |steps|
    requires steps[i].InformerFor? && steps[j].InformerFor?
    ensures steps[i].t in run[i + 1].informers && steps[j].t in run[j + 1].informers
    ensures run[i + 1].informers[steps[i].t] == run[j + 1].informers[steps[j].t] <==> steps[i].t == steps[j].t
  {
    OneInformerForEver(c, run, steps, i + 1, j + 1, steps[i].t);
    RunKeepsInvariant(c, run, steps, j + 1);
  }

  /** No informer object is started twice, and the wait group is exact, whatever the interleaving. */
  lemma StartedAtMostOnce(c: Config, run: seq<State>, steps: seq<Step>, i: nat)
    requires IsRun(c, run, steps) && i < |run|
    ensures forall j, k :: 0 <= j < k < |run[i].launched| ==>
              run[i].launched[j].informer != run[i].launched[k].informer
    ensures run[i].wg == |run[i].launched| - |run[i].finished| == |Running(run[i])|
  {
    RunKeepsInvariant(c, run, steps, i);
    WaitGroupCountsRunning(run[i]);
  }

  /** When a Start gives the lock back, every informer registered by then has been started. */
  lemma StartStartsAll(c: Config, run: seq<State>, steps: seq<Step>, i: nat)
    requires IsRun(c, run, steps) && i < |steps| && steps[i].StartExit?
    ensures run[i + 1].startedInformers == run[i + 1].informers.Keys
  {
    RunKeepsInvariant(c, run, steps, i);
  }

  lemma {:induction false} MarkedLaunchesNothing(c: Config, run: seq<State>, steps: seq<Step>, i: nat, j: nat)
    requires IsRun(c, run, steps) && i <= j < |run| && run[i].shuttingDown
    ensures run[j].shuttingDown && run[j].launched == run[i].launched
    ensures run[i].finished <= run[j].finished && run[i].returned <= run[j].returned
    decreases j
  {
    if i < j {
      MarkedLaunchesNothing(c, run, steps, i, j - 1);
      RunKeepsInvariant(c, run, steps, j - 1);
      StepExtends(c, run[j - 1], steps[j - 1]);
    }
  }

  /** Once some Shutdown has returned, no informer runs, then or at any later point of the run. */
  lemma ShutdownIsFinal(c: Config, run: seq<State>, steps: seq<Step>, i: nat, j: nat)
    requires IsRun(c, run, steps) && i <= j < |run| && run[i].returned != {}
    ensures Running(run[j]) == {} && run[j].launched == run[i].launched
  {
    RunKeepsInvariant(c, run, steps, i);
    MarkedLaunchesNothing(c, run, steps, i, j);
    RunKeepsInvariant(c, run, steps, j);
    assert run[j].returned != {} by {
      var caller :| caller in run[i].returned;
      assert caller in run[j].returned;
    }
    WaitGroupCountsRunning(run[j]);
  }

  /** A waiting Shutdown can return exactly when nothing runs; finishing goroutines is all that takes. */
  lemma ReturnIsEnabledIff(c: Config, run: seq<State>, steps: seq<Step>, i: nat, caller: Caller)
    requires IsRun(c, run, steps) && i < |run| && caller in run[i].waiting
    ensures Enabled(run[i], ShutdownReturn(caller)) <==> Running(run[i]) == {}
    ensures Running(run[i]) != {} ==> exists g :: Enabled(run[i], Finish(g))
  {
    RunKeepsInvariant(c, run, steps, i);
    WaitGroupCountsRunning(run[i]);
    if Running(run[i]) != {} {
      var g :| g in Running(run[i]);
      assert Enabled(run[i], Finish(g));
    }
  }

  // ----- Sequential execution -----

  /** Start without interruption, visiting the types in the given order. */
  function VisitAll(s: State, order: seq<ObjectType>): State
    requires forall t :: t in order ==> t in s.informers
    ensures VisitAll(s, order).informers == s.informers
    decreases |order|
  {
    if order == [] then s
    else Visit(VisitAll(s, order[..|order| - 1]), order[|order| - 1])
  }

  function Started(s: State, order: seq<ObjectType>): State
    requires forall t :: t in order ==> t in s.informers
  {
    if s.shuttingDown then s else VisitAll(s, order)
  }

  /** Whatever the order, Start changes the same set of started types and the same count. */
  lemma {:induction false} VisitAllStarts(s: State, order: seq<ObjectType>)
    requires forall t :: t in order ==> t in s.informers
    ensures forall t :: t in VisitAll(s, order).startedInformers <==> t in s.startedInformers || t in order
    ensures VisitAll(s, order)
            == s.(startedInformers := VisitAll(s, order).startedInformers, wg := VisitAll(s, order).wg,
                  launched := VisitAll(s, order).launched)
    decreases |order|
  {
    if order != [] {
      var init, last := order[..|order| - 1], order[|order| - 1];
      assert order == init + [last];
      VisitAllStarts(s, init);
    }
  }

  /** The state a list of steps leads to, if each is enabled when its turn comes. */
  function Exec(c: Config, s: State, steps: seq<Step>): Option<State> {
    if steps == [] then Some(s)
    else
      var last := |steps| - 1;
      match Exec(c, s, steps[..last])
      case None => None
      case Some(s') => if Enabled(s', steps[last]) then Some(Next(c, s', steps[last])) else None
  }

  function Visits(order: seq<ObjectType>): (steps: seq<Step>)
    ensures |steps| == |order|
    ensures forall i :: 0 <= i < |order| ==> steps[i] == StartVisit(order[i])
  {
    seq(|order|, i requires 0 <= i < |order| => StartVisit(order[i]))
  }

  lemma ExecExtended(c: Config, s: State, steps: seq<Step>, step: Step)
    requires Exec(c, s, steps).Some? && Enabled(Exec(c, s, steps).value, step)
    ensures Exec(c, s, steps + [step]) == Some(Next(c, Exec(c, s, steps).value, step))
  {
    assert (steps + [step])[..|steps|] == steps;
  }

  /** The types of `pending` that `order` does not visit. */
  function Unvisited(pending: set<ObjectType>, order: seq<ObjectType>): set<ObjectType> {
    set t | t in pending && t !in order
  }

  lemma VisitUnderLock(c: Config, s: State, t: ObjectType, pending: set<ObjectType>)
    requires t in s.informers && t in pending
    ensures Enabled(s.(lock := Starting(pending)), StartVisit(t))
    ensures Next(c, s.(lock := Starting(pending)), StartVisit(t)) == Visit(s, t).(lock := Starting(pending - {t}))
  {
  }

  lemma {:induction false} VisitsAreSteps(c: Config, s: State, order: seq<ObjectType>, pending: set<ObjectType>)
    requires NoDuplicates(order)
    requires forall t :: t in order ==> t in s.informers && t in pending
    ensures Exec(c, s.(lock := Starting(pending)), Visits(order))
            == Some(VisitAll(s, order).(lock := Starting(Unvisited(pending, order))))
    decreases |order|
  {
    if order == [] {
      assert Unvisited(pending, order) == pending;
    } else {
      var init, last := order[..|order| - 1], order[|order| - 1];
      assert order == init + [last];
      assert Visits(order) == Visits(init) + [StartVisit(last)];
      VisitsAreSteps(c, s, init, pending);
      var left := Unvisited(pending, init);
      assert Unvisited(pending, order) == left - {last};
      VisitUnderLock(c, VisitAll(s, init), last, left);
      ExecExtended(c, s.(lock := Starting(pending)), Visits(init), StartVisit(last));
    }
  }

  /** An uninterrupted Start is one of the machine's runs: enter, visit every type, exit. */
  lemma StartIsSteps(c: Config, s: State, order: seq<ObjectType>)
    requires s.lock.Free? && Enumerates(order, s.informers.Keys)
    ensures s.shuttingDown ==> Next(c, s, StartEnter) == Started(s, order)
    ensures !s.shuttingDown ==>
              var visited := Exec(c, Next(c, s, StartEnter), Visits(order));
              && visited.Some? && Enabled(visited.value, StartExit)
              && Next(c, visited.value, StartExit) == Started(s, order)
  {
    VisitsAreSteps(c, s, order, s.informers.Keys);
    VisitAllStarts(s, order);
    assert Unvisited(s.informers.Keys, order) == {};
  }

  /** The factory itself; each method is one critical section. */
  class SharedInformerFactory {
    const config: Config
    var informers: map<ObjectType, Informer>
    var made: nat
    var startedInformers: set<ObjectType>
    var wg: int
    var shuttingDown: bool
    // The goroutines launched so far, in order, and those that have finished.
    var launched: seq<Goroutine>
    var finished: set<nat>

    ghost function Abs(): State
      reads this
    {
      State(informers, made, startedInformers, launched, finished, wg, shuttingDown, Free, {}, {})
    }

    /** The wait group counts the goroutines launched and not finished. */
    ghost predicate Valid()
      reads this
    {
      Counted(Abs())
    }

    constructor (config: Config)
      ensures Valid() && this.config == config && Abs() == INITIAL
    {
      this.config := config;
      informers, made, startedInformers, wg, shuttingDown := map[], 0, {}, 0, false;
      launched, finished := [], {};
    }

    method InformerFor(t: ObjectType) returns (informer: Informer)
      requires Valid()
      modifies this
      ensures Valid()
      ensures Abs() == Register(config, old(Abs()), t)
      ensures t in informers && informer == informers[t]
    {
      if t in informers {
        return informers[t];
      }
      var resyncPeriod := config.defaultResync;
      if t in config.customResync {
        resyncPeriod := config.customResync[t];
      }
      informer := Informer(made, resyncPeriod);
      made := made + 1;
      informers := informers[t := informer];
    }

    /** `order` is the order in which the loop happened to visit the map. */
    method Start() returns (ghost order: seq<ObjectType>)
      requires Valid()
      modifies this
      ensures Valid()
      ensures Enumerates(order, old(informers).Keys)
      ensures Abs() == Started(old(Abs()), order)
    {
      if shuttingDown {
        order := SomeOrder(informers.Keys);
        return;
      }
      order := [];
      ghost var before := Abs();
      var left := informers.Keys;
      while left != {}
        invariant left <= informers.Keys && informers == before.informers
        invariant Enumerates(order, informers.Keys - left)
        invariant forall t :: t in order ==> t in before.informers
        invariant Abs() == VisitAll(before, order) && Valid()
        decreases left
      {
        var informerType :| informerType in left;
        ghost var order' := order + [informerType];
        assert order'[..|order|] == order;
        if informerType !in startedInformers {
          wg := wg + 1;
          var informer := informers[informerType];
          launched := launched + [Goroutine(informerType, informer)];
          startedInformers := startedInformers + {informerType};
        }
        left := left - {informerType};
        order := order';
      }
    }

    /**
     Mark the factory, then wait. While Shutdown is blocked goroutines finish, in
     any order; it returns when the count is zero.
     */
    method Shutdown()
      requires Valid()
      modifies this
      ensures Valid()
      ensures Abs() == old(Abs()).(shuttingDown := true, wg := 0, finished := Below(|old(launched)|))
    {
      shuttingDown := true;
      ghost var marked := Abs();
      WaitGroupCountsRunning(Abs());
      while wg != 0
        invariant Valid() && wg >= 0
        invariant Abs() == marked.(wg := wg, finished := finished)
        decreases wg
      {
        WaitGroupCountsRunning(Abs());
        assert exists g :: g in Running(Abs());
        var g :| 0 <= g < |launched| && g !in finished;
        assert g in Running(Abs());
        finished, wg := finished + {g}, wg - 1;
        WaitGroupCountsRunning(Abs());
      }
      WaitGroupCountsRunning(Abs());
      assert finished == Below(|launched|);
    }

    /** What WaitForCacheSync waits for: the informers started when it was called. */
    method StartedSnapshot() returns (snapshot: map<ObjectType, Informer>)
      ensures snapshot.Keys == informers.Keys * startedInformers
      ensures forall t :: t in snapshot ==> snapshot[t] == informers[t]
    {
      snapshot := map[];
      var left := informers.Keys;
      while left != {}
        invariant left <= informers.Keys
        invariant snapshot.Keys == (informers.Keys - left) * startedInformers
        invariant forall t :: t in snapshot ==> t in informers && snapshot[t] == informers[t]
        decreases left
      {
        var informerType :| informerType in left;
        if informerType in startedInformers {
          snapshot := snapshot[informerType := informers[informerType]];
        }
        left := left - {informerType};
      }
    }
  }

  /** In every run each informer has the period configured for its type, or the default one. */
  lemma PeriodIsConfigured(c: Config, run: seq<State>, steps: seq<Step>, i: nat, t: ObjectType)
    requires IsRun(c, run, steps) && i < |run| && t in run[i].informers
    ensures t in c.customResync ==> run[i].informers[t].resync == c.customResync[t]
    ensures t !in c.customResync ==> run[i].informers[t].resync == c.defaultResync
  {
    RunKeepsInvariant(c, run, steps, i);
  }
}
