/** dns/dnsclient_unix.go: resolverConfig, which any number of threads consult
    and update at once. Each access to shared memory is one step; a run is any
    sequence of steps of any threads and of ticks of a clock that never goes
    back. What the file system answers is part of the step. */
module ConfigReload {
  import opened Basics

  /** Nanoseconds. */
  type Time = int

  const RECHECK_INTERVAL: Time := 5_000_000_000

  /** A parsed configuration; `id` stands for everything else in it. */
  datatype Config = Config(mtime: Time, noReload: bool, id: int)

  datatype Once = NotStarted | Running(thread: nat) | Finished

  /** Where a thread stands in getSystemDNSConfig, with its local values. */
  datatype Pc =
    | Enter
    | InitStore
    | InitReadClock
    | InitSetChecked(now: Time)
    | InitMakeChan
    | InitReturn
    | CheckNoReload
    | TryAcquire
    | ReadClock
    | CompareAge(now: Time)
    | SetChecked(now: Time)
    | StatFile
    | CompareMtime(mtime: Time)
    | ReadFile(mtime: Time)
    | StoreConfig(mtime: Time, conf: Config)
    | ReleaseSema
    | LoadConfig
    | Return(result: Config)

  /** The zero time.Time, used when os.Stat fails. */
  const ZERO_TIME: Time := 0

  /** The shared fields; `sema` is the number of tokens in the channel, None for
      a nil channel. */
  datatype Shared = Shared(once: Once, config: Option<Config>, lastChecked: Option<Time>, sema: Option<nat>)

  datatype State = State(sh: Shared, clock: Time, pcs: seq<Pc>)

  /** A tick, or a step of a thread: `stat` is the mtime os.Stat would report
      and `read` what dnsReadConfig would return at that moment. */
  datatype Event = Tick(dt: nat) | Step(thread: nat, stat: Option<Time>, read: Config)

  function Start(threads: nat, clock: Time): State
  {
    State(Shared(NotStarted, None, None, None), clock, seq(threads, _ => Enter))
  }

  /** One step of thread t, which stands at pc; None when it is blocked. */
  function LocalStep(pc: Pc, sh: Shared, t: nat, clock: Time, stat: Option<Time>, read: Config): Option<(Pc, Shared)>
  {
    match pc
    case Enter =>
      if sh.once == Finished then Some((CheckNoReload, sh))
      else if sh.once == NotStarted then Some((InitStore, sh.(once := Running(t))))
      else None
    case InitStore => Some((InitReadClock, sh.(config := Some(read))))
    case InitReadClock => Some((InitSetChecked(clock), sh))
    case InitSetChecked(now) => Some((InitMakeChan, sh.(lastChecked := Some(now))))
    case InitMakeChan => Some((InitReturn, sh.(sema := Some(0))))
    case InitReturn => Some((CheckNoReload, sh.(once := Finished)))
    case CheckNoReload =>
      if sh.config.None? then None
      else Some((if sh.config.value.noReload then LoadConfig else TryAcquire, sh))
    case TryAcquire =>
      if sh.sema == Some(0) then Some((ReadClock, sh.(sema := Some(1)))) else Some((LoadConfig, sh))
    case ReadClock => Some((CompareAge(clock), sh))
    case CompareAge(now) =>
      if sh.lastChecked.None? then None
      else Some((if sh.lastChecked.value > now - RECHECK_INTERVAL then ReleaseSema else SetChecked(now), sh))
    case SetChecked(now) => Some((StatFile, sh.(lastChecked := Some(now))))
    case StatFile => Some((CompareMtime(if stat.Some? then stat.value else ZERO_TIME), sh))
    case CompareMtime(mtime) =>
      if sh.config.None? then None
      else Some((if mtime == sh.config.value.mtime then ReleaseSema else ReadFile(mtime), sh))
    case ReadFile(mtime) => Some((StoreConfig(mtime, read), sh))
    case StoreConfig(_, conf) => Some((ReleaseSema, sh.(config := Some(conf))))
    case ReleaseSema =>
      if sh.sema.Some? && sh.sema.value > 0 then Some((LoadConfig, sh.(sema := Some(sh.sema.value - 1)))) else None
    case LoadConfig =>
      if sh.config.None? then None else Some((Return(sh.config.value), sh))
    case Return(_) => Some((Enter, sh))
  }

  function ThreadStep(s: State, t: nat, stat: Option<Time>, read: Config): (r: Option<State>)
    requires t < |s.pcs|
  {
    match LocalStep(s.pcs[t], s.sh, t, s.clock, stat, read)
    case None => None
    case Some((pc, sh)) => Some(State(sh, s.clock, s.pcs[t := pc]))
  }

  /** An event that cannot happen leaves the state alone. */
  function Apply(s: State, e: Event): (s': State)
    ensures |s'.pcs| == |s.pcs|
  {
    match e
    case Tick(dt) => s.(clock := s.clock + dt)
    case Step(t, stat, read) =>
      if t < |s.pcs| && ThreadStep(s, t, stat, read).Some? then ThreadStep(s, t, stat, read).value else s
  }

  function Run(s: State, events: seq<Event>): (s': State)
    ensures |s'.pcs| == |s.pcs|
  {
    if events == [] then s else Apply(Run(s, events[..|events| - 1]), events[|events| - 1])
  }

  // --- The invariant ---

  predicate Initialising(pc: Pc)
  {
    pc.InitStore? || pc.InitReadClock? || pc.InitSetChecked? || pc.InitMakeChan? || pc.InitReturn?
  }

  /** Between tryAcquireSema and releaseSema. */
  predicate Critical(pc: Pc)
  {
    pc.ReadClock? || pc.CompareAge? || pc.SetChecked? || pc.StatFile? || pc.CompareMtime? || pc.ReadFile?
    || pc.StoreConfig? || pc.ReleaseSema?
  }

  ghost predicate AtMostOne(s: State)
  {
    forall t, u | 0 <= t < |s.pcs| && 0 <= u < |s.pcs| && Critical(s.pcs[t]) && Critical(s.pcs[u]) :: t == u
  }

  ghost predicate SomeoneInside(s: State)
  {
    exists t | 0 <= t < |s.pcs| :: Critical(s.pcs[t])
  }

  /** What holds of the values a thread carries. */
  ghost predicate LocalsOk(s: State, pc: Pc)
  {
    match pc
    case InitStore => s.sh.lastChecked.None?
    case InitReadClock => s.sh.config.Some? && s.sh.lastChecked.None?
    case InitSetChecked(now) => s.sh.config.Some? && s.sh.lastChecked.None? && now <= s.clock
    case InitMakeChan => s.sh.config.Some? && s.sh.lastChecked.Some?
    case InitReturn => s.sh.config.Some? && s.sh.lastChecked.Some? && s.sh.sema == Some(0)
    case CompareAge(now) => now <= s.clock
    case SetChecked(now) => now <= s.clock && s.sh.lastChecked.Some? && s.sh.lastChecked.value <= now - RECHECK_INTERVAL
    case ReadFile(mtime) => s.sh.config.Some? && mtime != s.sh.config.value.mtime
    case StoreConfig(mtime, _) => s.sh.config.Some? && mtime != s.sh.config.value.mtime
    case _ => true
  }

  ghost predicate LocalsInv(s: State)
  {
    forall t | 0 <= t < |s.pcs| :: LocalsOk(s, s.pcs[t])
  }

  ghost predicate OnceInv(s: State)
  {
    && (forall t | 0 <= t < |s.pcs| :: Initialising(s.pcs[t]) <==> s.sh.once == Running(t))
    && (s.sh.once.Running? ==> s.sh.once.thread < |s.pcs|)
    && (s.sh.once != Finished ==> forall t | 0 <= t < |s.pcs| :: s.pcs[t] == Enter || Initialising(s.pcs[t]))
  }

  ghost predicate SharedInv(s: State)
  {
    && (s.sh.once == NotStarted ==> s.sh.lastChecked.None?)
    && (s.sh.once == Finished ==> s.sh.config.Some? && s.sh.lastChecked.Some?)
    && (s.sh.lastChecked.Some? ==> s.sh.lastChecked.value <= s.clock)
    && AtMostOne(s)
    && (s.sh.once == Finished ==> s.sh.sema == Some(if SomeoneInside(s) then 1 else 0))
  }

  ghost predicate Inv(s: State)
  {
    LocalsInv(s) && OnceInv(s) && SharedInv(s)
  }

  lemma StartInv(threads: nat, clock: Time)
    ensures Inv(Start(threads, clock))
  {
  }

  lemma TickInv(s: State, dt: nat)
    requires Inv(s)
    ensures Inv(Apply(s, Tick(dt)))
  {
    var s' := s.(clock := s.clock + dt);
    assert forall t | 0 <= t < |s.pcs| :: LocalsOk(s, s.pcs[t]) ==> LocalsOk(s', s'.pcs[t]);
    if SomeoneInside(s) {
      var t :| 0 <= t < |s.pcs| && Critical(s.pcs[t]);
      assert Critical(s'.pcs[t]);
    }
  }

  /** Who is inside after one thread moved. */
  lemma InsideAfter(s: State, t: nat, s': State)
    requires t < |s.pcs| && |s'.pcs| == |s.pcs| && AtMostOne(s)
    requires forall u | 0 <= u < |s.pcs| && u != t :: s'.pcs[u] == s.pcs[u]
    ensures Critical(s.pcs[t]) && !Critical(s'.pcs[t]) ==> !SomeoneInside(s')
    ensures Critical(s'.pcs[t]) ==> SomeoneInside(s')
    ensures Critical(s.pcs[t]) ==> SomeoneInside(s)
    ensures Critical(s.pcs[t]) == Critical(s'.pcs[t]) ==> SomeoneInside(s) == SomeoneInside(s')
    ensures (Critical(s'.pcs[t]) ==> Critical(s.pcs[t]) || !SomeoneInside(s)) ==> AtMostOne(s')
  {
    if SomeoneInside(s') {
      var u :| 0 <= u < |s'.pcs| && Critical(s'.pcs[u]);
      if u != t {
        assert Critical(s.pcs[u]);
      }
    }
    if SomeoneInside(s) {
      var u :| 0 <= u < |s.pcs| && Critical(s.pcs[u]);
      if u != t {
        assert Critical(s'.pcs[u]);
      }
    }
  }

  lemma StepLocals(s: State, t: nat, stat: Option<Time>, read: Config)
    requires Inv(s) && t < |s.pcs| && ThreadStep(s, t, stat, read).Some?
    ensures LocalsInv(ThreadStep(s, t, stat, read).value)
  {
    var s' := ThreadStep(s, t, stat, read).value;
    assert LocalsOk(s, s.pcs[t]);
    forall u | 0 <= u < |s.pcs|
      ensures LocalsOk(s', s'.pcs[u])
    {
      assert LocalsOk(s, s.pcs[u]);
      if u != t {
        assert s'.pcs[u] == s.pcs[u];
        assert Critical(s.pcs[t]) && Critical(s.pcs[u]) ==> u == t;
      }
    }
  }

  lemma StepOnce(s: State, t: nat, stat: Option<Time>, read: Config)
    requires OnceInv(s) && t < |s.pcs| && ThreadStep(s, t, stat, read).Some?
    ensures OnceInv(ThreadStep(s, t, stat, read).value)
  {
    var s' := ThreadStep(s, t, stat, read).value;
    assert forall u | 0 <= u < |s.pcs| && u != t :: s'.pcs[u] == s.pcs[u];
  }

  lemma StepShared(s: State, t: nat, stat: Option<Time>, read: Config)
    requires Inv(s) && t < |s.pcs| && ThreadStep(s, t, stat, read).Some?
    ensures SharedInv(ThreadStep(s, t, stat, read).value)
  {
    assert LocalsOk(s, s.pcs[t]);
    InsideAfter(s, t, ThreadStep(s, t, stat, read).value);
    if s.sh.once != Finished {
      NobodyInside(s);
    }
  }

  lemma NobodyInside(s: State)
    requires OnceInv(s) && s.sh.once != Finished
    ensures !SomeoneInside(s)
  {
    forall t | 0 <= t < |s.pcs|
      ensures !Critical(s.pcs[t])
    {
      assert s.pcs[t] == Enter || Initialising(s.pcs[t]);
    }
  }

  lemma StepInv(s: State, t: nat, stat: Option<Time>, read: Config)
    requires Inv(s) && t < |s.pcs| && ThreadStep(s, t, stat, read).Some?
    ensures Inv(ThreadStep(s, t, stat, read).value)
  {
    StepLocals(s, t, stat, read);
    StepOnce(s, t, stat, read);
    StepShared(s, t, stat, read);
  }

  /** Every reachable state satisfies the invariant. */
  lemma {:induction false} RunInv(threads: nat, clock: Time, events: seq<Event>)
    ensures Inv(Run(Start(threads, clock), events))
  {
    if events == [] {
      StartInv(threads, clock);
    } else {
      var front, e := events[..|events| - 1], events[|events| - 1];
      RunInv(threads, clock, front);
      var s := Run(Start(threads, clock), front);
      match e
      case Tick(dt) => TickInv(s, dt);
      case Step(t, stat, read) =>
        if t < |s.pcs| && ThreadStep(s, t, stat, read).Some? {
          StepInv(s, t, stat, read);
        }
    }
  }

  // --- What it gives ---

  /** At any moment of any run at most one thread is between acquiring and
      releasing the semaphore, and once initialisation is over the configuration
      is never nil. */
  lemma MutualExclusion(threads: nat, clock: Time, events: seq<Event>)
    ensures var s := Run(Start(threads, clock), events);
            && (forall t, u | 0 <= t < threads && 0 <= u < threads && Critical(s.pcs[t]) && Critical(s.pcs[u])
                  :: t == u)
            && (s.sh.once == Finished ==> s.sh.config.Some?)
  {
    RunInv(threads, clock, events);
  }

  /** The configuration was the stored one after some prefix of the run. */
  ghost predicate WasStored(threads: nat, clock: Time, events: seq<Event>, config: Config)
  {
    exists n: nat :: n <= |events| && StoredAfter(threads, clock, events[..n], config)
  }

  ghost predicate StoredAfter(threads: nat, clock: Time, events: seq<Event>, config: Config)
  {
    Run(Start(threads, clock), events).sh.config == Some(config)
  }

  /** Whatever a thread was handed had been stored. */
  lemma {:induction false} HandedWasStored(threads: nat, clock: Time, events: seq<Event>, t: nat)
    requires t < threads
    ensures var pc := Run(Start(threads, clock), events).pcs[t];
            pc.Return? ==> WasStored(threads, clock, events, pc.result)
  {
    if events != [] && Run(Start(threads, clock), events).pcs[t].Return? {
      var front, pc := events[..|events| - 1], Run(Start(threads, clock), events).pcs[t];
      if Run(Start(threads, clock), front).pcs[t] == pc {
        HandedWasStored(threads, clock, front, t);
        var n: nat :| n <= |front| && StoredAfter(threads, clock, front[..n], pc.result);
        assert front[..n] == events[..n];
      } else {
        assert StoredAfter(threads, clock, events[..|events| - 1], pc.result);
      }
    }
  }

  /** After initialisation only the thread inside writes the time of the last
      check or the configuration. */
  lemma OnlyHolderWrites(threads: nat, clock: Time, events: seq<Event>, e: Event)
    requires var s := Run(Start(threads, clock), events);
             var s' := Apply(s, e);
             s.sh.once == Finished && (s'.sh.lastChecked != s.sh.lastChecked || s'.sh.config != s.sh.config)
    ensures var s := Run(Start(threads, clock), events);
            e.Step? && e.thread < threads && Critical(s.pcs[e.thread]) &&
            (forall u | 0 <= u < threads && Critical(s.pcs[u]) :: u == e.thread)
  {
    RunInv(threads, clock, events);
  }

  /** After initialisation the configuration is replaced only by a thread whose own
      check has found a modification time that is not that of the configuration
      replaced, and by what that thread has read. */
  lemma ReplacedIfChanged(threads: nat, clock: Time, events: seq<Event>, e: Event)
    requires var s := Run(Start(threads, clock), events);
             s.sh.once == Finished && Apply(s, e).sh.config != s.sh.config
    ensures var s := Run(Start(threads, clock), events);
            && e.Step? && e.thread < threads && s.pcs[e.thread].StoreConfig? && s.sh.config.Some?
            && s.pcs[e.thread].mtime != s.sh.config.value.mtime
            && Apply(s, e).sh.config == Some(s.pcs[e.thread].conf)
  {
    RunInv(threads, clock, events);
    var s := Run(Start(threads, clock), events);
    assert e.Step? && e.thread < threads ==> LocalsOk(s, s.pcs[e.thread]);
  }

  /** One event keeps the time of the last check or moves it on by at least
      five seconds. */
  lemma ApplyChecked(s: State, e: Event)
    requires Inv(s) && s.sh.lastChecked.Some? && s.sh.once == Finished
    ensures var s' := Apply(s, e);
            && s'.sh.once == Finished && s'.sh.lastChecked.Some?
            && (s'.sh.lastChecked == s.sh.lastChecked ||
               s'.sh.lastChecked.value >= s.sh.lastChecked.value + RECHECK_INTERVAL)
  {
    if e.Step? && e.thread < |s.pcs| {
      assert LocalsOk(s, s.pcs[e.thread]);
    }
  }

  /** Along every run the time of the last check never decreases, and any two
      different values of it are at least five seconds apart; the first value is
      the one set by initialisation. */
  lemma {:induction false} ChecksAreApart(threads: nat, clock: Time, before: seq<Event>, after: seq<Event>)
    requires Run(Start(threads, clock), before).sh.once == Finished
    ensures var s, s' := Run(Start(threads, clock), before), Run(Start(threads, clock), before + after);
            && s.sh.lastChecked.Some? && s'.sh.lastChecked.Some? && s'.sh.once == Finished
            && (s'.sh.lastChecked == s.sh.lastChecked ||
               s'.sh.lastChecked.value >= s.sh.lastChecked.value + RECHECK_INTERVAL)
    decreases |after|
  {
    RunInv(threads, clock, before);
    if after == [] {
      assert before + after == before;
    } else {
      var front, e := after[..|after| - 1], after[|after| - 1];
      assert (before + after)[..|before + after| - 1] == before + front;
      ChecksAreApart(threads, clock, before, front);
      RunInv(threads, clock, before + front);
      ApplyChecked(Run(Start(threads, clock), before + front), e);
    }
  }

  /** The number of rechecks in a run: steps that set lastChecked after
      initialisation. */
  ghost function Rechecks(s: State, events: seq<Event>): nat
  {
    if events == [] then 0
    else
      var front, e := events[..|events| - 1], events[|events| - 1];
      var s' := Run(s, front);
      Rechecks(s, front) + if e.Step? && e.thread < |s'.pcs| && s'.pcs[e.thread].SetChecked? then 1 else 0
  }

  lemma RecheckStep(s: State, e: Event)
    requires Inv(s) && e.Step? && e.thread < |s.pcs| && s.pcs[e.thread].SetChecked?
    ensures s.sh.once == Finished
    ensures Apply(s, e).sh.lastChecked.value >= s.sh.lastChecked.value + RECHECK_INTERVAL
  {
    assert LocalsOk(s, s.pcs[e.thread]);
  }

  lemma {:induction false} RechecksFit(threads: nat, clock: Time, events: seq<Event>)
    ensures var s := Run(Start(threads, clock), events);
            && clock <= s.clock
            && (forall t | 0 <= t < threads && s.pcs[t].InitSetChecked? :: clock <= s.pcs[t].now)
            && (s.sh.lastChecked.None? ==> Rechecks(Start(threads, clock), events) == 0)
            && (s.sh.lastChecked.Some? ==>
                  clock + RECHECK_INTERVAL * Rechecks(Start(threads, clock), events) <= s.sh.lastChecked.value)
    decreases |events|
  {
    if events != [] {
      var front, e := events[..|events| - 1], events[|events| - 1];
      RechecksFit(threads, clock, front);
      RunInv(threads, clock, front);
      var s := Run(Start(threads, clock), front);
      if e.Step? && e.thread < |s.pcs| {
        assert LocalsOk(s, s.pcs[e.thread]);
        if s.pcs[e.thread].SetChecked? {
          RecheckStep(s, e);
        }
      }
    }
  }

  /** However many threads look up names, at most one recheck is made for each
      five seconds that pass. */
  lemma RecheckRate(threads: nat, clock: Time, events: seq<Event>)
    ensures RECHECK_INTERVAL * Rechecks(Start(threads, clock), events) <=
            Run(Start(threads, clock), events).clock - clock
  {
    RechecksFit(threads, clock, events);
    RunInv(threads, clock, events);
  }

  /** No thread is ever stuck: only a thread waiting for the initialisation is
      blocked, and then the initialising thread can move. */
  lemma NeverStuck(threads: nat, clock: Time, events: seq<Event>, t: nat, stat: Option<Time>, read: Config)
    requires t < threads
    ensures var s := Run(Start(threads, clock), events);
            (ThreadStep(s, t, stat, read).None? ==>
               && s.pcs[t] == Enter && s.sh.once.Running? && s.sh.once.thread < threads
               && ThreadStep(s, s.sh.once.thread, stat, read).Some?)
  {
    RunInv(threads, clock, events);
    var s := Run(Start(threads, clock), events);
    assert LocalsOk(s, s.pcs[t]);
    if s.pcs[t].ReleaseSema? {
      assert SomeoneInside(s);
    }
    if s.sh.once.Running? {
      assert LocalsOk(s, s.pcs[s.sh.once.thread]);
      assert Initialising(s.pcs[s.sh.once.thread]);
    }
  }

  // --- One thread on its own is the sequential function ---

  function Steps(t: nat, n: nat, stat: Option<Time>, read: Config): seq<Event>
  {
    seq(n, _ => Step(t, stat, read))
  }

  /** n steps of one thread, seen from its own side. */
  function LocalRun(pc: Pc, sh: Shared, t: nat, clock: Time, stat: Option<Time>, read: Config, n: nat): (Pc, Shared)
    decreases n
  {
    if n == 0 then (pc, sh)
    else
      match LocalStep(pc, sh, t, clock, stat, read)
      case None => (pc, sh)
      case Some((pc', sh')) => LocalRun(pc', sh', t, clock, stat, read, n - 1)
  }

  lemma {:induction false} RunAppend(s: State, front: seq<Event>, back: seq<Event>)
    ensures Run(s, front + back) == Run(Run(s, front), back)
    decreases |back|
  {
    if back == [] {
      assert front + back == front;
    } else {
      RunAppend(s, front, back[..|back| - 1]);
      assert (front + back)[..|front + back| - 1] == front + back[..|back| - 1];
    }
  }

  lemma {:induction false} LocalRunIsRun(s: State, t: nat, stat: Option<Time>, read: Config, n: nat)
    requires t < |s.pcs|
    ensures var (pc, sh) := LocalRun(s.pcs[t], s.sh, t, s.clock, stat, read, n);
            Run(s, Steps(t, n, stat, read)) == State(sh, s.clock, s.pcs[t := pc])
    decreases n
  {
    hide LocalStep;
    if n == 0 {
      assert s.pcs[t := s.pcs[t]] == s.pcs;
    } else {
      var e := Step(t, stat, read);
      var s' := Apply(s, e);
      assert Steps(t, n, stat, read) == [e] + Steps(t, n - 1, stat, read);
      RunAppend(s, [e], Steps(t, n - 1, stat, read));
      assert Run(s, [e]) == Apply(Run(s, []), e);
      LocalRunIsRun(s', t, stat, read, n - 1);
      if LocalStep(s.pcs[t], s.sh, t, s.clock, stat, read).None? {
        StuckRun(s.pcs[t], s.sh, t, s.clock, stat, read, n - 1);
      } else {
        var (pc, sh) := LocalStep(s.pcs[t], s.sh, t, s.clock, stat, read).value;
        var last := LocalRun(pc, sh, t, s.clock, stat, read, n - 1).0;
        assert s.pcs[t := pc][t := last] == s.pcs[t := last];
      }
    }
  }

  lemma StuckRun(pc: Pc, sh: Shared, t: nat, clock: Time, stat: Option<Time>, read: Config, n: nat)
    requires LocalStep(pc, sh, t, clock, stat, read).None?
    ensures LocalRun(pc, sh, t, clock, stat, read, n) == (pc, sh)
  {
  }

  /** tryUpdate as a sequential function of the configuration and the time of
      the last check. */
  function TryUpdate(config: Config, lastChecked: Time, now: Time, stat: Option<Time>, read: Config): (Config, Time)
  {
    if config.noReload || lastChecked > now - RECHECK_INTERVAL then (config, lastChecked)
    else if (if stat.Some? then stat.value else ZERO_TIME) == config.mtime then (config, now)
    else (read, now)
  }

  /** A thread that runs alone from an idle state rechecks the file exactly when
      the configuration allows it and the last check is five seconds old, reads it
      exactly when it then finds another modification time (zero if it cannot be
      had), returns the configuration stored in the end, and frees the semaphore. */
  lemma Solo(s: State, t: nat, stat: Option<Time>, read: Config)
    requires s.sh.once == Finished && s.sh.sema == Some(0) && s.sh.config.Some? && s.sh.lastChecked.Some?
    requires t < |s.pcs| && s.pcs[t] == Enter
    ensures var (config, checked) := (s.sh.config.value, s.sh.lastChecked.value);
            var due := !config.noReload && s.clock - checked >= 5_000_000_000;
            var changed := config.mtime != if stat.Some? then stat.value else 0;
            exists n :: Run(s, Steps(t, n, stat, read)) ==
              State(s.sh.(config := Some(if due && changed then read else config),
                          lastChecked := Some(if due then s.clock else checked)),
                    s.clock, s.pcs[t := Return(if due && changed then read else config)])
  {
    var (config, checked) := TryUpdate(s.sh.config.value, s.sh.lastChecked.value, s.clock, stat, read);
    var n := SoloLength(s.sh, t, s.clock, stat, read);
    LocalRunIsRun(s, t, stat, read, n);
  }

  lemma SoloLength(sh: Shared, t: nat, now: Time, stat: Option<Time>, read: Config) returns (n: nat)
    requires sh.once == Finished && sh.sema == Some(0) && sh.config.Some? && sh.lastChecked.Some?
    ensures var (config, checked) := TryUpdate(sh.config.value, sh.lastChecked.value, now, stat, read);
            LocalRun(Enter, sh, t, now, stat, read, n) ==
            (Return(config), sh.(config := Some(config), lastChecked := Some(checked)))
  {
    var inside := sh.(sema := Some(1));
    var checked := inside.(lastChecked := Some(now));
    var mtime := if stat.Some? then stat.value else ZERO_TIME;
    if sh.config.value.noReload {
      n := 3;
      assert LocalRun(Enter, sh, t, now, stat, read, 3) == LocalRun(CheckNoReload, sh, t, now, stat, read, 2);
      assert LocalRun(CheckNoReload, sh, t, now, stat, read, 2) == LocalRun(LoadConfig, sh, t, now, stat, read, 1);
      assert LocalRun(LoadConfig, sh, t, now, stat, read, 1) ==
             LocalRun(Return(sh.config.value), sh, t, now, stat, read, 0);
    } else {
      var m := if sh.lastChecked.value > now - RECHECK_INTERVAL then 3
               else if mtime == sh.config.value.mtime then 6 else 8;
      n := m + 4;
      assert LocalRun(Enter, sh, t, now, stat, read, m + 4) == LocalRun(CheckNoReload, sh, t, now, stat, read, m + 3);
      assert LocalRun(CheckNoReload, sh, t, now, stat, read, m + 3) ==
             LocalRun(TryAcquire, sh, t, now, stat, read, m + 2);
      assert LocalRun(TryAcquire, sh, t, now, stat, read, m + 2) ==
             LocalRun(ReadClock, inside, t, now, stat, read, m + 1);
      assert LocalRun(ReadClock, inside, t, now, stat, read, m + 1) ==
             LocalRun(CompareAge(now), inside, t, now, stat, read, m);
      SoloInside(sh, t, now, stat, read, m);
    }
  }

  lemma SoloInside(sh: Shared, t: nat, now: Time, stat: Option<Time>, read: Config, m: nat)
    requires sh.sema == Some(0) && sh.config.Some? && sh.lastChecked.Some? && !sh.config.value.noReload
    requires m == if sh.lastChecked.value > now - RECHECK_INTERVAL then 3
                  else if (if stat.Some? then stat.value else ZERO_TIME) == sh.config.value.mtime then 6 else 8
    ensures var (config, checked) := TryUpdate(sh.config.value, sh.lastChecked.value, now, stat, read);
            LocalRun(CompareAge(now), sh.(sema := Some(1)), t, now, stat, read, m) ==
            (Return(config), sh.(config := Some(config), lastChecked := Some(checked)))
  {
    var inside := sh.(sema := Some(1));
    var checked := inside.(lastChecked := Some(now));
    hide LocalRun;
    OneStep(CompareAge(now), inside, t, now, stat, read, m);
    if m == 3 {
      SoloLeave(inside, t, now, stat, read);
    } else {
      OneStep(SetChecked(now), inside, t, now, stat, read, m - 1);
      SoloRecheck(checked, t, now, stat, read, m - 2);
    }
  }

  lemma SoloRecheck(sh: Shared, t: nat, now: Time, stat: Option<Time>, read: Config, m: nat)
    requires sh.sema == Some(1) && sh.config.Some?
    requires m == if (if stat.Some? then stat.value else ZERO_TIME) == sh.config.value.mtime then 4 else 6
    ensures var config := if m == 4 then sh.config.value else read;
            LocalRun(StatFile, sh, t, now, stat, read, m) ==
            (Return(config), sh.(config := Some(config), sema := Some(0)))
  {
    hide LocalRun;
    OneStep(StatFile, sh, t, now, stat, read, m);
    OneStep(CompareMtime(if stat.Some? then stat.value else ZERO_TIME), sh, t, now, stat, read, m - 1);
    if m == 4 {
      SoloLeave(sh, t, now, stat, read);
    } else {
      var mtime := if stat.Some? then stat.value else ZERO_TIME;
      OneStep(ReadFile(mtime), sh, t, now, stat, read, 4);
      OneStep(StoreConfig(mtime, read), sh, t, now, stat, read, 3);
      SoloLeave(sh.(config := Some(read)), t, now, stat, read);
    }
  }

  lemma OneStep(pc: Pc, sh: Shared, t: nat, clock: Time, stat: Option<Time>, read: Config, n: nat)
    requires n > 0
    ensures LocalRun(pc, sh, t, clock, stat, read, n) ==
            match LocalStep(pc, sh, t, clock, stat, read)
            case None => (pc, sh)
            case Some((pc', sh')) => LocalRun(pc', sh', t, clock, stat, read, n - 1)
  {
  }

  lemma SoloLeave(sh: Shared, t: nat, now: Time, stat: Option<Time>, read: Config)
    requires sh.sema == Some(1) && sh.config.Some?
    ensures LocalRun(ReleaseSema, sh, t, now, stat, read, 2) == (Return(sh.config.value), sh.(sema := Some(0)))
  {
    assert LocalRun(LoadConfig, sh.(sema := Some(0)), t, now, stat, read, 1) ==
           LocalRun(Return(sh.config.value), sh.(sema := Some(0)), t, now, stat, read, 0);
  }
}
