/** The class loops of one NetWorker collector: a shared lock, a cooldown and spaced requests. Every step runs
    from one await point to the next; time passes, and the loops interleave, between steps. */
module Scheduler {
  import opened Basics

  datatype Class = Fast | Jobs | Backups | Inventory | Slow

  /** Where a class loop is suspended. `left` planned requests follow the one at hand. */
  datatype Phase =
    | Sleeping(until: int)
    | Waiting
    | Cooling(until: int)
    | Requesting(left: nat)
    | Pausing(left: nat, until: int)
    | Writing
  {
    predicate Active() {
      Cooling? || Requesting? || Pausing? || Writing?
    }
  }

  /** A released lock with waiters is handed over: its first waiter has been woken but has not run yet, and
      meanwhile the lock does not read as locked. */
  datatype Lock = Free | Held(owner: Class) | HandedOver(from: Class)

  /** A planned request: when it was first sent, and when its last attempt ended, well or badly. */
  datatype Request = Request(sent: int, done: Option<int>)

  datatype State = State(
    now: int, phases: map<Class, Phase>, lock: Lock, waiters: seq<Class>, finishedAt: Option<int>,
    log: seq<Request>, asked: seq<Class>, entered: seq<Class>)

  datatype Event =
    | Tick(passed: nat)
    | Wake(loop: Class, until: int)
    | Resume(loop: Class)
    | Collect(loop: Class, planned: nat)
    | Complete(loop: Class)
    | Next(loop: Class)
    | Finish(loop: Class, until: int)

  function Initial(wakes: map<Class, int>, now: int): State {
    State(now, map c | c in wakes :: Sleeping(wakes[c]), Free, [], None, [], [], [])
  }

  /** The collector cools down for what is left of the spacing since its last section finished. */
  function CooledAt(s: State, spacing: int): int {
    match s.finishedAt
    case None => s.now
    case Some(finished) =>
      var remaining := spacing - (s.now - finished);
      if remaining > 0 then s.now + remaining else s.now
  }

  function Acquire(s: State, c: Class, spacing: int): State {
    s.(lock := Held(c), phases := s.phases[c := Cooling(CooledAt(s, spacing))], entered := s.entered + [c])
  }

  /** A loop wakes for its slot: the jobs class skips the run when the lock is taken, others queue. */
  function Awaken(s: State, c: Class, until: int, spacing: int): State {
    if c == Jobs && s.lock.Held? then s.(phases := s.phases[c := Sleeping(until)])
    else if s.lock.Free? && s.waiters == [] then Acquire(s.(asked := s.asked + [c]), c, spacing)
    else s.(phases := s.phases[c := Waiting], waiters := s.waiters + [c], asked := s.asked + [c])
  }

  function Send(s: State, c: Class, left: nat): State {
    s.(phases := s.phases[c := Requesting(left)], log := s.log + [Request(s.now, None)])
  }

  function Completed(s: State, c: Class, left: nat, spacing: int): State
    requires s.log != []
  {
    var last := |s.log| - 1;
    var done := s.(log := s.log[last := s.log[last].(done := Some(s.now))]);
    if left == 0 then done.(phases := s.phases[c := Writing])
    else if spacing == 0 then Send(done, c, left - 1)
    else done.(phases := s.phases[c := Pausing(left - 1, s.now + spacing)])
  }

  /** The section ends, well or badly: the time is noted and the lock released. */
  function Release(s: State, c: Class, until: int): State {
    s.(finishedAt := Some(s.now), phases := s.phases[c := Sleeping(until)],
       lock := if s.waiters == [] then Free else HandedOver(c))
  }

  /** Whether the event can happen. A sleep lasts at least as long as asked; a woken waiter runs before a
      timer that was armed after the release. */
  predicate Enabled(s: State, e: Event) {
    match e
    case Tick(_) => true
    case Wake(c, _) => c in s.phases && s.phases[c].Sleeping? && s.phases[c].until <= s.now && s.lock != HandedOver(c)
    case Resume(c) => c in s.phases && s.lock.HandedOver? && s.waiters != [] && s.waiters[0] == c
    case Collect(c, _) => c in s.phases && s.phases[c].Cooling? && s.phases[c].until <= s.now
    case Complete(c) => c in s.phases && s.phases[c].Requesting? && s.log != []
    case Next(c) => c in s.phases && s.phases[c].Pausing? && s.phases[c].until <= s.now
    case Finish(c, _) => c in s.phases && s.phases[c].Writing?
  }

  function Step(s: State, e: Event, spacing: int): State {
    if !Enabled(s, e) then s
    else
      match e
      case Tick(passed) => s.(now := s.now + passed)
      case Wake(c, until) => Awaken(s, c, until, spacing)
      case Resume(c) => Acquire(s.(waiters := s.waiters[1..]), c, spacing)
      case Collect(c, planned) => if planned == 0 then s.(phases := s.phases[c := Writing]) else Send(s, c, planned - 1)
      case Complete(c) => Completed(s, c, s.phases[c].left, spacing)
      case Next(c) => Send(s, c, s.phases[c].left)
      case Finish(c, until) => Release(s, c, until)
  }

  function Run(s: State, events: seq<Event>, spacing: int): State {
    if events == [] then s else Step(Run(s, events[..|events| - 1], spacing), events[|events| - 1], spacing)
  }

  /** The scheduler's record of one collector. Each method runs a class loop from one await point to the next. */
  class CollectorScheduler {
    const spacing: int
    var now: int
    var phases: map<Class, Phase>
    var lock: Lock
    var waiters: seq<Class>
    var finishedAt: Option<int>
    var log: seq<Request>
    var asked: seq<Class>
    var entered: seq<Class>

    function Current(): State
      reads this
    {
      State(now, phases, lock, waiters, finishedAt, log, asked, entered)
    }

    constructor (wakes: map<Class, int>, start: int, spacing: int)
      ensures Current() == Initial(wakes, start) && this.spacing == spacing
    {
      this.spacing := spacing;
      now, phases, lock, waiters, finishedAt := start, map c | c in wakes :: Sleeping(wakes[c]), Free, [], None;
      log, asked, entered := [], [], [];
    }

    method Tick(passed: nat)
      modifies this`now
      ensures Current() == Step(old(Current()), Event.Tick(passed), spacing)
    {
      now := now + passed;
    }

    /** `_wait_for_networker_cooldown`: when the section that takes the lock now may start collecting. */
    method CooldownEnd() returns (until: int)
      ensures until == CooledAt(Current(), spacing)
    {
      until := now;
      if finishedAt.Some? {
        var remaining := spacing - (now - finishedAt.value);
        if remaining > 0 {
          until := now + remaining;
        }
      }
    }

    method TakeLock(c: Class)
      modifies this`lock, this`phases, this`entered
      ensures Current() == Acquire(old(Current()), c, spacing)
    {
      lock := Held(c);
      var until := CooldownEnd();
      phases := phases[c := Cooling(until)];
      entered := entered + [c];
    }

    /** `_collect_write_record`, up to the lock or the skip. */
    method Wake(c: Class, until: int)
      requires Enabled(Current(), Event.Wake(c, until))
      modifies this
      ensures Current() == Step(old(Current()), Event.Wake(c, until), spacing)
    {
      if c == Jobs && lock.Held? {
        phases := phases[c := Sleeping(until)];
        return;
      }
      asked := asked + [c];
      if lock.Free? && waiters == [] {
        TakeLock(c);
      } else {
        phases := phases[c := Waiting];
        waiters := waiters + [c];
      }
    }

    method Resume(c: Class)
      requires Enabled(Current(), Event.Resume(c))
      modifies this
      ensures Current() == Step(old(Current()), Event.Resume(c), spacing)
    {
      waiters := waiters[1..];
      TakeLock(c);
    }

    method SendRequest(c: Class, left: nat)
      modifies this`phases, this`log
      ensures Current() == Send(old(Current()), c, left)
    {
      phases := phases[c := Requesting(left)];
      log := log + [Request(now, None)];
    }

    method Collect(c: Class, planned: nat)
      requires Enabled(Current(), Event.Collect(c, planned))
      modifies this
      ensures Current() == Step(old(Current()), Event.Collect(c, planned), spacing)
    {
      if planned == 0 {
        phases := phases[c := Writing];
      } else {
        SendRequest(c, planned - 1);
      }
    }

    /** The request at hand ended, well or badly: the plan goes on after a pause, or the result is written. */
    method Complete(c: Class)
      requires Enabled(Current(), Event.Complete(c))
      modifies this
      ensures Current() == Step(old(Current()), Event.Complete(c), spacing)
    {
      var left := phases[c].left;
      log := log[|log| - 1 := log[|log| - 1].(done := Some(now))];
      if left == 0 {
        phases := phases[c := Writing];
      } else if spacing == 0 {
        SendRequest(c, left - 1);
      } else {
        phases := phases[c := Pausing(left - 1, now + spacing)];
      }
    }

    method Next(c: Class)
      requires Enabled(Current(), Event.Next(c))
      modifies this
      ensures Current() == Step(old(Current()), Event.Next(c), spacing)
    {
      SendRequest(c, phases[c].left);
    }

    method Finish(c: Class, until: int)
      requires Enabled(Current(), Event.Finish(c, until))
      modifies this
      ensures Current() == Step(old(Current()), Event.Finish(c, until), spacing)
    {
      finishedAt := Some(now);
      phases := phases[c := Sleeping(until)];
      lock := if waiters == [] then Free else HandedOver(c);
    }

    method Handle(e: Event)
      modifies this
      ensures Current() == Step(old(Current()), e, spacing)
    {
      if Enabled(Current(), e) {
        match e {
          case Tick(passed) => Tick(passed);
          case Wake(c, until) => Wake(c, until);
          case Resume(c) => Resume(c);
          case Collect(c, planned) => Collect(c, planned);
          case Complete(c) => Complete(c);
          case Next(c) => Next(c);
          case Finish(c, until) => Finish(c, until);
        }
      }
    }

    /** Lets the loops take their steps in the order of the events, whatever it is. */
    method Drive(events: seq<Event>)
      modifies this
      ensures Current() == Run(old(Current()), events, spacing)
    {
      for i := 0 to |events|
        invariant Current() == Run(old(Current()), events[..i], spacing)
      {
        assert events[..i + 1][..i] == events[..i];
        Handle(events[i]);
      }
      assert events[..|events|] == events;
    }
  }

  // ---- The lock -----------------------------------------------------------------------------

  predicate AllDifferent(q: seq<Class>) {
    forall i, j :: 0 <= i < j < |q| ==> q[i] != q[j]
  }

  /** Exactly the holder is in its section, exactly the queued loops wait, the queue is served in the order
      of asking, and no released lock leaves a waiter unwoken. */
  predicate Orderly(s: State) {
    && (forall c | c in s.phases :: s.phases[c].Active() <==> s.lock == Held(c))
    && (forall c | c in s.phases :: s.phases[c].Waiting? <==> c in s.waiters)
    && (forall c | c in s.waiters :: c in s.phases)
    && (s.lock.Held? ==> s.lock.owner in s.phases)
    && (s.lock.HandedOver? ==> s.lock.from in s.phases && s.phases[s.lock.from].Sleeping? && s.waiters != [])
    && (s.lock.Free? ==> s.waiters == [])
    && AllDifferent(s.waiters)
    && s.asked == s.entered + s.waiters
  }

  lemma WakingIsOrderly(s: State, c: Class, until: int, spacing: int)
    requires Orderly(s) && Enabled(s, Wake(c, until))
    ensures Orderly(Awaken(s, c, until, spacing))
  {
    assert c !in s.waiters;
    assert s.entered + (s.waiters + [c]) == (s.entered + s.waiters) + [c];
  }

  lemma ResumingIsOrderly(s: State, c: Class, spacing: int)
    requires Orderly(s) && Enabled(s, Resume(c))
    ensures Orderly(Acquire(s.(waiters := s.waiters[1..]), c, spacing))
  {
    var rest := s.waiters[1..];
    assert s.waiters == [c] + rest;
    assert (s.entered + [c]) + rest == s.entered + s.waiters;
    forall d | d in s.phases && d != c ensures d in rest <==> s.phases[d].Waiting? {}
  }

  lemma StepIsOrderly(s: State, e: Event, spacing: int)
    requires Orderly(s)
    ensures Orderly(Step(s, e, spacing)) && Step(s, e, spacing).phases.Keys == s.phases.Keys
  {
    if Enabled(s, e) {
      match e
      case Tick(_) =>
      case Wake(c, until) => WakingIsOrderly(s, c, until, spacing);
      case Resume(c) => ResumingIsOrderly(s, c, spacing);
      case Collect(c, planned) =>
        WorkingIsOrderly(s, c, if planned == 0 then Writing else Requesting(planned - 1), Step(s, e, spacing).log);
      case Complete(c) => CompletingIsOrderly(s, c, spacing);
      case Next(c) => WorkingIsOrderly(s, c, Requesting(s.phases[c].left), Step(s, e, spacing).log);
      case Finish(c, until) => FinishingIsOrderly(s, c, until);
    }
  }

  /** Inside its section a loop moves on without the others. */
  lemma WorkingIsOrderly(s: State, c: Class, phase: Phase, log: seq<Request>)
    requires Orderly(s) && c in s.phases && s.phases[c].Active() && phase.Active()
    ensures Orderly(s.(phases := s.phases[c := phase], log := log))
  {}

  lemma CompletingIsOrderly(s: State, c: Class, spacing: int)
    requires Orderly(s) && Enabled(s, Complete(c))
    ensures Orderly(Completed(s, c, s.phases[c].left, spacing))
  {
    var left := s.phases[c].left;
    WorkingIsOrderly(s, c, if left == 0 then Writing
                           else if spacing == 0 then Requesting(left - 1)
                           else Pausing(left - 1, s.now + spacing), Completed(s, c, left, spacing).log);
  }

  lemma FinishingIsOrderly(s: State, c: Class, until: int)
    requires Orderly(s) && Enabled(s, Finish(c, until))
    ensures Orderly(Release(s, c, until))
  {}

  // ---- Spacing ------------------------------------------------------------------------------

  predicate Apart(log: seq<Request>, i: nat, spacing: int)
    requires i < |log| - 1
  {
    log[i].done.Some? && log[i].sent <= log[i].done.value && log[i].done.value + spacing <= log[i + 1].sent
  }

  predicate AllApart(log: seq<Request>, spacing: int) {
    forall i :: 0 <= i < |log| - 1 ==> Apart(log, i, spacing)
  }

  /** The last request, if any, has ended by `at`. */
  predicate EndedBy(log: seq<Request>, at: int) {
    log != [] ==> log[|log| - 1].done.Some? && log[|log| - 1].sent <= log[|log| - 1].done.value <= at
  }

  predicate InFlight(s: State) {
    s.log != [] && s.log[|s.log| - 1].done.None? && s.log[|s.log| - 1].sent <= s.now
  }

  /** Where a suspended section stands to the requests already made. */
  predicate Paced(s: State, phase: Phase, spacing: int) {
    match phase
    case Cooling(until) => EndedBy(s.log, s.now) && EndedBy(s.log, until - spacing)
    case Requesting(_) => InFlight(s)
    case Pausing(_, until) => EndedBy(s.log, s.now) && EndedBy(s.log, until - spacing)
    case Writing => EndedBy(s.log, s.now)
    case _ => true
  }

  predicate Spaced(s: State, spacing: int) {
    && AllApart(s.log, spacing)
    && (s.finishedAt.Some? ==> s.finishedAt.value <= s.now)
    && (!s.lock.Held? ==> s.log == [] || (s.finishedAt.Some? && EndedBy(s.log, s.finishedAt.value)))
    && (s.lock.Held? && s.lock.owner in s.phases ==> Paced(s, s.phases[s.lock.owner], spacing))
  }

  lemma SendingIsSpaced(s: State, c: Class, left: nat, spacing: int)
    requires AllApart(s.log, spacing) && EndedBy(s.log, s.now - spacing) && s.lock == Held(c)
    requires s.finishedAt.Some? ==> s.finishedAt.value <= s.now
    ensures Spaced(Send(s, c, left), spacing)
  {
    var log := Send(s, c, left).log;
    forall i | 0 <= i < |log| - 1 ensures Apart(log, i, spacing) {
      if i < |s.log| - 1 {
        assert Apart(s.log, i, spacing);
      }
    }
  }

  lemma CompletingIsSpaced(s: State, c: Class, left: nat, spacing: int)
    requires Spaced(s, spacing) && InFlight(s) && s.lock == Held(c)
    ensures Spaced(Completed(s, c, left, spacing), spacing)
  {
    var last := |s.log| - 1;
    var done := s.(log := s.log[last := s.log[last].(done := Some(s.now))]);
    forall i | 0 <= i < |done.log| - 1 ensures Apart(done.log, i, spacing) {
      assert Apart(s.log, i, spacing);
    }
    if left > 0 && spacing == 0 {
      SendingIsSpaced(done, c, left - 1, spacing);
    }
  }

  lemma AcquiringIsSpaced(s: State, c: Class, spacing: int)
    requires Spaced(s, spacing) && !s.lock.Held?
    ensures Spaced(Acquire(s, c, spacing), spacing)
  {}

  lemma StepIsSpaced(s: State, e: Event, spacing: int)
    requires Orderly(s) && Spaced(s, spacing)
    ensures Spaced(Step(s, e, spacing), spacing)
  {
    if Enabled(s, e) {
      match e
      case Tick(_) =>
      case Wake(c, until) =>
        if s.lock.Free? && s.waiters == [] {
          AcquiringIsSpaced(s.(asked := s.asked + [c]), c, spacing);
        }
      case Resume(c) => AcquiringIsSpaced(s.(waiters := s.waiters[1..]), c, spacing);
      case Collect(c, planned) =>
        if planned > 0 {
          SendingIsSpaced(s, c, planned - 1, spacing);
        }
      case Complete(c) => CompletingIsSpaced(s, c, s.phases[c].left, spacing);
      case Next(c) => SendingIsSpaced(s, c, s.phases[c].left, spacing);
      case Finish(_, _) =>
    }
  }

  // ---- Runs ---------------------------------------------------------------------------------

  lemma {:induction false} RunsAreSound(wakes: map<Class, int>, start: int, events: seq<Event>, spacing: int)
    ensures var s := Run(Initial(wakes, start), events, spacing);
            Orderly(s) && Spaced(s, spacing) && s.phases.Keys == wakes.Keys
  {
    if events != [] {
      var before, last := events[..|events| - 1], events[|events| - 1];
      RunsAreSound(wakes, start, before, spacing);
      StepIsOrderly(Run(Initial(wakes, start), before, spacing), last, spacing);
      StepIsSpaced(Run(Initial(wakes, start), before, spacing), last, spacing);
    }
  }

  /** In every interleaving at most one class is inside its collect-and-write section. */
  lemma SectionsExclude(wakes: map<Class, int>, start: int, events: seq<Event>, spacing: int, c: Class, d: Class)
    requires var s := Run(Initial(wakes, start), events, spacing);
             c in s.phases && d in s.phases && s.phases[c].Active() && s.phases[d].Active()
    ensures c == d
  {
    RunsAreSound(wakes, start, events, spacing);
  }

  lemma DifferentElements(q: seq<Class>, all: set<Class>)
    requires AllDifferent(q) && forall c | c in q :: c in all
    ensures |q| <= |all|
  {
    if q != [] {
      var rest := q[1..];
      assert q == [q[0]] + rest;
      DifferentElements(rest, all - {q[0]});
    }
  }

  /** The queue never holds all classes: someone is in its section, or has just left it. */
  lemma WaitersAreBounded(wakes: map<Class, int>, start: int, events: seq<Event>, spacing: int)
    ensures var s := Run(Initial(wakes, start), events, spacing);
            s.waiters != [] ==> |s.waiters| <= |wakes.Keys| - 1
  {
    RunsAreSound(wakes, start, events, spacing);
    var s := Run(Initial(wakes, start), events, spacing);
    if s.waiters != [] {
      var busy := if s.lock.Held? then s.lock.owner else s.lock.from;
      DifferentElements(s.waiters, wakes.Keys - {busy});
    }
  }

  /** No wake-up is lost: while anyone waits, a section is running or the first waiter can go on; and the
      lock is given in the order in which it was asked for. */
  lemma WaitersAreServedInOrder(wakes: map<Class, int>, start: int, events: seq<Event>, spacing: int)
    ensures var s := Run(Initial(wakes, start), events, spacing);
            && s.asked == s.entered + s.waiters
            && (s.waiters != [] ==>
                 Enabled(s, Resume(s.waiters[0])) || exists c :: c in s.phases && s.phases[c].Active())
  {
    RunsAreSound(wakes, start, events, spacing);
    var s := Run(Initial(wakes, start), events, spacing);
    if s.waiters != [] {
      assert s.waiters[0] in s.waiters;
      if s.lock.Held? {
        assert s.phases[s.lock.owner].Active();
      }
    }
  }

  /** A waiting loop is only ever overtaken by those that asked before it: within any continuation it has
      either entered, or waits behind the rest of those. */
  lemma {:induction false} QueueOnlyAdvances(s: State, events: seq<Event>, spacing: int)
    requires Orderly(s)
    ensures Orderly(Run(s, events, spacing))
    ensures s.asked <= Run(s, events, spacing).asked && s.entered <= Run(s, events, spacing).entered
  {
    if events != [] {
      var before := Run(s, events[..|events| - 1], spacing);
      QueueOnlyAdvances(s, events[..|events| - 1], spacing);
      StepIsOrderly(before, events[|events| - 1], spacing);
      HistoriesGrow(before, events[|events| - 1], spacing);
    }
  }

  lemma HistoriesGrow(s: State, e: Event, spacing: int)
    ensures s.asked <= Step(s, e, spacing).asked && s.entered <= Step(s, e, spacing).entered
  {}

  /** Two planned requests that follow one another, in one collection or in different ones, after success or
      failure, keep the spacing from the end of the first to the start of the second. */
  lemma RequestsAreSpaced(wakes: map<Class, int>, start: int, events: seq<Event>, spacing: int, i: nat)
    requires i + 1 < |Run(Initial(wakes, start), events, spacing).log|
    ensures var log := Run(Initial(wakes, start), events, spacing).log;
            log[i].done.Some? && log[i].sent <= log[i].done.value && log[i].done.value + spacing <= log[i + 1].sent
  {
    RunsAreSound(wakes, start, events, spacing);
    assert Apart(Run(Initial(wakes, start), events, spacing).log, i, spacing);
  }

  /** So the rate is bounded: n requests further on, at least n spacings have passed. */
  lemma {:induction false} RequestRateIsBounded(wakes: map<Class, int>, start: int, events: seq<Event>, spacing: int,
                                                i: nat, n: nat)
    requires i + n < |Run(Initial(wakes, start), events, spacing).log|
    ensures var log := Run(Initial(wakes, start), events, spacing).log; log[i].sent + n * spacing <= log[i + n].sent
  {
    if n > 0 {
      RequestRateIsBounded(wakes, start, events, spacing, i, n - 1);
      RequestsAreSpaced(wakes, start, events, spacing, i + n - 1);
      assert n * spacing == (n - 1) * spacing + spacing;
    }
  }

  lemma RunMore(s: State, events: seq<Event>, e: Event, spacing: int, reached: State)
    requires Step(Run(s, events, spacing), e, spacing) == reached
    ensures Run(s, events + [e], spacing) == reached
  {
    assert (events + [e])[..|events + [e]| - 1] == events;
  }

  function TwoLoops(fast: Phase, backups: Phase): map<Class, Phase> {
    map[Fast := fast, Backups := backups]
  }

  // A run in scenes: two loops wake together, the first collects and hands the lock on, the second cools down and
  // sends.

  function Asleep(): State {
    State(0, TwoLoops(Sleeping(0), Sleeping(0)), Free, [], None, [], [], [])
  }

  function FastIn(): State {
    State(0, TwoLoops(Cooling(0), Sleeping(0)), Held(Fast), [], None, [], [Fast], [Fast])
  }

  function BackupsQueued(): State {
    State(0, TwoLoops(Cooling(0), Waiting), Held(Fast), [Backups], None, [], [Fast, Backups], [Fast])
  }

  function FastSent(): State {
    State(0, TwoLoops(Requesting(0), Waiting), Held(Fast), [Backups], None, [Request(0, None)], [Fast, Backups], [Fast])
  }

  function FastWrites(): State {
    State(0, TwoLoops(Writing, Waiting), Held(Fast), [Backups], None, [Request(0, Some(0))], [Fast, Backups], [Fast])
  }

  function FastLeft(): State {
    State(0, TwoLoops(Sleeping(1), Waiting), HandedOver(Fast), [Backups], Some(0), [Request(0, Some(0))],
          [Fast, Backups],
          [Fast])
  }

  function BackupsIn(spacing: nat, now: int): State {
    State(now, TwoLoops(Sleeping(1), Cooling(spacing)), Held(Backups), [], Some(0), [Request(0, Some(0))],
          [Fast, Backups],
          [Fast, Backups])
  }

  function BackupsSent(spacing: nat): State {
    State(spacing, TwoLoops(Sleeping(1), Requesting(0)), Held(Backups), [], Some(0),
          [Request(0, Some(0)), Request(spacing, None)], [Fast, Backups], [Fast, Backups])
  }

  lemma FastWakes(spacing: nat)
    ensures Step(Asleep(), Wake(Fast, 1), spacing) == FastIn()
  {}

  lemma BackupsWakes(spacing: nat)
    ensures Step(FastIn(), Wake(Backups, 1), spacing) == BackupsQueued()
  {}

  lemma FastCollects(spacing: nat)
    ensures Step(BackupsQueued(), Collect(Fast, 1), spacing) == FastSent()
  {}

  lemma FastCompletes(spacing: nat)
    ensures Step(FastSent(), Complete(Fast), spacing) == FastWrites()
  {}

  lemma FastFinishes(spacing: nat)
    ensures Step(FastWrites(), Finish(Fast, 1), spacing) == FastLeft()
  {}

  lemma BackupsResumes(spacing: nat)
    ensures Step(FastLeft(), Resume(Backups), spacing) == BackupsIn(spacing, 0)
  {}

  lemma BackupsWaits(spacing: nat)
    ensures Step(BackupsIn(spacing, 0), Tick(spacing), spacing) == BackupsIn(spacing, spacing)
  {}

  lemma BackupsCollects(spacing: nat)
    ensures Step(BackupsIn(spacing, spacing), Collect(Backups, 1), spacing) == BackupsSent(spacing)
  {}

  lemma FirstSection(spacing: nat) returns (events: seq<Event>)
    ensures Run(Asleep(), events, spacing) == FastWrites()
  {
    FastWakes(spacing);
    BackupsWakes(spacing);
    FastCollects(spacing);
    FastCompletes(spacing);
    RunMore(Asleep(), [], Wake(Fast, 1), spacing, FastIn());
    events := [] + [Wake(Fast, 1)];
    RunMore(Asleep(), events, Wake(Backups, 1), spacing, BackupsQueued());
    events := events + [Wake(Backups, 1)];
    RunMore(Asleep(), events, Collect(Fast, 1), spacing, FastSent());
    events := events + [Collect(Fast, 1)];
    RunMore(Asleep(), events, Complete(Fast), spacing, FastWrites());
    events := events + [Complete(Fast)];
  }

  lemma SecondSection(first: seq<Event>, spacing: nat) returns (events: seq<Event>)
    requires Run(Asleep(), first, spacing) == FastWrites()
    ensures Run(Asleep(), events, spacing) == BackupsSent(spacing)
  {
    FastFinishes(spacing);
    BackupsResumes(spacing);
    BackupsWaits(spacing);
    BackupsCollects(spacing);
    RunMore(Asleep(), first, Finish(Fast, 1), spacing, FastLeft());
    events := first + [Finish(Fast, 1)];
    RunMore(Asleep(), events, Resume(Backups), spacing, BackupsIn(spacing, 0));
    events := events + [Resume(Backups)];
    RunMore(Asleep(), events, Tick(spacing), spacing, BackupsIn(spacing, spacing));
    events := events + [Tick(spacing)];
    RunMore(Asleep(), events, Collect(Backups, 1), spacing, BackupsSent(spacing));
    events := events + [Collect(Backups, 1)];
  }

  /** The spacing is attained, across two sections of different classes. */
  lemma SpacingIsAttained(spacing: nat) returns (events: seq<Event>)
    ensures var log := Run(Initial(map[Fast := 0, Backups := 0], 0), events, spacing).log;
            |log| == 2 && log[0].done.Some? && log[1].sent == log[0].done.value + spacing
  {
    assert Initial(map[Fast := 0, Backups := 0], 0).phases == TwoLoops(Sleeping(0), Sleeping(0));
    assert Initial(map[Fast := 0, Backups := 0], 0) == Asleep();
    var first := FirstSection(spacing);
    events := SecondSection(first, spacing);
  }

  // ---- A section sends its plan --------------------------------------------------------------------

  /** The loop is inside a section that has begun to collect. */
  predicate CollectingIn(s: State, c: Class) {
    c in s.phases && (s.phases[c].Requesting? || s.phases[c].Pausing? || s.phases[c].Writing?)
  }

  /** How many requests of the plan are still to be sent. */
  function StillOwed(phase: Phase): nat {
    match phase
    case Requesting(left) => left
    case Pausing(left, _) => left + 1
    case _ => 0
  }

  /** Since `base` the log holds the requests of this plan only: those not owed any more, all of them done except one
      that is under way. */
  predicate PlanProceeds(s: State, base: seq<Request>, c: Class, planned: nat)
    requires c in s.phases
  {
    && base <= s.log && |s.log| - |base| + StillOwed(s.phases[c]) == planned
    && (s.phases[c].Requesting? ==> |s.log| > |base| && s.log[|s.log| - 1].done.None?)
    && (forall i :: |base| <= i < |s.log| - (if s.phases[c].Requesting? then 1 else 0) ==> s.log[i].done.Some?)
  }

  lemma CollectingBegins(s: State, c: Class, planned: nat, spacing: int)
    requires Enabled(s, Collect(c, planned))
    ensures var after := Step(s, Collect(c, planned), spacing);
            CollectingIn(after, c) && PlanProceeds(after, s.log, c, planned)
  {}

  lemma OthersSendNothing(s: State, e: Event, c: Class, spacing: int)
    requires Orderly(s) && CollectingIn(s, c) && !e.Tick? && e.loop != c
    ensures Step(s, e, spacing).log == s.log
    ensures c in Step(s, e, spacing).phases && Step(s, e, spacing).phases[c] == s.phases[c]
  {
    assert s.lock == Held(c);
  }

  lemma PlanProceedsByStep(s: State, e: Event, base: seq<Request>, c: Class, planned: nat, spacing: int)
    requires Orderly(s) && CollectingIn(s, c) && PlanProceeds(s, base, c, planned) && !(e.Finish? && e.loop == c)
    ensures CollectingIn(Step(s, e, spacing), c) && PlanProceeds(Step(s, e, spacing), base, c, planned)
  {
    if !e.Tick? && e.loop != c {
      OthersSendNothing(s, e, c, spacing);
    } else if Enabled(s, e) {
      match e
      case Complete(_) => CompletingProceeds(s, base, c, planned, spacing);
      case _ =>
    }
  }

  lemma CompletingProceeds(s: State, base: seq<Request>, c: Class, planned: nat, spacing: int)
    requires Enabled(s, Complete(c)) && PlanProceeds(s, base, c, planned)
    ensures var after := Step(s, Complete(c), spacing); CollectingIn(after, c) && PlanProceeds(after, base, c, planned)
  {
    var last := |s.log| - 1;
    var log := s.log[last := s.log[last].(done := Some(s.now))];
    assert base <= log;
    assert base <= log + [Request(s.now, None)];
  }

  lemma {:induction false} SectionProceeds(s: State, during: seq<Event>, base: seq<Request>, c: Class, planned: nat,
                                           spacing: int)
    requires Orderly(s) && CollectingIn(s, c) && PlanProceeds(s, base, c, planned)
    requires forall e | e in during :: !(e.Finish? && e.loop == c)
    ensures CollectingIn(Run(s, during, spacing), c) && PlanProceeds(Run(s, during, spacing), base, c, planned)
  {
    if during != [] {
      var before, last := during[..|during| - 1], during[|during| - 1];
      SectionProceeds(s, before, base, c, planned, spacing);
      QueueOnlyAdvances(s, before, spacing);
      assert last in during;
      PlanProceedsByStep(Run(s, before, spacing), last, base, c, planned, spacing);
    }
  }

  /** From the moment a loop begins to collect until its section finishes, whatever the other loops do, only its own
      requests are sent, those of its plan; when it writes, exactly as many as planned were sent, and each is done. */
  lemma SectionsSendTheirPlan(wakes: map<Class, int>, start: int, before: seq<Event>, c: Class, planned: nat,
                              during: seq<Event>, spacing: int)
    requires Enabled(Run(Initial(wakes, start), before, spacing), Collect(c, planned))
    requires forall e | e in during :: !(e.Finish? && e.loop == c)
    ensures var begun := Run(Initial(wakes, start), before, spacing);
            var s := Run(Step(begun, Collect(c, planned), spacing), during, spacing);
            && c in s.phases && begun.log <= s.log
            && (s.phases[c].Writing? ==>
                  && |s.log| == |begun.log| + planned
                  && forall i :: |begun.log| <= i < |s.log| ==> s.log[i].done.Some?)
            && (s.phases[c].Requesting? ==> |s.log| + s.phases[c].left == |begun.log| + planned)
            && (s.phases[c].Pausing? ==> |s.log| + 1 + s.phases[c].left == |begun.log| + planned)
            && (s.phases[c].Writing? || s.phases[c].Requesting? || s.phases[c].Pausing?)
  {
    var s := Run(Initial(wakes, start), before, spacing);
    RunsAreSound(wakes, start, before, spacing);
    CollectingBegins(s, c, planned, spacing);
    StepIsOrderly(s, Collect(c, planned), spacing);
    SectionProceeds(Step(s, Collect(c, planned), spacing), during, s.log, c, planned, spacing);
  }

  // ---- Waking, sleeping and pausing -----------------------------------------------------------------

  /** At a held lock a jobs loop goes back to sleep, having neither queued nor entered; any other loop queues. At a
      free lock every loop enters; at a lock being handed over every loop queues. Nothing else changes. */
  lemma WakingExactly(s: State, c: Class, until: int, spacing: int)
    requires Orderly(s) && Enabled(s, Wake(c, until))
    ensures var after := Step(s, Wake(c, until), spacing);
            && (forall d | d in s.phases && d != c :: d in after.phases && after.phases[d] == s.phases[d])
            && after.log == s.log && after.now == s.now && after.finishedAt == s.finishedAt
            && c in after.phases
            && if s.lock == Free then
                 && after.lock == Held(c) && after.phases[c].Cooling? && after.waiters == []
                 && after.asked == s.asked + [c] && after.entered == s.entered + [c]
               else if c == Jobs && s.lock.Held? then
                 && after.lock == s.lock && after.phases[c] == Sleeping(until) && after.waiters == s.waiters
                 && after.asked == s.asked && after.entered == s.entered
               else
                 && after.lock == s.lock && after.phases[c] == Waiting && after.waiters == s.waiters + [c]
                 && after.asked == s.asked + [c] && after.entered == s.entered
  {}

  /** A loop leaves a sleep, a cooldown or a pause only when its time has come. */
  lemma SleepsLast(s: State, e: Event, c: Class, spacing: int)
    requires Orderly(s) && c in s.phases
    requires c in Step(s, e, spacing).phases && Step(s, e, spacing).phases[c] != s.phases[c]
    ensures match s.phases[c]
            case Sleeping(until) => until <= s.now
            case Cooling(until) => until <= s.now
            case Pausing(_, until) => until <= s.now
            case _ => true
  {}

  /** A pause ends one spacing after the request before it, a cooldown one spacing after the last section at most. */
  ghost predicate Prompt(s: State, spacing: int) {
    && (forall c | c in s.phases && s.phases[c].Pausing? ::
          && s.log != [] && s.log[|s.log| - 1].done.Some?
          && s.phases[c].until == s.log[|s.log| - 1].done.value + spacing)
    && (forall c | c in s.phases && s.phases[c].Cooling? ::
          s.phases[c].until <= s.now || (s.finishedAt.Some? && s.phases[c].until == s.finishedAt.value + spacing))
  }

  lemma OnlyOwnerMoves(s: State, e: Event, spacing: int)
    requires Orderly(s) && Prompt(s, spacing) && Enabled(s, e) && (e.Collect? || e.Complete? || e.Next? || e.Finish?)
    ensures Prompt(Step(s, e, spacing), spacing)
  {
    var after := Step(s, e, spacing);
    forall d | d in after.phases && d != e.loop ensures !after.phases[d].Pausing? && !after.phases[d].Cooling? {
      assert after.phases[d] == s.phases[d];
      assert s.lock == Held(e.loop);
      assert s.phases[d].Active() <==> s.lock == Held(d);
    }
  }

  lemma StepIsPrompt(s: State, e: Event, spacing: int)
    requires Orderly(s) && Prompt(s, spacing)
    ensures Prompt(Step(s, e, spacing), spacing)
  {
    if Enabled(s, e) && (e.Collect? || e.Complete? || e.Next? || e.Finish?) {
      OnlyOwnerMoves(s, e, spacing);
    }
  }

  /** In every run requests are never further apart than the spacing asks: pauses and cooldowns end as soon as
      they may. */
  lemma {:induction false} RunsArePrompt(wakes: map<Class, int>, start: int, events: seq<Event>, spacing: int)
    ensures Prompt(Run(Initial(wakes, start), events, spacing), spacing)
  {
    if events != [] {
      var before, last := events[..|events| - 1], events[|events| - 1];
      RunsArePrompt(wakes, start, before, spacing);
      RunsAreSound(wakes, start, before, spacing);
      StepIsPrompt(Run(Initial(wakes, start), before, spacing), last, spacing);
    }
  }

  /** A scheduler driven through any events from its start: one section at a time, a bounded queue, and every
      request as far from the end of the one before it as the spacing asks. */
  method Operate(wakes: map<Class, int>, start: int, spacing: int, events: seq<Event>)
    returns (scheduler: CollectorScheduler)
    ensures fresh(scheduler) && scheduler.phases.Keys == wakes.Keys
    ensures forall c, d | c in wakes && d in wakes && scheduler.phases[c].Active() && scheduler.phases[d].Active() ::
              c == d
    ensures scheduler.waiters != [] ==> |scheduler.waiters| <= |wakes.Keys| - 1
    ensures forall i :: 0 <= i < |scheduler.log| - 1 ==> Apart(scheduler.log, i, spacing)
  {
    scheduler := new CollectorScheduler(wakes, start, spacing);
    scheduler.Drive(events);
    RunsAreSound(wakes, start, events, spacing);
    WaitersAreBounded(wakes, start, events, spacing);
  }
}
