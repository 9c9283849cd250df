/** The windowed NetWorker client: what each collection asks for, and whether anything falls between two
    collections. Instants are microseconds, UTC; queries carry whole seconds. */
module Windows {
  import opened Basics
  import opened Dict
  import opened Json
  import opened Schedule
  import opened Scheduler

  /** A closed range of whole seconds, as a query states it. */
  datatype Range = Range(from: int, upto: int)

  /** Formatting a query time drops the fraction of the second. */
  function WholeSecond(at: int): int {
    at / SECOND
  }

  function QueryRange(end: int, minutes: nat): Range {
    Range(WholeSecond(end - minutes * MINUTE), WholeSecond(end))
  }

  // ---- No gap between windows -----------------------------------------------------------------

  ghost predicate Asked(ends: seq<int>, minutes: nat, second: int) {
    exists k :: 0 <= k < |ends| && QueryRange(ends[k], minutes).from <= second <= QueryRange(ends[k], minutes).upto
  }

  /** Every whole second from the first window's start to the last one's end was asked for. */
  ghost predicate NoGap(ends: seq<int>, minutes: nat)
    requires ends != []
  {
    forall second | QueryRange(ends[0], minutes).from <= second <= WholeSecond(ends[|ends| - 1]) ::
      Asked(ends, minutes, second)
  }

  /** The window after `k` starts no later than the second after window `k` ends. */
  predicate Touches(ends: seq<int>, minutes: nat, k: nat)
    requires k < |ends| - 1
  {
    WholeSecond(ends[k + 1]) <= WholeSecond(ends[k]) + minutes * 60 + 1
  }

  lemma WindowStart(end: int, minutes: nat)
    ensures QueryRange(end, minutes).from == WholeSecond(end) - minutes * 60
  {
    assert end - minutes * MINUTE == end - (minutes * 60) * SECOND;
  }

  lemma {:induction false} TouchingWindowsLeaveNoGap(ends: seq<int>, minutes: nat, second: int)
    requires ends != [] && forall k :: 0 <= k < |ends| - 1 ==> Touches(ends, minutes, k)
    requires QueryRange(ends[0], minutes).from <= second <= WholeSecond(ends[|ends| - 1])
    ensures Asked(ends, minutes, second)
  {
    var last := |ends| - 1;
    WindowStart(ends[last], minutes);
    if last > 0 && second < QueryRange(ends[last], minutes).from {
      var before := ends[..last];
      assert Touches(ends, minutes, last - 1);
      forall k | 0 <= k < |before| - 1 ensures Touches(before, minutes, k) {
        assert Touches(ends, minutes, k);
      }
      TouchingWindowsLeaveNoGap(before, minutes, second);
      var k :| 0 <= k < |before|
        && QueryRange(before[k], minutes).from <= second <= QueryRange(before[k], minutes).upto;
      assert ends[k] == before[k];
    }
  }

  ghost predicate InOrder(ends: seq<int>) {
    forall i, j :: 0 <= i <= j < |ends| ==> ends[i] <= ends[j]
  }

  lemma GapIsSeen(ends: seq<int>, minutes: nat, k: nat)
    requires InOrder(ends) && k < |ends| - 1 && !Touches(ends, minutes, k)
    ensures !Asked(ends, minutes, WholeSecond(ends[k]) + 1)
    ensures QueryRange(ends[0], minutes).from <= WholeSecond(ends[k]) + 1 <= WholeSecond(ends[|ends| - 1])
  {
    forall j | 0 <= j < |ends|
      ensures j <= k ==> QueryRange(ends[j], minutes).upto <= WholeSecond(ends[k])
      ensures j > k ==> QueryRange(ends[j], minutes).from > WholeSecond(ends[k]) + 1
    {
      WindowStart(ends[j], minutes);
      if j > k {
        assert ends[k + 1] <= ends[j];
      }
    }
  }

  /** Collections in order leave no whole second out exactly when each window touches the one before,
      counted in whole seconds. */
  lemma NoGapExactly(ends: seq<int>, minutes: nat)
    requires ends != [] && InOrder(ends)
    ensures NoGap(ends, minutes) <==> forall k :: 0 <= k < |ends| - 1 ==> Touches(ends, minutes, k)
  {
    if forall k :: 0 <= k < |ends| - 1 ==> Touches(ends, minutes, k) {
      forall second | QueryRange(ends[0], minutes).from <= second <= WholeSecond(ends[|ends| - 1])
        ensures Asked(ends, minutes, second)
      {
        TouchingWindowsLeaveNoGap(ends, minutes, second);
      }
    } else {
      var k :| 0 <= k < |ends| - 1 && !Touches(ends, minutes, k);
      GapIsSeen(ends, minutes, k);
    }
  }

  /** Collections at most one window apart leave no gap, although both ends are truncated. */
  lemma WindowsApartLeaveNoGap(ends: seq<int>, minutes: nat)
    requires ends != [] && forall k :: 0 <= k < |ends| - 1 ==> ends[k + 1] - ends[k] <= minutes * MINUTE
    ensures NoGap(ends, minutes)
  {
    forall k | 0 <= k < |ends| - 1 ensures Touches(ends, minutes, k) {
      WindowStart(ends[k + 1], minutes);
    }
    forall second | QueryRange(ends[0], minutes).from <= second <= WholeSecond(ends[|ends| - 1])
      ensures Asked(ends, minutes, second)
    {
      TouchingWindowsLeaveNoGap(ends, minutes, second);
    }
  }

  /** Run `k` ends in time, and the loop then takes the next run it sees. */
  ghost predicate Follows(s: ScheduleConfig, slots: seq<int>, finished: seq<int>, k: nat)
    requires s.Valid() && |slots| == |finished| > k + 1
  {
    InTime(s, slots[k], finished[k]) && slots[k + 1] == NextRun(s, finished[k])
  }

  /** The slots a loop runs in: the first after its start, then each the next run as seen when a run has finished. */
  ghost predicate RunsInSlots(s: ScheduleConfig, now: int, slots: seq<int>, finished: seq<int>)
    requires s.Valid() && |slots| == |finished| > 0
  {
    slots[0] == NextRun(s, now)
    && forall k :: 0 <= k < |slots| - 1 ==> Follows(s, slots, finished, k)
  }

  /** A loop whose runs end in time runs in every slot. */
  lemma {:induction false} LoopMissesNoSlot(s: ScheduleConfig, now: int, slots: seq<int>, finished: seq<int>, k: nat)
    requires s.Valid() && SuitsDay(s) && |slots| == |finished| > k && RunsInSlots(s, now, slots, finished)
    ensures OwnSlot(s, slots[k]) && slots[k] == slots[0] + k * s.Period()
  {
    if k == 0 {
      FirstRunIsOwnSlot(s, now);
    } else {
      LoopMissesNoSlot(s, now, slots, finished, k - 1);
      assert Follows(s, slots, finished, k - 1);
      LoopKeepsInterval(s, slots[k - 1], finished[k - 1]);
      assert k * s.Period() == (k - 1) * s.Period() + s.Period();
    }
  }

  lemma NextSlotIsOneIntervalOn(s: ScheduleConfig, now: int, slots: seq<int>, finished: seq<int>, k: nat)
    requires s.Valid() && SuitsDay(s) && |slots| == |finished| > k + 1 && RunsInSlots(s, now, slots, finished)
    ensures slots[k + 1] == slots[k] + s.interval * MINUTE
  {
    LoopMissesNoSlot(s, now, slots, finished, k);
    assert Follows(s, slots, finished, k);
    LoopKeepsInterval(s, slots[k], finished[k]);
  }

  /** A loop whose interval suits the day, whose runs end in time, and whose collections start within the slack
      between window and interval (late wake-up, lock and cooldown included), leaves no gap. */
  lemma ScheduleLeavesNoGap(s: ScheduleConfig, now: int, slots: seq<int>, finished: seq<int>, ends: seq<int>,
                            minutes: nat)
    requires s.Valid() && SuitsDay(s)
    requires |slots| == |finished| == |ends| > 0 && RunsInSlots(s, now, slots, finished)
    requires forall k :: 0 <= k < |ends| ==> slots[k] <= ends[k] <= slots[k] + (minutes - s.interval) * MINUTE
    ensures NoGap(ends, minutes)
  {
    forall k | 0 <= k < |ends| - 1 ensures ends[k + 1] - ends[k] <= minutes * MINUTE {
      NextSlotIsOneIntervalOn(s, now, slots, finished, k);
    }
    WindowsApartLeaveNoGap(ends, minutes);
  }

  // ---- The request plan -----------------------------------------------------------------------

  datatype Query = Query(field: string, range: Range)

  datatype RequestSpec = RequestSpec(name: string, endpoint: string, query: Option<Query>, fields: Option<string>)

  datatype ClientConfig = ClientConfig(jobsMinutes: nat, backupsMinutes: nat, fieldFilter: bool)

  const CLIENT_FIELDS := "resourceId,hostname,clientState,operatingSystem,backupType"
  const POLICY_FIELDS := "name,comment,resourceId,workflows"

  function RequestFor(config: ClientConfig, e: Entry<string, string>, end: int): RequestSpec {
    if e.key == "jobs" then
      RequestSpec(e.key, e.value, Some(Query("endTime", QueryRange(end, config.jobsMinutes))), None)
    else if e.key == "backups" then
      RequestSpec(e.key, e.value, Some(Query("saveTime", QueryRange(end, config.backupsMinutes))), None)
    else
      RequestSpec(e.key, e.value, None,
                  if e.key == "clients" then Some(CLIENT_FIELDS)
                  else if e.key == "policies" && config.fieldFilter then Some(POLICY_FIELDS)
                  else None)
  }

  /** One request per endpoint, in the order of configuration. */
  method BuildRequestPlan(config: ClientConfig, endpoints: seq<Entry<string, string>>, end: int)
    returns (plan: seq<RequestSpec>)
    ensures |plan| == |endpoints|
    ensures forall i :: 0 <= i < |plan| ==> plan[i] == RequestFor(config, endpoints[i], end)
    ensures PlansRightly(config, endpoints, end, plan)
  {
    plan := [];
    for i := 0 to |endpoints|
      invariant |plan| == i && forall j :: 0 <= j < i ==> plan[j] == RequestFor(config, endpoints[j], end)
    {
      var e := endpoints[i];
      var fields := if e.key == "clients" || (config.fieldFilter && e.key == "policies")
                    then Some(if e.key == "clients" then CLIENT_FIELDS else POLICY_FIELDS) else None;
      if e.key == "jobs" {
        plan := plan + [RequestSpec(e.key, e.value, Some(Query("endTime", QueryRange(end, config.jobsMinutes))),
                                    fields)];
      } else if e.key == "backups" {
        plan := plan + [RequestSpec(e.key, e.value, Some(Query("saveTime", QueryRange(end, config.backupsMinutes))),
                                    fields)];
      } else {
        plan := plan + [RequestSpec(e.key, e.value, None, fields)];
      }
    }
    PlansExactly(config, endpoints, end, plan);
  }

  /** The seconds a plan asks for of an endpoint, under the named time. */
  ghost predicate AsksFor(plan: seq<RequestSpec>, name: string, field: string, from: int, upto: int) {
    exists r :: r in plan && r.name == name && r.query == Some(Query(field, Range(from, upto)))
  }

  /** What a plan asks: each endpoint once and in order; jobs by their end and backups by their save time, each over its
      own window up to now; others without a time; clients always with their fields, policies with them on demand. */
  ghost predicate PlansRightly(config: ClientConfig, endpoints: seq<Entry<string, string>>, end: int,
                               plan: seq<RequestSpec>) {
    && |plan| == |endpoints|
    && forall i :: 0 <= i < |plan| ==>
         && plan[i].name == endpoints[i].key && plan[i].endpoint == endpoints[i].value
         && plan[i].query == (if plan[i].name == "jobs" then
                                Some(Query("endTime", Range(end / SECOND - config.jobsMinutes * 60, end / SECOND)))
                              else if plan[i].name == "backups" then
                                Some(Query("saveTime", Range(end / SECOND - config.backupsMinutes * 60, end / SECOND)))
                              else None)
         && plan[i].fields == (if plan[i].name == "clients" then
                                 Some("resourceId,hostname,clientState,operatingSystem,backupType")
                               else if plan[i].name == "policies" && config.fieldFilter then
                                 Some("name,comment,resourceId,workflows")
                               else None)
  }

  /** The plan that is built asks for just that. */
  lemma PlansExactly(config: ClientConfig, endpoints: seq<Entry<string, string>>, end: int, plan: seq<RequestSpec>)
    ensures PlansRightly(config, endpoints, end, plan) <==>
            |plan| == |endpoints| && forall i :: 0 <= i < |plan| ==> plan[i] == RequestFor(config, endpoints[i], end)
  {
    WindowStart(end, config.jobsMinutes);
    WindowStart(end, config.backupsMinutes);
  }

  /** The window of an endpoint that has one. */
  function WindowOf(config: ClientConfig, name: string): nat
    requires name == "jobs" || name == "backups"
  {
    if name == "jobs" then config.jobsMinutes else config.backupsMinutes
  }

  /** Whether some plan of the run asks for what ended, or was saved, in the second. */
  ghost predicate AskedInPlans(plans: seq<seq<RequestSpec>>, name: string, field: string, second: int) {
    exists k, from, upto :: 0 <= k < |plans| && from <= second <= upto && AsksFor(plans[k], name, field, from, upto)
  }

  lemma PlanAsks(config: ClientConfig, endpoints: seq<Entry<string, string>>, end: int, plan: seq<RequestSpec>,
                 name: string, field: string)
    requires PlansRightly(config, endpoints, end, plan) && exists e :: e in endpoints && e.key == name
    requires (name == "jobs" && field == "endTime") || (name == "backups" && field == "saveTime")
    ensures AsksFor(plan, name, field, end / SECOND - WindowOf(config, name) * 60, end / SECOND)
  {
    var e :| e in endpoints && e.key == name;
    var i :| 0 <= i < |endpoints| && endpoints[i] == e;
    assert plan[i] in plan;
  }

  /** The plans of a loop that runs in its slots ask, for jobs by their end and for backups by their save time, for
      every whole second from the start of its first window to its last collection, if the collections start within
      window minus interval of their slots. */
  lemma PlansLeaveNoGap(s: ScheduleConfig, now: int, slots: seq<int>, finished: seq<int>, ends: seq<int>,
                        config: ClientConfig, endpoints: seq<Entry<string, string>>, plans: seq<seq<RequestSpec>>,
                        name: string, field: string, second: int)
    requires s.Valid() && SuitsDay(s)
    requires |slots| == |finished| == |ends| == |plans| > 0 && RunsInSlots(s, now, slots, finished)
    requires (name == "jobs" && field == "endTime") || (name == "backups" && field == "saveTime")
    requires exists e :: e in endpoints && e.key == name
    requires forall k :: 0 <= k < |ends| ==>
               slots[k] <= ends[k] <= slots[k] + (WindowOf(config, name) - s.interval) * MINUTE
    requires forall k :: 0 <= k < |plans| ==> PlansRightly(config, endpoints, ends[k], plans[k])
    requires ends[0] / SECOND - WindowOf(config, name) * 60 <= second <= ends[|ends| - 1] / SECOND
    ensures AskedInPlans(plans, name, field, second)
  {
    var minutes := WindowOf(config, name);
    ScheduleLeavesNoGap(s, now, slots, finished, ends, minutes);
    WindowStart(ends[0], minutes);
    assert Asked(ends, minutes, second);
    var k :| 0 <= k < |ends|
             && QueryRange(ends[k], minutes).from <= second <= QueryRange(ends[k], minutes).upto;
    WindowStart(ends[k], minutes);
    PlanAsks(config, endpoints, ends[k], plans[k], name, field);
  }

  // ---- Which endpoints a class collects -----------------------------------------------------------

  /** The endpoints of a class: fast and slow halves, and the parts of each. */
  predicate Collects(class': Class, name: string) {
    match class'
    case Fast => name == "jobs" || name == "backups"
    case Jobs => name == "jobs"
    case Backups => name == "backups"
    case Inventory => name == "clients" || name == "policies"
    case Slow => name == "clients" || name == "policies"
  }

  function EndpointsFor(class': Class, endpoints: seq<Entry<string, string>>): (r: seq<Entry<string, string>>)
    ensures forall e :: e in r <==> e in endpoints && Collects(class', e.key)
  {
    if endpoints == [] then []
    else
      var before, last := EndpointsFor(class', endpoints[..|endpoints| - 1]), endpoints[|endpoints| - 1];
      assert endpoints == endpoints[..|endpoints| - 1] + [last];
      if Collects(class', last.key) then before + [last] else before
  }

  /** The windowed endpoints are in the classes that collect them, and every configured endpoint of the four known is in
      some class. */
  lemma ClassesCoverEndpoints(endpoints: seq<Entry<string, string>>, e: Entry<string, string>)
    requires e in endpoints && e.key in ["jobs", "backups", "clients", "policies"]
    ensures e in EndpointsFor(Fast, endpoints) <==> e.key in ["jobs", "backups"]
    ensures e in EndpointsFor(Jobs, endpoints) <==> e.key == "jobs"
    ensures e in EndpointsFor(Backups, endpoints) <==> e.key == "backups"
    ensures e in EndpointsFor(Slow, endpoints) <==> e.key in ["clients", "policies"]
    ensures e in EndpointsFor(Inventory, endpoints) <==> e in EndpointsFor(Slow, endpoints)
    ensures e in EndpointsFor(Fast, endpoints) || e in EndpointsFor(Slow, endpoints)
  {}

  // ---- One request, with its retries ------------------------------------------------------------

  /** How one attempt ends: with a payload, or with an error of the HTTP status, of time, or of another kind. */
  datatype Attempt = Payload(value: Value) | Status(code: int) | Timeout | Failure(error: string)
  {
    /** Whether another attempt may follow. */
    predicate Retryable() {
      Timeout? || (Status? && (code == 429 || code >= 500))
    }

    function Result(): Result<Value, Attempt> {
      if Payload? then Ok(value) else Err(this)
    }
  }

  function MaxAttempts(retries: int): (n: nat)
    ensures n >= 1
  {
    if retries + 1 > 1 then retries + 1 else 1
  }

  /** The attempt that decides: the first that may not be retried, else the last allowed. */
  ghost predicate Decides(attempts: nat -> Attempt, allowed: nat, k: nat) {
    && k < allowed && (k < allowed - 1 ==> !attempts(k).Retryable())
    && forall i: nat | i < k :: attempts(i).Retryable()
  }

  /** The attempts before the deciding one ended in a timeout, a refusal for load or a server error; a last attempt
      decides in any case. */
  lemma DecidesExactly(attempts: nat -> Attempt, allowed: nat, k: nat)
    ensures Decides(attempts, allowed, k) <==>
            && k < allowed
            && (forall i: nat | i < k :: match attempts(i)
                                         case Timeout => true
                                         case Status(code) => code == 429 || code >= 500
                                         case _ => false)
            && (k + 1 < allowed ==> match attempts(k)
                                    case Timeout => false
                                    case Status(code) => code != 429 && code < 500
                                    case _ => true)
  {
    forall a: Attempt
      ensures a.Retryable() <==> match a
                                 case Timeout => true
                                 case Status(code) => code == 429 || code >= 500
                                 case _ => false
    {}
  }

  /** Retries are counted beside the first attempt, of which there always is one. */
  lemma TimeoutsUseAllRetries(attempts: nat -> Attempt, retries: int)
    requires forall i: nat :: attempts(i).Timeout?
    ensures Decides(attempts, MaxAttempts(retries), if retries > 0 then retries else 0)
  {}

  lemma DecisionIsUnique(attempts: nat -> Attempt, allowed: nat, j: nat, k: nat)
    requires Decides(attempts, allowed, j) && Decides(attempts, allowed, k)
    ensures j == k
  {
    assert j < k ==> attempts(j).Retryable();
    assert k < j ==> attempts(k).Retryable();
  }

  function Power(n: nat): nat {
    if n == 0 then 1 else 2 * Power(n - 1)
  }

  /** Retries while it may, waiting twice as long each time; the waits add up to one second less than the next. */
  method GetJson(retries: int, attempts: nat -> Attempt)
    returns (result: Result<Value, Attempt>, ghost decisive: nat, waited: nat)
    ensures Decides(attempts, MaxAttempts(retries), decisive) && result == attempts(decisive).Result()
    ensures waited == Power(decisive) - 1
  {
    var allowed, i, pause := MaxAttempts(retries), 0, 1;
    waited := 0;
    while true
      invariant i < allowed && pause == Power(i) && waited == Power(i) - 1
      invariant forall j: nat | j < i :: attempts(j).Retryable()
      decreases allowed - i
    {
      var attempt := attempts(i);
      decisive := i;
      if attempt.Payload? {
        return Ok(attempt.value), decisive, waited;
      }
      if !attempt.Retryable() || i == allowed - 1 {
        return Err(attempt), decisive, waited;
      }
      waited := waited + pause;
      pause := 2 * pause;
      i := i + 1;
    }
  }

  /** What a request comes to. */
  ghost predicate ComesTo(attempts: nat -> Attempt, retries: int, result: Result<Value, Attempt>) {
    exists k: nat :: Decides(attempts, MaxAttempts(retries), k) && result == attempts(k).Result()
  }

  // ---- The collection -------------------------------------------------------------------------

  /** The endpoints that answered, in the order of configuration. */
  function Answered(endpoints: seq<Entry<string, string>>, responses: map<string, Value>): seq<Entry<string, Value>> {
    if endpoints == [] then []
    else
      var before, last := Answered(endpoints[..|endpoints| - 1], responses), endpoints[|endpoints| - 1].key;
      if last in responses then before + [Entry(last, responses[last])] else before
  }

  /** The payload holds exactly the endpoints that answered, each with its response, in the order of configuration. */
  lemma {:induction false} AnsweredExactly(endpoints: seq<Entry<string, string>>, responses: map<string, Value>)
    ensures forall x :: x in Answered(endpoints, responses) <==>
              x.key in responses && x.value == responses[x.key] && exists e :: e in endpoints && e.key == x.key
    ensures forall i, j :: 0 <= i < j < |Answered(endpoints, responses)| ==>
              InTurn(endpoints, Answered(endpoints, responses)[i].key, Answered(endpoints, responses)[j].key)
  {
    if endpoints != [] {
      var before, last := endpoints[..|endpoints| - 1], endpoints[|endpoints| - 1];
      assert endpoints == before + [last];
      AnsweredExactly(before, responses);
      AnsweredInTurn(before, last, responses);
    }
  }

  /** The first name is configured before the second. */
  ghost predicate InTurn(endpoints: seq<Entry<string, string>>, a: string, b: string) {
    exists i, j :: 0 <= i < j < |endpoints| && endpoints[i].key == a && endpoints[j].key == b
  }

  lemma AnsweredInTurn(before: seq<Entry<string, string>>, last: Entry<string, string>, responses: map<string, Value>)
    requires forall x :: x in Answered(before, responses) ==> exists e :: e in before && e.key == x.key
    requires forall i, j :: 0 <= i < j < |Answered(before, responses)| ==>
               InTurn(before, Answered(before, responses)[i].key, Answered(before, responses)[j].key)
    ensures var answered := Answered(before + [last], responses);
            forall i, j :: 0 <= i < j < |answered| ==> InTurn(before + [last], answered[i].key, answered[j].key)
  {
    var all := before + [last];
    assert all[..|all| - 1] == before;
    var sofar, answered := Answered(before, responses), Answered(all, responses);
    forall i, j | 0 <= i < j < |answered| ensures InTurn(all, answered[i].key, answered[j].key) {
      assert answered[i] == sofar[i] && sofar[i] in sofar;
      if j < |sofar| {
        assert InTurn(before, sofar[i].key, sofar[j].key);
        var m, n :| 0 <= m < n < |before| && before[m].key == sofar[i].key && before[n].key == sofar[j].key;
        assert all[m] == before[m] && all[n] == before[n];
      } else {
        var e :| e in before && e.key == sofar[i].key;
        var m :| 0 <= m < |before| && before[m] == e;
        assert all[m] == e && all[|before|] == last;
      }
    }
  }

  /** Sends the whole plan, whatever fails: every endpoint ends up in exactly one of responses and errors, with what
      its own request came to; the payload lists the responses in order; and a pause lies between any two requests. */
  method FetchPayloads(config: ClientConfig, endpoints: seq<Entry<string, string>>, end: int, spacing: nat,
                       retries: int, server: RequestSpec -> nat -> Attempt)
    returns (payload: seq<Entry<string, Value>>, responses: map<string, Value>, errors: map<string, Attempt>,
             pauses: nat)
    requires Distinct(endpoints)
    ensures responses.Keys !! errors.Keys && responses.Keys + errors.Keys == set e | e in endpoints :: e.key
    ensures forall e | e in endpoints ::
              ComesTo(server(RequestFor(config, e, end)), retries,
                      if e.key in responses then Ok(responses[e.key]) else Err(errors[e.key]))
    ensures payload == Answered(endpoints, responses)
    ensures spacing > 0 && endpoints != [] ==> pauses == |endpoints| - 1
  {
    var plan := BuildRequestPlan(config, endpoints, end);
    responses, errors, pauses := map[], map[], 0;
    for i := 0 to |plan|
      invariant responses.Keys !! errors.Keys
      invariant responses.Keys + errors.Keys == set j | 0 <= j < i :: endpoints[j].key
      invariant forall j :: 0 <= j < i ==>
                  ComesTo(server(RequestFor(config, endpoints[j], end)), retries,
                          if endpoints[j].key in responses then Ok(responses[endpoints[j].key])
                          else Err(errors[endpoints[j].key]))
      invariant pauses == if spacing > 0 && i > 0 then i - 1 else 0
    {
      if i > 0 && spacing > 0 {
        pauses := pauses + 1;
      }
      ghost var sofar := responses.Keys + errors.Keys;
      var result, decisive, waited := GetJson(retries, server(plan[i]));
      assert plan[i].name == endpoints[i].key && endpoints[i].key !in sofar;
      match result {
        case Ok(value) => responses := responses[plan[i].name := value];
        case Err(error) => errors := errors[plan[i].name := error];
      }
      assert responses.Keys + errors.Keys == sofar + {endpoints[i].key};
    }
    payload := CombineResponses(endpoints, responses);
  }

  method CombineResponses(endpoints: seq<Entry<string, string>>, responses: map<string, Value>)
    returns (payload: seq<Entry<string, Value>>)
    ensures payload == Answered(endpoints, responses)
  {
    payload := [];
    for i := 0 to |endpoints|
      invariant payload == Answered(endpoints[..i], responses)
    {
      assert endpoints[..i + 1][..i] == endpoints[..i];
      if endpoints[i].key in responses {
        payload := payload + [Entry(endpoints[i].key, responses[endpoints[i].key])];
      }
    }
    assert endpoints[..|endpoints|] == endpoints;
  }
}
