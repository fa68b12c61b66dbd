/** Health monitoring: `HealthChecker` pings every monitored model, keeps a record per
    name, counts consecutive failures and restarts a model once the count reaches the
    threshold. What a ping or a restart does to a worker is the manager's business; here
    a `Probe` says how the manager's `ping` and `restart` turn out, and the calls to the
    user's callbacks are recorded as `Event`s. */
module Health {
  import opened Values
  import opened Dicts
  import opened Manager
  import opened Discovery

  /** A model's health record. The check time is a tick supplied by the caller. */
  datatype HealthStatus = HealthStatus(
    name: string,
    healthy: bool,
    lastCheck: Option<nat>,
    consecutiveFailures: int,
    lastError: Option<string>)

  /** The record a name gets the first time it is checked. */
  function Fresh(name: string): HealthStatus {
    HealthStatus(name, true, None, 0, None)
  }

  /** What `get_status(name)` answers for a name that was never checked. */
  function NotMonitored(name: string): HealthStatus {
    HealthStatus(name, false, None, 0, Some("Not monitored"))
  }

  /** How a manager's `ping()` turns out: it answers true or false, or it raises. */
  datatype PingOutcome = Answered(healthy: bool) | Raised(message: string)

  /** How the manager behaves when checked: its ping, and the error its `restart()`
      raises, if any. */
  datatype Probe = Probe(ping: PingOutcome, restartError: Option<string>)

  /** `HealthCheckResult` without the response time. */
  datatype CheckResult = CheckResult(healthy: bool, error: Option<string>)

  /** The constructor's settings that decide what a check does. */
  datatype Policy = Policy(maxFailures: int, autoRestart: bool, hasOnFailure: bool, hasOnRestart: bool)

  /** What a check does besides updating the record: `on_failure` called with the record,
      `restart()` called on the manager, `on_restart` called. */
  datatype Event =
    | FailureReported(name: string, status: HealthStatus)
    | RestartAttempted(name: string)
    | RestartReported(name: string)

  /** `check_one`: healthy exactly when the ping answers true; the error is "Ping failed"
      for a false answer and the exception's text when the ping raises. */
  function CheckOne(ping: PingOutcome): (r: CheckResult)
    ensures r.healthy <==> ping == Answered(true)
    ensures r.healthy <==> r.error.None?
    ensures ping == Answered(false) ==> r.error == Some("Ping failed")
    ensures ping.Raised? ==> r.error == Some(ping.message)
  {
    match ping
    case Answered(true) => CheckResult(true, None)
    case Answered(false) => CheckResult(false, Some("Ping failed"))
    case Raised(message) => CheckResult(false, Some(message))
  }

  /** Every record is filed under its own name. */
  ghost predicate Named(status: Dict<HealthStatus>) {
    forall e :: e in status ==> e.1.name == e.0
  }

  /** The record `check_all` updates for `name`: the stored one, or a fresh one. */
  function Previous(status: Dict<HealthStatus>, name: string): HealthStatus {
    match Lookup(status, name)
    case Some(rec) => rec
    case None => Fresh(name)
  }

  /** The record after the check itself, before any restart. */
  function Checked(rec: HealthStatus, result: CheckResult, now: nat): HealthStatus {
    var rec := rec.(lastCheck := Some(now), healthy := result.healthy);
    if result.healthy then rec.(consecutiveFailures := 0, lastError := None)
    else rec.(consecutiveFailures := rec.consecutiveFailures + 1, lastError := result.error)
  }

  /** Whether a failed check restarts the model. */
  predicate RestartDue(policy: Policy, rec: HealthStatus) {
    policy.autoRestart && rec.consecutiveFailures >= policy.maxFailures
  }

  /** `_restart_model`'s effect on the record: reset after a successful restart. */
  function Restarted(rec: HealthStatus, restartError: Option<string>): HealthStatus {
    if restartError.None? then rec.(consecutiveFailures := 0, healthy := true) else rec
  }

  /** The record `check_all` leaves for `name`, restart included. */
  function NewRecord(status: Dict<HealthStatus>, name: string, probe: Probe, policy: Policy, now: nat): HealthStatus {
    var result := CheckOne(probe.ping);
    var checked := Checked(Previous(status, name), result, now);
    if !result.healthy && RestartDue(policy, checked) then Restarted(checked, probe.restartError) else checked
  }

  /** The events of checking `name`: `on_failure` after a failed check, then the restart
      and, when it succeeds, `on_restart`. */
  function CheckEvents(status: Dict<HealthStatus>, name: string, probe: Probe, policy: Policy, now: nat): seq<Event> {
    var result := CheckOne(probe.ping);
    var checked := Checked(Previous(status, name), result, now);
    var failure := if !result.healthy && policy.hasOnFailure then [FailureReported(name, checked)] else [];
    if result.healthy || !RestartDue(policy, checked) then failure
    else failure + [RestartAttempted(name)] +
         (if probe.restartError.None? && policy.hasOnRestart then [RestartReported(name)] else [])
  }

  /** One iteration of `check_all` for `name`: the new records and the events. */
  function CheckName(status: Dict<HealthStatus>, name: string, probe: Probe, policy: Policy, now: nat)
    : (Dict<HealthStatus>, seq<Event>)
  {
    (Put(status, name, NewRecord(status, name, probe, policy, now)), CheckEvents(status, name, probe, policy, now))
  }

  /** `CheckName` in terms of the record after the check itself. */
  lemma CheckNameUnfold(status: Dict<HealthStatus>, name: string, probe: Probe, policy: Policy, now: nat,
                        checked: HealthStatus)
    requires checked == Checked(Previous(status, name), CheckOne(probe.ping), now)
    ensures var failed := probe.ping != Answered(true);
      var restart := failed && policy.autoRestart && checked.consecutiveFailures >= policy.maxFailures;
      && NewRecord(status, name, probe, policy, now) == (if restart then Restarted(checked, probe.restartError) else checked)
      && CheckEvents(status, name, probe, policy, now) ==
           (if failed && policy.hasOnFailure then [FailureReported(name, checked)] else []) +
           (if restart then [RestartAttempted(name)] +
              (if probe.restartError.None? && policy.hasOnRestart then [RestartReported(name)] else [])
            else [])
  {
  }

  /** The records after `check_all` has checked the first `n` managers, in order. */
  function CheckEach(status: Dict<HealthStatus>, managers: Dict<ModelManager>, n: nat, probe: ModelManager -> Probe,
                     policy: Policy, now: nat): Dict<HealthStatus>
    requires n <= |managers|
  {
    Update(status, managers, n, (b, name, m) => NewRecord(b, name, probe(m), policy, now))
  }

  /** The events of `check_all` over the first `n` managers, in order. */
  function CheckEachEvents(status: Dict<HealthStatus>, managers: Dict<ModelManager>, n: nat,
                           probe: ModelManager -> Probe, policy: Policy, now: nat): seq<Event>
    requires n <= |managers|
  {
    if n == 0 then []
    else
      CheckEachEvents(status, managers, n - 1, probe, policy, now) +
      CheckEvents(CheckEach(status, managers, n - 1, probe, policy, now), managers[n - 1].0,
                  probe(managers[n - 1].1), policy, now)
  }

  /** `{m.name: m for m in managers}`: names in order of first appearance, each bound
      to the last manager carrying it. */
  function ByName(managers: seq<ModelManager>): Dict<ModelManager> {
    if managers == [] then []
    else
      var last := managers[|managers| - 1];
      Put(ByName(managers[..|managers| - 1]), last.config.name, last)
  }

  /** A check keeps the records well formed and named, touches only `name`'s record, and
      adds `name` at the end when it is new. */
  lemma CheckNameKeys(status: Dict<HealthStatus>, name: string, probe: Probe, policy: Policy, now: nat)
    requires WellFormed(status) && Named(status)
    ensures var s := CheckName(status, name, probe, policy, now).0;
      && WellFormed(s) && Named(s)
      && Keys(s) == (if name in Keys(status) then Keys(status) else Keys(status) + [name])
      && Lookup(s, name) == Some(NewRecord(status, name, probe, policy, now))
      && forall k :: k != name ==> Lookup(s, k) == Lookup(status, k)
  {
    var rec := NewRecord(status, name, probe, policy, now);
    KeysPut(status, name, rec);
    PutKeepsWellFormed(status, name, rec);
    PutEntries(status, name, rec);
    forall k ensures Lookup(Put(status, name, rec), k) == if k == name then Some(rec) else Lookup(status, k) {
      LookupPut(status, name, rec, k);
    }
  }

  /** A successful check marks the model healthy, clears the count and the error, and
      does nothing else. */
  lemma CheckNameSuccess(status: Dict<HealthStatus>, name: string, probe: Probe, policy: Policy, now: nat)
    requires probe.ping == Answered(true)
    ensures var (s, events) := CheckName(status, name, probe, policy, now);
      && Lookup(s, name) == Some(Previous(status, name).(lastCheck := Some(now), healthy := true,
                                                          consecutiveFailures := 0, lastError := None))
      && events == []
  {
    LookupPut(status, name, NewRecord(status, name, probe, policy, now), name);
  }

  /** A failed check counts one more failure and stores the error; `on_failure`, when set,
      sees the incremented count; a restart is attempted exactly when `auto_restart` holds
      and the count has reached `max_failures`; only a successful restart resets the count
      and marks the model healthy, and `on_restart` hears only of a successful one. */
  lemma CheckNameFailure(status: Dict<HealthStatus>, name: string, probe: Probe, policy: Policy, now: nat)
    requires probe.ping != Answered(true)
    ensures var (s, events) := CheckName(status, name, probe, policy, now);
      var count := Previous(status, name).consecutiveFailures + 1;
      var restart := policy.autoRestart && count >= policy.maxFailures;
      && Lookup(s, name).Some?
      && Lookup(s, name).value.lastCheck == Some(now)
      && Lookup(s, name).value.lastError == CheckOne(probe.ping).error
      && (restart && probe.restartError.None? ==>
            Lookup(s, name).value.consecutiveFailures == 0 && Lookup(s, name).value.healthy)
      && (!restart || probe.restartError.Some? ==>
            Lookup(s, name).value.consecutiveFailures == count && !Lookup(s, name).value.healthy)
      && (RestartAttempted(name) in events <==> restart)
      && (RestartReported(name) in events <==> restart && probe.restartError.None? && policy.hasOnRestart)
      && (forall st :: FailureReported(name, st) in events ==> st.consecutiveFailures == count)
      && (policy.hasOnFailure <==> exists st :: FailureReported(name, st) in events)
  {
    var events := CheckName(status, name, probe, policy, now).1;
    LookupPut(status, name, NewRecord(status, name, probe, policy, now), name);
    var checked := Checked(Previous(status, name), CheckOne(probe.ping), now);
    if policy.hasOnFailure {
      assert FailureReported(name, checked) in events;
    }
  }

  /** A failed restart leaves the count at or above the threshold, so the next failed
      check of the same model attempts the restart again. */
  lemma FailedRestartRetries(status: Dict<HealthStatus>, name: string, probe: Probe, next: Probe,
                             policy: Policy, now: nat, later: nat)
    requires probe.ping != Answered(true) && next.ping != Answered(true)
    requires RestartAttempted(name) in CheckName(status, name, probe, policy, now).1
    requires probe.restartError.Some?
    ensures RestartAttempted(name) in CheckName(CheckName(status, name, probe, policy, now).0, name, next, policy, later).1
  {
    var s := CheckName(status, name, probe, policy, now).0;
    CheckNameFailure(status, name, probe, policy, now);
    CheckNameFailure(s, name, next, policy, later);
    assert Previous(s, name) == Lookup(s, name).value;
  }

  /** Checking one more manager is one more check of its name. */
  lemma CheckEachNext(status: Dict<HealthStatus>, managers: Dict<ModelManager>, i: nat,
                      probe: ModelManager -> Probe, policy: Policy, now: nat)
    requires i < |managers|
    ensures var before := CheckEach(status, managers, i, probe, policy, now);
      && CheckEach(status, managers, i + 1, probe, policy, now) ==
           Put(before, managers[i].0, NewRecord(before, managers[i].0, probe(managers[i].1), policy, now))
      && CheckEachEvents(status, managers, i + 1, probe, policy, now) ==
           CheckEachEvents(status, managers, i, probe, policy, now) +
           CheckEvents(before, managers[i].0, probe(managers[i].1), policy, now)
  {
  }

  /** Concatenation regroups. */
  lemma AppendAssoc<T>(a: seq<T>, b: seq<T>, c: seq<T>)
    ensures a + (b + c) == (a + b) + c
  {
  }

  /** The records and events after `i` checks, followed by one more check, are those
      after `i + 1` checks. */
  lemma CheckEachAdvance(status: Dict<HealthStatus>, logged: seq<Event>, managers: Dict<ModelManager>, i: nat,
                         probe: ModelManager -> Probe, policy: Policy, now: nat,
                         prev: Dict<HealthStatus>, prevEvents: seq<Event>, next: Dict<HealthStatus>, nextEvents: seq<Event>)
    requires i < |managers|
    requires prev == CheckEach(status, managers, i, probe, policy, now)
    requires prevEvents == logged + CheckEachEvents(status, managers, i, probe, policy, now)
    requires next == Put(prev, managers[i].0, NewRecord(prev, managers[i].0, probe(managers[i].1), policy, now))
    requires nextEvents == prevEvents + CheckEvents(prev, managers[i].0, probe(managers[i].1), policy, now)
    ensures next == CheckEach(status, managers, i + 1, probe, policy, now)
    ensures nextEvents == logged + CheckEachEvents(status, managers, i + 1, probe, policy, now)
  {
    CheckEachNext(status, managers, i, probe, policy, now);
    var done := CheckEachEvents(status, managers, i, probe, policy, now);
    var step := CheckEvents(prev, managers[i].0, probe(managers[i].1), policy, now);
    AppendAssoc(logged, done, step);
  }

  /** `check_all` keeps the records well formed and named, keeps the names already known
      in their places and adds the names of the monitored models. */
  lemma CheckEachKeys(status: Dict<HealthStatus>, managers: Dict<ModelManager>, n: nat,
                      probe: ModelManager -> Probe, policy: Policy, now: nat)
    requires n <= |managers|
    requires WellFormed(status) && Named(status)
    ensures var s := CheckEach(status, managers, n, probe, policy, now);
      && WellFormed(s) && Named(s)
      && Keys(status) <= Keys(s)
      && (forall k :: k in Keys(s) <==> k in Keys(status) || exists j :: 0 <= j < n && managers[j].0 == k)
  {
    var f := (b, name, m) => NewRecord(b, name, probe(m), policy, now);
    UpdateKeys(status, managers, n, f);
    forall b, k, w | WellFormed(b) && Named(b) ensures WellFormed(Put(b, k, f(b, k, w))) && Named(Put(b, k, f(b, k, w))) {
      CheckNameKeys(b, k, probe(w), policy, now);
    }
    UpdateKeeps(status, managers, n, f, b => WellFormed(b) && Named(b));
  }

  /** After `check_all` every monitored model has a record stamped with this check. */
  lemma CheckEachStamps(status: Dict<HealthStatus>, managers: Dict<ModelManager>, n: nat,
                        probe: ModelManager -> Probe, policy: Policy, now: nat, j: int)
    requires 0 <= j < n <= |managers|
    ensures Lookup(CheckEach(status, managers, n, probe, policy, now), managers[j].0).Some?
    ensures Lookup(CheckEach(status, managers, n, probe, policy, now), managers[j].0).value.lastCheck == Some(now)
  {
    var f := (b, name, m) => NewRecord(b, name, probe(m), policy, now);
    UpdateSets(status, managers, n, f, j, (r: HealthStatus) => r.lastCheck == Some(now));
  }

  /** `check_all` leaves the records of models it does not monitor alone. */
  lemma CheckEachUntouched(status: Dict<HealthStatus>, managers: Dict<ModelManager>, n: nat,
                           probe: ModelManager -> Probe, policy: Policy, now: nat, k: string)
    requires n <= |managers|
    requires forall j :: 0 <= j < n ==> managers[j].0 != k
    ensures Lookup(CheckEach(status, managers, n, probe, policy, now), k) == Lookup(status, k)
  {
    UpdateUntouched(status, managers, n, (b, name, m) => NewRecord(b, name, probe(m), policy, now), k);
  }

  /** `{m.name: m for m in managers}` has each name once. */
  lemma {:induction false} ByNameWellFormed(managers: seq<ModelManager>)
    ensures WellFormed(ByName(managers))
  {
    if managers != [] {
      var last := managers[|managers| - 1];
      ByNameWellFormed(managers[..|managers| - 1]);
      PutKeepsWellFormed(ByName(managers[..|managers| - 1]), last.config.name, last);
    }
  }

  /** `{m.name: m for m in managers}` holds exactly the names the managers carry. */
  lemma {:induction false} ByNameKeys(managers: seq<ModelManager>, k: string)
    ensures Lookup(ByName(managers), k).Some? <==> exists i :: 0 <= i < |managers| && managers[i].config.name == k
  {
    if managers != [] {
      var init := managers[..|managers| - 1];
      var last := managers[|managers| - 1];
      ByNameKeys(init, k);
      LookupPut(ByName(init), last.config.name, last, k);
      if exists i :: 0 <= i < |managers| && managers[i].config.name == k {
        var i :| 0 <= i < |managers| && managers[i].config.name == k;
        if i < |init| {
          assert init[i] == managers[i];
        }
      }
    }
  }

  /** Looking a name up after the last manager is added. */
  lemma ByNameSnoc(managers: seq<ModelManager>, k: string)
    requires managers != []
    ensures Lookup(ByName(managers), k) ==
              if managers[|managers| - 1].config.name == k then Some(managers[|managers| - 1])
              else Lookup(ByName(managers[..|managers| - 1]), k)
  {
    var last := managers[|managers| - 1];
    LookupPut(ByName(managers[..|managers| - 1]), last.config.name, last, k);
  }

  /** `{m.name: m for m in managers}` binds a name to the last manager carrying it. */
  lemma {:induction false} ByNameLast(managers: seq<ModelManager>, k: string) returns (i: int)
    requires Lookup(ByName(managers), k).Some?
    ensures 0 <= i < |managers| && managers[i] == Lookup(ByName(managers), k).value
    ensures managers[i].config.name == k
    ensures forall j :: i < j < |managers| ==> managers[j].config.name != k
  {
    assert managers != [];
    ByNameSnoc(managers, k);
    var n := |managers| - 1;
    if managers[n].config.name == k {
      i := n;
    } else {
      var init := managers[..n];
      i := ByNameLast(init, k);
      assert managers[i] == init[i];
      forall j | i < j < |managers| ensures managers[j].config.name != k {
        if j < n {
          assert managers[j] == init[j] && init[j].config.name != k;
        } else {
          assert j == n;
        }
      }
    }
  }

  class HealthChecker {
    /** The registry to monitor, if given; it takes precedence over `managerList`. */
    const registry: ModelRegistry?
    /** `managers or []`. */
    const managerList: seq<ModelManager>
    const policy: Policy
    var status: Dict<HealthStatus>
    var events: seq<Event>
    var running: bool

    ghost predicate Valid()
      reads this
    {
      WellFormed(status) && Named(status)
    }

    constructor(registry: ModelRegistry?, managerList: seq<ModelManager>, policy: Policy)
      ensures Valid()
      ensures this.registry == registry && this.managerList == managerList && this.policy == policy
      ensures status == [] && events == [] && !running
    {
      this.registry := registry;
      this.managerList := managerList;
      this.policy := policy;
      status := [];
      events := [];
      running := false;
    }

    /** `HealthChecker(...)`: refused when neither a registry nor a list of managers is
        given; an empty list is accepted. */
    static method Create(registry: ModelRegistry?, managers: Option<seq<ModelManager>>, policy: Policy)
      returns (r: Result<HealthChecker, string>)
      ensures r.Err? <==> registry == null && managers.None?
      ensures r.Err? ==> r.error == "Must provide either registry or managers"
      ensures r.Ok? ==> fresh(r.value) && r.value.Valid() && r.value.status == [] && r.value.events == []
      ensures r.Ok? ==> !r.value.running && r.value.registry == registry && r.value.policy == policy
      ensures r.Ok? ==> r.value.managerList == if managers.Some? then managers.value else []
    {
      if registry == null && managers.None? {
        return Err("Must provide either registry or managers");
      }
      var c := new HealthChecker(registry, if managers.Some? then managers.value else [], policy);
      r := Ok(c);
    }

    /** `_get_managers`: the registry's managers under their names, or the given list
        keyed by name. */
    function GetManagers(): (r: Dict<ModelManager>)
      reads this, registry
      ensures registry != null ==> r == registry.managers
      ensures registry == null ==> r == ByName(managerList)
    {
      // `{name: registry.get(name) for name in registry.names}` is the registry's own
      // dictionary, since its names are distinct.
      if registry != null then registry.managers else ByName(managerList)
    }

    /** `check_all`. */
    method CheckAll(probe: ModelManager -> Probe, now: nat) returns (r: Dict<HealthStatus>)
      requires Valid()
      modifies this`status, this`events
      ensures Valid()
      ensures status == CheckEach(old(status), GetManagers(), |GetManagers()|, probe, policy, now)
      ensures events == old(events) + CheckEachEvents(old(status), GetManagers(), |GetManagers()|, probe, policy, now)
      ensures r == status
    {
      var managers := GetManagers();
      ghost var start := status;
      ghost var logged := events;
      var i := 0;
      while i < |managers|
        invariant 0 <= i <= |managers|
        invariant Valid() && CheckedUpTo(start, logged, managers, i, probe, now)
      {
        CheckStep(start, logged, managers, i, probe, now);
        i := i + 1;
      }
      r := status;
    }

    /** One iteration of `check_all`'s loop. */
    method CheckStep(ghost start: Dict<HealthStatus>, ghost logged: seq<Event>, managers: Dict<ModelManager>, i: int,
                     probe: ModelManager -> Probe, now: nat)
      requires 0 <= i < |managers|
      requires Valid() && CheckedUpTo(start, logged, managers, i, probe, now)
      modifies this`status, this`events
      ensures Valid() && CheckedUpTo(start, logged, managers, i + 1, probe, now)
    {
      ghost var prev := status;
      ghost var prevEvents := events;
      CheckModel(managers[i].0, probe(managers[i].1), now);
      CheckEachAdvance(start, logged, managers, i, probe, policy, now, prev, prevEvents, status, events);
    }

    /** `check_all` has checked the first `i` managers. */
    ghost predicate CheckedUpTo(start: Dict<HealthStatus>, logged: seq<Event>, managers: Dict<ModelManager>, i: int,
                                probe: ModelManager -> Probe, now: nat)
      requires 0 <= i <= |managers|
      reads this
    {
      && status == CheckEach(start, managers, i, probe, policy, now)
      && events == logged + CheckEachEvents(start, managers, i, probe, policy, now)
    }

    /** The body of `check_all`'s loop for one model, whose manager behaves as `outcome`. */
    method CheckModel(name: string, outcome: Probe, now: nat)
      requires Valid()
      modifies this`status, this`events
      ensures Valid()
      ensures status == Put(old(status), name, NewRecord(old(status), name, outcome, policy, now))
      ensures events == old(events) + CheckEvents(old(status), name, outcome, policy, now)
    {
      ghost var prev := status;
      ghost var prevEvents := events;
      var result := CheckOne(outcome.ping);
      var rec := Record(name, result, now);
      CheckNameUnfold(prev, name, outcome, policy, now, rec);
      CheckNameKeys(prev, name, outcome, policy, now);
      // `on_failure` runs after a failed check; its exceptions are swallowed.
      var failure := if !result.healthy && policy.hasOnFailure then [FailureReported(name, rec)] else [];
      events := events + failure;
      if !result.healthy && RestartDue(policy, rec) {
        LookupPut(prev, name, rec, name);
        PutPut(prev, name, rec, Restarted(rec, outcome.restartError));
        RestartModel(name, outcome.restartError);
        ghost var restarted := [RestartAttempted(name)] +
          (if outcome.restartError.None? && policy.hasOnRestart then [RestartReported(name)] else []);
        AppendAssoc(prevEvents, failure, restarted);
      } else {
        assert failure == failure + [];
      }
    }

    /** The record part of one check: file a fresh record for a new name, then stamp the
        check and count the failure or clear it. */
    method Record(name: string, result: CheckResult, now: nat) returns (rec: HealthStatus)
      modifies this`status
      ensures rec == Checked(Previous(old(status), name), result, now)
      ensures status == Put(old(status), name, rec)
    {
      ghost var prev := status;
      if Lookup(status, name).None? {
        PutAbsent(status, name, Fresh(name));
        status := status + [(name, Fresh(name))];
      }
      LookupPut(prev, name, Fresh(name), name);
      rec := Lookup(status, name).value;
      assert rec == Previous(prev, name);
      rec := rec.(lastCheck := Some(now), healthy := result.healthy);
      if result.healthy {
        rec := rec.(consecutiveFailures := 0, lastError := None);
      } else {
        rec := rec.(consecutiveFailures := rec.consecutiveFailures + 1, lastError := result.error);
      }
      if status != prev {
        PutPut(prev, name, Fresh(name), rec);
      }
      status := Put(status, name, rec);
    }

    /** `_restart_model`: calls `restart()`; when it succeeds, resets the record and tells
        `on_restart`; when it raises, changes nothing else. */
    method RestartModel(name: string, restartError: Option<string>)
      modifies this`status, this`events
      ensures events == old(events) + [RestartAttempted(name)] +
                        (if restartError.None? && policy.hasOnRestart then [RestartReported(name)] else [])
      ensures status == if restartError.None? && Lookup(old(status), name).Some?
                        then Put(old(status), name, Restarted(Lookup(old(status), name).value, restartError))
                        else old(status)
    {
      events := events + [RestartAttempted(name)];
      if restartError.None? {
        var rec := Lookup(status, name);
        if rec.Some? {
          status := Put(status, name, rec.value.(consecutiveFailures := 0, healthy := true));
        }
        if policy.hasOnRestart {
          events := events + [RestartReported(name)];
        }
      }
    }

    /** `get_status(name)`: the stored record, or an unmonitored one that is not stored. */
    function StatusOf(name: string): (r: HealthStatus)
      reads this
      ensures name in Keys(status) ==> Some(r) == Lookup(status, name)
      ensures name !in Keys(status) ==> r == NotMonitored(name) && !r.healthy
    {
      match Lookup(status, name)
      case Some(rec) => rec
      case None => NotMonitored(name)
    }

    /** `get_status()` and what `check_all` returns: a new dictionary holding the checker's
        records, in order. */
    function Statuses(): (r: Dict<HealthStatus>)
      reads this
      ensures Keys(r) == Keys(status)
      ensures forall name :: name in Keys(r) ==> Lookup(r, name) == Some(StatusOf(name))
    {
      status
    }

    /** `start`: sets the running flag; a second start only warns. */
    method Start()
      modifies this`running
      ensures running
    {
      if running {
        return;
      }
      running := true;
    }

    /** `stop`: clears the running flag; stopping a stopped checker does nothing. */
    method Stop()
      modifies this`running
      ensures !running
    {
      if !running {
        return;
      }
      running := false;
    }

    /** The `is_running` property. */
    predicate IsRunning()
      reads this
    {
      running
    }
  }
}
