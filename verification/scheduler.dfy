/** `Scheduler` (src/core/scheduler.ts): the table from workflow id to its
    cron timer, and the trigger that turns a timer tick into an execution.

    node-cron is outside the model. A timer is an opaque handle drawn from a
    counter; `live` holds the handles whose timer has not been stopped.
    Creating a timer either succeeds or throws, as decided by `accepts`,
    node-cron's own judgement of the expression. A tick is the `OnTick`
    step, taken with the registry and job queue of the moment it fires. */
module Scheduling {
  import opened Base
  import opened Strings
  import opened JsMaps
  import opened FynTypes
  import opened FynLoader
  import opened Jobs

  datatype Scheduler = Scheduler(timers: JsMap<string, nat>, live: set<nat>, nextHandle: nat)

  const Idle := Scheduler([], {}, 0)

  /** The live timers are exactly those in the table, each id holds its own
      handle, and every handle was issued by the counter. */
  ghost predicate SchedulerWf(s: Scheduler) {
    TableWf(Contents(s.timers), s.live, s.nextHandle)
  }

  predicate TableWf(c: map<string, nat>, live: set<nat>, next: nat) {
    && live == c.Values
    && (forall id :: id in c ==> c[id] < next)
    && (forall a, b :: a in c && b in c && c[a] == c[b] ==> a == b)
  }

  // Storing a fresh handle under an id that holds none keeps the table sound.
  lemma FreshHandleWf(c: map<string, nat>, live: set<nat>, next: nat, id: string)
    requires TableWf(c, live, next) && id !in c
    ensures TableWf(c[id := next], live + {next}, next + 1)
  {
    var d := c[id := next];
    forall h | h in c.Values
      ensures h in d.Values
    {
      var a :| a in c && c[a] == h;
      assert d[a] == h;
    }
    forall h | h in d.Values
      ensures h in c.Values + {next}
    {
      var a :| a in d && d[a] == h;
      if a != id {
        assert c[a] == h;
      }
    }
    assert id in d && d[id] == next;
    assert d.Values == c.Values + {next};
  }

  lemma IdleWf()
    ensures SchedulerWf(Idle)
  {
  }

  // ---------------------------------------------------------------------------
  // The timer table

  /** `getScheduledJobs()`: the scheduled ids, in the order they were
      scheduled, each once. */
  function GetScheduledJobs(s: Scheduler): (ids: seq<string>)
    ensures forall id :: id in ids <==> id in Contents(s.timers)
    ensures forall i, j :: 0 <= i < j < |ids| ==> ids[i] != ids[j]
    ensures |ids| == |s.timers| && forall i :: 0 <= i < |ids| ==> ids[i] == s.timers[i].0
  {
    KeysAreContentsKeys(s.timers);
    Keys(s.timers)
  }

  /** `unscheduleFYN(fynId)`: an id without a timer is a no-op; otherwise its
      timer is stopped and its entry, and no other, is deleted. */
  function UnscheduleFyn(s: Scheduler, fynId: string): (r: Scheduler)
    ensures fynId !in Contents(s.timers) ==> r == s
    ensures Contents(r.timers) == Contents(s.timers) - {fynId}
    ensures fynId in Contents(s.timers) ==> r.live == s.live - {Contents(s.timers)[fynId]}
    ensures fynId in Contents(s.timers) ==>
              exists i :: 0 <= i < |s.timers| && s.timers[i].0 == fynId && r.timers == s.timers[..i] + s.timers[i + 1..]
    ensures r.nextHandle == s.nextHandle
  {
    match Get(s.timers, fynId)
    case None => s
    case Some(h) => Scheduler(Delete(s.timers, fynId), s.live - {h}, s.nextHandle)
  }

  lemma UnscheduleKeepsWf(s: Scheduler, fynId: string)
    requires SchedulerWf(s)
    ensures SchedulerWf(UnscheduleFyn(s, fynId))
  {
    if fynId in Contents(s.timers) {
      StoppedTimerGone(Contents(s.timers), fynId);
    }
  }

  // Removing an id from an injective table removes exactly its handle.
  lemma StoppedTimerGone(c: map<string, nat>, fynId: string)
    requires fynId in c
    requires forall a, b :: a in c && b in c && c[a] == c[b] ==> a == b
    ensures (c - {fynId}).Values == c.Values - {c[fynId]}
  {
    forall h | h in c.Values - {c[fynId]}
      ensures h in (c - {fynId}).Values
    {
      var a :| a in c && c[a] == h;
      assert a != fynId;
      assert (c - {fynId})[a] == h;
    }
  }

  /** `scheduleFYN(fyn)`. Without a schedule nothing changes, even for an id
      that already holds a timer. Otherwise any timer the id holds is stopped
      and removed first; then a new timer is created and stored under the id,
      which moves to the end of the table. When creating the timer throws,
      the id is left with no timer at all. */
  function ScheduleFyn(s: Scheduler, fyn: Fyn, accepts: string -> bool): (r: Scheduler)
    ensures !Given(fyn.config.schedule) ==> r == s
    ensures Given(fyn.config.schedule) && accepts(fyn.config.schedule.value) ==>
              && Contents(r.timers) == Contents(s.timers)[fyn.config.fynId := s.nextHandle]
              && |r.timers| > 0 && r.timers[|r.timers| - 1].0 == fyn.config.fynId
              && Keys(r.timers) == Keys(UnscheduleFyn(s, fyn.config.fynId).timers) + [fyn.config.fynId]
              && r.live == UnscheduleFyn(s, fyn.config.fynId).live + {s.nextHandle}
              && r.nextHandle == s.nextHandle + 1
    ensures Given(fyn.config.schedule) && !accepts(fyn.config.schedule.value) ==>
              r == UnscheduleFyn(s, fyn.config.fynId)
  {
    var id := fyn.config.fynId;
    if !Given(fyn.config.schedule) then s
    else
      var cleared := if Has(s.timers, id) then UnscheduleFyn(s, id) else s;
      assert cleared == UnscheduleFyn(s, id);
      if !accepts(fyn.config.schedule.value) then cleared
      else
        var timers := Append(cleared.timers, id, s.nextHandle);
        assert Keys(timers)[|timers| - 1] == id;
        RemoveThenUpdate(Contents(s.timers), id, s.nextHandle);
        Scheduler(timers, cleared.live + {s.nextHandle}, s.nextHandle + 1)
  }

  lemma ScheduleKeepsWf(s: Scheduler, fyn: Fyn, accepts: string -> bool)
    requires SchedulerWf(s)
    ensures SchedulerWf(ScheduleFyn(s, fyn, accepts))
  {
    var id := fyn.config.fynId;
    if Given(fyn.config.schedule) {
      var cleared := UnscheduleFyn(s, id);
      UnscheduleKeepsWf(s, id);
      if accepts(fyn.config.schedule.value) {
        FreshHandleWf(Contents(cleared.timers), cleared.live, s.nextHandle, id);
      }
    }
  }

  /** `stop()`: every timer is stopped and the table cleared. */
  function Stop(s: Scheduler): (r: Scheduler)
    ensures GetScheduledJobs(r) == [] && r.live == {}
    ensures forall h :: h in s.live ==> h !in r.live
    ensures SchedulerWf(r) && r.nextHandle == s.nextHandle
  {
    Scheduler([], {}, s.nextHandle)
  }

  /** `scheduleAllFYNs()` over a list of workflows, in order. */
  function ScheduleAllFyns(s: Scheduler, fyns: seq<Fyn>, accepts: string -> bool): (r: Scheduler)
    ensures SchedulerWf(s) ==> SchedulerWf(r)
    decreases |fyns|
  {
    if |fyns| == 0 then s
    else
      var next := ScheduleFyn(s, fyns[0], accepts);
      assert SchedulerWf(s) ==> SchedulerWf(next) by {
        if SchedulerWf(s) {
          ScheduleKeepsWf(s, fyns[0], accepts);
        }
      }
      ScheduleAllFyns(next, fyns[1..], accepts)
  }

  /** The schedule of the last workflow in the list that carries `fynId` and
      a schedule: the one whose `scheduleFYN` call decides the id's fate. */
  function LastSchedule(fyns: seq<Fyn>, fynId: string): (e: Option<string>)
    ensures e.Some? ==> exists f :: f in fyns && f.config.fynId == fynId && f.config.schedule == e && Given(e)
    ensures e.Some? ==> exists i :: && 0 <= i < |fyns| && fyns[i].config.fynId == fynId
                                    && fyns[i].config.schedule == e && Given(e)
                                    && forall k :: i < k < |fyns| && fyns[k].config.fynId == fynId ==>
                                         !Given(fyns[k].config.schedule)
    ensures e.None? ==> forall f :: f in fyns && f.config.fynId == fynId ==> !Given(f.config.schedule)
    decreases |fyns|
  {
    if |fyns| == 0 then None
    else
      var rest := LastSchedule(fyns[1..], fynId);
      assert forall f :: f in fyns <==> f == fyns[0] || f in fyns[1..];
      if rest.Some? then
        assert exists i :: && 0 <= i < |fyns| && fyns[i].config.fynId == fynId
                           && fyns[i].config.schedule == rest && Given(rest)
                           && forall k :: i < k < |fyns| && fyns[k].config.fynId == fynId ==>
                                !Given(fyns[k].config.schedule) by {
          var j :| && 0 <= j < |fyns[1..]| && fyns[1..][j].config.fynId == fynId
                   && fyns[1..][j].config.schedule == rest && Given(rest)
                   && forall k :: j < k < |fyns[1..]| && fyns[1..][k].config.fynId == fynId ==>
                        !Given(fyns[1..][k].config.schedule);
          forall k | j + 1 < k < |fyns| && fyns[k].config.fynId == fynId
            ensures !Given(fyns[k].config.schedule)
          {
            assert fyns[k] == fyns[1..][k - 1];
          }
          assert fyns[j + 1] == fyns[1..][j];
        }
        rest
      else if fyns[0].config.fynId == fynId && Given(fyns[0].config.schedule) then
        assert forall k :: 0 < k < |fyns| ==> fyns[k] in fyns[1..] by {
          forall k | 0 < k < |fyns| ensures fyns[k] in fyns[1..] {
            assert fyns[k] == fyns[1..][k - 1];
          }
        }
        fyns[0].config.schedule
      else None
  }

  /** After scheduling a list, an id holds a timer exactly when the last
      workflow with that id and a schedule had its timer created, or, when
      no workflow in the list gives the id a schedule, when it held one
      before. */
  lemma {:induction false} ScheduleAllOutcome(s: Scheduler, fyns: seq<Fyn>, accepts: string -> bool, fynId: string)
    ensures fynId in Contents(ScheduleAllFyns(s, fyns, accepts).timers) <==>
              match LastSchedule(fyns, fynId)
              case Some(e) => accepts(e)
              case None => fynId in Contents(s.timers)
    decreases |fyns|
  {
    if |fyns| > 0 {
      var s1 := ScheduleFyn(s, fyns[0], accepts);
      ScheduleAllOutcome(s1, fyns[1..], accepts, fynId);
    }
  }

  /** `start()`: load the definitions directory, then schedule every loaded
      workflow. A listing failure is rethrown before anything is scheduled. */
  function Start(reg: Registry, s: Scheduler, dir: string, listing: Result<seq<string>>,
                 files: string -> FileSource, accepts: string -> bool): (r: Result<(Registry, Scheduler)>)
    ensures listing.Err? ==> r == Err(listing.message)
    ensures listing.Ok? ==> r.Ok? && r.value.0 == LoadAllFyns(reg, dir, listing, files).value
    ensures r.Ok? ==> r.value.1 == ScheduleAllFyns(s, GetAllFyns(r.value.0), accepts)
  {
    match LoadAllFyns(reg, dir, listing, files)
    case Err(msg) => Err(msg)
    case Ok(loaded) => Ok((loaded, ScheduleAllFyns(s, GetAllFyns(loaded), accepts)))
  }

  /** Once started on an empty table, each loaded workflow with a schedule
      holds a timer exactly when its timer could be created, and one without
      a schedule holds none. */
  lemma StartSchedulesLoaded(reg: Registry, dir: string, names: seq<string>,
                             files: string -> FileSource, accepts: string -> bool, fynId: string)
    requires RegistryWf(reg)
    requires fynId in Contents(LoadAllFyns(reg, dir, Ok(names), files).value)
    ensures var r := Start(reg, Idle, dir, Ok(names), files, accepts).value;
            var config := Contents(r.0)[fynId].config;
            fynId in Contents(r.1.timers) <==> Given(config.schedule) && accepts(config.schedule.value)
  {
    var loaded := LoadAllFyns(reg, dir, Ok(names), files).value;
    LoadEachKeepsWf(reg, dir, DefinitionFiles(names), files);
    var fyns := GetAllFyns(loaded);
    ScheduleAllOutcome(Idle, fyns, accepts, fynId);
    var r := Start(reg, Idle, dir, Ok(names), files, accepts).value;
    assert r.0 == loaded && r.1 == ScheduleAllFyns(Idle, fyns, accepts);
    var config := Contents(loaded)[fynId].config;
    assert Contents(loaded)[fynId] in fyns;
    match LastSchedule(fyns, fynId)
    case Some(e) =>
      var f :| f in fyns && f.config.fynId == fynId && f.config.schedule == Some(e) && Given(Some(e));
      var id :| id in Contents(loaded) && Contents(loaded)[id] == f;
      assert f == Contents(loaded)[fynId];
    case None =>
      assert fynId !in Contents(Idle.timers);
  }

  // ---------------------------------------------------------------------------
  // Triggering

  /** `shouldRunFYN`: `now` lies inside the validity window, both ends
      included; a missing end leaves that side open. */
  predicate ShouldRunFyn(config: FynConfig, now: int): (b: bool)
    ensures b <==> && (config.startDate.None? || config.startDate.value <= now)
                   && (config.endDate.None? || now <= config.endDate.value)
  {
    !(config.startDate.Some? && now < config.startDate.value)
    && !(config.endDate.Some? && now > config.endDate.value)
  }

  /** The window's edges both admit a run; one step outside does not. */
  lemma WindowInclusive(config: FynConfig)
    requires config.startDate.Some? && config.endDate.Some?
    requires config.startDate.value <= config.endDate.value
    ensures ShouldRunFyn(config, config.startDate.value) && ShouldRunFyn(config, config.endDate.value)
    ensures !ShouldRunFyn(config, config.startDate.value - 1) && !ShouldRunFyn(config, config.endDate.value + 1)
  {
  }

  /** `triggerFYN(fynId, params)`: an unknown workflow or a time outside its
      window throws before any record exists; otherwise a new execution is
      added, and a failure to enqueue it is rethrown. */
  function TriggerFyn(reg: Registry, q: JobQueue, fynId: string, params: Option<Params>, now: int,
                      enqueued: Outcome): (r: Added)
    requires QueueWf(q)
    ensures GetFyn(reg, fynId).None? ==> r == Added(q, Err("FYN " + fynId + " not found"))
    ensures GetFyn(reg, fynId).Some? && !ShouldRunFyn(GetFyn(reg, fynId).value.config, now) ==>
              r == Added(q, Err("FYN " + fynId + " cannot run due to constraints"))
    ensures r.queue != q ==> Keys(r.queue.executions) == Keys(q.executions) + [NatToString(q.nextId)]
    ensures GetFyn(reg, fynId).Some? && ShouldRunFyn(GetFyn(reg, fynId).value.config, now) ==>
              var id := NatToString(q.nextId);
              && Contents(r.queue.executions)
                 == Contents(q.executions)[id := FynExecution(id, fynId, Pending, Some(now), None, None, Some([]))]
              && (enqueued.Pass? ==> r.result == Ok(id))
              && (enqueued.Fail? ==> r.result == Err(enqueued.message))
    ensures GetFyn(reg, fynId).Some? && ShouldRunFyn(GetFyn(reg, fynId).value.config, now) ==>
              r == AddFynExecution(q, fynId, params, now, enqueued)
    ensures r.result.Ok? ==>
              && GetFyn(reg, fynId).Some? && ShouldRunFyn(GetFyn(reg, fynId).value.config, now)
              && GetExecution(r.queue, r.result.value)
                 == Some(FynExecution(r.result.value, fynId, Pending, Some(now), None, None, Some([])))
    ensures QueueWf(r.queue)
  {
    match GetFyn(reg, fynId)
    case None => Added(q, Err("FYN " + fynId + " not found"))
    case Some(fyn) =>
      if !ShouldRunFyn(fyn.config, now) then Added(q, Err("FYN " + fynId + " cannot run due to constraints"))
      else AddFynExecution(q, fynId, params, now, enqueued)
  }

  /** A timer tick: trigger the workflow with no parameters and swallow
      whatever it throws. */
  function OnTick(reg: Registry, q: JobQueue, fynId: string, now: int, enqueued: Outcome): (r: JobQueue)
    requires QueueWf(q)
    ensures QueueWf(r)
    ensures forall id :: id in Contents(q.executions) ==> id in Contents(r.executions)
    ensures GetFyn(reg, fynId).None? || !ShouldRunFyn(GetFyn(reg, fynId).value.config, now) ==> r == q
    ensures GetFyn(reg, fynId).Some? && ShouldRunFyn(GetFyn(reg, fynId).value.config, now) ==>
              && NatToString(q.nextId) in Contents(r.executions)
              && Contents(r.executions)[NatToString(q.nextId)].fynId == fynId
              && Contents(r.executions)[NatToString(q.nextId)].status == Pending
  {
    TriggerFyn(reg, q, fynId, None, now, enqueued).queue
  }
}
