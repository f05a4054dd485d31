/** The job store (cron/store.go), the due list (cron/scheduler.go) and one scheduler tick
    (desktop/bridge/cron.go). */
module CronStore {
  import opened Messages
  import opened Calendar
  import opened CronParser
  import opened Strings

  const EXPIRY := 7 * 24 * 60 * MINUTE

  datatype Status = Running | Skipped | Success | Failure | Timeout

  /** A copy of a job, as callers get it. `nextRun` is None for the zero time. */
  datatype View = View(id: string, cron: string, prompt: string, recurring: bool, paused: bool, createdAt: int,
                       updatedAt: Option<int>, workspace: string, sessionId: string, nextRun: Option<int>,
                       lastRun: Option<int>, lastStatus: Option<Status>, runCount: nat, expireAt: Option<int>)

  datatype StoreError = EmptyExpression | EmptyPrompt | Unparsable(error: Error) | NeverFires | NoSuchJob
  datatype Outcome = Done(job: View) | Refused(why: StoreError)

  /** The slot a firing job fires for. */
  function FiredSlot(fired: bool, nextRun: Option<int>): seq<int> {
    if fired && nextRun.Some? then [nextRun.value] else []
  }

  class Job {
    const id: string
    var cron: string
    var prompt: string
    var recurring: bool
    var paused: bool
    const createdAt: int
    var updatedAt: Option<int>
    const workspace: string
    const sessionId: string
    var nextRun: Option<int>
    var lastRun: Option<int>
    var lastStatus: Option<Status>
    var runCount: nat
    var expireAt: Option<int>
    /** The slots the job has fired for. */
    ghost var slots: seq<int>

    constructor (id: string, cron: string, prompt: string, recurring: bool, now: int, workspace: string,
                 sessionId: string,
                 nextRun: Option<int>, expireAt: Option<int>)
      ensures Copy() == View(id, cron, prompt, recurring, false, now, None, workspace, sessionId, nextRun, None, None,
                             0, expireAt)
      ensures this.id == id && slots == []
    {
      this.id, this.cron, this.prompt, this.recurring, paused := id, cron, prompt, recurring, false;
      createdAt, updatedAt, this.workspace, this.sessionId := now, None, workspace, sessionId;
      this.nextRun, lastRun, lastStatus, runCount, this.expireAt := nextRun, None, None, 0, expireAt;
      slots := [];
    }

    function Copy(): View
      reads this
    {
      View(id, cron, prompt, recurring, paused, createdAt, updatedAt, workspace, sessionId, nextRun, lastRun,
           lastStatus, runCount, expireAt)
    }

    method Reschedule(now: int)
      modifies `nextRun
      ensures NextRunIs(old(nextRun), cron, now, nextRun)
    {
      hide SpecOf, Match;
      var sp := Parse(cron);
      if sp.Ok? {
        var at := NextAfter(sp.value, now);
        if at.Some? {
          assert Match(sp.value, at.value);
          nextRun := at;
        }
      }
    }

    /** What Advance does to the job it found. */
    method Step(fired: bool, now: int) returns (shouldDelete: bool)
      modifies this
      ensures Advanced(old(Copy()), fired, now, Copy())
      ensures slots == old(slots) + FiredSlot(fired, old(nextRun))
      ensures shouldDelete == (fired && DoneFor(old(Copy()), now))
    {
      hide NextRunIs;
      lastRun := Some(now);
      if !fired {
        lastStatus := Some(Skipped);
        Reschedule(now);
        return false;
      }
      runCount := runCount + 1;
      if nextRun.Some? { slots := slots + [nextRun.value]; }
      lastStatus := Some(Running);
      Reschedule(now);
      return !recurring || (expireAt.Some? && now >= expireAt.value);
    }

    /** What Update does to the job it found, with the next run already computed. */
    method Change(prompt: Option<string>, cronExpr: Option<string>, recurring: Option<bool>, paused: Option<bool>,
                  now: int, at: Option<int>)
      requires cronExpr.Some? ==> RestartsAt(cronExpr.value, now, at)
      modifies this
      ensures Updated(old(Copy()), prompt, cronExpr, recurring, paused, now, Copy()) && slots == old(slots)
    {
      hide RestartsAt;
      if cronExpr.Some? {
        nextRun := at;
        cron := cronExpr.value;
      }
      if prompt.Some? { this.prompt := prompt.value; }
      if recurring.Some? { this.recurring := recurring.value; }
      if paused.Some? { this.paused := paused.value; }
      updatedAt := Some(now);
    }
  }

  // ---- job ids -------------------------------------------------------------------------------------

  /** idNum: the number its digits spell, other characters skipped. */
  function IdNum(id: string): nat {
    if id == [] then 0
    else
      var n, c := IdNum(id[..|id| - 1]), id[|id| - 1];
      if IsDigit(c) then 10 * n + (c - '0') as nat else n
  }

  function NewId(n: nat): string { "c" + Decimal(n) }

  lemma {:induction false} IdNumOfDigits(prefix: string, digits: string)
    requires AllDigits(digits) && IdNum(prefix) == 0
    ensures IdNum(prefix + digits) == Value(digits)
    decreases digits
  {
    if digits == [] {
      assert prefix + digits == prefix;
    } else {
      var n := |digits| - 1;
      IdNumOfDigits(prefix, digits[..n]);
      assert (prefix + digits)[..|prefix + digits| - 1] == prefix + digits[..n];
    }
  }

  lemma {:induction false} IdNumOfNewId(n: nat)
    ensures IdNum(NewId(n)) == n
  {
    assert IdNum("c") == 0 by { assert "c"[..0] == ""; }
    IdNumOfDigits("c", Decimal(n));
  }

  // ---- what the operations make of a job ------------------------------------------------------------

  /** Where Advance and Update put the next run. */
  ghost predicate NextRunIs(was: Option<int>, cron: string, now: int, next: Option<int>) {
    match SpecOf(cron)
    case Err(_) => next == was
    case Ok(spec) => if EverFires(spec) then next.Some? && IsNext(spec, now, next) else next == was
  }

  /** A job behind Advance. */
  ghost predicate Advanced(was: View, fired: bool, now: int, job: View) {
    && NextRunIs(was.nextRun, was.cron, now, job.nextRun)
    && job == if fired then was.(runCount := was.runCount + 1, lastRun := Some(now), lastStatus := Some(Running),
                                 nextRun := job.nextRun)
              else was.(lastRun := Some(now), lastStatus := Some(Skipped), nextRun := job.nextRun)
  }

  /** A job that can never stick: its expression fires, no slot fired twice, all of them are past,
      the next one is a minute on schedule behind them all, and the run count is their number. */
  ghost predicate Good(job: View, slots: seq<int>, clock: int) {
    && SpecOf(job.cron).Ok? && EverFires(SpecOf(job.cron).value) && job.nextRun.Some?
    && (forall i, j | 0 <= i < j < |slots| :: slots[i] < slots[j])
    && (forall i | 0 <= i < |slots| :: slots[i] <= clock && slots[i] < job.nextRun.value)
    && job.nextRun.value % MINUTE == 0 && Match(SpecOf(job.cron).value, job.nextRun.value) && job.runCount == |slots|
  }

  /** The slot such a job fires for next is a time of day on a date that its expression names. */
  lemma {:induction false} SlotIsScheduled(job: View, slots: seq<int>, clock: int)
    requires Good(job, slots, clock)
    ensures var (date, hour, minute) := TimeOfDay(job.nextRun.value / MINUTE);
            && job.nextRun.value == MINUTE * MinuteNumber(date, hour, minute)
            && Scheduled(SpecOf(job.cron).value, date, hour, minute)
  {
    hide SpecOf, EverFires, Match, Scheduled, DayOf, DateOf;
    var next := job.nextRun.value;
    var (date, hour, minute) := TimeOfDay(next / MINUTE);
    TimeOfMinute(next / MINUTE);
    MatchMeans(SpecOf(job.cron).value, next, date, hour, minute);
  }

  lemma {:induction false} GoodLater(job: View, slots: seq<int>, clock: int, now: int)
    requires Good(job, slots, clock) && clock <= now
    ensures Good(job, slots, now)
  {
  }

  /** A due job that fires moves on to a later slot; a skipped one fires for none. */
  lemma {:induction false} GoodAfterAdvance(was: View, slots: seq<int>, clock: int, fired: bool, now: int, job: View)
    requires Good(was, slots, clock) && clock <= now && Advanced(was, fired, now, job) && was.nextRun.value <= now
    ensures Good(job, slots + FiredSlot(fired, was.nextRun), now)
    ensures job.nextRun.value > now && !IsDue(job, now)
  {
    hide SpecOf, EverFires, Match;
    assert IsNext(SpecOf(was.cron).value, now, job.nextRun);
  }

  lemma {:induction false} GoodAfterUpdate(was: View, slots: seq<int>, clock: int, prompt: Option<string>,
                                           cronExpr: Option<string>,
                                           recurring: Option<bool>, paused: Option<bool>, now: int, job: View)
    requires Good(was, slots, clock) && clock <= now && Updated(was, prompt, cronExpr, recurring, paused, now, job)
    ensures Good(job, slots, now)
  {
  }

  predicate DoneFor(was: View, now: int) {
    !was.recurring || (was.expireAt.Some? && now >= was.expireAt.value)
  }

  predicate IsDue(j: View, now: int) { !j.paused && j.nextRun.Some? && j.nextRun.value <= now }

  function DueOf(jobs: seq<View>, now: int): seq<View> {
    if jobs == [] then []
    else DueOf(jobs[..|jobs| - 1], now) + if IsDue(jobs[|jobs| - 1], now) then [jobs[|jobs| - 1]] else []
  }

  method Due(jobs: seq<View>, now: int) returns (due: seq<View>)
    ensures due == DueOf(jobs, now)
  {
    due := [];
    for i := 0 to |jobs|
      invariant due == DueOf(jobs[..i], now)
    {
      assert jobs[..i + 1][..i] == jobs[..i];
      var j := jobs[i];
      if j.paused {
        continue;
      }
      if j.nextRun.Some? && j.nextRun.value <= now {
        due := due + [j];
      }
    }
    assert jobs[..|jobs|] == jobs;
  }

  method ValidateJob(cronExpr: string, prompt: string) returns (why: Option<StoreError>)
    ensures why == Invalid(cronExpr, prompt)
  {
    if cronExpr == "" {
      return Some(EmptyExpression);
    }
    if prompt == "" {
      return Some(EmptyPrompt);
    }
    var sp := Parse(cronExpr);
    return if sp.Err? then Some(Unparsable(sp.error)) else None;
  }

  function Invalid(cronExpr: string, prompt: string): Option<StoreError> {
    if cronExpr == "" then Some(EmptyExpression)
    else if prompt == "" then Some(EmptyPrompt)
    else match SpecOf(cronExpr) case Err(e) => Some(Unparsable(e)) case Ok(_) => None
  }

  /** A valid expression that fires, first at `next`. */
  ghost predicate RestartsAt(cron: string, now: int, next: Option<int>) {
    SpecOf(cron).Ok? && EverFires(SpecOf(cron).value) && next.Some? && IsNext(SpecOf(cron).value, now, next)
  }

  /** Why Add turns a job down. */
  ghost function AddRefused(cronExpr: string, prompt: string): Option<StoreError> {
    if Invalid(cronExpr, prompt).Some? then Invalid(cronExpr, prompt)
    else if !EverFires(SpecOf(cronExpr).value) then Some(NeverFires)
    else None
  }

  class Store {
    var jobs: seq<Job>
    var next: nat

    constructor ()
      ensures Valid() && jobs == [] && fresh(jobs)
    {
      jobs, next := [], 1;
    }

    ghost predicate Valid()
      reads this, jobs
    {
      && (forall i, j | 0 <= i < j < |jobs| :: jobs[i] != jobs[j] && jobs[i].id != jobs[j].id)
      && (forall j | j in jobs :: IdNum(j.id) < next)
    }

    ghost predicate Sound(clock: int)
      reads this, jobs
    {
      Valid() && forall i | 0 <= i < |jobs| :: Good(jobs[i].Copy(), jobs[i].slots, clock)
    }

    method Find(id: string) returns (i: nat)
      ensures i <= |jobs| && (i < |jobs| ==> jobs[i].id == id)
      ensures i == |jobs| <==> forall j | j in jobs :: j.id != id
    {
      i := 0;
      while i < |jobs|
        invariant i <= |jobs| && forall k | 0 <= k < i :: jobs[k].id != id
      {
        if jobs[i].id == id {
          return;
        }
        i := i + 1;
      }
    }

    method List() returns (copies: seq<View>)
      ensures |copies| == |jobs| && forall i | 0 <= i < |jobs| :: copies[i] == jobs[i].Copy()
    {
      copies := [];
      for i := 0 to |jobs|
        invariant |copies| == i && forall k | 0 <= k < i :: copies[k] == jobs[k].Copy()
      {
        copies := copies + [jobs[i].Copy()];
      }
    }

    method CheckAdd(cronExpr: string, prompt: string, now: int) returns (why: Option<StoreError>, at: Option<int>)
      ensures why == AddRefused(cronExpr, prompt)
      ensures why.None? ==> RestartsAt(cronExpr, now, at)
    {
      at := None;
      why := ValidateJob(cronExpr, prompt);
      if why.Some? {
        return;
      }
      var sp := Parse(cronExpr);
      at := NextAfter(sp.value, now);
      if at.None? {
        why := Some(NeverFires);
        return;
      }
      assert Match(sp.value, at.value);
    }

    method Add(cronExpr: string, prompt: string, recurring: bool, workspace: string, sid: string, now: int)
      returns (r: Outcome)
      requires Valid()
      modifies this
      ensures Valid()
      ensures match AddRefused(cronExpr, prompt)
              case Some(why) => r == Refused(why) && unchanged(this)
              case None =>
                && r.Done? && next == old(next) + 1
                && |jobs| == |old(jobs)| + 1 && jobs[..|old(jobs)|] == old(jobs) && fresh(jobs[|old(jobs)|])
                && jobs[|old(jobs)|].slots == [] && jobs[|old(jobs)|].Copy() == r.job
                && RestartsAt(cronExpr, now, r.job.nextRun)
                && r.job == View(NewId(old(next)), cronExpr, prompt, recurring, false, now, None, workspace, sid,
                                 r.job.nextRun,
                                 None, None, 0, if recurring then Some(now + EXPIRY) else None)
    {
      hide RestartsAt, AddRefused;
      var why, at := CheckAdd(cronExpr, prompt, now);
      if why.Some? {
        return Refused(why.value);
      }
      IdNumOfNewId(next);
      var job := new Job(NewId(next), cronExpr, prompt, recurring, now, workspace, sid, at,
                         if recurring then Some(now + EXPIRY) else None);
      next := next + 1;
      jobs := jobs + [job];
      r := Done(job.Copy());
    }

    /** All jobs but the i-th are as before. */
    twostate predicate OnlyJobChanged(i: int)
      reads this, jobs
    {
      && jobs == old(jobs) && next == old(next)
      && forall k | 0 <= k < |jobs| && k != i ::
         jobs[k].Copy() == old(jobs[k].Copy()) && jobs[k].slots == old(jobs[k].slots)
    }

    method CheckUpdate(target: Job, prompt: Option<string>, cronExpr: Option<string>, now: int)
      returns (why: Option<StoreError>, at: Option<int>)
      ensures why.None? && cronExpr.None? ==> at == target.nextRun
      ensures why.None? && cronExpr.Some? ==> RestartsAt(cronExpr.value, now, at)
      ensures cronExpr.Some? && Invalid(cronExpr.value, if prompt.Some? then prompt.value else target.prompt).Some? ==>
              why.Some?
    {
      at := target.nextRun;
      if cronExpr.Some? {
        why := ValidateJob(cronExpr.value, if prompt.Some? then prompt.value else target.prompt);
        if why.Some? {
          return;
        }
      }
      if prompt.Some? {
        why := ValidateJob(target.cron, prompt.value);
        if why.Some? {
          return;
        }
      }
      if cronExpr.Some? {
        var sp := Parse(cronExpr.value);
        at := NextAfter(sp.value, now);
        if at.None? {
          return Some(NeverFires), at;
        }
        assert EverFires(sp.value) by { assert Match(sp.value, at.value); }
      }
      why := None;
    }

    /** prompt, cron, recurring and paused as far as given; a new expression restarts from now. */
    method Update(id: string, prompt: Option<string>, cronExpr: Option<string>, recurring: Option<bool>,
                  paused: Option<bool>,
                  now: int) returns (r: Outcome, ghost i: nat)
      requires Valid()
      modifies jobs
      ensures Valid() && i <= |jobs| && (i < |jobs| ==> jobs[i].id == id)
      ensures i == |jobs| <==> forall j | j in jobs :: j.id != id
      ensures i == |jobs| ==> r == Refused(NoSuchJob)
      ensures r.Refused? ==> unchanged(jobs)
      ensures r.Done? ==>
                && i < |jobs| && OnlyJobChanged(i) && jobs[i].Copy() == r.job && jobs[i].slots == old(jobs[i].slots)
                && Updated(old(jobs[i].Copy()), prompt, cronExpr, recurring, paused, now, r.job)
    {
      var k := Find(id);
      i := k;
      if k == |jobs| {
        r := Refused(NoSuchJob);
        return;
      }
      var target := jobs[k];
      var why, at := CheckUpdate(target, prompt, cronExpr, now);
      if why.Some? {
        r := Refused(why.value);
        return;
      }
      target.Change(prompt, cronExpr, recurring, paused, now, at);
      r := Done(target.Copy());
    }

    method Delete(id: string) returns (found: bool)
      requires Valid()
      modifies this
      ensures Valid() && next == old(next)
      ensures found <==> exists j :: j in old(jobs) && j.id == id
      ensures !found ==> jobs == old(jobs)
      ensures found ==> exists i ::
              0 <= i < |old(jobs)| && old(jobs)[i].id == id && jobs == old(jobs)[..i] + old(jobs)[i + 1..]
    {
      var i := Find(id);
      if i == |jobs| {
        return false;
      }
      assert jobs[i] in jobs;
      jobs := jobs[..i] + jobs[i + 1..];
      return true;
    }

    /** The scheduler's step for one job: fired, or skipped because the feature is off. */
    method Advance(id: string, fired: bool, now: int) returns (job: Option<View>, shouldDelete: bool, ghost i: nat)
      requires Valid()
      modifies jobs
      ensures Valid() && i <= |jobs| && (i < |jobs| ==> jobs[i].id == id)
      ensures i == |jobs| <==> forall j | j in jobs :: j.id != id
      ensures i == |jobs| ==> job.None? && !shouldDelete && unchanged(jobs)
      ensures i < |jobs| ==>
                && job == Some(jobs[i].Copy()) && OnlyJobChanged(i)
                && Advanced(old(jobs[i].Copy()), fired, now, job.value)
                && jobs[i].slots == old(jobs[i].slots) + FiredSlot(fired, old(jobs[i].nextRun))
                && shouldDelete == (fired && DoneFor(old(jobs[i].Copy()), now))
    {
      var k := Find(id);
      i := k;
      if k == |jobs| {
        job, shouldDelete := None, false;
        return;
      }
      shouldDelete := jobs[k].Step(fired, now);
      job := Some(jobs[k].Copy());
    }

    method MarkFinished(id: string, status: Status, now: int)
      requires Valid()
      modifies jobs
      ensures Valid()
      ensures forall i | 0 <= i < |jobs| ::
                && jobs[i].slots == old(jobs[i].slots)
                && jobs[i].Copy() == if jobs[i].id == id
                   then old(jobs[i].Copy()).(lastStatus := Some(status), lastRun := Some(now))
                                     else old(jobs[i].Copy())
    {
      var i := Find(id);
      if i < |jobs| {
        jobs[i].lastStatus := Some(status);
        jobs[i].lastRun := Some(now);
      }
    }
  }

  ghost predicate Updated(was: View, prompt: Option<string>, cronExpr: Option<string>, recurring: Option<bool>,
                          paused: Option<bool>,
                          now: int, job: View) {
    && job == was.(prompt := if prompt.Some? then prompt.value else was.prompt,
                   cron := if cronExpr.Some? then cronExpr.value else was.cron,
                   recurring := if recurring.Some? then recurring.value else was.recurring,
                   paused := if paused.Some? then paused.value else was.paused,
                   updatedAt := Some(now), nextRun := job.nextRun)
    && (cronExpr.None? ==> job.nextRun == was.nextRun)
    && (cronExpr.Some? ==> RestartsAt(cronExpr.value, now, job.nextRun))
  }
}
