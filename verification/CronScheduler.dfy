/** Runs of the scheduler: ticks (desktop/bridge/cron.go), edits and completions in any order under
    a clock that never goes back. */
module CronScheduler {
  import opened Messages
  import opened CronParser
  import opened CronStore

  predicate HasView(views: seq<View>, id: string) {
    exists i :: 0 <= i < |views| && views[i].id == id
  }

  lemma {:induction false} DueIffIsDue(views: seq<View>, now: int, id: string)
    requires forall i, j | 0 <= i < j < |views| :: views[i].id != views[j].id
    ensures HasView(DueOf(views, now), id) <==>
            exists i :: 0 <= i < |views| && views[i].id == id && IsDue(views[i], now)
    ensures forall i, j | 0 <= i < j < |DueOf(views, now)| :: DueOf(views, now)[i].id != DueOf(views, now)[j].id
    ensures forall i | 0 <= i < |DueOf(views, now)| :: exists k ::
            0 <= k < |views| && views[k] == DueOf(views, now)[i] && IsDue(views[k], now)
  {
    if views != [] {
      var n := |views| - 1;
      DueIffIsDue(views[..n], now, id);
      var before, due := DueOf(views[..n], now), DueOf(views, now);
      forall i | 0 <= i < |due| ensures exists k :: 0 <= k < |views| && views[k] == due[i] && IsDue(views[k], now) {
        if i < |before| {
          var k :| 0 <= k < n && views[..n][k] == before[i] && IsDue(views[..n][k], now);
          assert views[k] == due[i];
        } else {
          assert views[n] == due[i];
        }
      }
      if IsDue(views[n], now) {
        assert due == before + [views[n]];
        if views[n].id == id { assert due[|before|].id == id; }
      }
      forall i | 0 <= i < |before| ensures before[i] == due[i] {}
    }
  }

  /** A job fired for a slot. */
  datatype Firing = Firing(id: string, slot: int)

  function Copies(jobs: seq<Job>): (views: seq<View>)
    reads jobs
    ensures |views| == |jobs| && forall i | 0 <= i < |jobs| :: views[i] == jobs[i].Copy()
  {
    if jobs == [] then [] else Copies(jobs[..|jobs| - 1]) + [jobs[|jobs| - 1].Copy()]
  }

  predicate AllSet(due: seq<View>) {
    forall i | 0 <= i < |due| :: due[i].nextRun.Some?
  }

  /** The firings of the due jobs, in their order. */
  function Firings(due: seq<View>): (fired: seq<Firing>)
    requires AllSet(due)
    ensures |fired| == |due| && forall i | 0 <= i < |due| :: fired[i] == Firing(due[i].id, due[i].nextRun.value)
  {
    seq(|due|, i requires 0 <= i < |due| => Firing(due[i].id, due[i].nextRun.value))
  }

  predicate NoRepeat(log: seq<Firing>) {
    forall i, j | 0 <= i < j < |log| :: log[i] != log[j]
  }

  lemma {:induction false} FiringsSnoc(due: seq<View>, d: View)
    requires d.nextRun.Some? && AllSet(due)
    ensures AllSet(due + [d]) && Firings(due + [d]) == Firings(due) + [Firing(d.id, d.nextRun.value)]
  {
  }

  ghost function SlotsOf(jobs: seq<Job>): (slots: seq<seq<int>>)
    reads jobs
    ensures |slots| == |jobs| && forall i | 0 <= i < |jobs| :: slots[i] == jobs[i].slots
  {
    if jobs == [] then [] else SlotsOf(jobs[..|jobs| - 1]) + [jobs[|jobs| - 1].slots]
  }

  /** Every logged firing is of an id already given away, and of the jobs that are still there the log
      holds exactly the slots they have fired for. */
  ghost predicate Remembered(log: seq<Firing>, views: seq<View>, slots: seq<seq<int>>, next: nat)
    requires |views| == |slots|
  {
    && (forall f | f in log :: IdNum(f.id) < next)
    && (forall k, slot | 0 <= k < |views| :: slot in slots[k] <==> Firing(views[k].id, slot) in log)
  }

  ghost predicate Logged(log: seq<Firing>, store: Store)
    reads store, store.jobs
  {
    Remembered(log, Copies(store.jobs), SlotsOf(store.jobs), store.next)
  }

  /** What a tick makes of one job that is still there. */
  twostate predicate Ticked(j: Job, served: bool, now: int, enabled: bool)
    reads j
  {
    if served then
      && Good(j.Copy(), j.slots, now) && !IsDue(j.Copy(), now)
      && j.slots == old(j.slots) + FiredSlot(enabled, old(j.nextRun))
    else j.Copy() == old(j.Copy()) && j.slots == old(j.slots)
  }

  /** A job that fired goes when it has a session and is one-shot or past its expiry. */
  twostate predicate Deleted(j: Job, fired: bool, now: int, broken: set<string>)
    reads j
  {
    fired && j.id !in broken && Ends(old(j.Copy()), now)
  }

  predicate Ends(job: View, now: int) { !job.recurring || (job.expireAt.Some? && job.expireAt.value <= now) }

  /** Exactly the jobs that are not paused and whose next run has come fire, each for that slot. */
  lemma {:induction false} FiresExactly(views: seq<View>, now: int)
    requires forall i, j | 0 <= i < j < |views| :: views[i].id != views[j].id
    ensures AllSet(DueOf(views, now))
    ensures NoRepeat(Firings(DueOf(views, now)))
    ensures forall f :: f in Firings(DueOf(views, now)) <==> exists k :: FiresAt(views, now, f, k)
  {
    AllDueSet(views, now);
    DueIffIsDue(views, now, "");
    var due := DueOf(views, now);
    hide DueOf, HasView;
    forall f ensures f in Firings(due) <==> exists k :: FiresAt(views, now, f, k) {
      if f in Firings(due) {
        var i :| 0 <= i < |due| && Firings(due)[i] == f;
        var k :| 0 <= k < |views| && views[k] == due[i] && IsDue(views[k], now);
        assert FiresAt(views, now, f, k);
      }
      if k :| FiresAt(views, now, f, k) {
        DueAppears(views, now, k);
        var i :| 0 <= i < |due| && due[i] == views[k];
        assert Firings(due)[i] == f;
      }
    }
  }

  ghost predicate FiresAt(views: seq<View>, now: int, f: Firing, k: int) {
    && 0 <= k < |views| && f.id == views[k].id
    && !views[k].paused && views[k].nextRun == Some(f.slot) && f.slot <= now
  }

  lemma {:induction false} DueAppears(views: seq<View>, now: int, k: nat)
    requires k < |views| && IsDue(views[k], now)
    ensures exists i :: 0 <= i < |DueOf(views, now)| && DueOf(views, now)[i] == views[k]
  {
    var n := |views| - 1;
    var before := DueOf(views[..n], now);
    if k < n {
      DueAppears(views[..n], now, k);
      var i :| 0 <= i < |before| && before[i] == views[k];
      assert DueOf(views, now)[i] == views[k];
    } else {
      assert DueOf(views, now)[|before|] == views[k];
    }
  }

  /** One due job: advance it, and delete it when it is done. */
  method Serve(store: Store, d: View, now: int, enabled: bool, broken: set<string>, ghost clock: int)
    returns (fired: seq<Firing>)
    requires store.Valid() && clock <= now && d.nextRun.Some?
    requires forall j | j in store.jobs && j.id == d.id :: Good(j.Copy(), j.slots, clock) && j.nextRun.value <= now
    modifies store, store.jobs
    ensures store.Valid() && store.next == old(store.next) && forall j | j in store.jobs :: j in old(store.jobs)
    ensures fired == if enabled then [Firing(d.id, d.nextRun.value)] else []
    ensures forall j | j in store.jobs :: Ticked(j, j.id == d.id, now, enabled)
    ensures forall j | j in old(store.jobs) :: j in store.jobs <==> !Deleted(j, j.id == d.id && enabled, now, broken)
  {
    hide Good, SpecOf, EverFires, Advanced;
    fired := if enabled then [Firing(d.id, d.nextRun.value)] else [];
    var job, done, i := store.Advance(d.id, enabled, now);
    forall j | j in store.jobs ensures Ticked(j, j.id == d.id, now, enabled) {
      var k :| 0 <= k < |store.jobs| && store.jobs[k] == j;
      if k == i {
        GoodAfterAdvance(old(j.Copy()), old(j.slots), clock, enabled, now, j.Copy());
      } else if j.id == d.id {
        assert false;
      }
    }
    if enabled && done && d.id !in broken {
      var found := store.Delete(d.id);
    }
  }

  lemma {:induction false} SameDue(due: seq<View>, id: string, i: nat)
    requires i < |due|
    ensures HasView(due[..i + 1], id) <==> HasView(due[..i], id) || due[i].id == id
  {
    if HasView(due[..i + 1], id) {
      var k :| 0 <= k < i + 1 && due[..i + 1][k].id == id;
      if k < i { assert due[..i][k].id == id; }
    }
    if HasView(due[..i], id) {
      var k :| 0 <= k < i && due[..i][k].id == id;
      assert due[..i + 1][k].id == id;
    }
    if due[i].id == id { assert due[..i + 1][i].id == id; }
  }

  lemma {:induction false} AllDueSet(views: seq<View>, now: int)
    ensures AllSet(DueOf(views, now))
  {
    if views != [] { AllDueSet(views[..|views| - 1], now); }
  }

  /** The due jobs of the store, each once. */
  method DueJobs(store: Store, now: int) returns (due: seq<View>)
    requires store.Valid()
    ensures due == DueOf(Copies(store.jobs), now) && AllSet(due)
    ensures forall i, j | 0 <= i < j < |due| :: due[i].id != due[j].id
    ensures forall j | j in store.jobs :: HasView(due, j.id) <==> IsDue(j.Copy(), now)
  {
    hide DueOf, Copies, AllSet;
    var views := store.List();
    assert views == Copies(store.jobs);
    AllDueSet(views, now);
    due := Due(views, now);
    DueIffIsDue(views, now, "");
    forall j | j in store.jobs ensures HasView(due, j.id) <==> IsDue(j.Copy(), now) {
      DueIffIsDue(views, now, j.id);
      var k :| 0 <= k < |store.jobs| && store.jobs[k] == j;
      assert views[k].id == j.id;
    }
  }

  lemma {:induction false} NoViews(views: seq<View>)
    requires views == []
    ensures forall id :: !HasView(views, id)
  {
  }

  lemma {:induction false} DueOnce(due: seq<View>, i: nat, id: string)
    requires i < |due| && due[i].id == id && forall k, l | 0 <= k < l < |due| :: due[k].id != due[l].id
    ensures HasView(due, id) && !HasView(due[..i], id)
  {
  }

  lemma {:induction false} DueIsSet(job: View, now: int)
    requires IsDue(job, now)
    ensures job.nextRun.Some? && job.nextRun.value <= now
  {
  }

  /** The loop over the due jobs. */
  method ServeAll(store: Store, due: seq<View>, now: int, enabled: bool, broken: set<string>, ghost clock: int)
    returns (fired: seq<Firing>)
    requires store.Sound(clock) && clock <= now && AllSet(due)
    requires forall i, j | 0 <= i < j < |due| :: due[i].id != due[j].id
    requires forall j | j in store.jobs :: HasView(due, j.id) <==> IsDue(j.Copy(), now)
    modifies store, store.jobs
    ensures store.Valid() && store.next == old(store.next) && forall j | j in store.jobs :: j in old(store.jobs)
    ensures fired == if enabled then Firings(due) else []
    ensures forall j | j in store.jobs :: Ticked(j, old(IsDue(j.Copy(), now)), now, enabled)
    ensures forall j | j in old(store.jobs) ::
              j in store.jobs <==> !Deleted(j, old(IsDue(j.Copy(), now)) && enabled, now, broken)
  {
    hide Good, SpecOf, EverFires, Firings, Ends, IsDue, HasView;
    assert due[..|due|] == due;
    ghost var jobs, done := store.jobs, set j | j in store.jobs && Ends(j.Copy(), now);
    fired := [];
    NoViews(due[..0]);
    for i := 0 to |due|
      invariant AllSet(due[..i]) && fired == if enabled then Firings(due[..i]) else []
      invariant store.Valid() && store.next == old(store.next) && forall j | j in store.jobs :: j in old(store.jobs)
      invariant forall j | j in store.jobs :: Ticked(j, HasView(due[..i], j.id), now, enabled)
      invariant forall j | j in old(store.jobs) ::
                  j in store.jobs <==> !(HasView(due[..i], j.id) && enabled && j.id !in broken && j in done)
    {
      forall j | j in store.jobs && j.id == due[i].id
        ensures !HasView(due[..i], j.id) && Good(j.Copy(), j.slots, clock) && j.nextRun.Some? && j.nextRun.value <= now
        ensures Ends(j.Copy(), now) <==> j in done
      {
        DueOnce(due, i, j.id);
        assert IsDue(old(j.Copy()), now);
        DueIsSet(old(j.Copy()), now);
      }
      assert forall k | 0 <= k < |store.jobs| :: store.jobs[k] in old(store.jobs);
      var served := Serve(store, due[i], now, enabled, broken, clock);
      assert due[..i + 1] == due[..i] + [due[i]];
      FiringsSnoc(due[..i], due[i]);
      fired := fired + served;
      forall j | j in jobs ensures HasView(due[..i + 1], j.id) <==> HasView(due[..i], j.id) || due[i].id == j.id {
        SameDue(due, j.id, i);
      }
    }
  }

  /** One scheduler tick: fires the due jobs, or skips them while the feature is off. Jobs in
      `broken` could not get a session; they count as fired but are never deleted. */
  method Tick(store: Store, now: int, enabled: bool, broken: set<string>, ghost clock: int) returns (fired: seq<Firing>)
    requires store.Sound(clock) && clock <= now
    modifies store, store.jobs
    ensures store.Sound(now) && store.next == old(store.next)
    ensures forall j | j in store.jobs :: j in old(store.jobs)
    ensures AllSet(DueOf(old(Copies(store.jobs)), now))
    ensures fired == if enabled then Firings(DueOf(old(Copies(store.jobs)), now)) else []
    ensures forall j | j in store.jobs :: Ticked(j, old(IsDue(j.Copy(), now)), now, enabled)
    ensures forall j | j in store.jobs :: !IsDue(j.Copy(), now)
    ensures forall j | j in old(store.jobs) ::
              j in store.jobs <==> !Deleted(j, enabled && old(IsDue(j.Copy(), now)), now, broken)
  {
    hide Good, DueOf, SpecOf, EverFires, Firings, Copies, AllSet;
    var due := DueJobs(store, now);
    fired := ServeAll(store, due, now, enabled, broken, clock);
    forall k | 0 <= k < |store.jobs|
      ensures Good(store.jobs[k].Copy(), store.jobs[k].slots, now) && !IsDue(store.jobs[k].Copy(), now)
    {
      var j := store.jobs[k];
      assert j in store.jobs;
      if !old(IsDue(j.Copy(), now)) { GoodLater(j.Copy(), j.slots, clock, now); }
    }
  }

  ghost predicate SoundViews(views: seq<View>, slots: seq<seq<int>>, next: nat, clock: int) {
    && |views| == |slots| && (forall i, j | 0 <= i < j < |views| :: views[i].id != views[j].id)
    && (forall k | 0 <= k < |views| :: IdNum(views[k].id) < next && Good(views[k], slots[k], clock))
  }

  /** A job that is due fires for a slot behind all its earlier ones. */
  lemma {:induction false} DueIsNew(views: seq<View>, slots: seq<seq<int>>, next: nat, now: int, clock: int,
                                    log: seq<Firing>, i: nat)
    returns (k: nat)
    requires SoundViews(views, slots, next, clock) && Remembered(log, views, slots, next) && i < |DueOf(views, now)|
    ensures k < |views| && views[k] == DueOf(views, now)[i] && IsDue(views[k], now)
    ensures IdNum(views[k].id) < next && Firing(views[k].id, views[k].nextRun.value) !in log
  {
    hide SpecOf, EverFires, DueOf;
    DueIffIsDue(views, now, "");
    k :| 0 <= k < |views| && views[k] == DueOf(views, now)[i] && IsDue(views[k], now);
  }

  lemma {:induction false} MoreFirings(log: seq<Firing>, fired: seq<Firing>)
    requires NoRepeat(log) && NoRepeat(fired) && forall f | f in fired :: f !in log
    ensures NoRepeat(log + fired)
  {
    var all := log + fired;
    forall i, j | 0 <= i < j < |all| ensures all[i] != all[j] {
      if i < |log| <= j { assert all[j] in fired && all[i] in log; }
    }
  }

  /** A job left by a tick: its id and slots come from the k-th job before. */
  ghost predicate Behind(views: seq<View>, slots: seq<seq<int>>, now: int, enabled: bool, id: string, left: seq<int>,
                         k: int)
    requires |views| == |slots|
  {
    && 0 <= k < |views| && views[k].id == id
    && left == slots[k] + if IsDue(views[k], now) then FiredSlot(enabled, views[k].nextRun) else []
  }

  ghost predicate LeftBehind(views: seq<View>, slots: seq<seq<int>>, now: int, enabled: bool, id: string,
                             left: seq<int>)
    requires |views| == |slots|
  {
    exists k :: Behind(views, slots, now, enabled, id, left, k)
  }

  /** The k-th job fires for a slot in this tick exactly if it is due and stands there. */
  lemma {:induction false} FiredIff(views: seq<View>, slots: seq<seq<int>>, next: nat, now: int, enabled: bool,
                                    clock: int,
                                    log: seq<Firing>, fired: seq<Firing>, k: nat, slot: int)
    requires SoundViews(views, slots, next, clock) && Remembered(log, views, slots, next) && k < |views|
    requires AllSet(DueOf(views, now)) && fired == if enabled then Firings(DueOf(views, now)) else []
    ensures Firing(views[k].id, slot) in fired <==> enabled && IsDue(views[k], now) && views[k].nextRun == Some(slot)
  {
    hide DueOf, Good;
    DueIffIsDue(views, now, views[k].id);
    if Firing(views[k].id, slot) in fired {
      var i :| 0 <= i < |fired| && fired[i] == Firing(views[k].id, slot);
      var k' := DueIsNew(views, slots, next, now, clock, log, i);
      assert k' == k;
    }
    if enabled && IsDue(views[k], now) && views[k].nextRun == Some(slot) {
      var i :| 0 <= i < |DueOf(views, now)| && DueOf(views, now)[i].id == views[k].id;
      var k' := DueIsNew(views, slots, next, now, clock, log, i);
      assert k' == k && fired[i] == Firing(views[k].id, slot);
    }
  }

  /** A tick fires for no slot that was fired for before, and its firings are remembered. */
  lemma {:induction false} TickLogs(views: seq<View>, slots: seq<seq<int>>, next: nat, now: int, enabled: bool,
                                    clock: int,
                                    log: seq<Firing>, fired: seq<Firing>, left: seq<View>, leftSlots: seq<seq<int>>)
    requires SoundViews(views, slots, next, clock) && Remembered(log, views, slots, next) && NoRepeat(log) &&
             |left| == |leftSlots|
    requires AllSet(DueOf(views, now)) && fired == if enabled then Firings(DueOf(views, now)) else []
    requires forall h | 0 <= h < |left| :: LeftBehind(views, slots, now, enabled, left[h].id, leftSlots[h])
    ensures Remembered(log + fired, left, leftSlots, next) && NoRepeat(log + fired)
  {
    hide DueOf, Good;
    forall f | f in fired ensures IdNum(f.id) < next && f !in log {
      var i :| 0 <= i < |fired| && fired[i] == f;
      var k := DueIsNew(views, slots, next, now, clock, log, i);
    }
    forall h, slot | 0 <= h < |left| ensures slot in leftSlots[h] <==> Firing(left[h].id, slot) in log + fired {
      assert LeftBehind(views, slots, now, enabled, left[h].id, leftSlots[h]);
      var k :| Behind(views, slots, now, enabled, left[h].id, leftSlots[h], k);
      FiredIff(views, slots, next, now, enabled, clock, log, fired, k, slot);
    }
    assert NoRepeat(fired) by { DueIffIsDue(views, now, ""); }
    MoreFirings(log, fired);
  }

  datatype Event = Ticks(now: int, enabled: bool, broken: set<string>)
                 | Adds(now: int, cron: string, prompt: string, recurring: bool, workspace: string, sid: string)
                 | Updates(now: int, id: string, newPrompt: Option<string>, newCron: Option<string>,
                           newRecurring: Option<bool>,
                           newPaused: Option<bool>)
                 | Deletes(now: int, id: string)
                 | Finishes(now: int, id: string, status: Status)

  /** One tick in a history whose firings so far are in the log. */
  method HandleTick(store: Store, e: Event, ghost clock: int, ghost log: seq<Firing>) returns (fired: seq<Firing>)
    requires store.Sound(clock) && clock <= e.now && e.Ticks? && Logged(log, store) && NoRepeat(log)
    modifies store, store.jobs
    ensures store.Sound(e.now) && Logged(log + fired, store) && NoRepeat(log + fired)
    ensures AllSet(DueOf(old(Copies(store.jobs)), e.now))
    ensures fired == if e.enabled then Firings(DueOf(old(Copies(store.jobs)), e.now)) else []
    ensures forall k | 0 <= k < |store.jobs| :: store.jobs[k] in old(store.jobs)
  {
    hide Good, DueOf, SpecOf, EverFires, IsDue, Copies, SlotsOf, Remembered, NoRepeat, Firings, AllSet;
    ghost var jobs, views, slots := store.jobs, Copies(store.jobs), SlotsOf(store.jobs);
    assert SoundViews(views, slots, store.next, clock);
    hide SoundViews, IdNum, Ends;
    fired := Tick(store, e.now, e.enabled, e.broken, clock);
    ghost var left, leftSlots := Copies(store.jobs), SlotsOf(store.jobs);
    forall h | 0 <= h < |left| ensures LeftBehind(views, slots, e.now, e.enabled, left[h].id, leftSlots[h]) {
      assert store.jobs[h] in store.jobs;
      var k :| 0 <= k < |jobs| && jobs[k] == store.jobs[h];
      assert Behind(views, slots, e.now, e.enabled, left[h].id, leftSlots[h], k);
    }
    TickLogs(views, slots, store.next, e.now, e.enabled, clock, log, fired, left, leftSlots);
  }

  predicate Unmoved(id: string, slots: seq<int>, nowId: string, nowSlots: seq<int>) { id == nowId && slots == nowSlots }

  /** Jobs may go, and new ones come whose ids no firing has. */
  lemma {:induction false} StillRemembered(log: seq<Firing>, views: seq<View>, slots: seq<seq<int>>, next: nat,
                                           left: seq<View>, leftSlots: seq<seq<int>>, leftNext: nat)
    requires |views| == |slots| && |left| == |leftSlots| && next <= leftNext && Remembered(log, views, slots, next)
    requires forall h | 0 <= h < |left| :: (IdNum(left[h].id) >= next && leftSlots[h] == []) ||
               exists k :: 0 <= k < |views| && Unmoved(views[k].id, slots[k], left[h].id, leftSlots[h])
    ensures Remembered(log, left, leftSlots, leftNext)
  {
  }

  /** No id is given away twice, and no job has fired. */
  twostate predicate OnlyNewIds(store: Store)
    reads store, store.jobs
  {
    old(store.next) <= store.next &&
    forall j | j in store.jobs ::
      (IdNum(j.id) >= old(store.next) && j.slots == []) || (j in old(store.jobs) && j.slots == old(j.slots))
  }

  lemma {:induction false} GoodWhenNew(job: View, now: int)
    requires RestartsAt(job.cron, now, job.nextRun) && job.runCount == 0
    ensures Good(job, [], now)
  {
  }

  method HandleAdd(store: Store, e: Event, ghost clock: int)
    requires store.Sound(clock) && clock <= e.now && e.Adds?
    modifies store
    ensures store.Sound(e.now) && OnlyNewIds(store) && forall k | 0 <= k < |store.jobs| ::
            store.jobs[k] in old(store.jobs) || fresh(store.jobs[k])
  {
    hide AddRefused, RestartsAt, Good, IdNum, NewId;
    IdNumOfNewId(store.next);
    ghost var jobs := store.jobs;
    var r := store.Add(e.cron, e.prompt, e.recurring, e.workspace, e.sid, e.now);
    if r.Done? { GoodWhenNew(r.job, e.now); }
    forall k | 0 <= k < |store.jobs| ensures Good(store.jobs[k].Copy(), store.jobs[k].slots, e.now) {
      if k < |jobs| {
        assert store.jobs[k] == jobs[k];
        GoodLater(jobs[k].Copy(), jobs[k].slots, clock, e.now);
      }
    }
  }

  method HandleUpdate(store: Store, e: Event, ghost clock: int)
    requires store.Sound(clock) && clock <= e.now && e.Updates?
    modifies store.jobs
    ensures store.Sound(e.now) && store.jobs == old(store.jobs) && OnlyNewIds(store)
  {
    hide Good, Updated, SpecOf, EverFires, RestartsAt, IdNum;
    var r, i := store.Update(e.id, e.newPrompt, e.newCron, e.newRecurring, e.newPaused, e.now);
    forall k | 0 <= k < |store.jobs| ensures Good(store.jobs[k].Copy(), store.jobs[k].slots, e.now) {
      if r.Done? && k == i {
        GoodAfterUpdate(old(store.jobs[k].Copy()), old(store.jobs[k].slots), clock, e.newPrompt, e.newCron,
                        e.newRecurring, e.newPaused,
                        e.now, store.jobs[k].Copy());
      } else {
        GoodLater(store.jobs[k].Copy(), store.jobs[k].slots, clock, e.now);
      }
    }
  }

  method HandleDelete(store: Store, e: Event, ghost clock: int)
    requires store.Sound(clock) && clock <= e.now && e.Deletes?
    modifies store
    ensures store.Sound(e.now) && OnlyNewIds(store) && forall k | 0 <= k < |store.jobs| ::
            store.jobs[k] in old(store.jobs)
  {
    hide SpecOf, EverFires;
    var found := store.Delete(e.id);
    forall k | 0 <= k < |store.jobs| ensures Good(store.jobs[k].Copy(), store.jobs[k].slots, e.now) {
      assert store.jobs[k] in old(store.jobs);
    }
  }

  method HandleFinish(store: Store, e: Event, ghost clock: int)
    requires store.Sound(clock) && clock <= e.now && e.Finishes?
    modifies store.jobs
    ensures store.Sound(e.now) && store.jobs == old(store.jobs) && OnlyNewIds(store)
  {
    hide SpecOf, EverFires;
    store.MarkFinished(e.id, e.status, e.now);
    forall k | 0 <= k < |store.jobs| ensures Good(store.jobs[k].Copy(), store.jobs[k].slots, e.now) {
      assert Good(old(store.jobs[k].Copy()), old(store.jobs[k].slots), clock);
    }
  }

  method HandleEdit(store: Store, e: Event, ghost clock: int)
    requires store.Sound(clock) && clock <= e.now && !e.Ticks?
    modifies store, store.jobs
    ensures store.Sound(e.now) && OnlyNewIds(store)
    ensures forall k | 0 <= k < |store.jobs| :: store.jobs[k] in old(store.jobs) || fresh(store.jobs[k])
  {
    hide Good;
    match e {
      case Adds(_, _, _, _, _, _) => HandleAdd(store, e, clock);
      case Updates(_, _, _, _, _, _) => HandleUpdate(store, e, clock);
      case Deletes(_, _) => HandleDelete(store, e, clock);
      case Finishes(_, _, _) => HandleFinish(store, e, clock);
    }
  }

  /** An edit or a completion in such a history. */
  method HandleLogged(store: Store, e: Event, ghost clock: int, ghost log: seq<Firing>)
    requires store.Sound(clock) && clock <= e.now && !e.Ticks? && Logged(log, store)
    modifies store, store.jobs
    ensures store.Sound(e.now) && Logged(log, store)
    ensures forall k | 0 <= k < |store.jobs| :: store.jobs[k] in old(store.jobs) || fresh(store.jobs[k])
  {
    hide Good, Copies, SlotsOf, Remembered;
    ghost var jobs, views, slots, next := store.jobs, Copies(store.jobs), SlotsOf(store.jobs), store.next;
    HandleEdit(store, e, clock);
    forall h | 0 <= h < |store.jobs|
      ensures (IdNum(store.jobs[h].id) >= next && store.jobs[h].slots == []) ||
              exists k :: 0 <= k < |jobs| && Unmoved(jobs[k].id, slots[k], store.jobs[h].id, store.jobs[h].slots)
    {
      assert store.jobs[h] in store.jobs;
      if IdNum(store.jobs[h].id) < next || store.jobs[h].slots != [] {
        var k :| 0 <= k < |jobs| && jobs[k] == store.jobs[h];
        assert Unmoved(jobs[k].id, slots[k], store.jobs[h].id, store.jobs[h].slots);
      }
    }
    StillRemembered(log, views, slots, next, Copies(store.jobs), SlotsOf(store.jobs), store.next);
  }

  method Handle(store: Store, e: Event, ghost clock: int, ghost log: seq<Firing>) returns (fired: seq<Firing>)
    requires store.Sound(clock) && clock <= e.now && Logged(log, store) && NoRepeat(log)
    modifies store, store.jobs
    ensures store.Sound(e.now) && Logged(log + fired, store) && NoRepeat(log + fired)
    ensures forall k | 0 <= k < |store.jobs| :: store.jobs[k] in old(store.jobs) || fresh(store.jobs[k])
    ensures AllSet(DueOf(old(Copies(store.jobs)), e.now))
    ensures fired == if e.Ticks? && e.enabled then Firings(DueOf(old(Copies(store.jobs)), e.now)) else []
  {
    hide Good, Remembered, NoRepeat, Copies, SlotsOf, Firings, DueOf, AllSet;
    AllDueSet(Copies(store.jobs), e.now);
    if e.Ticks? {
      fired := HandleTick(store, e, clock, log);
    } else {
      fired := [];
      assert log + fired == log;
      HandleLogged(store, e, clock, log);
    }
  }

  /** Over any history under a clock that never goes back no job ever sticks, and no job - those
      deleted meanwhile included - fires twice for one slot. `fired` lists all firings, `log` earlier ones. */
  method RunHistory(store: Store, events: seq<Event>, ghost start: int, ghost log: seq<Firing>)
    returns (ghost clock: int, fired: seq<Firing>)
    requires store.Sound(start) && (events != [] ==> start <= events[0].now) && Logged(log, store) && NoRepeat(log)
    requires forall i, j | 0 <= i < j < |events| :: events[i].now <= events[j].now
    modifies store, store.jobs
    ensures store.Sound(clock) && clock == if events == [] then start else events[|events| - 1].now
    ensures NoRepeat(log + fired) && Logged(log + fired, store)
  {
    hide Good, Remembered, NoRepeat, Copies, SlotsOf, Logged, AllSet, Firings, DueOf, IsDue;
    clock, fired := start, [];
    ghost var all := log;
    for i := 0 to |events|
      invariant store.Sound(clock) && clock == if i == 0 then start else events[i - 1].now
      invariant forall k | 0 <= k < |store.jobs| :: store.jobs[k] in old(store.jobs) || fresh(store.jobs[k])
      invariant all == log + fired && NoRepeat(all) && Logged(all, store)
    {
      var more := Handle(store, events[i], clock, all);
      fired, all := fired + more, all + more;
      clock := events[i].now;
    }
  }
}
