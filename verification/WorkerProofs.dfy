/** What holds in every state the workers reach, over whole runs. */
module WorkerProofs {
  import opened Common
  import opened QueueSpec
  import opened QueueProofs
  import opened Worker

  predicate SerialLanes(cfg: Config) {
    forall a, b :: a in cfg.lanes && b in cfg.lanes && a != b ==> cfg.lanes[a] !! cfg.lanes[b]
  }

  function Cap(job: Job): int {
    if job.maxAttempts < 1 then 1 else job.maxAttempts
  }

  /** An execution's job is running, or pending after a reap; nobody else claims it. */
  ghost predicate RunsItsJob(cfg: Config, w: World, lane: string)
    requires lane in w.running
  {
    var run := w.running[lane];
    && lane in cfg.lanes && run.id in w.jobs
    && Active(w.jobs[run.id]) && w.jobs[run.id].kind in cfg.lanes[lane]
    && run.attempts == w.jobs[run.id].attempts && run.maxAttempts == w.jobs[run.id].maxAttempts
  }

  /** Claims counted against outcomes, attempts against the allowance, hooks against the status. */
  predicate Books(job: Job, executing: bool, ended: nat, forced: nat, heard: seq<Status>, unheard: bool) {
    && (job.status.Running? ==> executing)
    && job.attempts == ended + (if executing then 1 else 0)
    && job.attempts + (if job.status.Pending? then 1 else 0) <= Cap(job) + forced
    && (if Terminal(job.status) then heard == (if unheard then [] else [job.status]) else heard == [] && !unheard)
    && (executing ==> Active(job))
  }

  ghost predicate Booked(w: World, id: nat)
    requires id in w.jobs
  {
    Books(w.jobs[id], Executing(w, id), Count(w.outcomes, id), Count(w.forced, id), Heard(w.hooks, id), id in w.unheard)
  }

  /** Nothing is recorded about ids that were not handed out yet. */
  ghost predicate Recorded(w: World) {
    && (forall id :: id in w.hooks ==> id < w.nextId) && (forall id :: id in w.forced ==> id < w.nextId)
    && (forall id :: id in w.outcomes ==> id < w.nextId) && (forall id :: id in w.unheard ==> id < w.nextId)
  }

  ghost predicate Tidy(cfg: Config, w: World) {
    && (forall lane :: lane in w.running ==> RunsItsJob(cfg, w, lane))
    && (forall id :: id in w.jobs ==> id < w.nextId && Booked(w, id))
    && Recorded(w)
  }

  ghost predicate WorldInv(cfg: Config, w: World) {
    Inv(w.jobs, w.nextId) && Tidy(cfg, w)
  }

  /** Lanes take disjoint kinds, so a job executes in one lane at most. */
  lemma OneLanePerJob(cfg: Config, w: World, a: string, b: string)
    requires SerialLanes(cfg) && a in w.running && b in w.running && RunsItsJob(cfg, w, a) && RunsItsJob(cfg, w, b)
    requires w.running[a].id == w.running[b].id
    ensures a == b
  {}

  // ----- steps that touch one job -----

  ghost predicate SameJob(w: World, v: World, id: nat) {
    && (id in v.jobs <==> id in w.jobs) && (id in w.jobs ==> v.jobs[id] == w.jobs[id])
    && Count(v.outcomes, id) == Count(w.outcomes, id) && Count(v.forced, id) == Count(w.forced, id)
    && Heard(v.hooks, id) == Heard(w.hooks, id) && (id in v.unheard <==> id in w.unheard)
  }

  ghost predicate SameLanes(w: World, v: World, changed: nat) {
    && (forall lane :: lane in v.running && v.running[lane].id != changed ==>
      lane in w.running && w.running[lane] == v.running[lane])
    && (forall lane :: lane in w.running && w.running[lane].id != changed ==>
      lane in v.running && v.running[lane] == w.running[lane])
  }

  /** A step that changes one job keeps the books if it does so for that job. */
  lemma Frame(cfg: Config, w: World, v: World, changed: nat)
    requires Tidy(cfg, w) && Recorded(v)
    requires forall id :: id != changed ==> SameJob(w, v, id)
    requires SameLanes(w, v, changed) && w.nextId <= v.nextId
    requires changed in v.jobs ==> changed < v.nextId && Booked(v, changed)
    requires forall lane :: lane in v.running && v.running[lane].id == changed ==> RunsItsJob(cfg, v, lane)
    ensures Tidy(cfg, v)
  {
    forall id | id in v.jobs
      ensures id < v.nextId && Booked(v, id)
    {
      if id != changed {
        assert SameJob(w, v, id);
        assert Booked(w, id);
        assert Executing(v, id) == Executing(w, id);
      }
    }
    forall lane | lane in v.running
      ensures RunsItsJob(cfg, v, lane)
    {
      if v.running[lane].id != changed {
        assert RunsItsJob(cfg, w, lane);
        assert SameJob(w, v, v.running[lane].id);
      }
    }
  }

  lemma AcceptedKeeps(cfg: Config, w: World, request: Request, now: int, jobs: Jobs, id: nat)
    requires Tidy(cfg, w) && Accepted(w.jobs, w.nextId, request, now, jobs, id)
    ensures Tidy(cfg, w.(jobs := jobs, nextId := w.nextId + 1))
  {
    var v := w.(jobs := jobs, nextId := w.nextId + 1);
    assert Executing(v, id) == Executing(w, id);
    forall lane | lane in w.running
      ensures w.running[lane].id in w.jobs && RunsItsJob(cfg, w, lane)
    {}
    if id in w.jobs { assert Booked(w, id); }
    forall lane | lane in v.running && v.running[lane].id == id
      ensures RunsItsJob(cfg, v, lane)
    {
      assert RunsItsJob(cfg, w, lane);
    }
    Frame(cfg, w, v, id);
  }

  /** A free lane's kinds are claimed by no other lane, so what it claims is not executing. */
  lemma FreeLane(cfg: Config, w: World, lane: string, id: nat)
    requires SerialLanes(cfg) && Tidy(cfg, w) && lane in cfg.lanes && lane !in w.running
    requires id in w.jobs && w.jobs[id].kind in cfg.lanes[lane]
    ensures !Executing(w, id)
  {
    forall other | other in w.running
      ensures w.running[other].id != id
    {
      assert RunsItsJob(cfg, w, other);
    }
  }

  lemma StartedKeeps(cfg: Config, w: World, lane: string, id: nat, now: int)
    requires Tidy(cfg, w) && lane in cfg.lanes && lane !in w.running
    requires Ready(w.jobs, cfg.lanes[lane], now, id) && !Executing(w, id)
    requires Claim(w.jobs, id, now).Ok? && w.jobs[id].kind in cfg.handlers
    ensures Tidy(cfg, AfterClaim(cfg, w, lane, id, now))
  {
    var v := AfterClaim(cfg, w, lane, id, now);
    assert v.jobs == w.jobs[id := Claimed(w.jobs[id], now)];
    assert v.running[lane].id == id;
    assert Executing(v, id);
    assert Booked(w, id);
    forall other | other in w.running ensures w.running[other].id != id {}
    Frame(cfg, w, v, id);
  }

  lemma UnhandledKeeps(cfg: Config, w: World, lane: string, id: nat, now: int)
    requires Tidy(cfg, w) && lane in cfg.lanes && lane !in w.running
    requires Ready(w.jobs, cfg.lanes[lane], now, id) && !Executing(w, id)
    requires Claim(w.jobs, id, now).Ok? && w.jobs[id].kind !in cfg.handlers
    ensures Tidy(cfg, AfterClaim(cfg, w, lane, id, now))
  {
    var v := AfterClaim(cfg, w, lane, id, now);
    assert v.jobs[id] == Claimed(w.jobs[id], now).(status := Failed);
    assert !Executing(v, id);
    assert Booked(w, id);
    forall other | other in w.running ensures w.running[other].id != id {}
    Frame(cfg, w, v, id);
  }

  /** The row an execution leaves behind. */
  function EndedJob(w: World, lane: string, end: End, now: int): Job
    requires lane in w.running && w.running[lane].id in w.jobs
  {
    var job := w.jobs[w.running[lane].id];
    match end
    case Returned => job.(status := Done)
    case RaisedPermanent => job.(status := Failed)
    case Raised =>
      if job.attempts < job.maxAttempts
      then job.(status := Pending, runAt := now + 30 * Pow2(job.attempts) * SECOND) else job.(status := Failed)
    case Interrupted => if w.running[lane].id in w.flagged then job.(status := Cancelled) else job.(status := Pending)
  }

  /** The statement at the end of an execution is never refused: the row keeps its key. */
  lemma EndAdmitted(w: World, lane: string, end: End, now: int)
    requires UniqueKeys(w.jobs) && lane in w.running && w.running[lane].id in w.jobs
      && Active(w.jobs[w.running[lane].id])
    ensures EndStatement(w, w.running[lane].id, end, now)
         == Ok(w.jobs[w.running[lane].id := EndedJob(w, lane, end, now)])
  {
    OwnKeyAdmitted(w.jobs, w.running[lane].id, EndedJob(w, lane, end, now));
  }

  lemma EndedBooks(cfg: Config, w: World, v: World, lane: string, end: End, now: int)
    requires Tidy(cfg, w) && lane in w.running && RunsItsJob(cfg, w, lane)
    requires var id := w.running[lane].id;
      && EndStatement(w, id, end, now) == Ok(w.jobs[id := EndedJob(w, lane, end, now)])
      && v == AfterEnd(w, lane, end, now) && !Executing(v, id)
    ensures Booked(v, w.running[lane].id)
  {
    var id := w.running[lane].id;
    assert Executing(w, id);
    assert Booked(w, id);
    assert v.jobs[id] == EndedJob(w, lane, end, now);
    assert Heard(v.hooks, id) == EndTold(w, w.running[lane], end);
  }

  lemma EndedKeeps(cfg: Config, w: World, lane: string, end: End, now: int)
    requires SerialLanes(cfg) && Tidy(cfg, w) && lane in w.running && w.running[lane].id in w.jobs
    requires EndStatement(w, w.running[lane].id, end, now)
      == Ok(w.jobs[w.running[lane].id := EndedJob(w, lane, end, now)])
    ensures Tidy(cfg, AfterEnd(w, lane, end, now))
  {
    var v, id := AfterEnd(w, lane, end, now), w.running[lane].id;
    assert RunsItsJob(cfg, w, lane);
    forall other | other in v.running
      ensures v.running[other].id != id
    {
      assert RunsItsJob(cfg, w, other);
      if w.running[other].id == id { OneLanePerJob(cfg, w, other, lane); }
    }
    EndedBooks(cfg, w, v, lane, end, now);
    Frame(cfg, w, v, id);
  }

  lemma CancelKeeps(cfg: Config, w: World, id: nat)
    requires Tidy(cfg, w)
    ensures Tidy(cfg, AfterCancel(w, id))
  {
    if Executing(w, id) {
      FlagKeeps(cfg, w, id);
    } else if id in w.jobs && w.jobs[id].status.Pending? {
      UnheardKeeps(cfg, w, id);
    }
  }

  lemma FlagKeeps(cfg: Config, w: World, id: nat)
    requires Tidy(cfg, w)
    ensures Tidy(cfg, w.(flagged := w.flagged + {id}))
  {
    var v := w.(flagged := w.flagged + {id});
    forall lane | lane in v.running
      ensures RunsItsJob(cfg, v, lane)
    {
      assert RunsItsJob(cfg, w, lane);
    }
    forall other | other in v.jobs
      ensures Booked(v, other)
    {
      assert Booked(w, other);
      assert Executing(v, other) == Executing(w, other);
    }
  }

  lemma UnheardKeeps(cfg: Config, w: World, id: nat)
    requires Tidy(cfg, w) && id in w.jobs && w.jobs[id].status.Pending? && !Executing(w, id)
    ensures Tidy(cfg, w.(jobs := Cancel(w.jobs, id), unheard := w.unheard + {id}))
  {
    var v := w.(jobs := Cancel(w.jobs, id), unheard := w.unheard + {id});
    assert !Executing(v, id);
    assert Booked(w, id);
    Frame(cfg, w, v, id);
  }

  lemma ProgressKeeps(cfg: Config, w: World, lane: string, now: int)
    requires Tidy(cfg, w) && lane in w.running
    ensures Tidy(cfg, w.(jobs := Progress(w.jobs, w.running[lane].id, now)))
  {
    var id := w.running[lane].id;
    var v := w.(jobs := Progress(w.jobs, id, now));
    assert RunsItsJob(cfg, w, lane);
    assert Executing(v, id) == Executing(w, id);
    assert Booked(w, id);
    forall other | other in v.running && v.running[other].id == id
      ensures RunsItsJob(cfg, v, other)
    {
      assert RunsItsJob(cfg, w, other);
    }
    Frame(cfg, w, v, id);
  }

  // ----- steps that touch many jobs -----

  lemma CountForced(forced: map<nat, nat>, ids: set<nat>, id: nat)
    ensures Count(ForceAll(forced, ids), id) == Count(forced, id) + if id in ids then 1 else 0
  {}

  /** Rows in `ids`, all running, go back to pending and are counted as forced. */
  ghost predicate SweptJob(w: World, v: World, ids: set<nat>, id: nat)
    requires id in w.jobs && id in v.jobs
  {
    && v.jobs[id] == (if id in ids then w.jobs[id].(status := Pending) else w.jobs[id])
    && Count(v.forced, id) == Count(w.forced, id) + (if id in ids then 1 else 0)
    && (id in ids ==> w.jobs[id].status.Running?)
  }

  lemma SweptBooks(cfg: Config, w: World, v: World, ids: set<nat>, id: nat)
    requires Tidy(cfg, w) && id in w.jobs && id in v.jobs && SweptJob(w, v, ids, id)
    requires v.running == w.running && v.hooks == w.hooks && v.unheard == w.unheard && v.outcomes == w.outcomes
    ensures Booked(v, id)
  {
    assert Booked(w, id);
    assert Executing(v, id) == Executing(w, id);
  }

  lemma ReapKeeps(cfg: Config, w: World, cutoff: int)
    requires Tidy(cfg, w)
    ensures Tidy(cfg, w.(jobs := Reap(w.jobs, cutoff),
                         forced := ForceAll(w.forced, set id | id in w.jobs && Stale(w.jobs[id], cutoff))))
  {
    var ids := set id | id in w.jobs && Stale(w.jobs[id], cutoff);
    var v := w.(jobs := Reap(w.jobs, cutoff), forced := ForceAll(w.forced, ids));
    forall id | id in v.jobs
      ensures Booked(v, id)
    {
      CountForced(w.forced, ids, id);
      SweptBooks(cfg, w, v, ids, id);
    }
    forall lane | lane in v.running
      ensures RunsItsJob(cfg, v, lane)
    {
      assert RunsItsJob(cfg, w, lane);
    }
  }

  function Executed(w: World): set<nat> {
    set lane | lane in w.running :: w.running[lane].id
  }

  lemma RestartBooks(cfg: Config, w: World, id: nat)
    requires Tidy(cfg, w) && id in w.jobs
    ensures id in AfterRestart(w).jobs && Booked(AfterRestart(w), id)
  {
    var v := AfterRestart(w);
    assert Booked(w, id);
    CountForced(w.forced, (set other | other in w.jobs && w.jobs[other].status.Running?), id);
    CountForced(w.outcomes, Executed(w), id);
    assert id in Executed(w) <==> Executing(w, id);
    assert !Executing(v, id);
  }

  lemma RestartKeeps(cfg: Config, w: World)
    requires Tidy(cfg, w)
    ensures Tidy(cfg, AfterRestart(w))
  {
    var v := AfterRestart(w);
    forall lane | lane in w.running
      ensures w.running[lane].id < w.nextId
    {
      assert RunsItsJob(cfg, w, lane);
    }
    forall id | id in v.jobs
      ensures Booked(v, id)
    {
      RestartBooks(cfg, w, id);
    }
  }

  // ----- every run -----

  /** A request is refused and changes nothing, or it is accepted. */
  lemma EnqueueOutcome(cfg: Config, w: World, step: Step) returns (jobs: Jobs, id: nat, refused: bool)
    requires Inv(w.jobs, w.nextId) && Enabled(cfg, w, step) && step.EnqueueStep?
    ensures if refused then Apply(cfg, w, step) == w
      else
        Accepted(w.jobs, w.nextId, step.request, step.now, jobs, id) &&
        Apply(cfg, w, step) == w.(jobs := jobs, nextId := w.nextId + 1)
  {
    EnqueueGivesPending(w.jobs, w.nextId, step.request, step.now, step.found, step.follow);
    EnqueueKeeps(w.jobs, w.nextId, step.request, step.now, step.found, step.follow);
    var r := Enqueue(w.jobs, w.nextId, step.request, step.now, step.found, step.follow);
    if r.Ok? { jobs, id, refused := r.value.0, r.value.1, false; } else { jobs, id, refused := w.jobs, 0, true; }
  }

  lemma EnqueueKeepsTidy(cfg: Config, w: World, step: Step)
    requires WorldInv(cfg, w) && Enabled(cfg, w, step) && step.EnqueueStep?
    ensures Tidy(cfg, Apply(cfg, w, step))
  {
    var jobs, id, refused := EnqueueOutcome(cfg, w, step);
    if !refused { AcceptedKeeps(cfg, w, step.request, step.now, jobs, id); }
  }

  lemma ClaimKeepsTidy(cfg: Config, w: World, step: Step)
    requires SerialLanes(cfg) && Tidy(cfg, w) && Enabled(cfg, w, step) && step.ClaimStep?
    ensures Tidy(cfg, Apply(cfg, w, step))
  {
    FreeLane(cfg, w, step.lane, step.id);
    if Claim(w.jobs, step.id, step.now).Ok? {
      if w.jobs[step.id].kind in cfg.handlers {
        StartedKeeps(cfg, w, step.lane, step.id, step.now);
      } else {
        UnhandledKeeps(cfg, w, step.lane, step.id, step.now);
      }
    }
  }

  lemma EndKeepsTidy(cfg: Config, w: World, lane: string, end: End, now: int)
    requires SerialLanes(cfg) && WorldInv(cfg, w) && lane in w.running
    ensures Tidy(cfg, AfterEnd(w, lane, end, now))
  {
    assert RunsItsJob(cfg, w, lane);
    EndAdmitted(w, lane, end, now);
    EndedKeeps(cfg, w, lane, end, now);
  }

  lemma StepKeepsTidy(cfg: Config, w: World, step: Step)
    requires SerialLanes(cfg) && WorldInv(cfg, w) && Enabled(cfg, w, step)
    ensures Tidy(cfg, Apply(cfg, w, step))
  {
    match step
    case EnqueueStep(_, _, _, _) => EnqueueKeepsTidy(cfg, w, step);
    case ClaimStep(_, _, _) => ClaimKeepsTidy(cfg, w, step);
    case EndStep(lane, end, now) => EndKeepsTidy(cfg, w, lane, end, now);
    case CancelStep(id) => CancelKeeps(cfg, w, id);
    case ProgressStep(lane, now) => ProgressKeeps(cfg, w, lane, now);
    case ReapStep(cutoff) => ReapKeeps(cfg, w, cutoff);
    case RestartStep => RestartKeeps(cfg, w);
  }

  lemma StepKeepsInv(cfg: Config, w: World, step: Step)
    requires Inv(w.jobs, w.nextId) && Enabled(cfg, w, step)
    requires step.EndStep? ==> w.running[step.lane].id in w.jobs && Active(w.jobs[w.running[step.lane].id])
    ensures Inv(Apply(cfg, w, step).jobs, Apply(cfg, w, step).nextId)
  {
    match step
    case EnqueueStep(request, now, found, follow) =>
      EnqueueKeeps(w.jobs, w.nextId, request, now, found, follow);
    case ClaimStep(lane, id, now) =>
      if Claim(w.jobs, id, now).Ok? {
        ClaimKeeps(w.jobs, w.nextId, id, now);
        FailKeeps(Claim(w.jobs, id, now).value, w.nextId, id, false, now);
      }
    case EndStep(lane, end, now) =>
      EndAdmitted(w, lane, end, now);
      EndedJobKeeps(w, lane, end, now);
    case CancelStep(id) => OthersKeep(w.jobs, w.nextId, id, 0, 0);
    case ProgressStep(lane, now) => OthersKeep(w.jobs, w.nextId, w.running[lane].id, 0, now);
    case ReapStep(cutoff) => OthersKeep(w.jobs, w.nextId, 0, cutoff, 0);
    case RestartStep => OthersKeep(w.jobs, w.nextId, 0, 0, 0);
  }

  lemma EndedJobKeeps(w: World, lane: string, end: End, now: int)
    requires Inv(w.jobs, w.nextId) && lane in w.running
    requires w.running[lane].id in w.jobs && Active(w.jobs[w.running[lane].id])
    ensures Inv(w.jobs[w.running[lane].id := EndedJob(w, lane, end, now)], w.nextId)
  {
    var id := w.running[lane].id;
    OwnKeyAdmitted(w.jobs, id, EndedJob(w, lane, end, now));
    PutKeeps(w.jobs, w.nextId, id, EndedJob(w, lane, end, now));
  }

  lemma StepKeeps(cfg: Config, w: World, step: Step)
    requires SerialLanes(cfg) && WorldInv(cfg, w) && Enabled(cfg, w, step)
    ensures WorldInv(cfg, Apply(cfg, w, step))
  {
    if step.EndStep? { assert RunsItsJob(cfg, w, step.lane); }
    StepKeepsTidy(cfg, w, step);
    StepKeepsInv(cfg, w, step);
  }

  lemma {:induction false} RunKeeps(cfg: Config, w: World, steps: seq<Step>)
    requires SerialLanes(cfg) && WorldInv(cfg, w) && Runs(cfg, w, steps)
    ensures WorldInv(cfg, After(cfg, w, steps))
    decreases |steps|
  {
    if steps != [] {
      StepKeeps(cfg, w, steps[0]);
      RunKeeps(cfg, Apply(cfg, w, steps[0]), steps[1..]);
    }
  }

  // ----- what the finish hook hears -----

  /** The step ends the job without an execution: it is cancelled while it waits and does not
      execute, or claimed although its kind has no handler. */
  predicate Silences(cfg: Config, w: World, step: Step, id: nat) {
    match step
    case CancelStep(cancelled) => cancelled == id && id in w.jobs && w.jobs[id].status.Pending? && !Executing(w, id)
    case ClaimStep(_, claimed, now) =>
      claimed == id && id in w.jobs && Claim(w.jobs, id, now).Ok? && w.jobs[id].kind !in cfg.handlers
    case _ => false
  }

  /** Some step of the run did. */
  predicate Silenced(cfg: Config, w: World, steps: seq<Step>, id: nat)
    requires Runs(cfg, w, steps)
    decreases |steps|
  {
    steps != [] && (Silences(cfg, w, steps[0], id) || Silenced(cfg, Apply(cfg, w, steps[0]), steps[1..], id))
  }

  lemma StepSilences(cfg: Config, w: World, step: Step, id: nat)
    requires Enabled(cfg, w, step)
    ensures id in Apply(cfg, w, step).unheard <==> id in w.unheard || Silences(cfg, w, step, id)
  {}

  lemma {:induction false} UnheardWasSilenced(cfg: Config, w: World, steps: seq<Step>, id: nat)
    requires Runs(cfg, w, steps)
    ensures id in After(cfg, w, steps).unheard <==> id in w.unheard || Silenced(cfg, w, steps, id)
    decreases |steps|
  {
    if steps != [] {
      StepSilences(cfg, w, steps[0], id);
      UnheardWasSilenced(cfg, Apply(cfg, w, steps[0]), steps[1..], id);
    }
  }

  /** The books of every job in every reachable state: each claim has one outcome or is still
      executing; attempts stay within the allowance plus the forced returns; the finish hook was
      called once, with the final status, for every ended job that no step of the run silenced, and
      for no other. */
  lemma {:induction false} BooksAlwaysBalance(cfg: Config, steps: seq<Step>, id: nat)
    requires SerialLanes(cfg) && Runs(cfg, Start(), steps) && id in After(cfg, Start(), steps).jobs
    ensures var w := After(cfg, Start(), steps);
      var job := w.jobs[id];
      && job.attempts == Count(w.outcomes, id) + (if Executing(w, id) then 1 else 0)
      && job.attempts <= Cap(job) + Count(w.forced, id)
      && Heard(w.hooks, id) == (if Terminal(job.status) && !Silenced(cfg, Start(), steps, id) then [job.status] else [])
  {
    assert WorldInv(cfg, Start());
    RunKeeps(cfg, Start(), steps);
    assert Booked(After(cfg, Start(), steps), id);
    UnheardWasSilenced(cfg, Start(), steps, id);
  }

  /** Every kind a lane takes has a handler. */
  predicate AllHandled(cfg: Config) {
    forall lane :: lane in cfg.lanes ==> cfg.lanes[lane] <= cfg.handlers
  }

  /** The run cancelled the job at a moment when it was pending and not executing. */
  predicate CancelledWaiting(cfg: Config, w: World, steps: seq<Step>, id: nat)
    requires Runs(cfg, w, steps)
    decreases |steps|
  {
    steps != [] &&
    ((steps[0] == CancelStep(id) && id in w.jobs && w.jobs[id].status.Pending? && !Executing(w, id)) ||
     CancelledWaiting(cfg, Apply(cfg, w, steps[0]), steps[1..], id))
  }

  lemma {:induction false} SilencedByCancel(cfg: Config, w: World, steps: seq<Step>, id: nat)
    requires AllHandled(cfg) && Runs(cfg, w, steps)
    ensures Silenced(cfg, w, steps, id) <==> CancelledWaiting(cfg, w, steps, id)
    decreases |steps|
  {
    if steps != [] { SilencedByCancel(cfg, Apply(cfg, w, steps[0]), steps[1..], id); }
  }

  /** With handlers for all kinds the finish hook is called exactly once, with the final status, for
      every job that ends, except for one cancelled while it waited and did not execute: for that
      job it is never called. */
  lemma {:induction false} HookExactlyOnce(cfg: Config, steps: seq<Step>, id: nat)
    requires SerialLanes(cfg) && AllHandled(cfg) && Runs(cfg, Start(), steps)
    requires id in After(cfg, Start(), steps).jobs && Terminal(After(cfg, Start(), steps).jobs[id].status)
    ensures Heard(After(cfg, Start(), steps).hooks, id) ==
      if CancelledWaiting(cfg, Start(), steps, id) then [] else [After(cfg, Start(), steps).jobs[id].status]
  {
    BooksAlwaysBalance(cfg, steps, id);
    SilencedByCancel(cfg, Start(), steps, id);
  }

  // ----- cancelling a job that executes -----

  /** The steps leave the lane's execution going. */
  predicate LeavesRunning(steps: seq<Step>, lane: string) {
    forall i :: 0 <= i < |steps| ==> !steps[i].RestartStep? && !(steps[i].EndStep? && steps[i].lane == lane)
  }

  /** The lane executes on, and stays flagged if it was. */
  predicate GoesOn(w: World, v: World, lane: string)
    requires lane in w.running
  {
    lane in v.running && v.running[lane] == w.running[lane] &&
    (w.running[lane].id in w.flagged ==> w.running[lane].id in v.flagged)
  }

  lemma FlagStays(cfg: Config, w: World, step: Step, lane: string)
    requires SerialLanes(cfg) && WorldInv(cfg, w) && Enabled(cfg, w, step)
    requires lane in w.running && !step.RestartStep? && !(step.EndStep? && step.lane == lane)
    ensures GoesOn(w, Apply(cfg, w, step), lane)
  {
    if step.EndStep? {
      EndLeavesOthers(cfg, w, lane, step.lane, step.end, step.now);
    } else {
      OthersLeaveRunning(cfg, w, step, lane);
    }
  }

  lemma OthersLeaveRunning(cfg: Config, w: World, step: Step, lane: string)
    requires Enabled(cfg, w, step) && lane in w.running && !step.RestartStep? && !step.EndStep?
    ensures GoesOn(w, Apply(cfg, w, step), lane)
  {}

  lemma EndLeavesOthers(cfg: Config, w: World, lane: string, other: string, end: End, now: int)
    requires SerialLanes(cfg) && WorldInv(cfg, w) && lane in w.running && other in w.running && other != lane
    ensures GoesOn(w, AfterEnd(w, other, end, now), lane)
  {
    assert RunsItsJob(cfg, w, lane) && RunsItsJob(cfg, w, other);
    if w.running[other].id == w.running[lane].id { OneLanePerJob(cfg, w, lane, other); }
  }

  lemma {:induction false} FlagKept(cfg: Config, w: World, steps: seq<Step>, lane: string)
    requires SerialLanes(cfg) && WorldInv(cfg, w) && Runs(cfg, w, steps) && LeavesRunning(steps, lane)
    requires lane in w.running && w.running[lane].id in w.flagged
    ensures var v := After(cfg, w, steps);
      && WorldInv(cfg, v) && lane in v.running && v.running[lane] == w.running[lane] && w.running[lane].id in v.flagged
    decreases |steps|
  {
    if steps != [] {
      assert !steps[0].RestartStep? && !(steps[0].EndStep? && steps[0].lane == lane);
      FlagStays(cfg, w, steps[0], lane);
      StepKeeps(cfg, w, steps[0]);
      forall i | 0 <= i < |steps[1..]|
        ensures !steps[1..][i].RestartStep? && !(steps[1..][i].EndStep? && steps[1..][i].lane == lane)
      {
        assert steps[1..][i] == steps[i + 1];
      }
      FlagKept(cfg, Apply(cfg, w, steps[0]), steps[1..], lane);
    }
  }

  /** A job cancelled while it executes ends as cancelled when its execution is then interrupted,
      whatever happens in between, and the hook hears exactly that. */
  lemma {:induction false} CancelEndsExecution(cfg: Config, w: World, lane: string, steps: seq<Step>, now: int)
    requires SerialLanes(cfg) && WorldInv(cfg, w) && lane in w.running
    requires var cancelled := Apply(cfg, w, CancelStep(w.running[lane].id));
      Runs(cfg, cancelled, steps) && LeavesRunning(steps, lane)
    ensures var id := w.running[lane].id;
      var v := After(cfg, Apply(cfg, w, CancelStep(id)), steps);
      && Enabled(cfg, v, EndStep(lane, Interrupted, now))
      && var end := Apply(cfg, v, EndStep(lane, Interrupted, now));
      id in end.jobs && end.jobs[id].status == Cancelled && Heard(end.hooks, id) == [Cancelled]
  {
    var id := w.running[lane].id;
    assert Executing(w, id);
    var cancelled := Apply(cfg, w, CancelStep(id));
    StepKeeps(cfg, w, CancelStep(id));
    FlagKept(cfg, cancelled, steps, lane);
    FlaggedEnds(cfg, After(cfg, cancelled, steps), lane, now);
  }

  lemma FlaggedEnds(cfg: Config, w: World, lane: string, now: int)
    requires SerialLanes(cfg) && WorldInv(cfg, w) && lane in w.running && w.running[lane].id in w.flagged
    ensures var id := w.running[lane].id;
      var end := AfterEnd(w, lane, Interrupted, now);
      id in end.jobs && end.jobs[id].status == Cancelled && Heard(end.hooks, id) == [Cancelled]
  {
    assert RunsItsJob(cfg, w, lane);
    EndAdmitted(w, lane, Interrupted, now);
    assert Booked(w, w.running[lane].id);
  }

  /** Interrupted without having been cancelled, as at a shutdown, it waits again. */
  lemma InterruptedWaitsAgain(cfg: Config, w: World, lane: string, now: int)
    requires SerialLanes(cfg) && WorldInv(cfg, w) && lane in w.running && w.running[lane].id !in w.flagged
    ensures var id := w.running[lane].id;
      var end := Apply(cfg, w, EndStep(lane, Interrupted, now));
      && id in end.jobs && end.jobs[id] == w.jobs[id].(status := Pending) && Heard(end.hooks, id) == []
  {
    var id := w.running[lane].id;
    assert RunsItsJob(cfg, w, lane);
    EndAdmitted(w, lane, Interrupted, now);
    assert Booked(w, id);
  }

  /** The jobs whose status a step may change. */
  predicate Touches(w: World, step: Step, id: nat)
    requires id in w.jobs
  {
    match step
    case EnqueueStep(_, _, _, _) => false
    case ClaimStep(_, claimed, _) => claimed == id
    case EndStep(lane, _, _) => lane in w.running && w.running[lane].id == id
    case CancelStep(cancelled) => cancelled == id && w.jobs[id].status.Pending? && !Executing(w, id)
    case ProgressStep(_, _) => false
    case ReapStep(cutoff) => Stale(w.jobs[id], cutoff)
    case RestartStep => w.jobs[id].status.Running?
  }

  lemma EnqueueTouchesNone(cfg: Config, w: World, step: Step, id: nat)
    requires Inv(w.jobs, w.nextId) && Enabled(cfg, w, step) && step.EnqueueStep? && id in w.jobs
    ensures id in Apply(cfg, w, step).jobs && Apply(cfg, w, step).jobs[id].status == w.jobs[id].status
  {
    EnqueueGivesPending(w.jobs, w.nextId, step.request, step.now, step.found, step.follow);
  }

  lemma StepTouches(cfg: Config, w: World, step: Step, id: nat)
    requires Inv(w.jobs, w.nextId) && Enabled(cfg, w, step) && id in w.jobs
    ensures id in Apply(cfg, w, step).jobs
    ensures Touches(w, step, id) || Apply(cfg, w, step).jobs[id].status == w.jobs[id].status
  {
    if step.EnqueueStep? { EnqueueTouchesNone(cfg, w, step, id); } else { OthersTouch(cfg, w, step, id); }
  }

  lemma OthersTouch(cfg: Config, w: World, step: Step, id: nat)
    requires Enabled(cfg, w, step) && !step.EnqueueStep? && id in w.jobs
    ensures id in Apply(cfg, w, step).jobs
    ensures Touches(w, step, id) || Apply(cfg, w, step).jobs[id].status == w.jobs[id].status
  {}

  /** Done, failed and cancelled are final: no step, not even a reap, changes such a job. */
  lemma TerminalIsFinal(cfg: Config, w: World, step: Step, id: nat)
    requires SerialLanes(cfg) && WorldInv(cfg, w) && Enabled(cfg, w, step)
    requires id in w.jobs && Terminal(w.jobs[id].status)
    ensures id in Apply(cfg, w, step).jobs && Apply(cfg, w, step).jobs[id].status == w.jobs[id].status
  {
    StepTouches(cfg, w, step, id);
    if step.EndStep? { assert RunsItsJob(cfg, w, step.lane); }
  }

  lemma {:induction false} TerminalForever(cfg: Config, w: World, steps: seq<Step>, id: nat)
    requires SerialLanes(cfg) && WorldInv(cfg, w) && Runs(cfg, w, steps)
    requires id in w.jobs && Terminal(w.jobs[id].status)
    ensures id in After(cfg, w, steps).jobs && After(cfg, w, steps).jobs[id].status == w.jobs[id].status
    decreases |steps|
  {
    if steps != [] {
      TerminalIsFinal(cfg, w, steps[0], id);
      StepKeeps(cfg, w, steps[0]);
      TerminalForever(cfg, Apply(cfg, w, steps[0]), steps[1..], id);
    }
  }

  /** Jobs that execute at the same time hold different keys, even while one of them is reaped. */
  lemma ExecutionsExcludeEachOther(cfg: Config, w: World, a: string, b: string)
    requires SerialLanes(cfg) && WorldInv(cfg, w) && a in w.running && b in w.running && a != b
    requires w.running[a].id in w.jobs && w.running[b].id in w.jobs
    ensures w.running[a].id != w.running[b].id
    ensures w.jobs[w.running[a].id].key.Some? ==> w.jobs[w.running[a].id].key != w.jobs[w.running[b].id].key
  {
    assert RunsItsJob(cfg, w, a) && RunsItsJob(cfg, w, b);
    if w.running[a].id == w.running[b].id { OneLanePerJob(cfg, w, a, b); }
  }

  // ----- no request is lost -----

  /** The run never reaps a job that is still executing. */
  predicate NeverReapsExecuting(cfg: Config, w: World, steps: seq<Step>)
    requires Runs(cfg, w, steps)
    decreases |steps|
  {
    steps == [] ||
    (&& (steps[0].ReapStep? ==> forall lane :: lane in w.running && w.running[lane].id in w.jobs ==>
           !Stale(w.jobs[w.running[lane].id], steps[0].cutoff))
     && NeverReapsExecuting(cfg, Apply(cfg, w, steps[0]), steps[1..]))
  }

  /** Executions and running rows are the same thing as long as nothing executing is reaped. */
  ghost predicate ExecutesRunning(w: World) {
    forall lane :: lane in w.running ==> w.running[lane].id in w.jobs && w.jobs[w.running[lane].id].status.Running?
  }

  predicate Starts(step: Step, id: nat) {
    step.ClaimStep? && step.id == id
  }

  predicate Cancels(step: Step, id: nat) {
    step.CancelStep? && step.id == id
  }

  /** A surviving execution was there before the step, or was started by it. */
  lemma SurvivingExecution(cfg: Config, w: World, step: Step, lane: string)
    requires Enabled(cfg, w, step) && lane in Apply(cfg, w, step).running
    ensures if lane in w.running then Apply(cfg, w, step).running[lane].id == w.running[lane].id
      && !(step.EndStep? && step.lane == lane)
      else step.ClaimStep? && step.lane == lane && Apply(cfg, w, step).running[lane].id == step.id
           && step.id in w.jobs && step.id in Apply(cfg, w, step).jobs
             && Apply(cfg, w, step).jobs[step.id].status.Running?
  {}

  lemma StepKeepsExecuting(cfg: Config, w: World, step: Step)
    requires SerialLanes(cfg) && WorldInv(cfg, w) && Enabled(cfg, w, step) && ExecutesRunning(w)
    requires step.ReapStep? ==> forall lane :: lane in w.running && w.running[lane].id in w.jobs ==>
      !Stale(w.jobs[w.running[lane].id], step.cutoff)
    ensures ExecutesRunning(Apply(cfg, w, step))
  {
    var v := Apply(cfg, w, step);
    forall lane | lane in v.running
      ensures v.running[lane].id in v.jobs && v.jobs[v.running[lane].id].status.Running?
    {
      SurvivingExecution(cfg, w, step, lane);
      if lane in w.running { ExecutionUntouched(cfg, w, step, lane); }
    }
  }

  lemma ExecutionUntouched(cfg: Config, w: World, step: Step, lane: string)
    requires SerialLanes(cfg) && WorldInv(cfg, w) && Enabled(cfg, w, step) && ExecutesRunning(w)
    requires step.ReapStep? ==> forall lane :: lane in w.running && w.running[lane].id in w.jobs ==>
      !Stale(w.jobs[w.running[lane].id], step.cutoff)
    requires lane in w.running && !(step.EndStep? && step.lane == lane) && !step.RestartStep?
    ensures w.running[lane].id in Apply(cfg, w, step).jobs
      && Apply(cfg, w, step).jobs[w.running[lane].id].status.Running?
  {
    var id := w.running[lane].id;
    StepTouches(cfg, w, step, id);
    assert RunsItsJob(cfg, w, lane);
    if step.EndStep? {
      assert RunsItsJob(cfg, w, step.lane);
      if w.running[step.lane].id == id { OneLanePerJob(cfg, w, lane, step.lane); }
    }
  }

  /** The execution ends its row for good. */
  predicate EndsRow(w: World, lane: string, end: End)
    requires lane in w.running
  {
    match end
    case Returned => true
    case RaisedPermanent => true
    case Raised => w.running[lane].attempts >= w.running[lane].maxAttempts
    case Interrupted => w.running[lane].id in w.flagged
  }

  /** In every reachable state: a pending job that is neither claimed nor cancelled stops being
      pending exactly when an older execution of it, reaped meanwhile, ends for good. The job has
      then ended without another start. */
  lemma RequestLostExactly(cfg: Config, w: World, step: Step, id: nat)
    requires SerialLanes(cfg) && WorldInv(cfg, w) && Enabled(cfg, w, step)
    requires id in w.jobs && w.jobs[id].status.Pending? && !Starts(step, id) && !Cancels(step, id)
    ensures id in Apply(cfg, w, step).jobs
    ensures var after := Apply(cfg, w, step).jobs[id];
      && (!after.status.Pending? <==>
            step.EndStep? && w.running[step.lane].id == id && EndsRow(w, step.lane, step.end))
      && (!after.status.Pending? ==> Terminal(after.status) && after.attempts == w.jobs[id].attempts)
  {
    StepTouches(cfg, w, step, id);
    if step.EndStep? && w.running[step.lane].id == id {
      assert RunsItsJob(cfg, w, step.lane);
      EndAdmitted(w, step.lane, step.end, step.now);
    }
  }

  /** A pending job stays pending until it is claimed or cancelled. */
  lemma PendingUntilTouched(cfg: Config, w: World, step: Step, id: nat)
    requires WorldInv(cfg, w) && Enabled(cfg, w, step) && ExecutesRunning(w)
    requires id in w.jobs && w.jobs[id].status.Pending? && !Starts(step, id) && !Cancels(step, id)
    ensures id in Apply(cfg, w, step).jobs && Apply(cfg, w, step).jobs[id].status.Pending?
  {
    StepTouches(cfg, w, step, id);
  }

  /** No request is lost: in a run that reaps nothing executing, the job a request got stays
      pending until the run claims it or somebody cancels it. */
  lemma {:induction false} NoRequestLost(cfg: Config, w: World, steps: seq<Step>, id: nat)
    requires SerialLanes(cfg) && WorldInv(cfg, w) && ExecutesRunning(w) && Runs(cfg, w, steps)
    requires NeverReapsExecuting(cfg, w, steps)
    requires id in w.jobs && w.jobs[id].status.Pending?
    ensures (id in After(cfg, w, steps).jobs && After(cfg, w, steps).jobs[id].status.Pending?)
      || exists i :: 0 <= i < |steps| && (Starts(steps[i], id) || Cancels(steps[i], id))
    decreases |steps|
  {
    if steps != [] {
      if !Starts(steps[0], id) && !Cancels(steps[0], id) {
        PendingUntilTouched(cfg, w, steps[0], id);
        StepKeeps(cfg, w, steps[0]);
        StepKeepsExecuting(cfg, w, steps[0]);
        NoRequestLost(cfg, Apply(cfg, w, steps[0]), steps[1..], id);
        if exists i :: 0 <= i < |steps[1..]| && (Starts(steps[1..][i], id) || Cancels(steps[1..][i], id)) {
          var i :| 0 <= i < |steps[1..]| && (Starts(steps[1..][i], id) || Cancels(steps[1..][i], id));
          assert steps[i + 1] == steps[1..][i];
        }
      }
    }
  }

  lemma {:induction false} RunKeepsExecuting(cfg: Config, w: World, steps: seq<Step>)
    requires SerialLanes(cfg) && WorldInv(cfg, w) && ExecutesRunning(w) && Runs(cfg, w, steps)
    requires NeverReapsExecuting(cfg, w, steps)
    ensures WorldInv(cfg, After(cfg, w, steps)) && ExecutesRunning(After(cfg, w, steps))
    decreases |steps|
  {
    if steps != [] {
      StepKeeps(cfg, w, steps[0]);
      StepKeepsExecuting(cfg, w, steps[0]);
      RunKeepsExecuting(cfg, Apply(cfg, w, steps[0]), steps[1..]);
    }
  }

  /** From the empty queue: a request made after any run gets a job that is pending at that
      moment, and after any further run that job still waits, unless the further run claimed it
      or somebody cancelled it. Only the empty key can be refused. */
  lemma {:induction false} RequestKept(cfg: Config, before: seq<Step>, ask: Step, later: seq<Step>)
    requires SerialLanes(cfg) && Runs(cfg, Start(), before) && NeverReapsExecuting(cfg, Start(), before)
    requires ask.EnqueueStep? && ask.request.key != Some("")
    requires Enabled(cfg, After(cfg, Start(), before), ask)
    requires var v := Apply(cfg, After(cfg, Start(), before), ask);
      Runs(cfg, v, later) && NeverReapsExecuting(cfg, v, later)
    ensures var w := After(cfg, Start(), before);
      var r := Enqueue(w.jobs, w.nextId, ask.request, ask.now, ask.found, ask.follow);
      && r.Ok?
      && var id := r.value.1;
      && var v := Apply(cfg, w, ask);
      && id in v.jobs && v.jobs[id].status.Pending?
      && ((id in After(cfg, v, later).jobs && After(cfg, v, later).jobs[id].status.Pending?)
          || exists i :: 0 <= i < |later| && (Starts(later[i], id) || Cancels(later[i], id)))
  {
    assert WorldInv(cfg, Start()) && ExecutesRunning(Start());
    RunKeepsExecuting(cfg, Start(), before);
    var w := After(cfg, Start(), before);
    EnqueueGivesPending(w.jobs, w.nextId, ask.request, ask.now, ask.found, ask.follow);
    EnqueueKeeps(w.jobs, w.nextId, ask.request, ask.now, ask.found, ask.follow);
    var id := Enqueue(w.jobs, w.nextId, ask.request, ask.now, ask.found, ask.follow).value.1;
    var v := Apply(cfg, w, ask);
    StepKeeps(cfg, w, ask);
    StepKeepsExecuting(cfg, w, ask);
    NoRequestLost(cfg, v, later, id);
  }
}
