/** The lane workers (apps/daemon/graite/jobs/worker.py) driving the queue, as a state machine.

    A step is one stretch of code without an await, or one transaction: several lanes, the
    reaper, callers of `enqueue` and `cancel`, and process restarts interleave freely. */
module Worker {
  import opened Common
  import opened QueueSpec
  import opened QueueProofs

  /** What `_run` holds while a handler executes: the job as it was at the claim. */
  datatype Execution = Execution(id: nat, attempts: nat, maxAttempts: int)

  datatype Config = Config(lanes: map<string, set<string>>, handlers: set<string>)

  /** `hooks` lists, per job, the statuses the finish hook was called with. `forced` counts the
      returns to pending that are not retries; `outcomes` the executions that ended; `unheard`
      holds the jobs that became terminal without an execution reporting it. */
  datatype World = World(
    jobs: Jobs, nextId: nat, running: map<string, Execution>, flagged: set<nat>,
    hooks: map<nat, seq<Status>>, forced: map<nat, nat>, outcomes: map<nat, nat>, unheard: set<nat>)

  datatype End = Returned | Raised | RaisedPermanent | Interrupted

  datatype Step =
    | EnqueueStep(request: Request, now: int, found: Option<nat>, follow: Option<nat>)
    | ClaimStep(lane: string, id: nat, now: int)
    | EndStep(lane: string, end: End, now: int)
    | CancelStep(id: nat)
    | ProgressStep(lane: string, now: int)
    | ReapStep(cutoff: int)
    | RestartStep

  function Count(m: map<nat, nat>, id: nat): nat {
    if id in m then m[id] else 0
  }

  function Heard(m: map<nat, seq<Status>>, id: nat): seq<Status> {
    if id in m then m[id] else []
  }

  predicate Executing(w: World, id: nat) {
    exists lane :: lane in w.running && w.running[lane].id == id
  }

  predicate Enabled(cfg: Config, w: World, step: Step) {
    match step
    case EnqueueStep(request, _, found, follow) =>
      var key := if request.key.Some? then request.key.value else "";
      Plain(request) && Fetches(w.jobs, Holders(w.jobs, key), found)
        && Fetches(w.jobs, PendingHolders(w.jobs, key + NEXT), follow)
    case ClaimStep(lane, id, now) =>
      lane in cfg.lanes && lane !in w.running && First(w.jobs, cfg.lanes[lane], now, id)
    case EndStep(lane, _, _) => lane in w.running
    case CancelStep(_) => true
    case ProgressStep(lane, _) => lane in w.running
    case ReapStep(_) => true
    case RestartStep => true
  }

  /** A lane claims a job. Without a handler the job fails at once and no hook is called. */
  function AfterClaim(cfg: Config, w: World, lane: string, id: nat, now: int): World
    requires id in w.jobs
  {
    var claim := Claim(w.jobs, id, now);
    if claim.Err? then w
    else
      var job := claim.value[id];
      if job.kind in cfg.handlers then
        w.(jobs := claim.value, running := w.running[lane := Execution(id, job.attempts, job.maxAttempts)])
      else
        w.(jobs := claim.value[id := job.(status := Failed)], outcomes := w.outcomes[id := Count(w.outcomes, id) + 1],
           unheard := w.unheard + {id})
  }

  /** The statement `_run` executes when its handler ends. */
  function EndStatement(w: World, id: nat, end: End, now: int): Result<Jobs, Refused> {
    match end
    case Returned => Ok(Complete(w.jobs, id))
    case RaisedPermanent => Fail(w.jobs, id, false, now)
    case Raised => Fail(w.jobs, id, true, now)
    case Interrupted => if id in w.flagged then Ok(MarkCancelled(w.jobs, id)) else Release(w.jobs, id)
  }

  /** What `_run` then calls the finish hook with, if it does. */
  function EndTold(w: World, run: Execution, end: End): seq<Status> {
    match end
    case Returned => [Done]
    case RaisedPermanent => [Failed]
    case Raised => if run.attempts >= run.maxAttempts then [Failed] else []
    case Interrupted => if run.id in w.flagged then [Cancelled] else []
  }

  /** `_run` after the handler: the row is updated, then the hook is called. */
  function AfterEnd(w: World, lane: string, end: End, now: int): World
    requires lane in w.running
  {
    var run := w.running[lane];
    var id := run.id;
    var statement := EndStatement(w, id, end, now);
    var out := w.(running := w.running - {lane}, flagged := w.flagged - {id},
                  outcomes := w.outcomes[id := Count(w.outcomes, id) + 1]);
    if statement.Err? then out
    else
      var released := end.Interrupted? && id !in w.flagged;
      out.(jobs := statement.value, hooks := w.hooks[id := Heard(w.hooks, id) + EndTold(w, run, end)],
           forced := w.forced[id := Count(w.forced, id) + if released then 1 else 0])
  }

  /** `cancel`: an executing job is interrupted, any other job is cancelled if it is pending. */
  function AfterCancel(w: World, id: nat): World {
    if Executing(w, id) then w.(flagged := w.flagged + {id})
    else if id in w.jobs && w.jobs[id].status.Pending? then
      w.(jobs := Cancel(w.jobs, id), unheard := w.unheard + {id})
    else w
  }

  function ForceAll(forced: map<nat, nat>, ids: set<nat>): map<nat, nat> {
    map id | id in forced.Keys + ids :: Count(forced, id) + (if id in ids then 1 else 0)
  }

  /** The process dies and starts again: no execution survives, running rows are recovered. */
  function AfterRestart(w: World): World {
    var executed := set lane | lane in w.running :: w.running[lane].id;
    w.(jobs := Recover(w.jobs), running := map[], flagged := {}, outcomes := ForceAll(w.outcomes, executed),
       forced := ForceAll(w.forced, set id | id in w.jobs && w.jobs[id].status.Running?))
  }

  function Apply(cfg: Config, w: World, step: Step): World
    requires Enabled(cfg, w, step)
  {
    match step
    case EnqueueStep(request, now, found, follow) =>
      var r := Enqueue(w.jobs, w.nextId, request, now, found, follow);
      if r.Ok? then w.(jobs := r.value.0, nextId := w.nextId + 1) else w
    case ClaimStep(lane, id, now) => AfterClaim(cfg, w, lane, id, now)
    case EndStep(lane, end, now) => AfterEnd(w, lane, end, now)
    case CancelStep(id) => AfterCancel(w, id)
    case ProgressStep(lane, now) => w.(jobs := Progress(w.jobs, w.running[lane].id, now))
    case ReapStep(cutoff) =>
      w.(jobs := Reap(w.jobs, cutoff),
         forced := ForceAll(w.forced, set id | id in w.jobs && Stale(w.jobs[id], cutoff)))
    case RestartStep => AfterRestart(w)
  }

  function Start(): World {
    World(map[], 0, map[], {}, map[], map[], map[], {})
  }

  /** A run: every step is enabled where it happens. */
  predicate Runs(cfg: Config, w: World, steps: seq<Step>)
    decreases |steps|
  {
    steps == [] || (Enabled(cfg, w, steps[0]) && Runs(cfg, Apply(cfg, w, steps[0]), steps[1..]))
  }

  function After(cfg: Config, w: World, steps: seq<Step>): World
    requires Runs(cfg, w, steps)
    decreases |steps|
  {
    if steps == [] then w else After(cfg, Apply(cfg, w, steps[0]), steps[1..])
  }
}
