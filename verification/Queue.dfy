/** The queue object: each method is one transaction over `jobs`. */
module Queue {
  import opened Common
  import opened QueueSpec

  lemma {:induction false} FirstExists(jobs: Jobs, ids: set<nat>) returns (id: nat)
    requires ids != {} && ids <= jobs.Keys
    ensures id in ids && forall other :: other in ids ==> NotAfter(jobs[id], jobs[other])
    decreases ids
  {
    var one :| one in ids;
    if ids == {one} {
      id := one;
    } else {
      var best := FirstExists(jobs, ids - {one});
      id := if NotAfter(jobs[one], jobs[best]) then one else best;
    }
  }

  class JobQueue {
    var jobs: Jobs
    var nextId: nat

    ghost predicate Valid()
      reads this
    {
      UniqueKeys(jobs) && forall id :: id in jobs ==> id < nextId
    }

    constructor ()
      ensures Valid() && jobs == map[]
    {
      jobs, nextId := map[], 0;
    }

    method Enqueue(request: Request, now: int) returns (r: Result<nat, Refused>)
      requires Valid()
      modifies this
      ensures Valid()
      ensures exists found, follow ::
        && Fetches(old(jobs), Holders(old(jobs), if request.key.Some? then request.key.value else ""), found)
        && Fetches(old(jobs),
             PendingHolders(old(jobs), (if request.key.Some? then request.key.value else "") + NEXT), follow)
        && var spec := QueueSpec.Enqueue(old(jobs), old(nextId), request, now, found, follow);
           if spec.Ok? then jobs == spec.value.0 && r == Ok(spec.value.1)
           else jobs == old(jobs) && r == Err(spec.error)
    {
      ghost var before := jobs;
      var key := if request.key.Some? then request.key.value else "";
      var holders := Holders(jobs, key);
      var followers := PendingHolders(jobs, key + NEXT);
      var found: Option<nat> := None;
      if holders != {} {
        var id :| id in holders;
        found := Some(id);
      }
      var follow: Option<nat> := None;
      if followers != {} {
        var id :| id in followers;
        follow := Some(id);
      }
      ghost var spec := QueueSpec.Enqueue(before, nextId, request, now, found, follow);
      assert Fetches(before, holders, found) && Fetches(before, followers, follow);
      var stored := request.key;
      if key != "" && found.Some? {
        if jobs[found.value].status.Pending? {
          jobs := jobs[found.value := Fold(jobs[found.value], request, now)];
          assert jobs == spec.value.0;
          return Ok(found.value);
        }
        if follow.Some? { return Ok(follow.value); }
        stored := Some(key + NEXT);
      }
      var row := NewJob(request, stored, now);
      if !Admits(jobs, nextId, row) { return Err(UniqueViolation); }
      AdmittedKeepsUnique(jobs, nextId, row);
      jobs := jobs[nextId := row];
      assert jobs == spec.value.0;
      r := Ok(nextId);
      nextId := nextId + 1;
    }

    method Claim(kinds: set<string>, now: int) returns (r: Result<Option<nat>, Refused>)
      requires Valid()
      modifies this
      ensures Valid() && nextId == old(nextId)
      ensures r == Ok(None) <==> forall id :: id in old(jobs) ==> !Ready(old(jobs), kinds, now, id)
      ensures r == Ok(None) || r.Err? ==> jobs == old(jobs)
      ensures r.Ok? && r.value.Some? ==> First(old(jobs), kinds, now, r.value.value)
      ensures r.Ok? && r.value.Some? ==> QueueSpec.Claim(old(jobs), r.value.value, now) == Ok(jobs)
      ensures r.Ok? && r.value.Some? ==> forall other :: other in old(jobs) ==>
        var first, that := old(jobs)[r.value.value], old(jobs)[other];
        that.status == Pending && that.kind in kinds && that.runAt <= now ==>
          first.priority < that.priority || (first.priority == that.priority && first.runAt <= that.runAt)
      ensures r.Ok? && r.value.Some? ==>
        var first := old(jobs)[r.value.value]; first.status == Pending && first.kind in kinds && first.runAt <= now
      ensures r.Err? ==> exists id ::
        First(old(jobs), kinds, now, id) && QueueSpec.Claim(old(jobs), id, now) == Err(r.error)
    {
      var ready := set id | id in jobs && Ready(jobs, kinds, now, id);
      if ready == {} {
        assert forall id :: id in jobs ==> !Ready(jobs, kinds, now, id) by {
          forall id | id in jobs ensures !Ready(jobs, kinds, now, id) { assert id !in ready; }
        }
        return Ok(None);
      }
      ghost var best := FirstExists(jobs, ready);
      var id :| id in ready && forall other :: other in ready ==> NotAfter(jobs[id], jobs[other]);
      forall other | other in jobs && Ready(jobs, kinds, now, other)
        ensures NotAfter(jobs[id], jobs[other])
      {
        assert other in ready;
      }
      assert First(jobs, kinds, now, id);
      var claim := QueueSpec.Claim(jobs, id, now);
      if claim.Err? { return Err(claim.error); }
      AdmittedKeepsUnique(jobs, id, Claimed(jobs[id], now));
      jobs := claim.value;
      r := Ok(Some(id));
    }

    method Progress(id: nat, now: int)
      requires Valid()
      modifies this
      ensures Valid() && nextId == old(nextId) && jobs == QueueSpec.Progress(old(jobs), id, now)
    {
      if id in jobs { jobs := jobs[id := jobs[id].(lockedAt := Some(now))]; }
    }

    method Complete(id: nat)
      requires Valid()
      modifies this
      ensures Valid() && nextId == old(nextId) && jobs == QueueSpec.Complete(old(jobs), id)
    {
      if id in jobs { jobs := jobs[id := jobs[id].(status := Done)]; }
    }

    method Fail(id: nat, retry: bool, now: int) returns (r: Result<(), Refused>)
      requires Valid()
      modifies this
      ensures Valid() && nextId == old(nextId)
      ensures var spec := QueueSpec.Fail(old(jobs), id, retry, now);
        if spec.Ok? then jobs == spec.value && r == Ok(()) else jobs == old(jobs) && r == Err(spec.error)
    {
      if id !in jobs { return Ok(()); }
      var row := jobs[id];
      if retry && row.attempts < row.maxAttempts {
        row := row.(status := Pending, runAt := now + 30 * Pow2(row.attempts) * SECOND);
        if !Admits(jobs, id, row) { return Err(UniqueViolation); }
        AdmittedKeepsUnique(jobs, id, row);
      } else {
        row := row.(status := Failed);
      }
      jobs := jobs[id := row];
      r := Ok(());
    }

    /** Returns the status the row had, as the source does. */
    method Cancel(id: nat) returns (status: Option<Status>)
      requires Valid()
      modifies this
      ensures Valid() && nextId == old(nextId) && jobs == QueueSpec.Cancel(old(jobs), id)
      ensures status == if id in old(jobs) then Some(old(jobs)[id].status) else None
    {
      if id !in jobs { return None; }
      status := Some(jobs[id].status);
      if jobs[id].status.Pending? { jobs := jobs[id := jobs[id].(status := Cancelled)]; }
    }

    method MarkCancelled(id: nat)
      requires Valid()
      modifies this
      ensures Valid() && nextId == old(nextId) && jobs == QueueSpec.MarkCancelled(old(jobs), id)
    {
      if id in jobs { jobs := jobs[id := jobs[id].(status := Cancelled)]; }
    }

    /** Returns how many rows went back to pending. */
    method Reap(now: int, staleMinutes: nat) returns (count: nat)
      requires Valid()
      modifies this
      ensures Valid() && nextId == old(nextId) && jobs == QueueSpec.Reap(old(jobs), now - staleMinutes * 60 * SECOND)
      ensures count == |set id | id in old(jobs) && Stale(old(jobs)[id], now - staleMinutes * 60 * SECOND)|
    {
      var cutoff := now - staleMinutes * 60 * SECOND;
      count := |set id | id in jobs && Stale(jobs[id], cutoff)|;
      jobs := map id | id in jobs :: if Stale(jobs[id], cutoff) then jobs[id].(status := Pending) else jobs[id];
    }

    method Recover() returns (count: nat)
      requires Valid()
      modifies this
      ensures Valid() && nextId == old(nextId) && jobs == QueueSpec.Recover(old(jobs))
      ensures count == |set id | id in old(jobs) && old(jobs)[id].status.Running?|
    {
      count := |set id | id in jobs && jobs[id].status.Running?|;
      jobs := map id | id in jobs :: if jobs[id].status.Running? then jobs[id].(status := Pending) else jobs[id];
    }
  }
}
