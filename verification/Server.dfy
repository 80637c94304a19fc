/**
 The App object (internal/app/mutate.go) over the heap cache: planLocked and applyLocked, one
 critical section each, act on the active snapshot and the cache as module Changes says.
 */
module Server {
  import opened Options
  import opened Recency
  import opened Idempotency
  import opened Changes

  class AppServer {
    const env: Env
    const idemp: IdempCache
    var active: Snapshot
    ghost var log: seq<Commit>

    ghost predicate Valid()
      reads this, idemp, idemp.nodes
    {
      idemp.Valid() && idemp.max == env.max
    }

    ghost function Model(): App
      reads this, idemp, idemp.nodes
    {
      App(active, idemp.Contents(), log)
    }

    constructor (env: Env, active: Snapshot)
      requires env.max > 0
      ensures Valid() && Fresh(Model()) && this.env == env && this.active == active && fresh(idemp)
    {
      this.env, this.active, log := env, active, [];
      idemp := new IdempCache(env.max);
    }

    /** The swap, and what it records. */
    method CommitChange(c: Change, next: Snapshot)
      requires Valid()
      modifies this, idemp, idemp.nodes
      ensures Valid()
      ensures Model() == App(next,
                             StoredApply(old(Model().cache), c.key, Print(c), ResultOf(old(active), next, c), env.max),
                             old(log) + [Commit(c.key, Print(c), c.expected, old(active), next,
                                                ResultOf(old(active), next, c))])
      ensures forall j | 0 <= j < |idemp.nodes| :: idemp.nodes[j] in old(idemp.nodes) || fresh(idemp.nodes[j])
    {
      var prev := active;
      active := next;
      var r := ResultOf(prev, next, c);
      log := log + [Commit(c.key, Print(c), c.expected, prev, next, r)];
      idemp.StoreApply(c.key, Print(c), r);
    }

    /** forgetIdempOnConflict. */
    method Forget(c: Change, e: Error)
      requires Valid()
      modifies this, idemp, idemp.nodes
      ensures Valid()
      ensures
        var cache := old(Model().cache);
        Model() == App(old(active), if e == RevisionConflict then Evicted(cache, c.key) else cache, old(log))
      ensures forall j | 0 <= j < |idemp.nodes| :: idemp.nodes[j] in old(idemp.nodes) || fresh(idemp.nodes[j])
    {
      if e == RevisionConflict {
        idemp.Evict(c.key);
      }
    }

    method Meet(c: Change) returns (hit: Option<Item>, reused: bool)
      requires Valid()
      modifies this, idemp, idemp.nodes
      ensures Valid() && Model() == App(old(active), Changes.Found(old(Model()), c), old(log))
      ensures hit == Met(old(Model()), c) && (reused <==> MeetsOther(old(Model()), c))
      ensures forall j | 0 <= j < |idemp.nodes| :: idemp.nodes[j] in old(idemp.nodes) || fresh(idemp.nodes[j])
    {
      var e;
      e, reused := idemp.Lookup(c.key, Print(c));
      hit := if e == null then None else Some(Item(e.key, e.fp, e.plan, e.apply));
    }

    method Apply(c: Change) returns (d: Decision)
      requires Valid()
      modifies this, idemp, idemp.nodes
      ensures Valid() && Model() == ApplyChange(env, old(Model()), c)
      ensures d == DecideApply(env, old(Model()), c)
      ensures forall j | 0 <= j < |idemp.nodes| :: idemp.nodes[j] in old(idemp.nodes) || fresh(idemp.nodes[j])
    {
      ApplyCases(env, Model(), c);
      hide ApplyChange, Candidate, StoredApply, Evicted, Changes.Found, Met, MeetsOther, IdempCache.Valid;
      var hit, reused := Meet(c);
      if reused {
        return Reused;
      }
      if hit.Some? && hit.value.apply.Some? {
        return ReplayApply(hit.value.apply.value);
      }
      d := Candidate(env, active, c);
      Settle(c, d);
    }

    /** What follows the decision on a call that was neither replayed nor turned away. */
    method Settle(c: Change, d: Decision)
      requires Valid() && (d.Refuse? || d.Go?)
      modifies this, idemp, idemp.nodes
      ensures Valid()
      ensures d.Refuse? ==>
        var cache := old(Model().cache);
        Model() == App(old(active), if d.error == RevisionConflict then Evicted(cache, c.key) else cache, old(log))
      ensures d.Go? ==>
        Model() == App(d.next,
                       StoredApply(old(Model().cache), c.key, Print(c), ResultOf(old(active), d.next, c), env.max),
                       old(log) + [Commit(c.key, Print(c), c.expected, old(active), d.next,
                                          ResultOf(old(active), d.next, c))])
      ensures forall j | 0 <= j < |idemp.nodes| :: idemp.nodes[j] in old(idemp.nodes) || fresh(idemp.nodes[j])
    {
      if d.Refuse? {
        Forget(c, d.error);
      } else {
        CommitChange(c, d.next);
      }
    }

    method KeepPlan(c: Change, p: Recency.Plan)
      requires Valid()
      modifies this, idemp, idemp.nodes
      ensures Valid()
      ensures Model() == App(old(active), StoredPlan(old(Model().cache), c.key, Print(c), p, env.max), old(log))
      ensures forall j | 0 <= j < |idemp.nodes| :: idemp.nodes[j] in old(idemp.nodes) || fresh(idemp.nodes[j])
    {
      idemp.StorePlan(c.key, Print(c), p);
    }

    method Plan(c: Change) returns (d: Decision)
      requires Valid()
      modifies this, idemp, idemp.nodes
      ensures Valid() && Model() == PlanChange(env, old(Model()), c)
      ensures d == DecidePlan(env, old(Model()), c)
      ensures forall j | 0 <= j < |idemp.nodes| :: idemp.nodes[j] in old(idemp.nodes) || fresh(idemp.nodes[j])
    {
      PlanCases(env, Model(), c);
      hide PlanChange, Candidate, StoredPlan, Evicted, Changes.Found, Met, MeetsOther, IdempCache.Valid;
      var hit, reused := Meet(c);
      if reused {
        return Reused;
      }
      if hit.Some? && hit.value.plan.Some? {
        return ReplayPlan(hit.value.plan.value);
      }
      d := Candidate(env, active, c);
      if d.Refuse? {
        Forget(c, d.error);
      } else {
        KeepPlan(c, PlanOf(active, d.next, c));
      }
    }
  }

  /** A whole run of calls on the object is the run of the model. */
  method Serve(app: AppServer, calls: seq<Call>)
    requires app.Valid()
    modifies app, app.idemp, app.idemp.nodes
    ensures app.Valid() && app.Model() == Run(app.env, old(app.Model()), calls)
  {
    hide IdempCache.Valid, ApplyChange, PlanChange;
    for i := 0 to |calls|
      invariant app.Valid() && app.Model() == Run(app.env, old(app.Model()), calls[..i])
      invariant forall j | 0 <= j < |app.idemp.nodes| ::
        app.idemp.nodes[j] in old(app.idemp.nodes) || fresh(app.idemp.nodes[j])
    {
      assert calls[..i + 1][..i] == calls[..i];
      var d;
      match calls[i]
      case CallApply(c) => d := app.Apply(c);
      case CallPlan(c) => d := app.Plan(c);
    }
    assert calls[..|calls|] == calls;
  }

  lemma ApplyCases(env: Env, a: App, c: Change)
    ensures
      var f, d := Changes.Found(a, c), DecideApply(env, a, c);
      var b := ApplyChange(env, a, c);
      && (d.Reused? ==> b == App(a.active, f, a.log))
      && (d.ReplayApply? ==> b == App(a.active, f, a.log))
      && (d.Refuse? ==> b == App(a.active, if d.error == RevisionConflict then Evicted(f, c.key) else f, a.log))
      && (d.Go? ==>
            b == App(d.next,
                     StoredApply(f, c.key, Print(c), ResultOf(a.active, d.next, c), env.max),
                     a.log + [Commit(c.key, Print(c), c.expected, a.active, d.next, ResultOf(a.active, d.next, c))]))
  {
  }

  lemma PlanCases(env: Env, a: App, c: Change)
    ensures
      var f, d := Changes.Found(a, c), DecidePlan(env, a, c);
      var b := PlanChange(env, a, c);
      && (d.Reused? ==> b == App(a.active, f, a.log))
      && (d.ReplayPlan? ==> b == App(a.active, f, a.log))
      && (d.Refuse? ==> b == App(a.active, if d.error == RevisionConflict then Evicted(f, c.key) else f, a.log))
      && (d.Go? ==>
            b == App(a.active, StoredPlan(f, c.key, Print(c), PlanOf(a.active, d.next, c), env.max), a.log))
  {
  }
}
