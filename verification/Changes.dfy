/**
 Plan and Apply (internal/app/mutate.go): optimistic concurrency on the active revision, with
 the idempotency cache in front.

 Building and compiling a candidate is the uninterpreted function `build`, the content hash that
 names a state is `revision`; whether the inbox refuses the new caps is a field of the call. A
 commit is logged: the log is history that no decision reads.
 */
module Changes {
  import opened Options
  import opened Recency

  type Document = string

  datatype Env = Env(build: (Document, seq<Operation>) -> Option<Document>, revision: Document -> Revision, max: nat)

  datatype Snapshot = Snapshot(state: Document, revision: Revision, generation: nat)

  datatype Change = Change(key: Key, expected: Revision, reason: string, operations: seq<Operation>, capsRefused: bool)

  datatype Error = IdempotencyConflict | RevisionRequired | RevisionConflict | Rejected | OverNewCap

  /** One swap of the active snapshot. */
  datatype Commit = Commit(key: Key, fp: Fingerprint, expected: Revision, before: Snapshot, after: Snapshot,
                           result: Applied)

  datatype App = App(active: Snapshot, cache: seq<Item>, log: seq<Commit>)

  datatype Decision = Reused | ReplayPlan(plan: Plan) | ReplayApply(result: Applied) | Refuse(error: Error)
      | Go(next: Snapshot)

  function Print(c: Change): Fingerprint {
    Fingerprint(c.reason, c.operations)
  }

  /** buildCandidate and checkStoreCaps. */
  function Candidate(env: Env, active: Snapshot, c: Change): (d: Decision)
    ensures d.Refuse? || d.Go?
  {
    if c.expected == "" then Refuse(RevisionRequired)
    else if c.expected != active.revision then Refuse(RevisionConflict)
    else
      var built := env.build(active.state, c.operations);
      if built.None? then Refuse(Rejected)
      else if c.capsRefused then Refuse(OverNewCap)
      else Go(Snapshot(built.value, env.revision(built.value), active.generation + 1))
  }

  /** The cached entry a call meets; the empty key never meets one. */
  function Met(a: App, c: Change): Option<Item> {
    if c.key == "" then None else Hit(a.cache, c.key, Print(c))
  }

  predicate MeetsOther(a: App, c: Change) {
    c.key != "" && KeyReused(a.cache, c.key, Print(c))
  }

  function DecideApply(env: Env, a: App, c: Change): Decision {
    if MeetsOther(a, c) then Reused
    else if Met(a, c).Some? && Met(a, c).value.apply.Some? then ReplayApply(Met(a, c).value.apply.value)
    else Candidate(env, a.active, c)
  }

  function DecidePlan(env: Env, a: App, c: Change): Decision {
    if MeetsOther(a, c) then Reused
    else if Met(a, c).Some? && Met(a, c).value.plan.Some? then ReplayPlan(Met(a, c).value.plan.value)
    else Candidate(env, a.active, c)
  }

  /** planFrom. */
  function PlanOf(active: Snapshot, next: Snapshot, c: Change): Plan {
    Plan(active.revision, next.revision, c.operations)
  }

  function ResultOf(active: Snapshot, next: Snapshot, c: Change): Applied {
    Applied(PlanOf(active, next, c), next.generation, next.revision)
  }

  function Found(a: App, c: Change): seq<Item> {
    Touched(a.cache, c.key, Print(c))
  }

  /** forgetIdempOnConflict. */
  function AfterRefusal(a: App, c: Change, e: Error): seq<Item> {
    if e == RevisionConflict then Evicted(Found(a, c), c.key) else Found(a, c)
  }

  function Committed(env: Env, a: App, c: Change, next: Snapshot): App {
    var r := ResultOf(a.active, next, c);
    App(next,
        StoredApply(Found(a, c), c.key, Print(c), r, env.max),
        a.log + [Commit(c.key, Print(c), c.expected, a.active, next, r)])
  }

  function ApplyChange(env: Env, a: App, c: Change): App {
    match DecideApply(env, a, c)
    case Reused => a
    case ReplayPlan(_) => a
    case ReplayApply(_) => a.(cache := Found(a, c))
    case Refuse(e) => a.(cache := AfterRefusal(a, c, e))
    case Go(next) => Committed(env, a, c, next)
  }

  function PlanChange(env: Env, a: App, c: Change): App {
    match DecidePlan(env, a, c)
    case Reused => a
    case ReplayPlan(_) => a.(cache := Found(a, c))
    case ReplayApply(_) => a
    case Refuse(e) => a.(cache := AfterRefusal(a, c, e))
    case Go(next) => a.(cache := StoredPlan(Found(a, c), c.key, Print(c), PlanOf(a.active, next, c), env.max))
  }

  datatype Call = CallApply(change: Change) | CallPlan(change: Change)

  function Step(env: Env, a: App, call: Call): App {
    match call
    case CallApply(c) => ApplyChange(env, a, c)
    case CallPlan(c) => PlanChange(env, a, c)
  }

  function Run(env: Env, a: App, calls: seq<Call>): App
    decreases |calls|
  {
    if calls == [] then a else Step(env, Run(env, a, calls[..|calls| - 1]), calls[|calls| - 1])
  }

  // ---------------------------------------------------------------- invariants

  /** The last commit of a key. */
  function LastOf(log: seq<Commit>, key: Key): Option<Commit>
    decreases |log|
  {
    if log == [] then None
    else if log[|log| - 1].key == key then Some(log[|log| - 1])
    else LastOf(log[..|log| - 1], key)
  }

  /** Each commit named the revision it replaced, and they form one chain of generations from the
      first snapshot to the active one. */
  predicate ChainOk(first: Snapshot, active: Snapshot, log: seq<Commit>) {
    && (forall i | 0 <= i < |log| :: CommitAt(first, log, i))
    && active == After(first, log, |log|)
  }

  /** The active snapshot after the first i commits. */
  function After(first: Snapshot, log: seq<Commit>, i: nat): Snapshot
    requires i <= |log|
  {
    if i == 0 then first else log[i - 1].after
  }

  /** Commit i is sound and replaced what the commits before it had left active. */
  predicate CommitAt(first: Snapshot, log: seq<Commit>, i: nat)
    requires i < |log|
  {
    CommitOk(log[i]) && log[i].before == After(first, log, i)
  }

  predicate CommitOk(c: Commit) {
    && c.expected == c.before.revision && c.expected != ""
    && c.after.generation == c.before.generation + 1
    && c.result.generation == c.after.generation && c.result.revision == c.after.revision
    && c.result.plan.previous == c.before.revision && c.result.plan.candidate == c.after.revision
    && c.result.plan.operations == c.fp.operations
  }

  /** A recorded result is that of the last commit under its key, made for the same request. */
  predicate RecordOk(log: seq<Commit>, x: Item) {
    x.apply.Some? ==>
      var last := LastOf(log, x.key);
      last.Some? && last.value.fp == x.fp && last.value.result == x.apply.value
  }

  predicate CacheOk(a: App, max: nat) {
    Ok(a.cache, max) && forall x | x in a.cache :: RecordOk(a.log, x)
  }

  predicate Inv(env: Env, first: Snapshot, a: App) {
    env.max > 0 && CacheOk(a, env.max) && ChainOk(first, a.active, a.log)
  }

  lemma TouchedOk(list: seq<Item>, key: Key, fp: Fingerprint, max: nat)
    requires Ok(list, max)
    ensures Ok(Touched(list, key, fp), max) && forall x :: x in Touched(list, key, fp) <==> x in list
  {
    var e := Hit(list, key, fp);
    if key != "" && e.Some? {
      var i :| 0 <= i < |list| && list[i] == e.value;
      WithoutAt(list, i);
      WithoutDistinct(list, key);
      var t := [e.value] + WithoutKey(list, key);
      forall x | x in list ensures x in t {
        if x.key == key {
          LookupAt(list, i);
          var j :| 0 <= j < |list| && list[j] == x;
          assert i == j;
        }
      }
    }
  }

  lemma EvictedOk(list: seq<Item>, key: Key, max: nat)
    requires Ok(list, max)
    ensures Ok(Evicted(list, key), max) && forall x | x in Evicted(list, key) :: x in list
  {
    WithoutDistinct(list, key);
  }

  lemma FoundOk(env: Env, a: App, c: Change)
    requires CacheOk(a, env.max)
    ensures Ok(Found(a, c), env.max) && forall x | x in Found(a, c) :: RecordOk(a.log, x)
    ensures Hit(Found(a, c), c.key, Print(c)) == Hit(a.cache, c.key, Print(c))
  {
    TouchedOk(a.cache, c.key, Print(c), env.max);
    if c.key != "" && Hit(a.cache, c.key, Print(c)).Some? {
      LookupAt(Found(a, c), 0);
    }
  }

  lemma LastOfSnoc(log: seq<Commit>, c: Commit, key: Key)
    ensures LastOf(log + [c], key) == if c.key == key then Some(c) else LastOf(log, key)
  {
    assert (log + [c])[..|log|] == log;
  }

  lemma CommittedCache(env: Env, a: App, c: Change, next: Snapshot)
    requires env.max > 0 && CacheOk(a, env.max)
    ensures CacheOk(Committed(env, a, c, next), env.max)
  {
    FoundOk(env, a, c);
    var b := Committed(env, a, c, next);
    var r := ResultOf(a.active, next, c);
    var commit := Commit(c.key, Print(c), c.expected, a.active, next, r);
    var e := Hit(Found(a, c), c.key, Print(c));
    var x := if e.Some? then e.value.(apply := Some(r)) else Item(c.key, Print(c), None, Some(r));
    if c.key != "" {
      PutOk(Found(a, c), x, env.max);
      assert b.cache == Put(Found(a, c), x, env.max);
    } else {
      assert b.cache == Found(a, c);
    }
    forall y | y in b.cache ensures RecordOk(b.log, y) {
      LastOfSnoc(a.log, commit, y.key);
      assert y == x || (y in Found(a, c) && RecordOk(a.log, y));
    }
  }

  lemma ChainSnoc(first: Snapshot, active: Snapshot, log: seq<Commit>, c: Commit)
    requires ChainOk(first, active, log) && CommitOk(c) && c.before == active
    ensures ChainOk(first, c.after, log + [c])
  {
    var longer := log + [c];
    forall i | 0 <= i < |longer| ensures CommitAt(first, longer, i) {
      assert After(first, longer, i) == After(first, log, i);
      if i < |log| {
        assert CommitAt(first, log, i);
      }
    }
  }

  lemma CommittedChain(env: Env, first: Snapshot, a: App, c: Change, next: Snapshot)
    requires ChainOk(first, a.active, a.log) && Candidate(env, a.active, c) == Go(next)
    ensures ChainOk(first, next, Committed(env, a, c, next).log)
  {
    ChainSnoc(first, a.active, a.log, Commit(c.key, Print(c), c.expected, a.active, next, ResultOf(a.active, next, c)));
  }

  lemma PlanCache(env: Env, a: App, c: Change, p: Plan)
    requires env.max > 0 && CacheOk(a, env.max)
    ensures CacheOk(a.(cache := StoredPlan(Found(a, c), c.key, Print(c), p, env.max)), env.max)
  {
    FoundOk(env, a, c);
    var e := Hit(Found(a, c), c.key, Print(c));
    if c.key != "" {
      PutOk(Found(a, c), if e.Some? then e.value.(plan := Some(p)) else Item(c.key, Print(c), Some(p), None), env.max);
    }
  }

  lemma RefusedCache(env: Env, a: App, c: Change, e: Error)
    requires CacheOk(a, env.max)
    ensures CacheOk(a.(cache := AfterRefusal(a, c, e)), env.max)
  {
    FoundOk(env, a, c);
    EvictedOk(Found(a, c), c.key, env.max);
  }

  lemma StepInv(env: Env, first: Snapshot, a: App, call: Call)
    requires Inv(env, first, a)
    ensures Inv(env, first, Step(env, a, call))
  {
    var c := call.change;
    FoundOk(env, a, c);
    var d := if call.CallApply? then DecideApply(env, a, c) else DecidePlan(env, a, c);
    match d
    case Refuse(e) => RefusedCache(env, a, c, e);
    case Go(next) =>
      CommittedCache(env, a, c, next);
      CommittedChain(env, first, a, c, next);
      PlanCache(env, a, c, PlanOf(a.active, next, c));
    case _ =>
  }

  predicate Fresh(a: App) {
    a.cache == [] && a.log == []
  }

  lemma {:induction false} RunInv(env: Env, a: App, calls: seq<Call>)
    requires env.max > 0 && Fresh(a)
    ensures Inv(env, a.active, Run(env, a, calls))
    decreases |calls|
  {
    if calls != [] {
      RunInv(env, a, calls[..|calls| - 1]);
      StepInv(env, a.active, Run(env, a, calls[..|calls| - 1]), calls[|calls| - 1]);
    }
  }

  // ---------------------------------------------------------------- the laws

  /** A repeated request still in the cache is answered with what its commit recorded, and swaps
      nothing. */
  lemma ReplayIsRecorded(env: Env, start: App, calls: seq<Call>, c: Change)
    requires env.max > 0 && Fresh(start)
    requires
      var a := Run(env, start, calls);
      Met(a, c).Some? && Met(a, c).value.apply.Some?
    ensures
      var a := Run(env, start, calls);
      var b := ApplyChange(env, a, c);
      var last := LastOf(a.log, c.key);
      && last.Some? && last.value.fp == Print(c)
      && DecideApply(env, a, c) == ReplayApply(last.value.result)
      && b.active == a.active && b.log == a.log
      && (forall x :: x in b.cache <==> x in a.cache)
  {
    RunInv(env, start, calls);
    var a := Run(env, start, calls);
    assert RecordOk(a.log, Met(a, c).value);
    TouchedOk(a.cache, c.key, Print(c), env.max);
  }

  lemma RunAndOne(env: Env, start: App, calls: seq<Call>, call: Call)
    ensures Run(env, start, calls + [call]) == Step(env, Run(env, start, calls), call)
  {
    assert (calls + [call])[..|calls + [call]| - 1] == calls;
  }

  /** After any run, a key whose recorded commit was made for another request is refused by both calls, and
      the refusal leaves no trace, not even in the recency order. */
  lemma ReuseChangesNothing(env: Env, start: App, calls: seq<Call>, c: Change)
    requires env.max > 0 && Fresh(start) && c.key != "" && Recorded(Run(env, start, calls).cache, c.key)
    ensures
      var a := Run(env, start, calls);
      var last := LastOf(a.log, c.key);
      && last.Some?
      && (last.value.fp != Print(c) ==>
            && DecideApply(env, a, c) == Reused && Run(env, start, calls + [CallApply(c)]) == a
            && DecidePlan(env, a, c) == Reused && Run(env, start, calls + [CallPlan(c)]) == a)
  {
    RunInv(env, start, calls);
    RunAndOne(env, start, calls, CallApply(c));
    RunAndOne(env, start, calls, CallPlan(c));
    var a := Run(env, start, calls);
    var x := RecordMet(env, a, c);
    assert RecordOk(a.log, x);
  }

  predicate Replays(a: App, c: Change) {
    Met(a, c).Some? && Met(a, c).value.apply.Some?
  }

  /** One Apply: the snapshot is swapped exactly when the call is no replay, reuses no key, names the active
      revision, and builds and fits. */
  lemma CommitsStep(env: Env, a: App, c: Change)
    ensures
      var b := ApplyChange(env, a, c);
      var built := env.build(a.active.state, c.operations);
      var commits := !MeetsOther(a, c) && !Replays(a, c) && c.expected != "" && c.expected == a.active.revision
                     && built.Some? && !c.capsRefused;
      && (commits <==> b.log != a.log)
      && (commits ==> b.active == Snapshot(built.value, env.revision(built.value), a.active.generation + 1))
      && (commits ==> |b.log| == |a.log| + 1 && b.log[..|a.log|] == a.log && b.log[|a.log|].before == a.active)
      && (commits ==> Entered(b.log[|a.log|], c, a.active, b.active))
      && (!commits ==> b.active == a.active)
  {
  }

  /** The log entry of a call that swapped one snapshot for another: its key, the request it was made for, and a
      result that names both revisions, the operations and the new generation. */
  predicate Entered(m: Commit, c: Change, before: Snapshot, after: Snapshot) {
    && m.key == c.key && m.fp.reason == c.reason && m.fp.operations == c.operations && m.expected == c.expected
    && m.before == before && m.after == after
    && m.result.plan.previous == before.revision && m.result.plan.candidate == after.revision
    && m.result.plan.operations == c.operations
    && m.result.generation == after.generation && m.result.revision == after.revision
  }

  /** A key was used for this request, or for another one. */
  predicate UsedFor(cache: seq<Item>, c: Change) {
    exists x | x in cache :: x.key == c.key && x.fp.reason == c.reason && x.fp.operations == c.operations
  }

  predicate UsedForOther(cache: seq<Item>, c: Change) {
    exists x | x in cache :: x.key == c.key && (x.fp.reason != c.reason || x.fp.operations != c.operations)
  }

  lemma MetIff(cache: seq<Item>, c: Change, x: Item)
    requires DistinctKeys(cache) && x in cache && x.key == c.key
    ensures Lookup(cache, c.key) == Some(x)
    ensures Hit(cache, c.key, Print(c))
      == if x.fp.reason == c.reason && x.fp.operations == c.operations then Some(x) else None
  {
    var i :| 0 <= i < |cache| && cache[i] == x;
    LookupAt(cache, i);
  }

  /** How both calls answer: a key used for another request is refused; one used for this request gets what was
      recorded for it; otherwise the first thing wrong is named, in this order, and a call with nothing wrong goes
      through. */
  lemma Answers(env: Env, a: App, c: Change)
    requires DistinctKeys(a.cache)
    ensures
      var da, dp := DecideApply(env, a, c), DecidePlan(env, a, c);
      && (da.Reused? <==> c.key != "" && UsedForOther(a.cache, c))
      && (dp.Reused? <==> c.key != "" && UsedForOther(a.cache, c))
      && (forall x | x in a.cache && c.key != "" && x.key == c.key && x.fp.reason == c.reason
                     && x.fp.operations == c.operations ::
            && (x.apply.Some? ==> da == ReplayApply(x.apply.value)) && (x.plan.Some? ==> dp == ReplayPlan(x.plan.value))
            && (x.apply.None? ==> Tries(env, a.active, c, da)) && (x.plan.None? ==> Tries(env, a.active, c, dp)))
      && (c.key == "" || (!UsedFor(a.cache, c) && !UsedForOther(a.cache, c)) ==>
            Tries(env, a.active, c, da) && Tries(env, a.active, c, dp))
  {
    hide DistinctKeys, Lookup;
    if c.key != "" {
      var e := Lookup(a.cache, c.key);
      forall x | x in a.cache && x.key == c.key ensures e == Some(x) {
        MetIff(a.cache, c, x);
      }
    }
  }

  /** A call with nothing recorded for it. */
  predicate Tries(env: Env, active: Snapshot, c: Change, d: Decision) {
    var built := env.build(active.state, c.operations);
    if c.expected == "" then d == Refuse(RevisionRequired)
    else if c.expected != active.revision then d == Refuse(RevisionConflict)
    else if built.None? then d == Refuse(Rejected)
    else if c.capsRefused then d == Refuse(OverNewCap)
    else
      && d.Go? && d.next.state == built.value && d.next.revision == env.revision(built.value)
      && d.next.generation == active.generation + 1
  }

  /** A Plan swaps nothing. One that goes through under a key is recorded first, naming the active revision, the
      revision its candidate would have, and its operations. */
  lemma PlanSwapsNothing(env: Env, a: App, c: Change)
    requires Ok(a.cache, env.max) && env.max > 0
    ensures PlanChange(env, a, c).active == a.active && PlanChange(env, a, c).log == a.log
    ensures
      var d, cache := DecidePlan(env, a, c), PlanChange(env, a, c).cache;
      d.Go? && c.key != "" ==>
        && cache != [] && cache[0].key == c.key && cache[0].plan.Some?
        && cache[0].fp.reason == c.reason && cache[0].fp.operations == c.operations
        && cache[0].plan.value.previous == a.active.revision && cache[0].plan.value.candidate == d.next.revision
        && cache[0].plan.value.operations == c.operations
  {
    hide DistinctKeys, WithoutKey, Lookup, Candidate;
    assert forall x, y: seq<Item> :: ([x] + y)[0] == x;
  }

  /** After any run, an Apply adds a commit exactly when it is no replay, reuses no key, builds and fits, and
      names the revision the last commit of the run left, or the first one's if there was none; the
      generation is then one above the number of commits so far. */
  lemma CommitsIff(env: Env, start: App, calls: seq<Call>, c: Change)
    requires env.max > 0 && Fresh(start)
    ensures
      var a, b := Run(env, start, calls), Run(env, start, calls + [CallApply(c)]);
      var built := env.build(a.active.state, c.operations);
      var commits := !MeetsOther(a, c) && !Replays(a, c) && c.expected != "" && built.Some? && !c.capsRefused
                     && c.expected == After(start.active, a.log, |a.log|).revision;
      && (b.log != a.log <==> commits)
      && (commits ==> |b.log| == |a.log| + 1 && b.log[..|a.log|] == a.log && b.active.state == built.value)
      && (commits ==> b.active.generation == start.active.generation + |a.log| + 1)
      && (commits ==> Entered(b.log[|a.log|], c, a.active, b.active))
      && (!commits ==> b.active == a.active)
  {
    RunInv(env, start, calls);
    RunAndOne(env, start, calls, CallApply(c));
    var a := Run(env, start, calls);
    GenerationsCount(start.active, a.active, a.log, |a.log|);
    CommitsStep(env, a, c);
    hide ApplyChange, CacheOk;
  }

  lemma {:induction false} GenerationsCount(first: Snapshot, active: Snapshot, log: seq<Commit>, i: nat)
    requires ChainOk(first, active, log) && i <= |log|
    ensures After(first, log, i).generation == first.generation + i
    decreases i
  {
    if i > 0 {
      GenerationsCount(first, active, log, i - 1);
      assert CommitAt(first, log, i - 1);
    }
  }

  /** Commit i named the revision it replaced, and its plan names both revisions and the operations it was asked for. */
  predicate Named(first: Snapshot, log: seq<Commit>, i: nat)
    requires i < |log|
  {
    && log[i].expected == log[i].before.revision == After(first, log, i).revision
    && log[i].result.plan.previous == After(first, log, i).revision
    && log[i].result.plan.candidate == After(first, log, i + 1).revision
    && log[i].result.plan.operations == log[i].fp.operations
  }

  lemma ChainNames(first: Snapshot, active: Snapshot, log: seq<Commit>)
    requires ChainOk(first, active, log)
    ensures forall i | 0 <= i < |log| :: Named(first, log, i)
  {
    forall i | 0 <= i < |log| ensures Named(first, log, i) {
      assert CommitAt(first, log, i);
    }
  }

  /** Over any run the generation counts the commits, and each commit replaced the revision it named. */
  lemma RunGenerations(env: Env, start: App, calls: seq<Call>)
    requires env.max > 0 && Fresh(start)
    ensures
      var a := Run(env, start, calls);
      && a.active.generation == start.active.generation + |a.log|
      && forall i | 0 <= i < |a.log| :: Named(start.active, a.log, i)
  {
    RunInv(env, start, calls);
    var a := Run(env, start, calls);
    hide Run, CacheOk, Named;
    GenerationsCount(start.active, a.active, a.log, |a.log|);
    ChainNames(start.active, a.active, a.log);
  }

  // ---------------------------------------------------------------- at most once

  /** The key's commit is still recorded. */
  predicate Recorded(cache: seq<Item>, key: Key) {
    exists x :: x in cache && x.key == key && x.apply.Some?
  }

  /** A Plan on a key whose commit is recorded, naming a revision that is no longer active. */
  predicate Forgets(a: App, call: Call) {
    && call.CallPlan? && Replays(a, call.change) && Met(a, call.change).value.plan.None?
    && call.change.expected != "" && call.change.expected != a.active.revision
  }

  predicate OneKey(log: seq<Commit>, i: int, j: int) {
    0 <= i < j < |log| && log[i].key == log[j].key != ""
  }

  ghost predicate CommittedOnce(log: seq<Commit>) {
    forall i, j :: !OneKey(log, i, j)
  }

  ghost predicate AllRecorded(a: App) {
    forall c | c in a.log && c.key != "" :: Recorded(a.cache, c.key)
  }

  predicate KeysWithin(cache: seq<Item>, keys: set<Key>) {
    forall x | x in cache :: x.key in keys
  }

  lemma {:induction false} DistinctFit(list: seq<Item>, keys: set<Key>)
    requires DistinctKeys(list) && KeysWithin(list, keys)
    ensures |list| <= |keys|
    decreases |list|
  {
    if list != [] {
      var rest := list[1..];
      assert list[0] in list;
      forall x | x in rest ensures x.key in keys - {list[0].key} {
        var i :| 0 <= i < |rest| && rest[i] == x;
        assert list[i + 1] == x && x in list;
      }
      DistinctFit(rest, keys - {list[0].key});
    }
  }

  /** With room for every key in use, nothing falls off the list. */
  lemma PutAll(list: seq<Item>, x: Item, keys: set<Key>, max: nat)
    requires Ok(list, max) && max > 0 && KeysWithin(list, keys) && x.key in keys && |keys| <= max
    ensures Put(list, x, max) == [x] + WithoutKey(list, x.key)
    ensures forall y | y in list && y.key != x.key :: y in Put(list, x, max)
    ensures x in Put(list, x, max) && KeysWithin(Put(list, x, max), keys)
  {
    if Lookup(list, x.key).None? {
      forall y | y in list ensures y.key in keys - {x.key} {
      }
      DistinctFit(list, keys - {x.key});
    }
    PutKeeps(list, x, max);
    assert ([x] + WithoutKey(list, x.key))[0] == x;
  }

  lemma LookupMember(list: seq<Item>, x: Item)
    requires DistinctKeys(list) && x in list
    ensures Lookup(list, x.key) == Some(x)
  {
    var i :| 0 <= i < |list| && list[i] == x;
    LookupAt(list, i);
  }

  lemma RecordedIsMet(a: App, c: Change)
    requires DistinctKeys(a.cache) && Recorded(a.cache, c.key) && c.key != ""
    ensures MeetsOther(a, c) || Replays(a, c)
  {
    var x :| x in a.cache && x.key == c.key && x.apply.Some?;
    LookupMember(a.cache, x);
  }

  ghost predicate Once(a: App, keys: set<Key>) {
    KeysWithin(a.cache, keys) && AllRecorded(a) && CommittedOnce(a.log)
  }

  /** Every recorded key but one stays recorded. */
  ghost predicate StillRecorded(was: seq<Item>, now: seq<Item>, except: Key) {
    forall k | k != except && Recorded(was, k) :: Recorded(now, k)
  }

  lemma KeepsOthers(was: seq<Item>, now: seq<Item>, except: Key)
    requires forall x | x in was && x.key != except :: x in now
    ensures StillRecorded(was, now, except)
  {
    forall k | k != except && Recorded(was, k) ensures Recorded(now, k) {
      var x :| x in was && x.key == k && x.apply.Some?;
      assert x in now;
    }
  }

  lemma ShuffledOnce(env: Env, a: App, cache: seq<Item>, key: Key, keys: set<Key>)
    requires Once(a, keys) && StillRecorded(a.cache, cache, key) && KeysWithin(cache, keys)
    requires key != "" && Recorded(a.cache, key) ==> Recorded(cache, key)
    ensures Once(a.(cache := cache), keys)
  {
    forall c | c in a.log && c.key != "" ensures Recorded(cache, c.key) {
      assert Recorded(a.cache, c.key);
    }
  }

  lemma RefusedOnce(env: Env, a: App, call: Call, e: Error, keys: set<Key>)
    requires CacheOk(a, env.max) && Once(a, keys) && !Forgets(a, call)
    requires (if call.CallApply? then DecideApply(env, a, call.change) else DecidePlan(env, a, call.change))
            == Refuse(e)
    ensures Once(a.(cache := AfterRefusal(a, call.change, e)), keys)
  {
    var c := call.change;
    TouchedOk(a.cache, c.key, Print(c), env.max);
    var cache := AfterRefusal(a, c, e);
    KeepsOthers(a.cache, cache, c.key);
    if c.key != "" && Recorded(a.cache, c.key) {
      RecordedIsMet(a, c);
      assert e != RevisionConflict;
      var x :| x in a.cache && x.key == c.key && x.apply.Some?;
      assert x in cache;
    }
    ShuffledOnce(env, a, cache, c.key, keys);
  }

  lemma FoundOnce(env: Env, a: App, c: Change, keys: set<Key>)
    requires CacheOk(a, env.max) && Once(a, keys)
    ensures Once(a.(cache := Found(a, c)), keys)
  {
    TouchedOk(a.cache, c.key, Print(c), env.max);
    KeepsOthers(a.cache, Found(a, c), "");
    ShuffledOnce(env, a, Found(a, c), "", keys);
  }

  lemma PlannedOnce(env: Env, a: App, c: Change, p: Plan, keys: set<Key>)
    requires CacheOk(a, env.max) && env.max > 0 && Once(a, keys) && |keys| <= env.max && (c.key == "" || c.key in keys)
    requires !MeetsOther(a, c)
    ensures Once(a.(cache := StoredPlan(Found(a, c), c.key, Print(c), p, env.max)), keys)
  {
    FoundOnce(env, a, c, keys);
    FoundOk(env, a, c);
    TouchedOk(a.cache, c.key, Print(c), env.max);
    if c.key != "" {
      var f, e := Found(a, c), Hit(Found(a, c), c.key, Print(c));
      var x := if e.Some? then e.value.(plan := Some(p)) else Item(c.key, Print(c), Some(p), None);
      PutAll(f, x, keys, env.max);
      KeepsOthers(f, Put(f, x, env.max), c.key);
      if Recorded(f, c.key) {
        var y :| y in f && y.key == c.key && y.apply.Some?;
        LookupMember(f, y);
        LookupMember(a.cache, y);
        assert e == Some(y) && x.apply.Some?;
      }
      ShuffledOnce(env, a.(cache := f), Put(f, x, env.max), c.key, keys);
    }
  }

  lemma CommitOnce(env: Env, a: App, c: Change, next: Snapshot, keys: set<Key>)
    requires CacheOk(a, env.max) && env.max > 0 && Once(a, keys) && |keys| <= env.max && (c.key == "" || c.key in keys)
    requires DecideApply(env, a, c) == Go(next)
    ensures Once(Committed(env, a, c, next), keys)
  {
    FoundOnce(env, a, c, keys);
    FoundOk(env, a, c);
    var b, f, r := Committed(env, a, c, next), Found(a, c), ResultOf(a.active, next, c);
    var commit := Commit(c.key, Print(c), c.expected, a.active, next, r);
    if c.key != "" {
      var e := Hit(f, c.key, Print(c));
      var x := if e.Some? then e.value.(apply := Some(r)) else Item(c.key, Print(c), None, Some(r));
      PutAll(f, x, keys, env.max);
      KeepsOthers(f, b.cache, c.key);
      assert x in b.cache;
      if Recorded(a.cache, c.key) {
        RecordedIsMet(a, c);
        assert false;
      }
      ShuffledOnce(env, a.(cache := f), b.cache, c.key, keys);
    }
    OnceSnoc(a.log, commit);
  }

  lemma OnceSnoc(log: seq<Commit>, commit: Commit)
    requires CommittedOnce(log) && (commit.key == "" || forall c | c in log :: c.key != commit.key)
    ensures CommittedOnce(log + [commit])
  {
    forall i, j ensures !OneKey(log + [commit], i, j) {
      assert !OneKey(log, i, j);
      assert 0 <= i < |log| ==> log[i] in log;
    }
  }

  lemma StepOnce(env: Env, a: App, call: Call, keys: set<Key>)
    requires CacheOk(a, env.max) && env.max > 0 && Once(a, keys) && |keys| <= env.max && !Forgets(a, call)
    requires call.change.key == "" || call.change.key in keys
    ensures Once(Step(env, a, call), keys)
  {
    var c := call.change;
    FoundOnce(env, a, c, keys);
    match if call.CallApply? then DecideApply(env, a, c) else DecidePlan(env, a, c)
    case Refuse(e) => RefusedOnce(env, a, call, e, keys);
    case Go(next) =>
      if call.CallApply? {
        CommitOnce(env, a, c, next, keys);
      } else {
        PlannedOnce(env, a, c, PlanOf(a.active, next, c), keys);
      }
    case _ =>
  }

  predicate NeverForgets(env: Env, a: App, calls: seq<Call>)
    decreases |calls|
  {
    calls == [] || (NeverForgets(env, a, calls[..|calls| - 1])
                    && !Forgets(Run(env, a, calls[..|calls| - 1]), calls[|calls| - 1]))
  }

  predicate UsesKeys(calls: seq<Call>, keys: set<Key>) {
    forall call | call in calls :: call.change.key == "" || call.change.key in keys
  }

  /** In a run that uses no more keys than the cache holds, and in which no Plan forgets, no key
      ever commits twice. */
  lemma {:induction false} AtMostOncePerKey(env: Env, start: App, calls: seq<Call>, keys: set<Key>)
    requires env.max > 0 && Fresh(start) && |keys| <= env.max && UsesKeys(calls, keys)
    requires NeverForgets(env, start, calls)
    ensures Once(Run(env, start, calls), keys)
    decreases |calls|
  {
    if calls != [] {
      var k := |calls| - 1;
      assert calls[k] in calls;
      assert UsesKeys(calls[..k], keys);
      AtMostOncePerKey(env, start, calls[..k], keys);
      RunInv(env, start, calls[..k]);
      StepOnce(env, Run(env, start, calls[..k]), calls[k], keys);
    }
  }

  lemma {:induction false} ApplyNeverForgets(env: Env, a: App, calls: seq<Call>)
    requires forall call | call in calls :: call.CallApply?
    ensures NeverForgets(env, a, calls)
    decreases |calls|
  {
    if calls != [] {
      var k := |calls| - 1;
      assert calls[k] in calls;
      ApplyNeverForgets(env, a, calls[..k]);
    }
  }

  /** Runs of Apply alone: every non-empty key commits at most once. */
  lemma AppliesOnce(env: Env, start: App, calls: seq<Call>, keys: set<Key>, i: nat, j: nat)
    requires env.max > 0 && Fresh(start) && |keys| <= env.max && UsesKeys(calls, keys)
    requires forall call | call in calls :: call.CallApply?
    requires i < j < |Run(env, start, calls).log| && Run(env, start, calls).log[i].key != ""
    ensures Run(env, start, calls).log[i].key != Run(env, start, calls).log[j].key
  {
    ApplyNeverForgets(env, start, calls);
    AtMostOncePerKey(env, start, calls, keys);
    assert !OneKey(Run(env, start, calls).log, i, j);
  }

  lemma RefusalLoses(a: App, c: Change, e: Error, x: Item)
    requires x in Found(a, c) && x.key == c.key != "" && x.apply.Some?
    ensures Recorded(AfterRefusal(a, c, e), c.key) <==> e != RevisionConflict
  {
    hide Found;
    if e != RevisionConflict {
      assert x in AfterRefusal(a, c, e);
    }
  }

  lemma NewPlanKeeps(list: seq<Item>, x: Item, p: Plan, max: nat)
    requires Ok(list, max) && max > 0 && x.key != "" && x.apply.Some? && Hit(list, x.key, x.fp) == Some(x)
    ensures Recorded(StoredPlan(list, x.key, x.fp, p, max), x.key)
  {
    hide Ok, Hit;
    var y := x.(plan := Some(p));
    PutOk(list, y, max);
    assert y in Put(list, y, max);
  }

  /** A call on a recorded key meets the record, unless it is another request. */
  lemma RecordMet(env: Env, a: App, c: Change) returns (x: Item)
    requires CacheOk(a, env.max) && c.key != "" && Recorded(a.cache, c.key)
    ensures x in Found(a, c) && x in a.cache && x.key == c.key && x.apply.Some? && Ok(Found(a, c), env.max)
    ensures if x.fp == Print(c) then Met(a, c) == Some(x) && Hit(Found(a, c), c.key, Print(c)) == Some(x)
            else MeetsOther(a, c)
  {
    x :| x in a.cache && x.key == c.key && x.apply.Some?;
    LookupMember(a.cache, x);
    FoundOk(env, a, c);
    TouchedOk(a.cache, c.key, Print(c), env.max);
  }

  /** A Plan loses the record of its key's commit exactly when it forgets. */
  lemma PlanLosesRecordIff(env: Env, a: App, c: Change)
    requires CacheOk(a, env.max) && env.max > 0 && c.key != "" && Recorded(a.cache, c.key)
    ensures !Recorded(PlanChange(env, a, c).cache, c.key) <==> Forgets(a, CallPlan(c))
  {
    var x := RecordMet(env, a, c);
    hide Recorded, CacheOk, Ok, Found, AfterRefusal, StoredPlan, Met, MeetsOther, Hit;
    match DecidePlan(env, a, c)
    case Refuse(e) => RefusalLoses(a, c, e, x);
    case Go(next) => NewPlanKeeps(Found(a, c), x, PlanOf(a.active, next, c), env.max);
    case _ => RecordStays(a, c, x);
  }

  lemma RecordStays(a: App, c: Change, x: Item)
    requires x in Found(a, c) && x in a.cache && x.key == c.key && x.apply.Some?
    ensures Recorded(Found(a, c), c.key) && Recorded(a.cache, c.key)
  {
    hide Found;
  }

  /** The three calls of a client that applies, plans again against the revision it started from, and
      applies once more against the new one. */
  function Retry(k: Key, before: Revision, now: Revision, ops: seq<Operation>): seq<Call> {
    [CallApply(Change(k, before, "", ops, false)),
     CallPlan(Change(k, before, "", ops, false)),
     CallApply(Change(k, now, "", ops, false))]
  }

  lemma RunThree(env: Env, a: App, cs: seq<Call>)
    requires |cs| == 3
    ensures Run(env, a, cs) == Step(env, Step(env, Step(env, a, cs[0]), cs[1]), cs[2])
  {
    assert cs[..2][..1] == cs[..1] && cs[..1][..0] == [];
    assert Run(env, a, cs[..1]) == Step(env, a, cs[0]);
    assert Run(env, a, cs[..2]) == Step(env, Run(env, a, cs[..1]), cs[1]);
  }

  /** Mixed with Plan, one key and one request can commit twice. */
  lemma MixedRunCommitsTwice(env: Env, start: App, k: Key, ops: seq<Operation>)
    requires env.max > 0 && Fresh(start) && k != ""
    requires
      var once := env.build(start.active.state, ops);
      && once.Some? && env.build(once.value, ops).Some?
      && start.active.revision != "" && env.revision(once.value) != ""
        && env.revision(once.value) != start.active.revision
    ensures
      var now := env.revision(env.build(start.active.state, ops).value);
      var log := Run(env, start, Retry(k, start.active.revision, now, ops)).log;
      |log| == 2 && log[0].key == log[1].key == k && log[0].fp == log[1].fp
  {
    var s := env.build(start.active.state, ops).value;
    var cs := Retry(k, start.active.revision, env.revision(s), ops);
    RunThree(env, start, cs);
    var a := Step(env, start, cs[0]);
    FirstCommit(env, start, cs[0].change, s);
    var b := Step(env, a, cs[1]);
    StalePlanForgets(env, a, cs[1].change);
    assert cs[1].change.expected != a.active.revision;
    SecondCommit(env, b, cs[2].change, env.build(s, ops).value);
  }

  lemma FirstCommit(env: Env, a: App, c: Change, s: Document)
    requires env.max > 0 && a.cache == [] && a.log == [] && c.key != "" && !c.capsRefused
    requires c.expected == a.active.revision != "" && env.build(a.active.state, c.operations) == Some(s)
    ensures
      var b := ApplyChange(env, a, c);
      && |b.cache| == 1 && b.cache[0].key == c.key && b.cache[0].fp == Print(c) && b.cache[0].plan.None?
      && b.active.state == s && b.active.revision == env.revision(s)
      && |b.log| == 1 && b.log[0].key == c.key && b.log[0].fp == Print(c)
  {
  }

  lemma StalePlanForgets(env: Env, a: App, c: Change)
    requires |a.cache| == 1 && a.cache[0].key == c.key != "" && a.cache[0].fp == Print(c) && a.cache[0].plan.None?
    requires c.expected != "" && c.expected != a.active.revision
    ensures PlanChange(env, a, c) == a.(cache := [])
  {
    assert a.cache == [a.cache[0]] && a.cache[1..] == [];
  }

  lemma SecondCommit(env: Env, a: App, c: Change, s: Document)
    requires a.cache == [] && c.key != "" && !c.capsRefused
    requires c.expected == a.active.revision != "" && env.build(a.active.state, c.operations) == Some(s)
    ensures
      var b := ApplyChange(env, a, c);
      |b.log| == |a.log| + 1 && b.log[..|a.log|] == a.log && b.log[|a.log|].key == c.key
        && b.log[|a.log|].fp == Print(c)
  {
  }
}
