/**
  The decision logic of the incremental engine: whether a key's
  dependencies changed since its cached value was last verified, and what
  the engine does with the outcome of a cache lookup and of an evaluation.
  Requests to the core state are recorded in order instead of being sent.
 */
module Incremental {
  import opened Results

  type DiceKey = nat
  type VersionNumber = nat
  type VersionEpoch = nat

  /** The versions at which a value is known to be valid. */
  type VersionRanges = set<VersionNumber>

  /** An error of the engine or of a user computation. */
  datatype DiceError = DiceError(code: nat)

  /** The outcome of computing one dependency: the versions at which its value is verified. */
  type DepResult = Result<VersionRanges, DiceError>

  /** Whether the dependencies of a cached value changed. */
  datatype DidDepsChange = Changed | NoChange(deps: seq<DiceKey>) | NoDeps

  /** Whether the dependencies changed (the value must be recomputed for this reason). */
  function IsChanged(d: DidDepsChange): (b: bool)
    ensures b <==> d == Changed
  {
    match d
    case Changed => true
    case NoChange(_) => false
    case NoDeps => false
  }

  /**
    The versions verified for the parent and for every dependency that
    returned its ranges, after the results seen so far.
   */
  function VerifiedIntersection(verified: VersionRanges, results: seq<DepResult>): VersionRanges
  {
    if results == [] then
      verified
    else
      var last := results[|results| - 1];
      var before := VerifiedIntersection(verified, results[..|results| - 1]);
      if last.Ok? then before * last.value else before
  }

  /** Some dependency failed to compute. */
  predicate AnyError(results: seq<DepResult>)
  {
    exists i :: 0 <= i < |results| && results[i].Err?
  }

  /** Version `ver` is verified for the parent and for every dependency. */
  predicate VerifiedByAll(ver: VersionNumber, verified: VersionRanges, results: seq<DepResult>)
  {
    ver in verified && forall i :: 0 <= i < |results| ==> results[i].Ok? && ver in results[i].value
  }

  /**
    The decision over the dependency results: no dependencies; changed if
    one of them failed or no version is verified for all; otherwise
    unchanged, carrying the dependencies.
   */
  function DepsChanged(verified: VersionRanges, deps: seq<DiceKey>, results: seq<DepResult>): DidDepsChange
  {
    if |deps| == 0 then
      NoDeps
    else if AnyError(results) || VerifiedIntersection(verified, results) == {} then
      Changed
    else
      NoChange(deps)
  }

  /**
    A version is in the running intersection exactly when the parent and
    every dependency that returned ranges verify it; in particular the
    running intersection never leaves the parent's verified versions.
   */
  lemma {:induction false} VerifiedIntersectionMembers(verified: VersionRanges, results: seq<DepResult>, ver: VersionNumber)
    ensures ver in VerifiedIntersection(verified, results) <==>
              ver in verified && forall i :: 0 <= i < |results| && results[i].Ok? ==> ver in results[i].value
  {
    if results != [] {
      var n := |results| - 1;
      var prefix := results[..n];
      VerifiedIntersectionMembers(verified, prefix, ver);
      assert forall i :: 0 <= i < n ==> prefix[i] == results[i];
    }
  }

  /** Seeing more dependency results can only shrink the running intersection. */
  lemma VerifiedIntersectionShrinks(verified: VersionRanges, results: seq<DepResult>, n: nat)
    requires n <= |results|
    ensures VerifiedIntersection(verified, results) <= VerifiedIntersection(verified, results[..n])
  {
    forall ver | ver in VerifiedIntersection(verified, results)
      ensures ver in VerifiedIntersection(verified, results[..n])
    {
      VerifiedIntersectionMembers(verified, results, ver);
      VerifiedIntersectionMembers(verified, results[..n], ver);
    }
  }

  /**
    With at least one dependency, the dependencies changed exactly when one
    of them failed or no version is verified by the parent and all of them;
    unchanged carries exactly the dependency list.
   */
  lemma DepsChangedCharacterization(verified: VersionRanges, deps: seq<DiceKey>, results: seq<DepResult>)
    ensures DepsChanged(verified, deps, results) == NoDeps <==> |deps| == 0
    ensures |deps| > 0 ==>
              (DepsChanged(verified, deps, results) == Changed <==>
                 AnyError(results) || !exists ver :: VerifiedByAll(ver, verified, results))
    ensures DepsChanged(verified, deps, results).NoChange? ==>
              DepsChanged(verified, deps, results).deps == deps
  {
    if |deps| > 0 && !AnyError(results) {
      if VerifiedIntersection(verified, results) != {} {
        var ver :| ver in VerifiedIntersection(verified, results);
        VerifiedIntersectionMembers(verified, results, ver);
        assert VerifiedByAll(ver, verified, results);
      }
      if exists ver :: VerifiedByAll(ver, verified, results) {
        var ver :| VerifiedByAll(ver, verified, results);
        VerifiedIntersectionMembers(verified, results, ver);
      }
    }
  }

  /**
    The decision does not depend on the order in which the dependency
    results complete.
   */
  lemma DepsChangedOrderIndependent(verified: VersionRanges, deps: seq<DiceKey>, results: seq<DepResult>, reordered: seq<DepResult>)
    requires multiset(results) == multiset(reordered)
    ensures DepsChanged(verified, deps, results) == DepsChanged(verified, deps, reordered)
  {
    assert forall r :: r in results <==> r in reordered by {
      forall r ensures r in results <==> r in reordered {
        assert r in results <==> r in multiset(results);
        assert r in reordered <==> r in multiset(reordered);
      }
    }
    assert AnyError(results) <==> AnyError(reordered) by {
      if AnyError(results) {
        var i :| 0 <= i < |results| && results[i].Err?;
        assert results[i] in reordered;
      }
      if AnyError(reordered) {
        var i :| 0 <= i < |reordered| && reordered[i].Err?;
        assert reordered[i] in results;
      }
    }
    forall ver
      ensures ver in VerifiedIntersection(verified, results) <==> ver in VerifiedIntersection(verified, reordered)
    {
      VerifiedIntersectionMembers(verified, results, ver);
      VerifiedIntersectionMembers(verified, reordered, ver);
      if ver in verified {
        if forall i :: 0 <= i < |results| && results[i].Ok? ==> ver in results[i].value {
          forall j | 0 <= j < |reordered| && reordered[j].Ok? ensures ver in reordered[j].value {
            assert reordered[j] in results;
          }
        }
        if forall i :: 0 <= i < |reordered| && reordered[i].Ok? ==> ver in reordered[i].value {
          forall j | 0 <= j < |results| && results[j].Ok? ensures ver in results[j].value {
            assert results[j] in reordered;
          }
        }
      }
    }
    assert VerifiedIntersection(verified, results) == VerifiedIntersection(verified, reordered);
  }

  /**
    Folds the dependency results, in the order they complete, into the
    decision: stops at the first failure or as soon as no version is
    verified by the parent and every dependency seen so far.
   */
  method ComputeWhetherDependenciesChanged(verifiedVersions: VersionRanges, deps: seq<DiceKey>, results: seq<DepResult>)
    returns (d: DidDepsChange)
    requires |results| == |deps|
    ensures d == DepsChanged(verifiedVersions, deps, results)
    ensures d == NoDeps <==> |deps| == 0
    ensures d.NoChange? ==> d.deps == deps
  {
    if |deps| == 0 {
      return NoDeps;
    }
    var verified := verifiedVersions;
    var i := 0;
    while i < |results|
      invariant 0 <= i <= |results|
      invariant verified == VerifiedIntersection(verifiedVersions, results[..i])
      invariant verified <= verifiedVersions
      invariant !AnyError(results[..i])
      invariant i > 0 ==> verified != {}
    {
      assert results[..i + 1][..i] == results[..i];
      if results[i].Err? {
        return Changed;
      }
      verified := verified * results[i].value;
      if verified == {} {
        VerifiedIntersectionShrinks(verifiedVersions, results, i + 1);
        return Changed;
      }
      i := i + 1;
    }
    assert results[..i] == results;
    return NoChange(deps);
  }

  /** A value an evaluation produced; only valid values may be cached. */
  datatype DiceValue = DiceValue(payload: nat, valid: bool)

  type DiceValidValue = v: DiceValue | v.valid witness DiceValue(0, true)

  /** A value together with the versions at which it is verified. */
  datatype DiceComputedValue = DiceComputedValue(value: DiceValue, history: VersionRanges)

  datatype VersionedGraphKey = VersionedGraphKey(v: VersionNumber, k: DiceKey)

  /** The requests the engine sends to the core state. */
  datatype StateRequest =
    | LookupKey(key: VersionedGraphKey)
    | UpdateComputed(key: VersionedGraphKey, epoch: VersionEpoch, value: DiceValidValue, deps: seq<DiceKey>)

  /** A cached value whose verified versions do not include the requested one. */
  datatype Mismatch = Mismatch(entry: DiceValidValue, verifiedVersions: VersionRanges, depsToValidate: seq<DiceKey>)

  /** The answer of the core state to a lookup. */
  datatype VersionedGraphResult = Match(entry: DiceComputedValue) | Compute | CheckDeps(mismatch: Mismatch)

  /** What the user computation returned: its value and the keys it depended on. */
  datatype Evaluation = Evaluation(value: DiceValue, deps: seq<DiceKey>)

  /** How the task ends: not at all (cancelled), with a value or error, or with the state's reply to its cache update. */
  datatype TaskFinish = NotFinished | Finished(result: Result<DiceComputedValue, DiceError>) | FinishedWithUpdateReply

  /** The requests sent in order, whether the evaluator ran, and how the task ended. */
  datatype Outcome = Outcome(requests: seq<StateRequest>, evaluated: bool, finish: TaskFinish)

  /** The cache updates among `requests`, in order. */
  function UpdatesIn(requests: seq<StateRequest>): seq<StateRequest>
  {
    if requests == [] then []
    else (if requests[0].UpdateComputed? then [requests[0]] else []) + UpdatesIn(requests[1..])
  }

  /** The outcome sends some cache update. */
  predicate IssuesUpdate(o: Outcome)
  {
    UpdatesIn(o.requests) != []
  }

  /** The outcome sends at most one cache update, and only for version `v` of key `k` in the engine's epoch. */
  predicate UpdatesOnlyAt(o: Outcome, v: VersionNumber, k: DiceKey, epoch: VersionEpoch)
  {
    var updates := UpdatesIn(o.requests);
    |updates| <= 1 && forall u :: u in updates ==> u.UpdateComputed? && u.key == VersionedGraphKey(v, k) && u.epoch == epoch
  }

  /**
    Runs the evaluator for key `k` at version `v` and acts on its result,
    once cancellation could (or could not) be disabled.
   */
  function ComputeKey(k: DiceKey, v: VersionNumber, epoch: VersionEpoch,
                      evaluation: Result<Evaluation, DiceError>, cancellationDisabled: bool): (o: Outcome)
    ensures o.evaluated
    ensures UpdatesOnlyAt(o, v, k, epoch)
    ensures IssuesUpdate(o) <==> o.finish == FinishedWithUpdateReply
    ensures !cancellationDisabled ==> o.finish == NotFinished
  {
    if !cancellationDisabled then
      Outcome([], true, NotFinished)
    else
      match evaluation
      case Err(e) => Outcome([], true, Finished(Err(e)))
      case Ok(res) =>
        if res.value.valid then
          Outcome([UpdateComputed(VersionedGraphKey(v, k), epoch, res.value, res.deps)], true, FinishedWithUpdateReply)
        else
          Outcome([], true, Finished(Ok(DiceComputedValue(res.value, {v}))))
  }

  /**
    The three endings of a computation whose cancellation was disabled: a
    valid value is sent to the cache under `(v, k)` with the evaluation's
    deps; an invalid value ends the task, verified at `v` only, without an
    update; an error ends the task with that error.
   */
  lemma ComputeKeyEndings(k: DiceKey, v: VersionNumber, epoch: VersionEpoch,
                          evaluation: Result<Evaluation, DiceError>, cancellationDisabled: bool)
    ensures !cancellationDisabled ==> !IssuesUpdate(ComputeKey(k, v, epoch, evaluation, cancellationDisabled))
    ensures cancellationDisabled && evaluation.Ok? && evaluation.value.value.valid ==>
              ComputeKey(k, v, epoch, evaluation, cancellationDisabled).requests ==
                [UpdateComputed(VersionedGraphKey(v, k), epoch, evaluation.value.value, evaluation.value.deps)]
    ensures cancellationDisabled && evaluation.Ok? && !evaluation.value.value.valid ==>
              var o := ComputeKey(k, v, epoch, evaluation, cancellationDisabled);
              !IssuesUpdate(o) && o.finish == Finished(Ok(DiceComputedValue(evaluation.value.value, {v})))
    ensures cancellationDisabled && evaluation.Err? ==>
              var o := ComputeKey(k, v, epoch, evaluation, cancellationDisabled);
              !IssuesUpdate(o) && o.finish == Finished(Err(evaluation.error))
  {
  }

  /** The outcome `o` preceded by the request `r`. */
  function After(r: StateRequest, o: Outcome): (o': Outcome)
    ensures !r.UpdateComputed? ==> UpdatesIn(o'.requests) == UpdatesIn(o.requests)
  {
    assert ([r] + o.requests)[1..] == o.requests;
    Outcome([r] + o.requests, o.evaluated, o.finish)
  }

  /** The cached value is reused: the lookup matched, or the dependencies did not change. */
  predicate Reused(lookup: VersionedGraphResult, depResults: seq<DepResult>)
  {
    || lookup.Match?
    || (lookup.CheckDeps? &&
        DepsChanged(lookup.mismatch.verifiedVersions, lookup.mismatch.depsToValidate, depResults).NoChange?)
  }

  /**
    Produces the value of key `k` at version `v`: looks it up, then reuses
    a matching entry, recomputes, or checks the dependencies of a
    mismatching entry and either reuses it (refreshing the cache) or
    recomputes.
   */
  function EvalEntryVersioned(k: DiceKey, v: VersionNumber, epoch: VersionEpoch,
                              lookup: VersionedGraphResult, depResults: seq<DepResult>,
                              evaluation: Result<Evaluation, DiceError>, cancellationDisabled: bool): (o: Outcome)
    requires lookup.CheckDeps? ==> |depResults| == |lookup.mismatch.depsToValidate|
    ensures |o.requests| > 0 && o.requests[0] == LookupKey(VersionedGraphKey(v, k))
    ensures UpdatesOnlyAt(o, v, k, epoch)
    ensures IssuesUpdate(o) <==> o.finish == FinishedWithUpdateReply
    ensures o.evaluated <==> !Reused(lookup, depResults)
  {
    var lookupRequest := LookupKey(VersionedGraphKey(v, k));
    match lookup
    case Match(entry) =>
      Outcome([lookupRequest], false, Finished(Ok(entry)))
    case Compute =>
      After(lookupRequest, ComputeKey(k, v, epoch, evaluation, cancellationDisabled))
    case CheckDeps(mismatch) =>
      match DepsChanged(mismatch.verifiedVersions, mismatch.depsToValidate, depResults)
      case NoChange(deps) =>
        var update := UpdateComputed(VersionedGraphKey(v, k), epoch, mismatch.entry, deps);
        assert UpdatesIn([update]) == [update];
        After(lookupRequest, Outcome([update], false, FinishedWithUpdateReply))
      case _ =>
        After(lookupRequest, ComputeKey(k, v, epoch, evaluation, cancellationDisabled))
  }

  /** A matching cache entry ends the task with that entry, without evaluating or updating. */
  lemma MatchReusesEntry(k: DiceKey, v: VersionNumber, epoch: VersionEpoch, entry: DiceComputedValue,
                         depResults: seq<DepResult>, evaluation: Result<Evaluation, DiceError>, cancellationDisabled: bool)
    ensures var o := EvalEntryVersioned(k, v, epoch, Match(entry), depResults, evaluation, cancellationDisabled);
            !o.evaluated && !IssuesUpdate(o) && o.finish == Finished(Ok(entry))
  {
  }

  /**
    A mismatching entry whose dependencies did not change is reused: the
    cache is updated at `(v, k)` with that entry and the same deps, and
    nothing is evaluated. Otherwise the key is computed afresh.
   */
  lemma CheckDepsDispatch(k: DiceKey, v: VersionNumber, epoch: VersionEpoch, mismatch: Mismatch,
                          depResults: seq<DepResult>, evaluation: Result<Evaluation, DiceError>, cancellationDisabled: bool)
    requires |depResults| == |mismatch.depsToValidate|
    ensures var o := EvalEntryVersioned(k, v, epoch, CheckDeps(mismatch), depResults, evaluation, cancellationDisabled);
            var d := DepsChanged(mismatch.verifiedVersions, mismatch.depsToValidate, depResults);
            && (d.NoChange? ==>
                  && !o.evaluated
                  && o.requests == [LookupKey(VersionedGraphKey(v, k)),
                                    UpdateComputed(VersionedGraphKey(v, k), epoch, mismatch.entry, mismatch.depsToValidate)])
            && (!d.NoChange? ==>
                  o == After(LookupKey(VersionedGraphKey(v, k)), ComputeKey(k, v, epoch, evaluation, cancellationDisabled)))
  {
  }

  /**
    The projection path: evaluates `k` synchronously; a valid value is sent
    to the cache (without waiting), and the result is always the value
    verified at `v` only, or the evaluation's error.
   */
  function ProjectForKey(k: DiceKey, v: VersionNumber, epoch: VersionEpoch,
                         evaluation: Result<Evaluation, DiceError>): (o: Outcome)
    ensures o.evaluated && o.finish.Finished?
    ensures UpdatesOnlyAt(o, v, k, epoch)
    ensures IssuesUpdate(o) <==> evaluation.Ok? && evaluation.value.value.valid
    ensures evaluation.Ok? ==> o.finish.result == Ok(DiceComputedValue(evaluation.value.value, {v}))
    ensures evaluation.Err? ==> o.finish.result == Err(evaluation.error)
  {
    match evaluation
    case Err(e) => Outcome([], true, Finished(Err(e)))
    case Ok(res) =>
      var requests :=
        if res.value.valid then [UpdateComputed(VersionedGraphKey(v, k), epoch, res.value, res.deps)] else [];
      Outcome(requests, true, Finished(Ok(DiceComputedValue(res.value, {v}))))
  }
}
