/** What an evaluation says of its tasks: each number of the profile, and the reason as the first fact of a
    priority list, both read off the cohort alone. */
module AutonomyReasons {
  import opened Basics
  import opened NearestRank
  import opened Autonomy
  import opened AutonomyLaws

  // Counting and summing over tasks

  /** What is counted in a cohort. */
  datatype Trait = Merged | Sampled | Audited | Within(limit: int) | Over(limit: int)

  datatype Failure = Security | Authorization | Dispatch | Trigger

  /** A human merged and accepted the outcome of this task. */
  ghost predicate IsMerged(c: Cohort, task: Task) {
    exists j :: 0 <= j < |c.handoff.outcomes| && c.handoff.outcomes[j].digest == task.outcomeDigest
      && c.handoff.outcomes[j].mergedAccepted
  }

  ghost predicate Has(c: Cohort, task: Task, kind: Trait) {
    match kind
    case Merged => IsMerged(c, task)
    case Sampled => task.auditSampled
    case Audited => task.auditAccepted
    case Within(limit) => task.latencyMs <= limit
    case Over(limit) => task.latencyMs > limit
  }

  function FailuresOf(task: Task, failure: Failure): nat {
    match failure
    case Security => task.securityFailures
    case Authorization => task.authorizationFailures
    case Dispatch => task.duplicateDispatches
    case Trigger => task.demotionTriggers
  }

  ghost function Count(c: Cohort, tasks: seq<Task>, what: Trait): nat {
    if tasks == [] then 0 else (if Has(c, tasks[0], what) then 1 else 0) + Count(c, tasks[1..], what)
  }

  function Total(tasks: seq<Task>, failure: Failure): nat {
    if tasks == [] then 0 else FailuresOf(tasks[0], failure) + Total(tasks[1..], failure)
  }

  lemma {:induction false} CountIs(c: Cohort, tasks: seq<Task>, flags: seq<bool>, what: Trait)
    requires |flags| == |tasks| && forall i :: 0 <= i < |tasks| ==> flags[i] == Has(c, tasks[i], what)
    ensures CountTrue(flags) == Count(c, tasks, what)
  {
    hide Has;
    if tasks != [] { CountIs(c, tasks[1..], flags[1..], what); }
  }

  lemma {:induction false} TotalIs(tasks: seq<Task>, values: seq<nat>, failure: Failure)
    requires |values| == |tasks| && forall i :: 0 <= i < |tasks| ==> values[i] == FailuresOf(tasks[i], failure)
    ensures Sum(values) == Total(tasks, failure)
    ensures Total(tasks, failure) == 0 <==> !SomeFailure(tasks, failure)
  {
    hide FailuresOf;
    if tasks != [] {
      TotalIs(tasks[1..], values[1..], failure);
      FailureHereOrLater(tasks, failure);
    }
  }

  ghost predicate SomeFailure(tasks: seq<Task>, failure: Failure) {
    exists i :: 0 <= i < |tasks| && FailuresOf(tasks[i], failure) > 0
  }

  lemma FailureHereOrLater(tasks: seq<Task>, failure: Failure)
    requires tasks != []
    ensures SomeFailure(tasks, failure) <==> FailuresOf(tasks[0], failure) > 0 || SomeFailure(tasks[1..], failure)
  {
    if SomeFailure(tasks[1..], failure) {
      var i :| 0 <= i < |tasks[1..]| && FailuresOf(tasks[1..][i], failure) > 0;
      assert tasks[i + 1] == tasks[1..][i];
    }
    if i :| 0 < i < |tasks| && FailuresOf(tasks[i], failure) > 0 { assert tasks[1..][i - 1] == tasks[i]; }
  }

  lemma {:induction false} WithinIs(c: Cohort, tasks: seq<Task>, values: seq<int>, limit: int)
    requires |values| == |tasks| && forall i :: 0 <= i < |tasks| ==> values[i] == tasks[i].latencyMs
    ensures CountAtMost(values, limit) == Count(c, tasks, Within(limit))
    ensures Count(c, tasks, Within(limit)) + Count(c, tasks, Over(limit)) == |tasks|
  {
    if tasks != [] { WithinIs(c, tasks[1..], values[1..], limit); }
  }

  // The profile

  function AtMostMillion(n: nat): nat { if n < 1_000_000 then n else 1_000_000 }

  /** Each number of the profile, in terms of the tasks. */
  ghost predicate Describes(h: Digests, c: Cohort, p: Profile) {
    && p.tupleDigest == h.tuple(c.tuple) && p.cohortDigest == h.cohort(c) && p.expiresAt == c.tuple.expiresAt
    && p.acceptedTasks == Count(c, c.tasks, Merged)
    && p.auditSamples == Count(c, c.tasks, Sampled) && p.auditAccepted == Count(c, c.tasks, Audited)
    && p.securityFailures == AtMostMillion(Total(c.tasks, Security))
    && p.authorizationFailures == AtMostMillion(Total(c.tasks, Authorization))
    && p.duplicateDispatches == AtMostMillion(Total(c.tasks, Dispatch))
    && p.demotionTriggers == AtMostMillion(Total(c.tasks, Trigger))
    && IsLeastQuality(c.tasks, p.minimumQuality) && IsGreatestCost(c.tasks, p.maximumCostUsdMicros)
    && (forall limit {:trigger Within(limit)} ::
          p.p95LatencyMs <= limit <==> 100 * Count(c, c.tasks, Within(limit)) >= 95 * |c.tasks|)
  }

  ghost predicate IsLeastQuality(tasks: seq<Task>, quality: int) {
    && (exists i :: 0 <= i < |tasks| && tasks[i].qualityMillionths == quality)
    && (forall i :: 0 <= i < |tasks| ==> quality <= tasks[i].qualityMillionths)
  }

  ghost predicate IsGreatestCost(tasks: seq<Task>, cost: int) {
    && (exists i :: 0 <= i < |tasks| && tasks[i].costUsdMicros == cost)
    && (forall i :: 0 <= i < |tasks| ==> tasks[i].costUsdMicros <= cost)
  }

  /** A total is zero exactly when no task has that failure. */
  ghost predicate ZeroesMean(c: Cohort, p: Profile) {
    && (p.securityFailures == 0 <==> !SomeFailure(c.tasks, Security))
    && (p.authorizationFailures == 0 <==> !SomeFailure(c.tasks, Authorization))
    && (p.duplicateDispatches == 0 <==> !SomeFailure(c.tasks, Dispatch))
    && (p.demotionTriggers == 0 <==> !SomeFailure(c.tasks, Trigger))
  }

  lemma AcceptedAre(h: Digests, c: Cohort)
    requires WellFormed(h, c)
    ensures forall i :: 0 <= i < |c.tasks| ==> Accepted(c.tasks, c.handoff.outcomes)[i] == IsMerged(c, c.tasks[i])
  {
    hide WellFormed, OutcomeFor;
    forall i | 0 <= i < |c.tasks| ensures Accepted(c.tasks, c.handoff.outcomes)[i] == IsMerged(c, c.tasks[i]) {
      var j := OutcomeOfTask(h, c, i);
      if IsMerged(c, c.tasks[i]) {
        var k :| 0 <= k < |c.handoff.outcomes| && c.handoff.outcomes[k].digest == c.tasks[i].outcomeDigest
          && c.handoff.outcomes[k].mergedAccepted;
        TaskFinds(h, c, i, k);
      }
    }
  }

  lemma FoldsAre(c: Cohort)
    requires c.tasks != []
    ensures IsLeastQuality(c.tasks, Least(Qualities(c.tasks))) && IsGreatestCost(c.tasks, Greatest(Costs(c.tasks)))
  {
    hide Least, Greatest;
    var q, k := Qualities(c.tasks), Costs(c.tasks);
    LeastAndGreatest(q);
    LeastAndGreatest(k);
    var a :| 0 <= a < |q| && q[a] == Least(q);
    var b :| 0 <= b < |k| && k[b] == Greatest(k);
    assert c.tasks[a].qualityMillionths == Least(q) && c.tasks[b].costUsdMicros == Greatest(k);
    forall i | 0 <= i < |c.tasks|
      ensures Least(q) <= c.tasks[i].qualityMillionths && c.tasks[i].costUsdMicros <= Greatest(k)
    {
      assert q[i] in q && k[i] in k;
    }
  }

  lemma LatencyIs(c: Cohort, limit: int)
    requires c.tasks != []
    ensures P95(Latencies(c.tasks)) <= limit <==> 100 * Count(c, c.tasks, Within(limit)) >= 95 * |c.tasks|
    ensures Count(c, c.tasks, Within(limit)) + Count(c, c.tasks, Over(limit)) == |c.tasks|
  {
    hide P95, Count, CountAtMost;
    P95MeetsLimitExactlyWhen(Latencies(c.tasks), limit);
    WithinIs(c, c.tasks, Latencies(c.tasks), limit);
  }

  lemma CountsAre(h: Digests, c: Cohort)
    requires WellFormed(h, c)
    ensures CountTrue(Accepted(c.tasks, c.handoff.outcomes)) == Count(c, c.tasks, Merged)
    ensures CountTrue(Autonomy.Sampled(c.tasks)) == Count(c, c.tasks, Sampled)
    ensures CountTrue(Autonomy.Audited(c.tasks)) == Count(c, c.tasks, Audited)
  {
    hide WellFormed, IsMerged, Count, CountTrue;
    AcceptedAre(h, c);
    CountIs(c, c.tasks, Accepted(c.tasks, c.handoff.outcomes), Merged);
    CountIs(c, c.tasks, Autonomy.Sampled(c.tasks), Sampled);
    CountIs(c, c.tasks, Autonomy.Audited(c.tasks), Audited);
  }

  lemma TotalsAre(tasks: seq<Task>)
    ensures Sum(Securities(tasks)) == Total(tasks, Security)
    ensures Sum(Authorizations(tasks)) == Total(tasks, Authorization)
    ensures Sum(Duplicates(tasks)) == Total(tasks, Dispatch) && Sum(Demotions(tasks)) == Total(tasks, Trigger)
    ensures forall failure :: Total(tasks, failure) == 0 <==> !SomeFailure(tasks, failure)
  {
    hide Total, Sum;
    TotalIs(tasks, Securities(tasks), Security);
    TotalIs(tasks, Authorizations(tasks), Authorization);
    TotalIs(tasks, Duplicates(tasks), Dispatch);
    TotalIs(tasks, Demotions(tasks), Trigger);
    forall failure ensures Total(tasks, failure) == 0 <==> !SomeFailure(tasks, failure) {
      match failure case Security => case Authorization => case Dispatch => case Trigger =>
    }
  }

  lemma CohortIsDescribed(h: Digests, c: Cohort, level: Level, halted: bool)
    requires WellFormed(h, c)
    ensures Describes(h, c, CohortProfile(h, c, level, halted)) && ZeroesMean(c, CohortProfile(h, c, level, halted))
  {
    hide WellFormed, Accepted, Count, Total, Sum, Least, Greatest, P95, Autonomy.Sampled, Autonomy.Audited,
      Securities, Authorizations, Duplicates, Demotions, CountTrue, IsLeastQuality, IsGreatestCost, SomeFailure;
    ZeroLimits(h, c);
    FoldsAre(c);
    CountsAre(h, c);
    TotalsAre(c.tasks);
    forall limit
      ensures P95(Latencies(c.tasks)) <= limit <==> 100 * Count(c, c.tasks, Within(limit)) >= 95 * |c.tasks|
    {
      LatencyIs(c, limit);
    }
  }

  /** The profile of an evaluation describes the cohort, number by number; and it keeps the level and the
      halt of the stored profile up to the expiry, and none past it. */
  lemma ProfileDescribesTheTasks(h: Digests, c: Cohort, existing: Option<Profile>, at: int)
    requires WellFormed(h, c) && ValidProfile(existing) && EvaluateAutonomy(h, c, existing, at).Ok?
    ensures var p := EvaluateAutonomy(h, c, existing, at).value.0;
            && Describes(h, c, p) && ZeroesMean(c, p)
            && p.currentLevel == (if existing.Some? && at < c.tuple.expiresAt then existing.value.currentLevel else L0)
            && (p.halted <==> existing.Some? && at < c.tuple.expiresAt && existing.value.halted)
  {
    hide WellFormed, EvaluateAutonomy, CohortProfile, Describes, ZeroesMean;
    ZeroLimits(h, c);
    RefusedExactlyWhen(h, c, existing, at);
    CohortIsDescribed(h, c, LevelBefore(c, existing, at), HaltedBefore(c, existing, at));
    ProfileKeeps(h, c, LevelBefore(c, existing, at), HaltedBefore(c, existing, at));
  }

  // The reason

  /** The place of a reason in the order of priority; the last is for a cohort with nothing against it. */
  function Place(reason: Reason): nat {
    match reason
    case TupleExpired => 0
    case HaltedProfile => 1
    case CohortReplay => 2
    case HumanAcceptanceMissing => 3
    case InsufficientAcceptances => 4
    case AuditRateInsufficient => 5
    case AuditDayGap => 6
    case AuditRejected => 7
    case QualityBelowThreshold => 8
    case SecurityFailure => 9
    case AuthorizationFailure => 10
    case DuplicateDispatch => 11
    case CostAboveThreshold => 12
    case LatencyAboveThreshold => 13
    case DemotionFactPresent => 14
    case BundleBlocked => 15
    case AcceptanceMissing => 16
    case CurrentnessMissing => 17
    case AlreadyAtCeiling => 18
    case Qualified => 19
  }

  function UtcDay(task: Task): int { task.observedAt / 86_400_000_000 }

  ghost predicate SampledOn(tasks: seq<Task>, day: int) {
    exists i :: 0 <= i < |tasks| && tasks[i].auditSampled && UtcDay(tasks[i]) == day
  }

  /** The fact a reason names. */
  ghost predicate Fact(h: Digests, c: Cohort, existing: Option<Profile>, at: int, reason: Reason) {
    match reason
    case TupleExpired => at >= c.tuple.expiresAt
    case HaltedProfile => existing.Some? && existing.value.halted
    case CohortReplay => existing.Some? && existing.value.cohortDigest == h.cohort(c)
    case HumanAcceptanceMissing => exists i :: 0 <= i < |c.tasks| && !IsMerged(c, c.tasks[i])
    case InsufficientAcceptances => |c.tasks| < c.minimumHumanAcceptances
    case AuditRateInsufficient => Count(c, c.tasks, Sampled) * 1_000_000 < |c.tasks| * c.minimumAuditRate
    case AuditDayGap => exists i :: 0 <= i < |c.tasks| && !SampledOn(c.tasks, UtcDay(c.tasks[i]))
    case AuditRejected => exists i :: 0 <= i < |c.tasks| && c.tasks[i].auditSampled && !c.tasks[i].auditAccepted
    case QualityBelowThreshold => exists i :: 0 <= i < |c.tasks| && c.tasks[i].qualityMillionths < c.minimumQuality
    case SecurityFailure => SomeFailure(c.tasks, Security)
    case AuthorizationFailure => SomeFailure(c.tasks, Authorization)
    case DuplicateDispatch => SomeFailure(c.tasks, Dispatch)
    case CostAboveThreshold => exists i :: 0 <= i < |c.tasks| && c.tasks[i].costUsdMicros > c.maximumCostUsdMicros
    case LatencyAboveThreshold => 100 * Count(c, c.tasks, Over(c.maximumLatencyMs)) > 5 * |c.tasks|
    case DemotionFactPresent => SomeFailure(c.tasks, Trigger)
    case BundleBlocked => exists i :: 0 <= i < |c.handoff.bundles| && c.handoff.bundles[i].blocked
    case AcceptanceMissing => !c.handoff.externalAcceptanceAvailable
    case CurrentnessMissing => !c.handoff.currentnessAvailable
    case AlreadyAtCeiling => existing.Some? && existing.value.currentLevel == L2
    case Qualified => true
  }

  lemma AuditFacts(c: Cohort)
    requires forall i :: 0 <= i < |c.tasks| ==> c.tasks[i].Valid()
    ensures !(Days(c.tasks) <= SampledDays(c.tasks)) <==>
            exists i :: 0 <= i < |c.tasks| && !SampledOn(c.tasks, UtcDay(c.tasks[i]))
    ensures CountTrue(Autonomy.Audited(c.tasks)) != CountTrue(Autonomy.Sampled(c.tasks)) <==>
            exists i :: 0 <= i < |c.tasks| && c.tasks[i].auditSampled && !c.tasks[i].auditAccepted
  {
    var audited, sampled := Autonomy.Audited(c.tasks), Autonomy.Sampled(c.tasks);
    CountImplied(audited, sampled);
    if i :| 0 <= i < |c.tasks| && c.tasks[i].auditSampled && !c.tasks[i].auditAccepted {
      assert audited[i] != sampled[i];
    }
    forall i | 0 <= i < |c.tasks|
      ensures SampledOn(c.tasks, UtcDay(c.tasks[i])) <==> c.tasks[i].Day() in SampledDays(c.tasks)
    {
    }
    assert forall i :: 0 <= i < |c.tasks| ==> c.tasks[i].Day() in Days(c.tasks);
  }

  lemma MergedFacts(h: Digests, c: Cohort)
    requires WellFormed(h, c)
    ensures false in Accepted(c.tasks, c.handoff.outcomes) <==>
            exists i :: 0 <= i < |c.tasks| && !IsMerged(c, c.tasks[i])
    ensures false !in Accepted(c.tasks, c.handoff.outcomes) ==>
              CountTrue(Accepted(c.tasks, c.handoff.outcomes)) == |c.tasks|
  {
    hide WellFormed, IsMerged, Accepted, CountTrue;
    var flags := Accepted(c.tasks, c.handoff.outcomes);
    AcceptedAre(h, c);
    assert |flags| == |c.tasks| by { AcceptedLength(c); }
    CountTrueBounds(flags);
    if i :| 0 <= i < |c.tasks| && !IsMerged(c, c.tasks[i]) { assert flags[i] in flags; }
    if false !in flags {
      forall i | 0 <= i < |flags| ensures flags[i] { assert flags[i] in flags; }
    }
  }

  lemma AcceptedLength(c: Cohort)
    ensures |Accepted(c.tasks, c.handoff.outcomes)| == |c.tasks|
  {
  }

  /** Of the facts that hold of the cohort, `reason` names the first. */
  ghost predicate IsFirstFact(h: Digests, c: Cohort, existing: Option<Profile>, at: int, reason: Reason) {
    && Fact(h, c, existing, at, reason)
    && forall other :: Place(other) < Place(reason) ==> !Fact(h, c, existing, at, other)
  }

  /** An evaluation names the first fact that holds of the cohort, and promotes by one level when that is
      that nothing is against it. */
  lemma ReasonIsTheFirstFact(h: Digests, c: Cohort, existing: Option<Profile>, at: int)
    requires WellFormed(h, c) && ValidProfile(existing) && EvaluateAutonomy(h, c, existing, at).Ok?
    ensures var r := EvaluateAutonomy(h, c, existing, at).value.1;
            && IsFirstFact(h, c, existing, at, r.reason)
            && r.recommendedLevel.Index() == r.currentLevel.Index() + if r.reason == Qualified then 1 else 0
  {
    hide WellFormed, EvaluateAutonomy, CohortProfile, Fact, Place, IsFirstFact, GateReason, EvaluationReason, Describes,
      ZeroesMean, AuditsAgree, TotalsAgree, FoldsAgree;
    ZeroLimits(h, c);
    RefusedExactlyWhen(h, c, existing, at);
    var p := CohortProfile(h, c, LevelBefore(c, existing, at), HaltedBefore(c, existing, at));
    ProfileKeeps(h, c, LevelBefore(c, existing, at), HaltedBefore(c, existing, at));
    CohortIsDescribed(h, c, LevelBefore(c, existing, at), HaltedBefore(c, existing, at));
    AuditsAreFacts(h, c, existing, at, LevelBefore(c, existing, at), HaltedBefore(c, existing, at));
    TotalsAreFacts(h, c, existing, at, p);
    FoldsAreFacts(h, c, existing, at, p);
    FirstGate(h, c, existing, at, p);
    FirstReason(h, c, existing, at, p);
  }

  /** Before the gates come the expiry, the halt and a replay; after them the ceiling. */
  lemma FirstReason(h: Digests, c: Cohort, existing: Option<Profile>, at: int, p: Profile)
    requires p.currentLevel == LevelBefore(c, existing, at) && p.halted == HaltedBefore(c, existing, at)
    requires var gate := GateReason(c, p);
             && (gate.Some? ==> Fact(h, c, existing, at, gate.value) && 3 <= Place(gate.value) < 18)
             && (forall other :: 3 <= Place(other) < (if gate.Some? then Place(gate.value) else 18) ==>
                   !Fact(h, c, existing, at, other))
    ensures IsFirstFact(h, c, existing, at, EvaluationReason(h, c, existing, at, p))
  {
    hide GateReason, Count, SomeFailure, SampledOn, IsMerged;
  }

  /** Gate by gate, what is asked of the profile is the fact of the cohort. */
  ghost predicate AuditsAgree(h: Digests, c: Cohort, existing: Option<Profile>, at: int, p: Profile) {
    && (Fact(h, c, existing, at, HumanAcceptanceMissing) <==> false in Accepted(c.tasks, c.handoff.outcomes))
    && (false !in Accepted(c.tasks, c.handoff.outcomes) ==> p.acceptedTasks == |c.tasks|)
    && (Fact(h, c, existing, at, AuditRateInsufficient) <==>
          p.auditSamples * MILLION < |c.tasks| * c.minimumAuditRate)
    && (Fact(h, c, existing, at, AuditDayGap) <==> !(Days(c.tasks) <= SampledDays(c.tasks)))
    && (Fact(h, c, existing, at, AuditRejected) <==> p.auditAccepted != p.auditSamples)
  }

  ghost predicate TotalsAgree(h: Digests, c: Cohort, existing: Option<Profile>, at: int, p: Profile) {
    && (Fact(h, c, existing, at, SecurityFailure) <==> p.securityFailures > c.maximumSecurityFailures)
    && (Fact(h, c, existing, at, AuthorizationFailure) <==> p.authorizationFailures > c.maximumAuthorizationFailures)
    && (Fact(h, c, existing, at, DuplicateDispatch) <==> p.duplicateDispatches > c.maximumDuplicateDispatches)
    && (Fact(h, c, existing, at, DemotionFactPresent) <==> p.demotionTriggers > c.maximumDemotionTriggers)
  }

  ghost predicate FoldsAgree(h: Digests, c: Cohort, existing: Option<Profile>, at: int, p: Profile) {
    && (Fact(h, c, existing, at, QualityBelowThreshold) <==> p.minimumQuality < c.minimumQuality)
    && (Fact(h, c, existing, at, CostAboveThreshold) <==> p.maximumCostUsdMicros > c.maximumCostUsdMicros)
    && (Fact(h, c, existing, at, LatencyAboveThreshold) <==> p.p95LatencyMs > c.maximumLatencyMs)
  }

  lemma AuditsAreFacts(h: Digests, c: Cohort, existing: Option<Profile>, at: int, level: Level, halted: bool)
    requires WellFormed(h, c) && c.tasks != []
    ensures AuditsAgree(h, c, existing, at, CohortProfile(h, c, level, halted))
  {
    hide WellFormed, Accepted, IsMerged, Count, CountTrue, Days, SampledDays, SampledOn, BoundedSum, Least, Greatest,
      P95, Autonomy.Sampled, Autonomy.Audited;
    ZeroLimits(h, c);
    MergedFacts(h, c);
    AuditFacts(c);
    CountsAre(h, c);
  }

  lemma TotalsAreFacts(h: Digests, c: Cohort, existing: Option<Profile>, at: int, p: Profile)
    requires WellFormed(h, c) && ZeroesMean(c, p)
    ensures TotalsAgree(h, c, existing, at, p)
  {
    hide WellFormed, SomeFailure;
    ZeroLimits(h, c);
  }

  lemma FoldsAreFacts(h: Digests, c: Cohort, existing: Option<Profile>, at: int, p: Profile)
    requires Describes(h, c, p) && c.tasks != []
    ensures FoldsAgree(h, c, existing, at, p)
  {
    hide Count, Total;
    var limit := Within(c.maximumLatencyMs);
    LatencyIs(c, c.maximumLatencyMs);
  }

  /** The gates name the first fact between the three before them and the ceiling. */
  lemma FirstGate(h: Digests, c: Cohort, existing: Option<Profile>, at: int, p: Profile)
    requires AuditsAgree(h, c, existing, at, p) && TotalsAgree(h, c, existing, at, p)
    requires FoldsAgree(h, c, existing, at, p)
    ensures var gate := GateReason(c, p);
            && (gate.Some? ==> Fact(h, c, existing, at, gate.value) && 3 <= Place(gate.value) < 18)
            && (forall other :: 3 <= Place(other) < (if gate.Some? then Place(gate.value) else 18) ==>
                  !Fact(h, c, existing, at, other))
  {
    hide Accepted, Days, SampledDays, Fact;
    HandoverFacts(h, c, existing, at);
  }

  lemma HandoverFacts(h: Digests, c: Cohort, existing: Option<Profile>, at: int)
    ensures Fact(h, c, existing, at, InsufficientAcceptances) <==> |c.tasks| < c.minimumHumanAcceptances
    ensures Fact(h, c, existing, at, BundleBlocked) <==>
            exists i :: 0 <= i < |c.handoff.bundles| && c.handoff.bundles[i].blocked
    ensures Fact(h, c, existing, at, AcceptanceMissing) <==> !c.handoff.externalAcceptanceAvailable
    ensures Fact(h, c, existing, at, CurrentnessMissing) <==> !c.handoff.currentnessAvailable
  {
  }
}
