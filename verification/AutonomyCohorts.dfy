/** Which cohorts can be constructed, and which requests are answered, in terms of the tasks. */
module AutonomyCohorts {
  import opened Basics
  import opened Autonomy
  import opened AutonomyLaws

  /** The tasks are sorted by identifier, and no two share an identity. */
  ghost predicate TasksDiffer(tasks: seq<Task>) {
    forall i, j :: 0 <= i < j < |tasks| ==>
      && Precedes(tasks[i].taskId, tasks[j].taskId) && tasks[i].taskId != tasks[j].taskId
      && tasks[i].runId != tasks[j].runId && tasks[i].headSha != tasks[j].headSha
      && tasks[i].bundleDigest != tasks[j].bundleDigest && tasks[i].outcomeDigest != tasks[j].outcomeDigest
  }

  /** The last bundle and the last outcome under the task's digests are about that task. */
  ghost predicate IsLinked(task: Task, handoff: Handoff, b: int, o: int) {
    && 0 <= b < |handoff.bundles| && 0 <= o < |handoff.outcomes|
    && handoff.bundles[b].digest == task.bundleDigest == handoff.outcomes[o].bundleDigest
    && handoff.outcomes[o].digest == task.outcomeDigest
    && (forall m :: b < m < |handoff.bundles| ==> handoff.bundles[m].digest != task.bundleDigest)
    && (forall m :: o < m < |handoff.outcomes| ==> handoff.outcomes[m].digest != task.outcomeDigest)
    && task.taskId == handoff.bundles[b].taskId && task.runId == handoff.bundles[b].runId
    && task.headSha == handoff.bundles[b].headSha
    && task.humanReceiptDigest == handoff.outcomes[o].humanEvidenceDigest
  }

  ghost predicate IsTied(c: Cohort, task: Task) {
    exists b, o :: IsLinked(task, c.handoff, b, o)
  }

  ghost predicate InWindow(c: Cohort, task: Task) {
    c.windowStartedAt <= task.observedAt <= c.windowEndedAt && task.observedAt < c.tuple.expiresAt
  }

  ghost predicate LimitsFit(c: Cohort) {
    && 30 <= c.minimumHumanAcceptances <= 10_000 && 200_000 <= c.minimumAuditRate <= 1_000_000
    && 0 <= c.minimumQuality <= 1_000_000
    && c.maximumSecurityFailures == 0 && c.maximumAuthorizationFailures == 0
    && c.maximumDuplicateDispatches == 0 && c.maximumDemotionTriggers == 0
    && 0 <= c.maximumCostUsdMicros <= 1_000_000_000_000 && 0 <= c.maximumLatencyMs <= 604_800_000
  }

  ghost predicate Admissible(h: Digests, c: Cohort) {
    && 1 <= |c.tasks| <= 10_000 && TasksDiffer(c.tasks)
    && |c.tasks| == |c.handoff.outcomes| && c.tuple.bindings == c.handoff.bindings
    && (forall i :: 0 <= i < |c.tasks| ==>
          c.tasks[i].tupleDigest == h.tuple(c.tuple) && IsTied(c, c.tasks[i]) && InWindow(c, c.tasks[i]))
    && c.windowStartedAt < c.windowEndedAt <= c.tuple.expiresAt && LimitsFit(c)
  }

  lemma {:induction false} LastOutcome(outcomes: seq<Outcome>, digest: string)
    ensures var found := OutcomeFor(outcomes, digest);
            && (found.None? ==> forall m :: 0 <= m < |outcomes| ==> outcomes[m].digest != digest)
            && (found.Some? ==>
                  && found.value.digest == digest
                  && exists o :: 0 <= o < |outcomes| && outcomes[o] == found.value
                       && forall m :: o < m < |outcomes| ==> outcomes[m].digest != digest)
  {
    if outcomes != [] {
      var n := |outcomes| - 1;
      LastOutcome(outcomes[..n], digest);
      if outcomes[n].digest == digest { assert outcomes[n] == OutcomeFor(outcomes, digest).value; }
    }
  }

  lemma {:induction false} LastBundle(bundles: seq<Bundle>, digest: string)
    ensures var found := BundleFor(bundles, digest);
            && (found.None? ==> forall m :: 0 <= m < |bundles| ==> bundles[m].digest != digest)
            && (found.Some? ==>
                  && found.value.digest == digest
                  && exists b :: 0 <= b < |bundles| && bundles[b] == found.value
                       && forall m :: b < m < |bundles| ==> bundles[m].digest != digest)
  {
    if bundles != [] {
      var n := |bundles| - 1;
      LastBundle(bundles[..n], digest);
      if bundles[n].digest == digest { assert bundles[n] == BundleFor(bundles, digest).value; }
    }
  }

  lemma TiedExactlyWhen(c: Cohort, task: Task)
    ensures LinkError(task, c.handoff) == None <==> IsTied(c, task)
  {
    hide OutcomeFor, BundleFor;
    LastOutcome(c.handoff.outcomes, task.outcomeDigest);
    LastBundle(c.handoff.bundles, task.bundleDigest);
    var bundle, outcome := BundleFor(c.handoff.bundles, task.bundleDigest),
                           OutcomeFor(c.handoff.outcomes, task.outcomeDigest);
    if bundle.Some? && outcome.Some? {
      var b :| 0 <= b < |c.handoff.bundles| && c.handoff.bundles[b] == bundle.value
        && forall m :: b < m < |c.handoff.bundles| ==> c.handoff.bundles[m].digest != task.bundleDigest;
      var o :| 0 <= o < |c.handoff.outcomes| && c.handoff.outcomes[o] == outcome.value
        && forall m :: o < m < |c.handoff.outcomes| ==> c.handoff.outcomes[m].digest != task.outcomeDigest;
      OnlyLink(c, task, b, o);
    }
  }

  lemma OnlyLink(c: Cohort, task: Task, b: nat, o: nat)
    requires b < |c.handoff.bundles| && o < |c.handoff.outcomes|
    requires c.handoff.bundles[b].digest == task.bundleDigest && c.handoff.outcomes[o].digest == task.outcomeDigest
    requires forall m :: b < m < |c.handoff.bundles| ==> c.handoff.bundles[m].digest != task.bundleDigest
    requires forall m :: o < m < |c.handoff.outcomes| ==> c.handoff.outcomes[m].digest != task.outcomeDigest
    ensures IsTied(c, task) <==> IsLinked(task, c.handoff, b, o)
  {
    if b', o' :| IsLinked(task, c.handoff, b', o') { assert b' == b && o' == o; }
  }

  lemma {:induction false} NoLinkErrorExactlyWhen(c: Cohort, tasks: seq<Task>)
    ensures FirstLinkError(tasks, c.handoff) == None <==> forall i :: 0 <= i < |tasks| ==> IsTied(c, tasks[i])
  {
    hide LinkError, IsTied;
    if tasks != [] {
      NoLinkErrorExactlyWhen(c, tasks[1..]);
      TiedExactlyWhen(c, tasks[0]);
      if forall i :: 0 <= i < |tasks[1..]| ==> IsTied(c, tasks[1..][i]) {
        forall i | 0 < i < |tasks| ensures IsTied(c, tasks[i]) { assert tasks[i] == tasks[1..][i - 1]; }
      }
    }
  }

  lemma DifferExactlyWhen(tasks: seq<Task>)
    ensures TasksDiffer(tasks) <==>
            && InOrder(TaskIds(tasks)) && Distinct(TaskIds(tasks)) && Distinct(RunIds(tasks)) && Distinct(Heads(tasks))
            && Distinct(BundleDigests(tasks)) && Distinct(OutcomeDigests(tasks))
  {
    hide Precedes;
    var ids := TaskIds(tasks);
    forall i, j | 0 <= i < j < |tasks| && InOrder(ids) ensures Precedes(ids[i], ids[j]) { InOrderMeans(ids, i, j); }
    if TasksDiffer(tasks) {
      forall i | 0 <= i < |ids| - 1 ensures Precedes(ids[i], ids[i + 1]) {
        assert Precedes(tasks[i].taskId, tasks[i + 1].taskId);
      }
    }
    if InOrder(ids) && Distinct(ids) && Distinct(RunIds(tasks)) && Distinct(Heads(tasks))
       && Distinct(BundleDigests(tasks)) && Distinct(OutcomeDigests(tasks)) {
      forall i, j | 0 <= i < j < |tasks|
        ensures Precedes(tasks[i].taskId, tasks[j].taskId) && tasks[i].taskId != tasks[j].taskId
        ensures tasks[i].runId != tasks[j].runId && tasks[i].headSha != tasks[j].headSha
        ensures tasks[i].bundleDigest != tasks[j].bundleDigest && tasks[i].outcomeDigest != tasks[j].outcomeDigest
      {
        assert Precedes(ids[i], ids[j]) && ids[i] != ids[j] && RunIds(tasks)[i] != RunIds(tasks)[j];
        assert Heads(tasks)[i] != Heads(tasks)[j] && BundleDigests(tasks)[i] != BundleDigests(tasks)[j];
        assert OutcomeDigests(tasks)[i] != OutcomeDigests(tasks)[j];
      }
    }
  }

  /** A cohort passes its checks exactly when its tasks are sorted, different, tied to their bundles and
      outcomes one for one, inside the window, and its limits are the permitted ones. */
  lemma AdmittedExactlyWhen(h: Digests, c: Cohort)
    ensures CohortError(h, c) == None <==> Admissible(h, c)
  {
    hide TasksDiffer, IsTied, FirstLinkError, InOrder, Distinct, TaskIds, RunIds, Heads, BundleDigests, OutcomeDigests;
    DifferExactlyWhen(c.tasks);
    NoLinkErrorExactlyWhen(c, c.tasks);
  }

  /** A request is answered exactly when the window is closed and a stored profile is of this tuple and of
      its expiry; the first of these that fails is named. */
  lemma AnsweredExactlyWhen(h: Digests, c: Cohort, existing: Option<Profile>, at: int)
    requires WellFormed(h, c) && ValidProfile(existing)
    ensures var answer := EvaluateAutonomy(h, c, existing, at);
            if at < c.windowEndedAt then answer == Err(ContractError("invalid_time", "cohort_window_open"))
            else if existing.Some? && existing.value.tupleDigest != h.tuple(c.tuple) then
              answer == Err(ContractError("tuple_mismatch", "existing_profile"))
            else if existing.Some? && existing.value.expiresAt != c.tuple.expiresAt then
              answer == Err(ContractError("profile_expiry_mismatch", ""))
            else
              && answer.Ok?
              && var (p, r) := answer.value;
                 && r.tupleDigest == p.tupleDigest && r.cohortDigest == p.cohortDigest && r.expiresAt == p.expiresAt
                 && r.currentLevel == p.currentLevel && r.evaluatedAt == at
  {
    hide WellFormed, EvaluationReason, CohortProfile, ProfileError, RecommendationError, ValidProfile;
    ZeroLimits(h, c);
    RefusedExactlyWhen(h, c, existing, at);
    ProfileNames(h, c, LevelBefore(c, existing, at), HaltedBefore(c, existing, at));
  }

  lemma ProfileNames(h: Digests, c: Cohort, level: Level, halted: bool)
    requires c.tasks != []
    ensures var p := CohortProfile(h, c, level, halted);
            p.tupleDigest == h.tuple(c.tuple) && p.cohortDigest == h.cohort(c) && p.expiresAt == c.tuple.expiresAt
  {}

  /** A profile can be constructed exactly within these bounds, halted at the lowest level only. */
  lemma ProfileAdmittedExactlyWhen(p: Profile)
    ensures ProfileError(p) == None <==>
            && p.acceptedTasks <= 1_000_000 && p.auditAccepted <= p.auditSamples <= 1_000_000
            && p.securityFailures <= 1_000_000 && p.authorizationFailures <= 1_000_000
            && p.duplicateDispatches <= 1_000_000 && p.demotionTriggers <= 1_000_000
            && 0 <= p.minimumQuality <= 1_000_000 && 0 <= p.maximumCostUsdMicros <= 1_000_000_000_000
            && 0 <= p.p95LatencyMs <= 7 * 24 * 60 * 60 * 1_000 && (p.halted ==> p.currentLevel == L0)
  {
  }

  /** A recommendation can be constructed exactly when the level rises by one for a qualified cohort and stands
      otherwise, and the reason is the expiry exactly from the expiry on, at the lowest level only. */
  lemma RecommendationAdmittedExactlyWhen(r: Recommendation)
    ensures RecommendationError(r) == None <==>
            && (if r.reason == Qualified
                then (r.currentLevel, r.recommendedLevel) in {(L0, L1), (L1, L2)}
                else r.recommendedLevel == r.currentLevel)
            && (r.reason == TupleExpired <==> r.evaluatedAt >= r.expiresAt)
            && (r.reason == TupleExpired ==> r.currentLevel == L0)
  {
  }
}
