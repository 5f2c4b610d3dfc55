/** What an autonomy recommendation means, and what demotion guarantees over whole runs. */
module AutonomyLaws {
  import opened Basics
  import opened NearestRank
  import opened Autonomy

  // Pigeonhole

  ghost function Elements(s: seq<string>): set<string> { set x | x in s }

  lemma {:induction false} ElementsCount(s: seq<string>)
    ensures |Elements(s)| <= |s|
    ensures |Elements(s)| == |s| <==> Distinct(s)
  {
    if s != [] {
      var front, last := s[..|s| - 1], s[|s| - 1];
      ElementsCount(front);
      assert s == front + [last];
      assert Elements(s) == Elements(front) + {last};
      if last in front {
        assert Elements(s) == Elements(front);
        var i :| 0 <= i < |front| && front[i] == last;
        assert s[i] == s[|s| - 1];
      } else if Distinct(front) {
        forall i, j | 0 <= i < j < |s| ensures s[i] != s[j] {
          if j == |front| { assert front[i] in front; } else { assert front[i] != front[j]; }
        }
      } else {
        var i, j :| 0 <= i < j < |front| && front[i] == front[j];
        assert s[i] == s[j];
      }
    }
  }

  lemma SubsetOfSameSize(a: set<string>, b: set<string>)
    requires a <= b && |b| <= |a|
    ensures a == b
  {
    assert |b - a| == |b| - |a|;
  }

  /** As many different digests as there are slots, each found in a slot: the slots differ too, and every
      slot is found. */
  lemma Pigeonhole(a: seq<string>, b: seq<string>)
    requires |a| == |b| && Distinct(a) && forall i :: 0 <= i < |a| ==> a[i] in b
    ensures Distinct(b) && forall j :: 0 <= j < |b| ==> b[j] in a
  {
    ElementsCount(a);
    ElementsCount(b);
    assert Elements(a) <= Elements(b);
    SubsetOfSameSize(Elements(a), Elements(b));
    forall j | 0 <= j < |b| ensures b[j] in a { assert b[j] in Elements(b); }
  }

  // Tasks and outcomes

  function Digested(outcomes: seq<Outcome>): seq<string> {
    seq(|outcomes|, j requires 0 <= j < |outcomes| => outcomes[j].digest)
  }

  lemma {:induction false} OutcomeForFinds(outcomes: seq<Outcome>, digest: string)
    ensures var o := OutcomeFor(outcomes, digest);
            && (o.None? <==> digest !in Digested(outcomes))
            && (o.Some? ==> o.value.digest == digest && o.value in outcomes)
  {
    if outcomes != [] {
      var n := |outcomes| - 1;
      OutcomeForFinds(outcomes[..n], digest);
      assert Digested(outcomes) == Digested(outcomes[..n]) + [outcomes[n].digest];
    }
  }

  lemma {:induction false} LinksHold(tasks: seq<Task>, handoff: Handoff, i: nat)
    requires FirstLinkError(tasks, handoff) == None && i < |tasks|
    ensures LinkError(tasks[i], handoff) == None
  {
    if i > 0 { LinksHold(tasks[1..], handoff, i - 1); }
  }

  /** Task `i` is about outcome `j`, and about its bundle. */
  ghost predicate Links(c: Cohort, i: nat, j: nat)
    requires i < |c.tasks| && j < |c.handoff.outcomes|
  {
    var task, outcome := c.tasks[i], c.handoff.outcomes[j];
    && task.outcomeDigest == outcome.digest && task.humanReceiptDigest == outcome.humanEvidenceDigest
    && exists bundle :: bundle in c.handoff.bundles && bundle.digest == outcome.bundleDigest == task.bundleDigest
         && bundle.taskId == task.taskId && bundle.runId == task.runId && bundle.headSha == task.headSha
  }

  ghost predicate HasOutcome(c: Cohort, i: nat)
    requires i < |c.tasks|
  {
    exists j :: 0 <= j < |c.handoff.outcomes| && Links(c, i, j)
  }

  ghost predicate HasTask(c: Cohort, j: nat)
    requires j < |c.handoff.outcomes|
  {
    exists i :: 0 <= i < |c.tasks| && Links(c, i, j)
  }

  ghost predicate OneOutcomeEach(c: Cohort) {
    forall i, j, k ::
      (0 <= i < |c.tasks| && 0 <= j < |c.handoff.outcomes| && 0 <= k < |c.handoff.outcomes| &&
       Links(c, i, j) && Links(c, i, k)) ==> j == k
  }

  ghost predicate OneTaskEach(c: Cohort) {
    forall i, m, j ::
      (0 <= i < |c.tasks| && 0 <= m < |c.tasks| && 0 <= j < |c.handoff.outcomes| &&
       Links(c, i, j) && Links(c, m, j)) ==> i == m
  }

  /** The tasks and the outcomes of a cohort that could be constructed are in one-to-one correspondence. */
  ghost predicate Bijection(c: Cohort) {
    && |c.tasks| == |c.handoff.outcomes|
    && (forall i :: 0 <= i < |c.tasks| ==> HasOutcome(c, i)) && OneOutcomeEach(c)
    && (forall j :: 0 <= j < |c.handoff.outcomes| ==> HasTask(c, j)) && OneTaskEach(c)
  }

  lemma {:induction false} BundleForFinds(bundles: seq<Bundle>, digest: string)
    ensures var b := BundleFor(bundles, digest); b.Some? ==> b.value.digest == digest && b.value in bundles
  {
    if bundles != [] { BundleForFinds(bundles[..|bundles| - 1], digest); }
  }

  lemma OutcomeDigestsDiffer(h: Digests, c: Cohort)
    requires WellFormed(h, c)
    ensures |c.tasks| == |c.handoff.outcomes| && Distinct(OutcomeDigests(c.tasks))
    ensures Distinct(Digested(c.handoff.outcomes))
    ensures forall j :: 0 <= j < |c.handoff.outcomes| ==> c.handoff.outcomes[j].digest in OutcomeDigests(c.tasks)
  {
    var a, b := OutcomeDigests(c.tasks), Digested(c.handoff.outcomes);
    forall i | 0 <= i < |a| ensures a[i] in b {
      LinksHold(c.tasks, c.handoff, i);
      OutcomeForFinds(c.handoff.outcomes, a[i]);
    }
    Pigeonhole(a, b);
    forall j | 0 <= j < |c.handoff.outcomes| ensures c.handoff.outcomes[j].digest in a { assert b[j] in a; }
  }

  /** The outcome a task's lookup finds, whichever slot carries its digest. */
  lemma TaskFinds(h: Digests, c: Cohort, i: nat, j: nat)
    requires WellFormed(h, c) && i < |c.tasks| && j < |c.handoff.outcomes|
    requires c.tasks[i].outcomeDigest == c.handoff.outcomes[j].digest
    ensures OutcomeFor(c.handoff.outcomes, c.tasks[i].outcomeDigest) == Some(c.handoff.outcomes[j])
    ensures Links(c, i, j)
  {
    OutcomeDigestsDiffer(h, c);
    LinksHold(c.tasks, c.handoff, i);
    OutcomeForFinds(c.handoff.outcomes, c.tasks[i].outcomeDigest);
    BundleForFinds(c.handoff.bundles, c.tasks[i].bundleDigest);
    var found := OutcomeFor(c.handoff.outcomes, c.tasks[i].outcomeDigest).value;
    var k :| 0 <= k < |c.handoff.outcomes| && c.handoff.outcomes[k] == found;
    assert Digested(c.handoff.outcomes)[k] == Digested(c.handoff.outcomes)[j];
    assert k == j;
  }

  lemma TasksAreTheOutcomes(h: Digests, c: Cohort)
    requires WellFormed(h, c)
    ensures Bijection(c)
  {
    hide WellFormed;
    OutcomeDigestsDiffer(h, c);
    forall i | 0 <= i < |c.tasks| ensures HasOutcome(c, i) {
      var j := OutcomeOfTask(h, c, i);
    }
    forall j | 0 <= j < |c.handoff.outcomes| ensures HasTask(c, j) {
      var i := TaskOfOutcome(h, c, j);
    }
    LinksAreUnique(c);
  }

  lemma LinksAreUnique(c: Cohort)
    requires Distinct(OutcomeDigests(c.tasks)) && Distinct(Digested(c.handoff.outcomes))
    ensures OneOutcomeEach(c) && OneTaskEach(c)
  {
    forall i, j, k |
      0 <= i < |c.tasks| && 0 <= j < |c.handoff.outcomes| && 0 <= k < |c.handoff.outcomes| &&
      Links(c, i, j) && Links(c, i, k)
      ensures j == k
    {
      assert Digested(c.handoff.outcomes)[j] == Digested(c.handoff.outcomes)[k];
    }
    forall i, m, j |
      0 <= i < |c.tasks| && 0 <= m < |c.tasks| && 0 <= j < |c.handoff.outcomes| &&
      Links(c, i, j) && Links(c, m, j)
      ensures i == m
    {
      assert OutcomeDigests(c.tasks)[i] == OutcomeDigests(c.tasks)[m];
    }
  }

  lemma OutcomeOfTask(h: Digests, c: Cohort, i: nat) returns (j: nat)
    requires WellFormed(h, c) && i < |c.tasks|
    ensures j < |c.handoff.outcomes| && Links(c, i, j)
    ensures OutcomeFor(c.handoff.outcomes, c.tasks[i].outcomeDigest) == Some(c.handoff.outcomes[j])
  {
    LinksHold(c.tasks, c.handoff, i);
    OutcomeForFinds(c.handoff.outcomes, c.tasks[i].outcomeDigest);
    j :| 0 <= j < |c.handoff.outcomes| && Digested(c.handoff.outcomes)[j] == c.tasks[i].outcomeDigest;
    TaskFinds(h, c, i, j);
  }

  lemma TaskOfOutcome(h: Digests, c: Cohort, j: nat) returns (i: nat)
    requires WellFormed(h, c) && j < |c.handoff.outcomes|
    ensures i < |c.tasks| && Links(c, i, j)
    ensures OutcomeFor(c.handoff.outcomes, c.tasks[i].outcomeDigest) == Some(c.handoff.outcomes[j])
  {
    OutcomeDigestsDiffer(h, c);
    i :| 0 <= i < |c.tasks| && OutcomeDigests(c.tasks)[i] == c.handoff.outcomes[j].digest;
    TaskFinds(h, c, i, j);
  }

  // What the gates mean

  ghost predicate AllMerged(c: Cohort) {
    forall j :: 0 <= j < |c.handoff.outcomes| ==> c.handoff.outcomes[j].mergedAccepted
  }

  ghost predicate AuditedOn(c: Cohort, day: int) {
    exists i :: 0 <= i < |c.tasks| && c.tasks[i].auditAccepted && c.tasks[i].Day() == day
  }

  /** Every sampled task was accepted, and every day on which there is a task has an accepted audit. */
  ghost predicate CleanAudit(c: Cohort) {
    && (forall i :: 0 <= i < |c.tasks| && c.tasks[i].auditSampled ==> c.tasks[i].auditAccepted)
    && (forall i :: 0 <= i < |c.tasks| ==> AuditedOn(c, c.tasks[i].Day()))
  }

  ghost predicate CleanTask(c: Cohort, task: Task) {
    && task.qualityMillionths >= c.minimumQuality && task.costUsdMicros <= c.maximumCostUsdMicros
    && task.securityFailures == 0 && task.authorizationFailures == 0
    && task.duplicateDispatches == 0 && task.demotionTriggers == 0
  }

  ghost predicate AllClean(c: Cohort) {
    forall i :: 0 <= i < |c.tasks| ==> CleanTask(c, c.tasks[i])
  }

  ghost predicate Unblocked(c: Cohort) {
    && (forall i :: 0 <= i < |c.handoff.bundles| ==> !c.handoff.bundles[i].blocked)
    && c.handoff.externalAcceptanceAvailable && c.handoff.currentnessAvailable
  }

  /** What a cohort has to have shown. */
  ghost predicate Earned(c: Cohort) {
    && AllMerged(c) && |c.tasks| >= c.minimumHumanAcceptances
    && CountTrue(Sampled(c.tasks)) * MILLION >= |c.tasks| * c.minimumAuditRate
    && CleanAudit(c) && AllClean(c)
    && 100 * CountAtMost(Latencies(c.tasks), c.maximumLatencyMs) >= 95 * |c.tasks|
    && Unblocked(c)
  }

  lemma AcceptedMeansMerged(h: Digests, c: Cohort)
    requires WellFormed(h, c)
    ensures false !in Accepted(c.tasks, c.handoff.outcomes) <==> AllMerged(c)
    ensures AllMerged(c) ==> CountTrue(Accepted(c.tasks, c.handoff.outcomes)) == |c.tasks|
  {
    hide WellFormed, OutcomeFor, Links;
    var flags := Accepted(c.tasks, c.handoff.outcomes);
    if false !in flags {
      forall j | 0 <= j < |c.handoff.outcomes| ensures c.handoff.outcomes[j].mergedAccepted {
        var i := TaskOfOutcome(h, c, j);
        assert flags[i] in flags;
      }
    }
    if AllMerged(c) {
      forall i | 0 <= i < |flags| ensures flags[i] {
        var j := OutcomeOfTask(h, c, i);
      }
    }
    CountTrueBounds(flags);
  }

  lemma AuditMeansClean(c: Cohort)
    requires forall i :: 0 <= i < |c.tasks| ==> c.tasks[i].Valid()
    ensures Days(c.tasks) <= SampledDays(c.tasks) && CountTrue(Audited(c.tasks)) == CountTrue(Sampled(c.tasks)) <==>
            CleanAudit(c)
  {
    var audited, sampled := Audited(c.tasks), Sampled(c.tasks);
    CountImplied(audited, sampled);
    if Days(c.tasks) <= SampledDays(c.tasks) && audited == sampled {
      forall i | 0 <= i < |c.tasks| ensures AuditedOn(c, c.tasks[i].Day()) {
        assert c.tasks[i].Day() in Days(c.tasks);
        var j :| 0 <= j < |c.tasks| && c.tasks[j].auditSampled && c.tasks[j].Day() == c.tasks[i].Day();
        assert audited[j] == sampled[j];
      }
      forall i | 0 <= i < |c.tasks| && c.tasks[i].auditSampled ensures c.tasks[i].auditAccepted {
        assert audited[i] == sampled[i];
      }
    }
    if CleanAudit(c) {
      assert audited == sampled;
      forall i | 0 <= i < |c.tasks| ensures c.tasks[i].Day() in SampledDays(c.tasks) {
        var j :| 0 <= j < |c.tasks| && c.tasks[j].auditAccepted && c.tasks[j].Day() == c.tasks[i].Day();
      }
    }
  }

  lemma BoundedSumIsZero(values: seq<nat>)
    ensures BoundedSum(values) <= 0 <==> forall i :: 0 <= i < |values| ==> values[i] == 0
  {
    SumIsZeroExactlyWhen(values);
  }

  ghost predicate WithinLimits(c: Cohort)
    requires c.tasks != []
  {
    && Least(Qualities(c.tasks)) >= c.minimumQuality && Greatest(Costs(c.tasks)) <= c.maximumCostUsdMicros
    && BoundedSum(Securities(c.tasks)) <= 0 && BoundedSum(Authorizations(c.tasks)) <= 0
    && BoundedSum(Duplicates(c.tasks)) <= 0 && BoundedSum(Demotions(c.tasks)) <= 0
  }

  lemma LimitsMeanClean(c: Cohort)
    requires c.tasks != []
    ensures WithinLimits(c) <==> AllClean(c)
  {
    hide BoundedSum, Least, Greatest;
    var q, k := Qualities(c.tasks), Costs(c.tasks);
    LeastAndGreatest(q);
    LeastAndGreatest(k);
    BoundedSumIsZero(Securities(c.tasks));
    BoundedSumIsZero(Authorizations(c.tasks));
    BoundedSumIsZero(Duplicates(c.tasks));
    BoundedSumIsZero(Demotions(c.tasks));
    if WithinLimits(c) {
      forall i | 0 <= i < |c.tasks| ensures CleanTask(c, c.tasks[i]) {
        assert q[i] in q && k[i] in k;
        assert Securities(c.tasks)[i] == 0 && Authorizations(c.tasks)[i] == 0;
        assert Duplicates(c.tasks)[i] == 0 && Demotions(c.tasks)[i] == 0;
      }
    }
    if AllClean(c) {
      var a :| 0 <= a < |q| && q[a] == Least(q);
      var b :| 0 <= b < |k| && k[b] == Greatest(k);
      assert CleanTask(c, c.tasks[a]) && CleanTask(c, c.tasks[b]);
    }
  }

  /** All gates open exactly when the cohort has shown what it has to. */
  lemma GatesOpenExactlyWhen(h: Digests, c: Cohort, level: Level, halted: bool)
    requires WellFormed(h, c)
    ensures GateReason(c, CohortProfile(h, c, level, halted)) == None <==> Earned(c)
  {
    hide WellFormed, AllMerged, CleanAudit, AllClean, P95, Least, Greatest, BoundedSum, Accepted, Days, SampledDays,
      CountTrue, CountAtMost;
    ZeroLimits(h, c);
    AcceptedMeansMerged(h, c);
    AuditMeansClean(c);
    LimitsMeanClean(c);
    P95MeetsLimitExactlyWhen(Latencies(c.tasks), c.maximumLatencyMs);
  }

  lemma ZeroLimits(h: Digests, c: Cohort)
    requires WellFormed(h, c)
    ensures c.maximumSecurityFailures == 0 && c.maximumAuthorizationFailures == 0
    ensures c.maximumDuplicateDispatches == 0 && c.maximumDemotionTriggers == 0
    ensures forall i :: 0 <= i < |c.tasks| ==> c.tasks[i].Valid()
    ensures 1 <= |c.tasks| <= MAX_COHORT_TASKS
  {}

  // Evaluation

  ghost predicate AllValid(tasks: seq<Task>) { forall i :: 0 <= i < |tasks| ==> tasks[i].Valid() }

  lemma FoldsInRange(tasks: seq<Task>)
    requires AllValid(tasks) && tasks != []
    ensures 0 <= Least(Qualities(tasks)) <= MILLION
    ensures 0 <= Greatest(Costs(tasks)) <= MAX_COST_USD_MICROS
    ensures 0 <= P95(Latencies(tasks)) <= MAX_LATENCY_MS
  {
    hide Least, Greatest, P95;
    LeastAndGreatest(Qualities(tasks));
    LeastAndGreatest(Costs(tasks));
    P95MeetsLimitExactlyWhen(Latencies(tasks), 0);
    var i :| 0 <= i < |tasks| && Qualities(tasks)[i] == Least(Qualities(tasks));
    var j :| 0 <= j < |tasks| && Costs(tasks)[j] == Greatest(Costs(tasks));
    var k :| 0 <= k < |tasks| && Latencies(tasks)[k] == P95(Latencies(tasks));
    assert tasks[i].Valid() && tasks[j].Valid() && tasks[k].Valid();
  }

  lemma CountsInRange(tasks: seq<Task>, outcomes: seq<Outcome>)
    requires AllValid(tasks)
    ensures CountTrue(Accepted(tasks, outcomes)) <= |tasks|
    ensures CountTrue(Audited(tasks)) <= CountTrue(Sampled(tasks)) <= |tasks|
  {
    CountTrueBounds(Accepted(tasks, outcomes));
    CountTrueBounds(Sampled(tasks));
    CountImplied(Audited(tasks), Sampled(tasks));
  }

  lemma ProfilePassesItsChecks(h: Digests, c: Cohort, level: Level, halted: bool)
    requires WellFormed(h, c) && (halted ==> level == L0)
    ensures ProfileError(CohortProfile(h, c, level, halted)) == None
  {
    hide WellFormed, Least, Greatest, P95, CountTrue, Sum, Accepted, Sampled, Audited, Qualities, Costs, Latencies;
    ZeroLimits(h, c);
    CountsInRange(c.tasks, c.handoff.outcomes);
    FoldsInRange(c.tasks);
  }

  predicate ValidProfile(existing: Option<Profile>) {
    existing.Some? ==> ProfileError(existing.value) == None
  }

  function LevelBefore(c: Cohort, existing: Option<Profile>, at: int): Level {
    if at >= c.tuple.expiresAt || existing.None? then L0 else existing.value.currentLevel
  }

  function HaltedBefore(c: Cohort, existing: Option<Profile>, at: int): bool {
    existing.Some? && existing.value.halted && at < c.tuple.expiresAt
  }

  /** The computed profile and recommendation always pass their own checks: an evaluation is refused only
      for its time, its tuple or its expiry. */
  lemma RefusedExactlyWhen(h: Digests, c: Cohort, existing: Option<Profile>, at: int)
    requires WellFormed(h, c) && ValidProfile(existing)
    ensures EvaluateAutonomy(h, c, existing, at).Err? <==> RequestError(h, c, existing, at).Some?
    ensures EvaluateAutonomy(h, c, existing, at).Ok? ==>
              var (p, r) := EvaluateAutonomy(h, c, existing, at).value;
              && ProfileError(p) == None && RecommendationError(r) == None
              && p == CohortProfile(h, c, LevelBefore(c, existing, at), HaltedBefore(c, existing, at))
              && r.currentLevel == p.currentLevel
              && r.reason == EvaluationReason(h, c, existing, at, p)
              && r.recommendedLevel == if r.reason == Qualified then p.currentLevel.Next() else p.currentLevel
  {
    hide WellFormed, GateReason, CohortProfile;
    ZeroLimits(h, c);
    var p := CohortProfile(h, c, LevelBefore(c, existing, at), HaltedBefore(c, existing, at));
    ProfilePassesItsChecks(h, c, LevelBefore(c, existing, at), HaltedBefore(c, existing, at));
    ProfileKeeps(h, c, LevelBefore(c, existing, at), HaltedBefore(c, existing, at));
    GateNeverSays(c, p);
  }

  lemma ProfileKeeps(h: Digests, c: Cohort, level: Level, halted: bool)
    requires c.tasks != []
    ensures var p := CohortProfile(h, c, level, halted);
            p.currentLevel == level && p.halted == halted && p.expiresAt == c.tuple.expiresAt
  {}

  lemma GateNeverSays(c: Cohort, p: Profile)
    ensures GateReason(c, p) != Some(Qualified) && GateReason(c, p) != Some(TupleExpired)
  {}

  /** A cohort qualifies exactly when it is in time, not halted, not replayed, below the ceiling, and has
      shown everything it has to. */
  lemma QualifiedExactlyWhen(h: Digests, c: Cohort, existing: Option<Profile>, at: int)
    requires WellFormed(h, c) && ValidProfile(existing) && RequestError(h, c, existing, at) == None
    ensures EvaluateAutonomy(h, c, existing, at).Ok?
    ensures EvaluateAutonomy(h, c, existing, at).value.1.reason == Qualified <==>
            && at < c.tuple.expiresAt
            && (existing.Some? ==>
                  && !existing.value.halted && existing.value.cohortDigest != h.cohort(c)
                  && existing.value.currentLevel != L2)
            && Earned(c)
  {
    hide WellFormed, GateReason, CohortProfile, Earned, EvaluateAutonomy, ProfileError, RecommendationError;
    ZeroLimits(h, c);
    RefusedExactlyWhen(h, c, existing, at);
    var level, halted := LevelBefore(c, existing, at), HaltedBefore(c, existing, at);
    ProfileKeeps(h, c, level, halted);
    GatesOpenExactlyWhen(h, c, level, halted);
    GateNeverSays(c, CohortProfile(h, c, level, halted));
  }

  /** A hand-over as the producer builds it today: every bundle still waits for its durable lookup. */
  predicate ShippedHandoff(handoff: Handoff) {
    && handoff.bundles != [] && (forall i :: 0 <= i < |handoff.bundles| ==> handoff.bundles[i].blocked)
    && !handoff.externalAcceptanceAvailable && !handoff.currentnessAvailable
  }

  /** So nothing built by the shipped producer can be promoted, whatever the cohort shows. */
  lemma ShippedHandoffNeverQualifies(h: Digests, c: Cohort, existing: Option<Profile>, at: int)
    requires WellFormed(h, c) && ValidProfile(existing) && RequestError(h, c, existing, at) == None
    requires ShippedHandoff(c.handoff)
    ensures EvaluateAutonomy(h, c, existing, at).Ok?
    ensures var r := EvaluateAutonomy(h, c, existing, at).value.1;
            r.reason != Qualified && r.recommendedLevel == r.currentLevel
  {
    hide WellFormed, EvaluateAutonomy, EvaluationReason, CohortProfile;
    ZeroLimits(h, c);
    QualifiedExactlyWhen(h, c, existing, at);
    RefusedExactlyWhen(h, c, existing, at);
    assert c.handoff.bundles[0].blocked;
  }

  // Demotion

  lemma {:induction false} FirstTriggerIsFirst(triggers: seq<string>, facts: set<string>)
    ensures var t := FirstTrigger(triggers, facts);
            && (t.None? <==> forall k :: 0 <= k < |triggers| ==> triggers[k] !in facts)
            && (t.Some? ==> exists k :: 0 <= k < |triggers| && triggers[k] == t.value && t.value in facts &&
                              forall m :: 0 <= m < k ==> triggers[m] !in facts)
  {
    if triggers != [] {
      if triggers[0] !in facts {
        FirstTriggerIsFirst(triggers[1..], facts);
        var t := FirstTrigger(triggers[1..], facts);
        if t.Some? {
          var k :| 0 <= k < |triggers[1..]| && triggers[1..][k] == t.value &&
            forall m :: 0 <= m < k ==> triggers[1..][m] !in facts;
          assert triggers[k + 1] == t.value;
          forall m | 0 <= m < k + 1 ensures triggers[m] !in facts {
            if m > 0 { assert triggers[m] == triggers[1..][m - 1]; }
          }
        }
        forall k | 0 < k < |triggers| ensures triggers[k] == triggers[1..][k - 1] {}
      } else {
        assert triggers[0] in facts;
      }
    }
  }

  /** Demotion is refused only for its facts; otherwise the profile is halted at L0 and the decision names
      the fact of the highest priority. */
  lemma DemotionExactlyWhen(h: Digests, p: Profile, facts: set<string>, at: int)
    requires ProfileError(p) == None
    ensures DemoteProfile(h, p, facts, at).Ok? <==> facts != {} && forall f :: f in facts ==> f in DEMOTION_TRIGGERS
    ensures DemoteProfile(h, p, facts, at).Err? ==>
              DemoteProfile(h, p, facts, at) == Err(ContractError("invalid_demotion_trigger", ""))
    ensures DemoteProfile(h, p, facts, at).Ok? ==>
              var (updated, decision) := DemoteProfile(h, p, facts, at).value;
              && ProfileError(updated) == None
              && updated == p.(halted := true, currentLevel := L0, demotionTriggers := updated.demotionTriggers)
              && updated.demotionTriggers
                 == (if p.demotionTriggers + |facts| <= MAX_COUNT then p.demotionTriggers + |facts| else MAX_COUNT)
              && decision.profileDigest == h.profile(p) && decision.tupleDigest == p.tupleDigest
              && decision.priorLevel == p.currentLevel && decision.effectiveAt == at
              && exists k :: 0 <= k < |DEMOTION_TRIGGERS| && DEMOTION_TRIGGERS[k] == decision.trigger
                   && decision.trigger in facts && forall m :: 0 <= m < k ==> DEMOTION_TRIGGERS[m] !in facts
  {
    hide DEMOTION_TRIGGERS, FirstTrigger;
    FirstTriggerIsFirst(DEMOTION_TRIGGERS, facts);
    if facts != {} && forall f :: f in facts ==> f in DEMOTION_TRIGGERS {
      var f :| f in facts;
      var k :| 0 <= k < |DEMOTION_TRIGGERS| && DEMOTION_TRIGGERS[k] == f;
    }
  }

  // Whole runs

  datatype Event = Evaluation(cohort: Cohort, at: int) | Demoting(facts: set<string>, at: int)

  /** One request against a stored profile; a refused one leaves it as it is. */
  function Request(h: Digests, p: Profile, e: Event): (Profile, Option<Recommendation>) {
    match e
    case Evaluation(c, at) =>
      if c.tasks == [] then (p, None)
      else
        var r := EvaluateAutonomy(h, c, Some(p), at);
        if r.Ok? then (r.value.0, Some(r.value.1)) else (p, None)
    case Demoting(facts, at) =>
      var r := DemoteProfile(h, p, facts, at);
      (if r.Ok? then r.value.0 else p, None)
  }

  function After(h: Digests, p: Profile, events: seq<Event>): Profile {
    if events == [] then p
    else Request(h, After(h, p, events[..|events| - 1]), events[|events| - 1]).0
  }

  /** A demotion that is accepted. */
  predicate Demotes(e: Event) {
    e.Demoting? && e.facts != {} && forall f :: f in e.facts ==> f in DEMOTION_TRIGGERS
  }

  /** An evaluation that is accepted, dated at or past the expiry. */
  ghost predicate Lifts(h: Digests, p: Profile, e: Event) {
    e.Evaluation? && Request(h, p, e).1.Some? && e.at >= p.expiresAt
  }

  /** Some accepted evaluation past the expiry has had no accepted demotion since. */
  ghost predicate Lifted(h: Digests, p: Profile, events: seq<Event>) {
    exists i :: 0 <= i < |events| && Lifts(h, After(h, p, events[..i]), events[i])
      && forall m :: i < m < |events| ==> !Demotes(events[m])
  }

  lemma LiftedOneMore(h: Digests, p: Profile, events: seq<Event>)
    requires events != []
    ensures var n := |events| - 1;
            Lifted(h, p, events) <==>
              Lifts(h, After(h, p, events[..n]), events[n]) || (Lifted(h, p, events[..n]) && !Demotes(events[n]))
  {
    hide After, Lifts, Demotes;
    var n := |events| - 1;
    assert forall k :: 0 <= k <= n ==> events[..n][..k] == events[..k];
    if Lifted(h, p, events) && !Lifts(h, After(h, p, events[..n]), events[n]) {
      var i :| 0 <= i < |events| && Lifts(h, After(h, p, events[..i]), events[i])
        && forall m :: i < m < |events| ==> !Demotes(events[m]);
      assert i < n && events[..n][..i] == events[..i] && events[..n][i] == events[i];
      assert !Demotes(events[n]);
    }
    if Lifted(h, p, events[..n]) && !Demotes(events[n]) {
      var i :| 0 <= i < n && Lifts(h, After(h, p, events[..n][..i]), events[..n][i])
        && forall m :: i < m < n ==> !Demotes(events[..n][m]);
      assert forall m :: i < m < n ==> events[..n][m] == events[m];
    }
  }

  /** A profile held at L0 keeps its level and its expiry; its halt goes with a lift and comes with a
      demotion. */
  lemma HaltStep(h: Digests, p: Profile, e: Event)
    requires p.currentLevel == L0 && ProfileError(p) == None
    ensures var p1 := Request(h, p, e).0;
            && p1.currentLevel == L0 && ProfileError(p1) == None && p1.expiresAt == p.expiresAt
            && p1.halted == (!Lifts(h, p, e) && (p.halted || Demotes(e)))
  {
    hide GateReason, ProfileError, RecommendationError, CohortProfile, FirstTrigger, EvaluationReason;
    match e
    case Evaluation(c, at) =>
      if c.tasks != [] {
        ProfileKeeps(h, c, LevelBefore(c, Some(p), at), HaltedBefore(c, Some(p), at));
      }
    case Demoting(facts, at) => DemotionExactlyWhen(h, p, facts, at);
  }

  /** After any sequence of evaluations and demotions a halted profile is at L0, and its halt is gone
      exactly when some accepted evaluation past the expiry has had no accepted demotion since. */
  lemma {:induction false} HaltGoneExactlyWhen(h: Digests, p: Profile, events: seq<Event>)
    requires p.halted && p.currentLevel == L0 && ProfileError(p) == None
    ensures var p1 := After(h, p, events);
            && p1.currentLevel == L0 && ProfileError(p1) == None && p1.expiresAt == p.expiresAt
            && (!p1.halted <==> Lifted(h, p, events))
  {
    hide Request, Lifts, Lifted, ProfileError, Demotes;
    if events == [] {
      assert !Lifted(h, p, []) by { NothingLifted(h, p); }
    } else {
      var n := |events| - 1;
      HaltGoneExactlyWhen(h, p, events[..n]);
      HaltStep(h, After(h, p, events[..n]), events[n]);
      LiftedOneMore(h, p, events);
    }
  }

  lemma NothingLifted(h: Digests, p: Profile)
    ensures !Lifted(h, p, [])
  {
  }

  /** What a demotion leaves: a halted profile at L0. */
  lemma DemotedIsHalted(h: Digests, p: Profile, facts: set<string>, at: int)
    requires DemoteProfile(h, p, facts, at).Ok?
    ensures var p1 := DemoteProfile(h, p, facts, at).value.0;
            p1.halted && p1.currentLevel == L0 && ProfileError(p1) == None && p1.expiresAt == p.expiresAt
  {
  }

  /** After a demotion an evaluation recommends a level above L0 exactly when it is dated before the
      expiry, its cohort is new and has shown what it has to, and the halt was lifted and not renewed. */
  lemma ReopenedExactlyWhen(h: Digests, p: Profile, facts: set<string>, at: int, events: seq<Event>, c: Cohort,
                            now: int)
    requires DemoteProfile(h, p, facts, at).Ok? && WellFormed(h, c)
    requires RequestError(h, c, Some(After(h, DemoteProfile(h, p, facts, at).value.0, events)), now) == None
    ensures var halted := DemoteProfile(h, p, facts, at).value.0;
            var r := Request(h, After(h, halted, events), Evaluation(c, now)).1;
            && r.Some?
            && (r.value.recommendedLevel != L0 <==>
                  && now < p.expiresAt && Earned(c) && After(h, halted, events).cohortDigest != h.cohort(c)
                  && Lifted(h, halted, events))
  {
    hide WellFormed, GateReason, CohortProfile, Earned, ProfileError, RecommendationError, Lifted, After, DemoteProfile,
      EvaluationReason, EvaluateAutonomy;
    DemotedIsHalted(h, p, facts, at);
    var halted := DemoteProfile(h, p, facts, at).value.0;
    HaltGoneExactlyWhen(h, halted, events);
    var before := After(h, halted, events);
    ZeroLimits(h, c);
    QualifiedExactlyWhen(h, c, Some(before), now);
    RefusedExactlyWhen(h, c, Some(before), now);
    ProfileKeeps(h, c, LevelBefore(c, Some(before), now), HaltedBefore(c, Some(before), now));
  }

  ghost predicate NoPromotion(r: Option<Recommendation>) {
    r.Some? ==>
      && r.value.currentLevel == L0 && r.value.recommendedLevel == L0
      && (r.value.reason == HaltedProfile || r.value.reason == TupleExpired)
  }

  /** By dates alone: an evaluation before the expiry comes after one at or past it, and no accepted
      demotion lies between them. */
  ghost predicate ReturnsAcross(events: seq<Event>, expiry: int) {
    exists i, j :: 0 <= i < j < |events| && events[i].Evaluation? && events[j].Evaluation?
      && events[j].at < expiry <= events[i].at && forall m :: i < m < j ==> !Demotes(events[m])
  }

  /** After a demotion no sequence of evaluations and demotions against that profile ever recommends a
      level above L0, expiry included, as long as no evaluation returns across the expiry. */
  lemma DemotionHolds(h: Digests, p: Profile, facts: set<string>, at: int, events: seq<Event>, k: nat)
    requires DemoteProfile(h, p, facts, at).Ok? && !ReturnsAcross(events, p.expiresAt) && k < |events|
    ensures var halted := DemoteProfile(h, p, facts, at).value.0;
            NoPromotion(Request(h, After(h, halted, events[..k]), events[k]).1)
  {
    hide Request, NoPromotion, After, DemoteProfile, ProfileError, Demotes;
    DemotedIsHalted(h, p, facts, at);
    var halted := DemoteProfile(h, p, facts, at).value.0;
    HaltGoneExactlyWhen(h, halted, events[..k]);
    var before := After(h, halted, events[..k]);
    if !before.halted {
      var i :| 0 <= i < k && Lifts(h, After(h, halted, events[..k][..i]), events[..k][i])
        && forall m :: i < m < k ==> !Demotes(events[..k][m]);
      assert events[..k][..i] == events[..i] && forall m :: i <= m < k ==> events[..k][m] == events[m];
      HaltGoneExactlyWhen(h, halted, events[..i]);
      assert events[i].at >= p.expiresAt;
      assert events[k].Evaluation? ==> events[k].at >= p.expiresAt;
    }
    HeldDownStep(h, before, events[k]);
  }

  lemma HeldDownStep(h: Digests, p: Profile, e: Event)
    requires p.currentLevel == L0 && (p.halted || e.Demoting? || e.at >= p.expiresAt)
    ensures NoPromotion(Request(h, p, e).1)
  {
    hide GateReason, ProfileError, RecommendationError, CohortProfile, FirstTrigger;
    if e.Evaluation? && e.cohort.tasks != [] {
      ProfileKeeps(h, e.cohort, LevelBefore(e.cohort, Some(p), e.at), HaltedBefore(e.cohort, Some(p), e.at));
    }
  }

  /** The smallest return across the expiry: an evaluation past it lifts the halt, and one dated before
      it then promotes a fresh cohort that has shown what it has to. */
  lemma BackwardsClockReopens(h: Digests, p: Profile, first: Cohort, late: int, second: Cohort, early: int)
    requires p.halted && ProfileError(p) == None
    requires WellFormed(h, first) && WellFormed(h, second)
    requires first.tuple == second.tuple && h.cohort(first) != h.cohort(second)
    requires p.tupleDigest == h.tuple(first.tuple) && p.expiresAt == first.tuple.expiresAt
    requires late >= first.tuple.expiresAt > early >= second.windowEndedAt && Earned(second)
    ensures var r := Request(h, After(h, p, [Evaluation(first, late)]), Evaluation(second, early)).1;
            r.Some? && r.value.reason == Qualified && r.value.recommendedLevel == L1
  {
    hide WellFormed, Earned, EvaluateAutonomy, CohortProfile, EvaluationReason, ProfileError, RecommendationError;
    ZeroLimits(h, first);
    ZeroLimits(h, second);
    WindowBeforeExpiry(h, first);
    RefusedExactlyWhen(h, first, Some(p), late);
    var lifted := EvaluateAutonomy(h, first, Some(p), late).value.0;
    LiftedProfile(h, first, Some(p), late);
    assert [Evaluation(first, late)][..0] == [];
    assert After(h, p, [Evaluation(first, late)]) == lifted;
    RefusedExactlyWhen(h, second, Some(lifted), early);
    QualifiedExactlyWhen(h, second, Some(lifted), early);
    ProfileKeeps(h, second, L0, false);
  }

  lemma WindowBeforeExpiry(h: Digests, c: Cohort)
    requires WellFormed(h, c)
    ensures c.windowEndedAt <= c.tuple.expiresAt
  {}

  lemma LiftedProfile(h: Digests, c: Cohort, existing: Option<Profile>, at: int)
    requires c.tasks != [] && at >= c.tuple.expiresAt && EvaluateAutonomy(h, c, existing, at).Ok?
    ensures var p := EvaluateAutonomy(h, c, existing, at).value.0;
            && !p.halted && p.currentLevel == L0 && p.tupleDigest == h.tuple(c.tuple)
            && p.cohortDigest == h.cohort(c) && p.expiresAt == c.tuple.expiresAt
  {}

  /** Recommending is not activating: no evaluation or demotion ever raises the stored level. */
  lemma {:induction false} LevelNeverRises(h: Digests, p: Profile, events: seq<Event>)
    ensures After(h, p, events).currentLevel.Index() <= p.currentLevel.Index()
  {
    if events != [] {
      var n := |events| - 1;
      LevelNeverRises(h, p, events[..n]);
      LevelStep(h, After(h, p, events[..n]), events[n]);
    }
  }

  lemma LevelStep(h: Digests, p: Profile, e: Event)
    ensures Request(h, p, e).0.currentLevel.Index() <= p.currentLevel.Index()
  {
    hide GateReason, ProfileError, RecommendationError, FirstTrigger, EvaluationReason;
  }
}
