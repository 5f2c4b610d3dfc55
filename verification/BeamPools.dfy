/** The hit points of a beam field, which all its sides share, the construction of the
    fields of a level from the groups of its beam markers, and what the blaster's bullets do to them. */
module BeamPools {
  import opened Rects
  import opened BeamFields

  const SHARED_HIT_POINTS := 25

  class BeamFieldModel {
    var remainingHitPoints: int
    var destructionNotified: bool
    var destructionHandlers: seq<ForceFieldBarrier>
    /** Blaster hits this field has taken, through whichever side. */
    ghost var hits: nat

    ghost predicate Valid()
      reads this
    {
      && remainingHitPoints == (if hits < SHARED_HIT_POINTS then SHARED_HIT_POINTS - hits else 0)
      && (destructionNotified <==> hits >= SHARED_HIT_POINTS)
    }

    /** Every side shows the state of the field. */
    ghost predicate SidesInStep()
      reads this, destructionHandlers
    {
      forall k :: 0 <= k < |destructionHandlers| ==> (destructionHandlers[k].covered <==> destructionNotified)
    }

    constructor ()
      ensures Valid() && hits == 0 && destructionHandlers == []
    {
      remainingHitPoints, destructionNotified, destructionHandlers := SHARED_HIT_POINTS, false, [];
      hits := 0;
    }

    predicate IsActive()
      reads this
    {
      remainingHitPoints > 0
    }

    method OnDestroyed(side: ForceFieldBarrier)
      modifies this`destructionHandlers
      ensures destructionHandlers == old(destructionHandlers) + [side]
    {
      destructionHandlers := destructionHandlers + [side];
    }

    method RegisterHit() returns (reported: bool)
      requires Valid()
      modifies this`remainingHitPoints, this`destructionNotified, this`hits, destructionHandlers
      ensures Valid() && hits == old(hits) + 1
      ensures reported <==> hits == SHARED_HIT_POINTS
      ensures forall k :: 0 <= k < |destructionHandlers| ==>
                var side := destructionHandlers[k]; side.covered == (reported || old(side.covered))
      ensures old(SidesInStep()) ==> SidesInStep()
    {
      hits := hits + 1;
      if !IsActive() { return false; }
      remainingHitPoints := remainingHitPoints - 1;
      if remainingHitPoints > 0 || destructionNotified { return false; }
      destructionNotified := true;
      for k := 0 to |destructionHandlers|
        invariant Valid() && hits == old(hits) + 1 && destructionNotified && unchanged(`destructionHandlers)
        invariant forall m :: 0 <= m < k ==> destructionHandlers[m].covered
      {
        destructionHandlers[k].CoverDestroyed();
      }
      return true;
    }
  }

  /** One visual side of a field. */
  class ForceFieldBarrier {
    const hitbox: Rect
    const field: BeamFieldModel
    var covered: bool

    constructor (hitbox: Rect, field: BeamFieldModel)
      ensures this.hitbox == hitbox && this.field == field && !covered
    {
      this.hitbox, this.field, covered := hitbox, field, false;
    }

    predicate IsActive()
      reads field
    {
      field.IsActive()
    }

    /** A hit on any side is a hit on the field. */
    method HitByBlaster() returns (reported: bool)
      requires field.Valid()
      modifies field, field.destructionHandlers
      ensures field.Valid() && field.hits == old(field.hits) + 1
      ensures field.destructionHandlers == old(field.destructionHandlers)
      ensures reported <==> field.hits == SHARED_HIT_POINTS
      ensures IsActive() <==> field.hits < SHARED_HIT_POINTS
      ensures old(field.SidesInStep()) ==> field.SidesInStep()
    {
      reported := field.RegisterHit();
    }

    method CoverDestroyed()
      modifies this`covered
      ensures covered
    {
      covered := true;
    }
  }

  lemma {:induction false} CountIn(groups: seq<seq<nat>>, g: nat, i: nat)
    requires g < |groups| && i in groups[g]
    ensures multiset(Flatten(groups))[i] >= 1
  {
    InFlatten(groups, i);
    assert i in multiset(Flatten(groups));
  }

  lemma {:induction false} OneGroupEach(groups: seq<seq<nat>>, g: nat, h: nat, i: nat)
    requires g < h < |groups| && i in groups[g] && i in groups[h]
    ensures multiset(Flatten(groups))[i] >= 2
  {
    var n := |groups| - 1;
    if h == n {
      CountIn(groups[..n], g, i);
      assert i in multiset(groups[n]);
    } else {
      OneGroupEach(groups[..n], g, h, i);
    }
  }

  /** The sides are built group by group, each bound to its group's field. */
  ghost predicate Bound(boxes: seq<Rect>, groups: seq<seq<nat>>, done: seq<nat>, owner: seq<nat>,
                        forceFields: seq<ForceFieldBarrier>, beamFields: seq<BeamFieldModel>)
  {
    && |forceFields| == |done| == |owner|
    && (forall k :: 0 <= k < |done| ==>
          && done[k] < |boxes| && owner[k] < |groups| && owner[k] < |beamFields| && done[k] in groups[owner[k]]
          && forceFields[k].hitbox == boxes[done[k]] && forceFields[k].field == beamFields[owner[k]])
    && (forall g, h :: 0 <= g < h < |beamFields| ==> beamFields[g] != beamFields[h])
  }

  lemma SharedFieldMeansSharedGroup(boxes: seq<Rect>, groups: seq<seq<nat>>, done: seq<nat>, owner: seq<nat>,
                                    forceFields: seq<ForceFieldBarrier>, beamFields: seq<BeamFieldModel>,
                                    k: nat, m: nat)
    requires Partition(boxes, groups) && Bound(boxes, groups, done, owner, forceFields, beamFields)
    requires k < |done| && m < |done|
    ensures forceFields[k].field == forceFields[m].field <==> SameGroup(groups, done[k], done[m])
  {
    if g :| 0 <= g < |groups| && done[k] in groups[g] && done[m] in groups[g] {
      OwnerIsTheGroup(boxes, groups, owner[k], g, done[k]);
      OwnerIsTheGroup(boxes, groups, owner[m], g, done[m]);
    }
  }

  lemma OwnerIsTheGroup(boxes: seq<Rect>, groups: seq<seq<nat>>, g: nat, h: nat, i: nat)
    requires Partition(boxes, groups) && g < |groups| && h < |groups| && i in groups[g] && i in groups[h]
    ensures g == h
  {
    if g < h { OneGroupEach(groups, g, h, i); }
    if h < g { OneGroupEach(groups, h, g, i); }
  }

  method BuildField(boxes: seq<Rect>, group: seq<nat>)
    returns (field: BeamFieldModel, sides: seq<ForceFieldBarrier>)
    requires AreIndices(boxes, group)
    ensures fresh(field) && field.Valid() && field.hits == 0 && field.SidesInStep()
    ensures field.destructionHandlers == sides && |sides| == |group|
    ensures forall k :: 0 <= k < |sides| ==>
              fresh(sides[k]) && sides[k].field == field && sides[k].hitbox == boxes[group[k]]
  {
    field := new BeamFieldModel();
    sides := [];
    for k := 0 to |group|
      invariant field.Valid() && field.hits == 0 && field.SidesInStep()
      invariant field.destructionHandlers == sides && |sides| == k
      invariant forall m :: 0 <= m < k ==>
                  fresh(sides[m]) && sides[m].field == field && sides[m].hitbox == boxes[group[m]]
    {
      var side := new ForceFieldBarrier(boxes[group[k]], field);
      field.OnDestroyed(side);
      sides := sides + [side];
    }
  }

  lemma PartitionHasIndices(boxes: seq<Rect>, groups: seq<seq<nat>>, g: nat)
    requires Partition(boxes, groups) && g < |groups|
    ensures AreIndices(boxes, groups[g])
  {
    forall k | 0 <= k < |groups[g]| ensures groups[g][k] < |boxes| {
      CountIn(groups, g, groups[g][k]);
    }
  }

  /** Every field untouched, its handlers exactly its own sides. */
  ghost predicate AllFresh(forceFields: seq<ForceFieldBarrier>, beamFields: seq<BeamFieldModel>)
    reads beamFields, set g, k | 0 <= g < |beamFields| && 0 <= k < |beamFields[g].destructionHandlers| ::
                        beamFields[g].destructionHandlers[k]
  {
    && (forall g :: 0 <= g < |beamFields| ==>
          beamFields[g].Valid() && beamFields[g].hits == 0 && beamFields[g].SidesInStep())
    && (forall g, k :: 0 <= g < |beamFields| && 0 <= k < |beamFields[g].destructionHandlers| ==>
          var side := beamFields[g].destructionHandlers[k]; side in forceFields && side.field == beamFields[g])
    && (forall k :: 0 <= k < |forceFields| ==>
          forceFields[k].field in beamFields && forceFields[k] in forceFields[k].field.destructionHandlers)
  }

  lemma BoundGrows(boxes: seq<Rect>, groups: seq<seq<nat>>, done: seq<nat>, owner: seq<nat>,
                   forceFields: seq<ForceFieldBarrier>, beamFields: seq<BeamFieldModel>,
                   field: BeamFieldModel, sides: seq<ForceFieldBarrier>)
    requires Bound(boxes, groups, done, owner, forceFields, beamFields) && field !in beamFields
    requires |beamFields| < |groups| && AreIndices(boxes, groups[|beamFields|])
    requires |sides| == |groups[|beamFields|]|
    requires forall k :: 0 <= k < |sides| ==>
               sides[k].field == field && sides[k].hitbox == boxes[groups[|beamFields|][k]]
    ensures Bound(boxes, groups, done + groups[|beamFields|], owner + seq(|sides|, _ => |beamFields|),
                  forceFields + sides, beamFields + [field])
  {
    var longer := beamFields + [field];
    assert longer[|beamFields|] == field;
  }

  lemma AllFreshGrows(forceFields: seq<ForceFieldBarrier>, beamFields: seq<BeamFieldModel>,
                      field: BeamFieldModel, sides: seq<ForceFieldBarrier>)
    requires AllFresh(forceFields, beamFields)
    requires field.Valid() && field.hits == 0 && field.SidesInStep() && field.destructionHandlers == sides
    requires forall k :: 0 <= k < |sides| ==> sides[k].field == field
    ensures AllFresh(forceFields + sides, beamFields + [field])
  {
    var longer := beamFields + [field];
    assert longer[|beamFields|] == field;
    var all := forceFields + sides;
    forall k | 0 <= k < |all| ensures all[k].field in longer && all[k] in all[k].field.destructionHandlers {
      if k < |forceFields| { assert all[k] == forceFields[k]; }
    }
  }

  lemma FieldsFollowGroups(boxes: seq<Rect>, groups: seq<seq<nat>>, done: seq<nat>, owner: seq<nat>,
                           forceFields: seq<ForceFieldBarrier>, beamFields: seq<BeamFieldModel>)
    requires Partition(boxes, groups) && Bound(boxes, groups, done, owner, forceFields, beamFields)
    ensures |forceFields| == |done|
    ensures forall k :: 0 <= k < |done| ==> done[k] < |boxes| && forceFields[k].hitbox == boxes[done[k]]
    ensures forall k, m :: 0 <= k < |done| && 0 <= m < |done| ==>
              (forceFields[k].field == forceFields[m].field <==> SameGroup(groups, done[k], done[m]))
  {
    forall k, m | 0 <= k < |done| && 0 <= m < |done|
      ensures forceFields[k].field == forceFields[m].field <==> SameGroup(groups, done[k], done[m])
    {
      SharedFieldMeansSharedGroup(boxes, groups, done, owner, forceFields, beamFields, k, m);
    }
  }

  lemma NothingBuilt(boxes: seq<Rect>, groups: seq<seq<nat>>)
    ensures Bound(boxes, groups, [], [], [], []) && AllFresh([], [])
  {}

  /** The fields of a level, from its beam markers. */
  method BuildFields(boxes: seq<Rect>)
    returns (forceFields: seq<ForceFieldBarrier>, beamFields: seq<BeamFieldModel>,
             ghost order: seq<nat>, ghost owner: seq<nat>)
    requires forall i :: 0 <= i < |boxes| ==> boxes[i].width > 0.0
    ensures |forceFields| == |order| && InSweepOrder(boxes, order)
    ensures forall k :: 0 <= k < |order| ==> order[k] < |boxes| && forceFields[k].hitbox == boxes[order[k]]
    ensures forall k, m :: 0 <= k < |order| && 0 <= m < |order| ==>
              (forceFields[k].field == forceFields[m].field <==> Tied(boxes, order[k], order[m]))
    ensures forall g :: 0 <= g < |beamFields| ==> beamFields[g].destructionHandlers != []
    ensures AllFresh(forceFields, beamFields) && Owned(forceFields, beamFields, owner)
    ensures Sound(forceFields, beamFields) && Hits(beamFields) == Untouched(|beamFields|)
  {
    hide Bound, AllFresh, Owned, Sound, Hits, Connected, Tied, SameGroup, NegativesConnected, InSweepOrder;
    var groups := Groups(boxes);
    forceFields, beamFields, order, owner := [], [], [], [];
    NothingBuilt(boxes, groups);
    for g := 0 to |groups|
      invariant |beamFields| == g && order == Flatten(groups[..g])
      invariant Bound(boxes, groups, order, owner, forceFields, beamFields)
      invariant AllFresh(forceFields, beamFields)
      invariant forall h :: 0 <= h < g ==> beamFields[h].destructionHandlers != []
    {
      PartitionHasIndices(boxes, groups, g);
      var field, sides := BuildField(boxes, groups[g]);
      assert groups[..g + 1][..g] == groups[..g];
      BoundGrows(boxes, groups, order, owner, forceFields, beamFields, field, sides);
      AllFreshGrows(forceFields, beamFields, field, sides);
      forceFields := forceFields + sides;
      beamFields := beamFields + [field];
      order := order + groups[g];
      owner := owner + seq(|sides|, _ => g);
    }
    assert groups[..|groups|] == groups;
    FieldsFollowGroups(boxes, groups, order, owner, forceFields, beamFields);
    BoundIsOwned(boxes, groups, order, owner, forceFields, beamFields);
    FreshIsSound(forceFields, beamFields);
  }

  // The blaster

  /** The fields are different objects, and side `k` belongs to field `owner[k]`. */
  ghost predicate Owned(forceFields: seq<ForceFieldBarrier>, beamFields: seq<BeamFieldModel>, owner: seq<nat>) {
    && |owner| == |forceFields|
    && (forall k :: 0 <= k < |owner| ==> owner[k] < |beamFields| && forceFields[k].field == beamFields[owner[k]])
    && (forall g, h :: 0 <= g < h < |beamFields| ==> beamFields[g] != beamFields[h])
  }

  lemma BoundIsOwned(boxes: seq<Rect>, groups: seq<seq<nat>>, done: seq<nat>, owner: seq<nat>,
                     forceFields: seq<ForceFieldBarrier>, beamFields: seq<BeamFieldModel>)
    requires Bound(boxes, groups, done, owner, forceFields, beamFields)
    ensures Owned(forceFields, beamFields, owner)
  {
  }

  function Boxes(forceFields: seq<ForceFieldBarrier>): (boxes: seq<Rect>)
    ensures |boxes| == |forceFields|
  {
    seq(|forceFields|, k requires 0 <= k < |forceFields| => forceFields[k].hitbox)
  }

  ghost function Hits(beamFields: seq<BeamFieldModel>): (hits: seq<nat>)
    reads beamFields
    ensures |hits| == |beamFields|
  {
    seq(|beamFields|, g requires 0 <= g < |beamFields| reads beamFields => beamFields[g].hits)
  }

  /** Hits are given for the owner of every side. */
  ghost predicate Told(hits: seq<nat>, owner: seq<nat>, boxes: seq<Rect>) {
    |owner| == |boxes| && forall k :: 0 <= k < |owner| ==> owner[k] < |hits|
  }

  /** The first side from `k` on that stands and meets the bullet, if any. */
  ghost function FirstSide(hits: seq<nat>, owner: seq<nat>, boxes: seq<Rect>, bullet: Rect, k: nat): (r: nat)
    requires Told(hits, owner, boxes) && k <= |boxes|
    ensures k <= r <= |boxes|
    decreases |boxes| - k
  {
    if k == |boxes| || (hits[owner[k]] < SHARED_HIT_POINTS && bullet.Overlaps(boxes[k])) then k
    else FirstSide(hits, owner, boxes, bullet, k + 1)
  }

  /** What one bullet does: the hits after it, and the field it destroys, if any. */
  ghost function Shot(hits: seq<nat>, owner: seq<nat>, boxes: seq<Rect>, bullet: Rect): (r: (seq<nat>, seq<nat>))
    requires Told(hits, owner, boxes)
    ensures |r.0| == |hits|
  {
    var k := FirstSide(hits, owner, boxes, bullet, 0);
    if k == |boxes| then (hits, [])
    else
      var g := owner[k];
      (hits[g := hits[g] + 1], if hits[g] + 1 == SHARED_HIT_POINTS then [g] else [])
  }

  /** The hits after a number of bullets, and the fields destroyed by them, in order. */
  ghost function Volley(hits: seq<nat>, owner: seq<nat>, boxes: seq<Rect>, bullets: seq<Rect>)
    : (r: (seq<nat>, seq<nat>))
    requires Told(hits, owner, boxes)
    ensures |r.0| == |hits|
  {
    if bullets == [] then (hits, [])
    else
      var n := |bullets| - 1;
      var (before, destroyed) := Volley(hits, owner, boxes, bullets[..n]);
      var (after, more) := Shot(before, owner, boxes, bullets[n]);
      (after, destroyed + more)
  }

  /** Every field is in order, and its handlers are sides of the level. */
  ghost predicate Sound(forceFields: seq<ForceFieldBarrier>, beamFields: seq<BeamFieldModel>)
    reads beamFields
  {
    forall g :: 0 <= g < |beamFields| ==>
      && beamFields[g].Valid()
      && forall k :: 0 <= k < |beamFields[g].destructionHandlers| ==>
           beamFields[g].destructionHandlers[k] in forceFields
  }

  lemma FreshIsSound(forceFields: seq<ForceFieldBarrier>, beamFields: seq<BeamFieldModel>)
    requires AllFresh(forceFields, beamFields)
    ensures Sound(forceFields, beamFields) && Hits(beamFields) == Untouched(|beamFields|)
  {
  }

  method FirstStanding(forceFields: seq<ForceFieldBarrier>, beamFields: seq<BeamFieldModel>, ghost owner: seq<nat>,
                       bullet: Rect)
    returns (k: nat)
    requires Owned(forceFields, beamFields, owner) && Sound(forceFields, beamFields)
    ensures k == FirstSide(Hits(beamFields), owner, Boxes(forceFields), bullet, 0)
  {
    k := 0;
    while k < |forceFields| && !(forceFields[k].IsActive() && bullet.Overlaps(forceFields[k].hitbox))
      invariant k <= |forceFields|
      invariant FirstSide(Hits(beamFields), owner, Boxes(forceFields), bullet, 0)
             == FirstSide(Hits(beamFields), owner, Boxes(forceFields), bullet, k)
    {
      k := k + 1;
    }
  }

  /** A bullet spends itself on side `k`. */
  method Strike(forceFields: seq<ForceFieldBarrier>, beamFields: seq<BeamFieldModel>, ghost owner: seq<nat>, k: nat)
    returns (reported: bool)
    requires Owned(forceFields, beamFields, owner) && Sound(forceFields, beamFields) && k < |forceFields|
    modifies beamFields, forceFields
    ensures Sound(forceFields, beamFields)
    ensures Hits(beamFields) == old(Hits(beamFields))[owner[k] := old(Hits(beamFields))[owner[k]] + 1]
    ensures reported <==> Hits(beamFields)[owner[k]] == SHARED_HIT_POINTS
  {
    reported := forceFields[k].HitByBlaster();
  }

  /** One bullet reaches the fields. */
  method Fly(forceFields: seq<ForceFieldBarrier>, beamFields: seq<BeamFieldModel>, ghost owner: seq<nat>, bullet: Rect)
    returns (points: int, ghost destroyed: seq<nat>)
    requires Owned(forceFields, beamFields, owner) && Sound(forceFields, beamFields)
    modifies beamFields, forceFields
    ensures Sound(forceFields, beamFields)
    ensures (Hits(beamFields), destroyed) == Shot(old(Hits(beamFields)), owner, Boxes(forceFields), bullet)
    ensures points == 1_000 * |destroyed|
  {
    hide FirstSide, Sound;
    points, destroyed := 0, [];
    var k := FirstStanding(forceFields, beamFields, owner, bullet);
    if k < |forceFields| {
      var reported := Strike(forceFields, beamFields, owner, k);
      if reported { points, destroyed := 1_000, [owner[k]]; }
    }
  }

  /** The blaster's part of a step that reaches the fields: each bullet strikes at most one side, and
      1 000 points are paid for each field it destroys. */
  method UpdateBullets(forceFields: seq<ForceFieldBarrier>, beamFields: seq<BeamFieldModel>, ghost owner: seq<nat>,
                       bullets: seq<Rect>)
    returns (points: int, ghost destroyed: seq<nat>)
    requires Owned(forceFields, beamFields, owner) && Sound(forceFields, beamFields)
    modifies beamFields, forceFields
    ensures Sound(forceFields, beamFields)
    ensures (Hits(beamFields), destroyed) == Volley(old(Hits(beamFields)), owner, Boxes(forceFields), bullets)
    ensures points == 1_000 * |destroyed|
  {
    hide Shot, Sound, Owned, Told;
    OwnedIsTold(forceFields, beamFields, owner);
    points, destroyed := 0, [];
    ghost var start := Hits(beamFields);
    for n := 0 to |bullets|
      invariant Sound(forceFields, beamFields)
      invariant (Hits(beamFields), destroyed) == Volley(start, owner, Boxes(forceFields), bullets[..n])
      invariant points == 1_000 * |destroyed|
    {
      assert bullets[..n + 1][..n] == bullets[..n];
      var paid, more := Fly(forceFields, beamFields, owner, bullets[n]);
      points, destroyed := points + paid, destroyed + more;
    }
    assert bullets[..|bullets|] == bullets;
  }

  lemma OwnedIsTold(forceFields: seq<ForceFieldBarrier>, beamFields: seq<BeamFieldModel>, owner: seq<nat>)
    requires Owned(forceFields, beamFields, owner)
    ensures forall hits: seq<nat> :: |hits| == |beamFields| ==> Told(hits, owner, Boxes(forceFields))
  {
  }

  /** How many of the bullets struck a side of field `g`. */
  ghost function Strikes(owner: seq<nat>, boxes: seq<Rect>, fields: nat, bullets: seq<Rect>, g: nat): nat
    requires Told(Untouched(fields), owner, boxes)
  {
    if bullets == [] then 0
    else
      var n := |bullets| - 1;
      var k := FirstSide(Volley(Untouched(fields), owner, boxes, bullets[..n]).0, owner, boxes, bullets[n], 0);
      Strikes(owner, boxes, fields, bullets[..n], g) + if k < |boxes| && owner[k] == g then 1 else 0
  }

  ghost function Untouched(fields: nat): (hits: seq<nat>)
    ensures |hits| == fields
  {
    seq(fields, _ => 0)
  }

  /** From the start of a level, whatever the bullets: a field is destroyed once 25 of them have struck
      its sides, in any mixture, it is destroyed once, and no later bullet strikes it. */
  lemma {:induction false} DestroyedOnceOnTheLastHit(owner: seq<nat>, boxes: seq<Rect>, fields: nat,
                                                     bullets: seq<Rect>, g: nat)
    requires Told(Untouched(fields), owner, boxes) && g < fields
    ensures var (hits, destroyed) := Volley(Untouched(fields), owner, boxes, bullets);
            && hits[g] == Strikes(owner, boxes, fields, bullets, g) <= SHARED_HIT_POINTS
            && multiset(destroyed)[g] == if hits[g] == SHARED_HIT_POINTS then 1 else 0
  {
    if bullets != [] {
      var n := |bullets| - 1;
      DestroyedOnceOnTheLastHit(owner, boxes, fields, bullets[..n], g);
      var (before, destroyed) := Volley(Untouched(fields), owner, boxes, bullets[..n]);
      FirstStands(before, owner, boxes, bullets[n], 0);
    }
  }

  /** One volley after another is one volley: what a step leaves is where the next one starts. */
  lemma {:induction false} VolleysCompose(hits: seq<nat>, owner: seq<nat>, boxes: seq<Rect>, first: seq<Rect>,
                                          second: seq<Rect>)
    requires Told(hits, owner, boxes)
    ensures var (between, destroyed) := Volley(hits, owner, boxes, first);
            var (after, more) := Volley(between, owner, boxes, second);
            Volley(hits, owner, boxes, first + second) == (after, destroyed + more)
  {
    hide Shot;
    if second == [] {
      assert first + second == first;
      assert Volley(hits, owner, boxes, first).1 + [] == Volley(hits, owner, boxes, first).1;
    } else {
      var n := |second| - 1;
      VolleysCompose(hits, owner, boxes, first, second[..n]);
      assert (first + second)[..|first + second| - 1] == first + second[..n];
      var (between, destroyed) := Volley(hits, owner, boxes, first);
      var (before, some) := Volley(between, owner, boxes, second[..n]);
      var (after, last) := Shot(before, owner, boxes, second[n]);
      assert (destroyed + some) + last == destroyed + (some + last);
    }
  }

  /** The volleys of the steps of a level, one after the other. */
  ghost function Volleys(hits: seq<nat>, owner: seq<nat>, boxes: seq<Rect>, steps: seq<seq<Rect>>)
    : (r: (seq<nat>, seq<nat>))
    requires Told(hits, owner, boxes)
    ensures |r.0| == |hits|
  {
    if steps == [] then (hits, [])
    else
      var n := |steps| - 1;
      var (before, destroyed) := Volleys(hits, owner, boxes, steps[..n]);
      var (after, more) := Volley(before, owner, boxes, steps[n]);
      (after, destroyed + more)
  }

  function AllBullets(steps: seq<seq<Rect>>): seq<Rect> {
    if steps == [] then [] else AllBullets(steps[..|steps| - 1]) + steps[|steps| - 1]
  }

  /** Over the steps of a level, from untouched fields, a field is destroyed once 25 bullets have struck
      its sides, in whatever steps, and it is destroyed once. */
  lemma {:induction false} DestroyedOnceInALevel(owner: seq<nat>, boxes: seq<Rect>, fields: nat,
                                                 steps: seq<seq<Rect>>, g: nat)
    requires Told(Untouched(fields), owner, boxes) && g < fields
    ensures var (hits, destroyed) := Volleys(Untouched(fields), owner, boxes, steps);
            && hits[g] == Strikes(owner, boxes, fields, AllBullets(steps), g) <= SHARED_HIT_POINTS
            && multiset(destroyed)[g] == if hits[g] == SHARED_HIT_POINTS then 1 else 0
  {
    VolleysAreOne(Untouched(fields), owner, boxes, steps);
    DestroyedOnceOnTheLastHit(owner, boxes, fields, AllBullets(steps), g);
  }

  lemma {:induction false} VolleysAreOne(hits: seq<nat>, owner: seq<nat>, boxes: seq<Rect>, steps: seq<seq<Rect>>)
    requires Told(hits, owner, boxes)
    ensures Volleys(hits, owner, boxes, steps) == Volley(hits, owner, boxes, AllBullets(steps))
  {
    hide Volley;
    if steps == [] {
      assert Volley(hits, owner, boxes, []) == (hits, []) by { NoBullets(hits, owner, boxes); }
    } else {
      var n := |steps| - 1;
      VolleysAreOne(hits, owner, boxes, steps[..n]);
      VolleysCompose(hits, owner, boxes, AllBullets(steps[..n]), steps[n]);
    }
  }

  lemma NoBullets(hits: seq<nat>, owner: seq<nat>, boxes: seq<Rect>)
    requires Told(hits, owner, boxes)
    ensures Volley(hits, owner, boxes, []) == (hits, [])
  {
  }

  lemma {:induction false} FirstStands(hits: seq<nat>, owner: seq<nat>, boxes: seq<Rect>, bullet: Rect, k: nat)
    requires Told(hits, owner, boxes) && k <= |boxes|
    ensures var r := FirstSide(hits, owner, boxes, bullet, k);
            && (r < |boxes| ==> hits[owner[r]] < SHARED_HIT_POINTS && bullet.Overlaps(boxes[r]))
            && (forall m :: k <= m < r ==> hits[owner[m]] >= SHARED_HIT_POINTS || !bullet.Overlaps(boxes[m]))
    decreases |boxes| - k
  {
    if k < |boxes| && !(hits[owner[k]] < SHARED_HIT_POINTS && bullet.Overlaps(boxes[k])) {
      FirstStands(hits, owner, boxes, bullet, k + 1);
    }
  }
}
