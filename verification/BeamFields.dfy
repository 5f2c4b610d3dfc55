/** Beam markers grouped into fields by strictly overlapping x intervals, and the shared hit-point
    pool of one field. */
module BeamFields {
  import opened Rects

  predicate XOverlap(a: Rect, b: Rect) {
    a.MinX() < b.MaxX() && b.MinX() < a.MaxX()
  }

  // Connected components of the overlap relation

  ghost predicate IsPath(boxes: seq<Rect>, path: seq<nat>) {
    && path != []
    && (forall k :: 0 <= k < |path| ==> path[k] < |boxes|)
    && (forall k :: 0 <= k < |path| - 1 ==> XOverlap(boxes[path[k]], boxes[path[k + 1]]))
  }

  ghost predicate PathBetween(boxes: seq<Rect>, path: seq<nat>, i: nat, j: nat) {
    IsPath(boxes, path) && path[0] == i && path[|path| - 1] == j
  }

  ghost predicate Connected(boxes: seq<Rect>, i: nat, j: nat) {
    exists path :: PathBetween(boxes, path, i, j)
  }

  lemma ConnectedToItself(boxes: seq<Rect>, i: nat)
    requires i < |boxes|
    ensures Connected(boxes, i, i)
  {
    assert PathBetween(boxes, [i], i, i);
  }

  lemma ConnectedByOverlap(boxes: seq<Rect>, i: nat, j: nat, k: nat)
    requires Connected(boxes, i, j) && k < |boxes| && XOverlap(boxes[j], boxes[k])
    ensures Connected(boxes, i, k)
  {
    var path :| PathBetween(boxes, path, i, j);
    assert PathBetween(boxes, path + [k], i, k);
  }

  lemma {:induction false} ConnectedFromPath(boxes: seq<Rect>, h: nat, i: nat, path: seq<nat>)
    requires Connected(boxes, h, i) && IsPath(boxes, path) && path[0] == i
    ensures Connected(boxes, h, path[|path| - 1])
    decreases |path|
  {
    if |path| > 1 {
      var n := |path| - 1;
      ConnectedFromPath(boxes, h, i, path[..n]);
      ConnectedByOverlap(boxes, h, path[n - 1], path[n]);
    }
  }

  lemma {:induction false} ConnectedBack(boxes: seq<Rect>, path: seq<nat>)
    requires IsPath(boxes, path)
    ensures Connected(boxes, path[|path| - 1], path[0])
    decreases |path|
  {
    if |path| == 1 {
      ConnectedToItself(boxes, path[0]);
    } else {
      ConnectedBack(boxes, path[1..]);
      ConnectedByOverlap(boxes, path[|path| - 1], path[1], path[0]);
    }
  }

  lemma ConnectedThrough(boxes: seq<Rect>, h: nat, i: nat, j: nat)
    requires Connected(boxes, h, i) && Connected(boxes, h, j)
    ensures Connected(boxes, i, j)
  {
    var p :| PathBetween(boxes, p, h, i);
    var q :| PathBetween(boxes, q, h, j);
    ConnectedBack(boxes, p);
    ConnectedFromPath(boxes, i, h, q);
  }

  /** Connected to a box that begins left of zero. */
  ghost predicate TiedToZero(boxes: seq<Rect>, i: nat) {
    exists n: nat :: n < |boxes| && boxes[n].MinX() < 0.0 && Connected(boxes, i, n)
  }

  /** What the sweep takes for one field: connected boxes, and all that are connected to a box left of zero. */
  ghost predicate Tied(boxes: seq<Rect>, i: nat, j: nat) {
    Connected(boxes, i, j) || (TiedToZero(boxes, i) && TiedToZero(boxes, j))
  }

  lemma ConnectedIsMutual(boxes: seq<Rect>, i: nat, j: nat)
    requires Connected(boxes, i, j)
    ensures Connected(boxes, j, i)
  {
    var path :| PathBetween(boxes, path, i, j);
    ConnectedBack(boxes, path);
  }

  lemma ZeroIsShared(boxes: seq<Rect>, i: nat, j: nat)
    requires Connected(boxes, i, j) && TiedToZero(boxes, i)
    ensures TiedToZero(boxes, j)
  {
    var n: nat :| n < |boxes| && boxes[n].MinX() < 0.0 && Connected(boxes, i, n);
    ConnectedThrough(boxes, i, j, n);
  }

  lemma TiedByOverlap(boxes: seq<Rect>, i: nat, j: nat, k: nat)
    requires Tied(boxes, i, j) && j < |boxes| && k < |boxes| && XOverlap(boxes[j], boxes[k])
    ensures Tied(boxes, i, k)
  {
    ConnectedToItself(boxes, j);
    ConnectedByOverlap(boxes, j, j, k);
    if Connected(boxes, i, j) { ConnectedByOverlap(boxes, i, j, k); } else { ZeroIsShared(boxes, j, k); }
  }

  lemma TiedThrough(boxes: seq<Rect>, h: nat, i: nat, j: nat)
    requires Tied(boxes, h, i) && Tied(boxes, h, j)
    ensures Tied(boxes, i, j)
  {
    hide Connected;
    if Connected(boxes, h, i) && Connected(boxes, h, j) {
      ConnectedThrough(boxes, h, i, j);
    } else if Connected(boxes, h, i) {
      ZeroIsShared(boxes, h, i);
    } else if Connected(boxes, h, j) {
      ZeroIsShared(boxes, h, j);
    }
  }

  // The order of the sweep

  /** Left edge first, the marker's index on ties. */
  predicate Earlier(boxes: seq<Rect>, i: nat, j: nat)
    requires i < |boxes| && j < |boxes|
  {
    boxes[i].MinX() < boxes[j].MinX() || (boxes[i].MinX() == boxes[j].MinX() && i <= j)
  }

  ghost predicate AreIndices(boxes: seq<Rect>, group: seq<nat>) {
    forall k :: 0 <= k < |group| ==> group[k] < |boxes|
  }

  ghost predicate Sorted(boxes: seq<Rect>, order: seq<nat>) {
    && AreIndices(boxes, order)
    && (forall k, m :: 0 <= k < m < |order| ==> Earlier(boxes, order[k], order[m]))
  }

  function Insert(boxes: seq<Rect>, i: nat, order: seq<nat>): (longer: seq<nat>)
    requires i < |boxes| && AreIndices(boxes, order)
    ensures |longer| == |order| + 1
  {
    if order == [] then [i]
    else
      var n := |order| - 1;
      if Earlier(boxes, order[n], i) then order + [i] else Insert(boxes, i, order[..n]) + [order[n]]
  }

  lemma {:induction false} InsertAdds(boxes: seq<Rect>, i: nat, order: seq<nat>)
    requires i < |boxes| && AreIndices(boxes, order)
    ensures multiset(Insert(boxes, i, order)) == multiset(order) + multiset{i}
  {
    if order != [] {
      var n := |order| - 1;
      assert order == order[..n] + [order[n]];
      if !Earlier(boxes, order[n], i) { InsertAdds(boxes, i, order[..n]); }
    }
  }

  lemma {:induction false} InsertSorted(boxes: seq<Rect>, i: nat, order: seq<nat>)
    requires i < |boxes| && Sorted(boxes, order)
    ensures Sorted(boxes, Insert(boxes, i, order))
  {
    if order != [] {
      var n := |order| - 1;
      if !Earlier(boxes, order[n], i) {
        var shorter := Insert(boxes, i, order[..n]);
        InsertSorted(boxes, i, order[..n]);
        InsertAdds(boxes, i, order[..n]);
        forall k | 0 <= k < |shorter| ensures Earlier(boxes, shorter[k], order[n]) {
          assert shorter[k] in multiset(shorter);
          assert shorter[k] in order[..n] || shorter[k] == i;
        }
      }
    }
  }

  /** Each box once, the left edges in order, and the numbers in order where these agree. */
  ghost predicate InSweepOrder(boxes: seq<Rect>, order: seq<nat>) {
    && AreIndices(boxes, order)
    && (forall i: nat :: multiset(order)[i] == if i < |boxes| then 1 else 0)
    && (forall k, m :: 0 <= k < m < |order| ==>
          && boxes[order[k]].x <= boxes[order[m]].x
          && (boxes[order[k]].x == boxes[order[m]].x ==> order[k] < order[m]))
  }

  lemma SortedOnce(boxes: seq<Rect>, order: seq<nat>)
    requires Sorted(boxes, order) && forall i: nat :: multiset(order)[i] == if i < |boxes| then 1 else 0
    ensures InSweepOrder(boxes, order)
  {
    forall k, m | 0 <= k < m < |order| ensures order[k] != order[m] { NoneTwice(order, k, m); }
  }

  lemma NoneTwice(order: seq<nat>, k: nat, m: nat)
    requires k < m < |order| && multiset(order)[order[m]] <= 1
    ensures order[k] != order[m]
  {
    var before := order[..m];
    assert order == before + [order[m]] + order[m + 1..];
    assert before[k] in multiset(before);
  }

  /** The sweep order of the boxes. */
  method SortIndices(boxes: seq<Rect>) returns (order: seq<nat>)
    ensures Sorted(boxes, order) && |order| == |boxes|
    ensures InSweepOrder(boxes, order)
  {
    order := [];
    for n := 0 to |boxes|
      invariant Sorted(boxes, order) && |order| == n
      invariant forall i: nat :: multiset(order)[i] == if i < n then 1 else 0
    {
      InsertSorted(boxes, n, order);
      InsertAdds(boxes, n, order);
      order := Insert(boxes, n, order);
    }
    SortedOnce(boxes, order);
  }

  // The sweep

  ghost predicate SameGroup(groups: seq<seq<nat>>, i: nat, j: nat) {
    exists g :: 0 <= g < |groups| && i in groups[g] && j in groups[g]
  }

  /** The boxes that begin left of zero hang together. */
  ghost predicate NegativesConnected(boxes: seq<Rect>) {
    forall i: nat, j: nat :: i < |boxes| && j < |boxes| && boxes[i].MinX() < 0.0 && boxes[j].MinX() < 0.0 ==>
      Connected(boxes, i, j)
  }

  function Flatten(groups: seq<seq<nat>>): seq<nat> {
    if groups == [] then [] else Flatten(groups[..|groups| - 1]) + groups[|groups| - 1]
  }

  ghost predicate AllIndices(boxes: seq<Rect>, groups: seq<seq<nat>>) {
    forall g :: 0 <= g < |groups| ==> AreIndices(boxes, groups[g]) && groups[g] != []
  }

  /** Every box of `a` ends before any box of `b` begins. */
  ghost predicate Apart(boxes: seq<Rect>, a: seq<nat>, b: seq<nat>)
    requires AreIndices(boxes, a) && AreIndices(boxes, b)
  {
    forall k, m :: 0 <= k < |a| && 0 <= m < |b| ==> boxes[a[k]].MaxX() <= boxes[b[m]].MinX()
  }

  ghost predicate Separated(boxes: seq<Rect>, groups: seq<seq<nat>>)
    requires AllIndices(boxes, groups)
  {
    forall g, h :: 0 <= g < h < |groups| ==> Apart(boxes, groups[g], groups[h])
  }

  ghost predicate FromZero(boxes: seq<Rect>, group: seq<nat>)
    requires AreIndices(boxes, group)
  {
    forall k :: 0 <= k < |group| ==> boxes[group[k]].MinX() >= 0.0
  }

  /** Every box of the group is tied to its first one. */
  ghost predicate Hangs(boxes: seq<Rect>, group: seq<nat>) {
    forall k :: 0 <= k < |group| ==> Tied(boxes, group[0], group[k])
  }

  ghost predicate AllHang(boxes: seq<Rect>, groups: seq<seq<nat>>) {
    forall g :: 0 <= g < |groups| ==> Hangs(boxes, groups[g])
  }

  /** How far right the boxes of a stretch reach, the sweep counting from zero. */
  ghost predicate Reach(boxes: seq<Rect>, stretch: seq<nat>, reach: real)
    requires AreIndices(boxes, stretch)
  {
    && reach >= 0.0
    && (forall m :: 0 <= m < |stretch| ==> boxes[stretch[m]].MaxX() <= reach)
    && (reach == 0.0 || exists m :: 0 <= m < |stretch| && boxes[stretch[m]].MaxX() == reach)
  }

  lemma {:induction false} InFlatten(groups: seq<seq<nat>>, i: nat)
    ensures i in Flatten(groups) <==> exists g :: 0 <= g < |groups| && i in groups[g]
  {
    if groups != [] {
      var n := |groups| - 1;
      InFlatten(groups[..n], i);
      if g :| 0 <= g < |groups| && i in groups[g] {
        if g < n { assert groups[..n][g] == groups[g]; }
      }
    }
  }

  /** What the sweep knows after `done` boxes: closed groups, the open one, and the reach so far. */
  ghost predicate SweepState(boxes: seq<Rect>, done: seq<nat>, groups: seq<seq<nat>>, reach: real) {
    && AreIndices(boxes, done) && AllIndices(boxes, groups)
    && Flatten(groups) == done
    && Separated(boxes, groups)
    && (forall g :: 0 < g < |groups| ==> FromZero(boxes, groups[g]))
    && Reach(boxes, done, reach)
  }

  ghost predicate Comes(boxes: seq<Rect>, done: seq<nat>, index: nat)
    requires AreIndices(boxes, done)
  {
    index < |boxes| && forall k :: 0 <= k < |done| ==> Earlier(boxes, done[k], index)
  }

  lemma GroupsAreDone(boxes: seq<Rect>, done: seq<nat>, groups: seq<seq<nat>>, reach: real, g: nat, k: nat)
    requires SweepState(boxes, done, groups, reach) && g < |groups| && k < |groups[g]|
    ensures groups[g][k] in done && boxes[groups[g][k]].MaxX() <= reach
  {
    InFlatten(groups, groups[g][k]);
    var m :| 0 <= m < |done| && done[m] == groups[g][k];
  }

  lemma ReachGrows(boxes: seq<Rect>, done: seq<nat>, reach: real, index: nat)
    requires AreIndices(boxes, done) && index < |boxes| && Reach(boxes, done, reach)
    ensures Reach(boxes, done + [index], Max(reach, boxes[index].MaxX()))
  {
    var longer := done + [index];
    assert longer[|done|] == index;
    if boxes[index].MaxX() <= reach && reach != 0.0 {
      var m :| 0 <= m < |done| && boxes[done[m]].MaxX() == reach;
      assert longer[m] == done[m];
    }
  }

  /** The next box begins past everything so far: a new group. */
  lemma OpenGroup(boxes: seq<Rect>, done: seq<nat>, groups: seq<seq<nat>>, reach: real, index: nat)
    requires SweepState(boxes, done, groups, reach) && index < |boxes|
    requires groups == [] || boxes[index].MinX() >= reach
    ensures SweepState(boxes, done + [index], groups + [[index]], Max(reach, boxes[index].MaxX()))
    ensures AllHang(boxes, groups) ==> AllHang(boxes, groups + [[index]])
  {
    var longer := groups + [[index]];
    assert longer[..|groups|] == groups;
    forall g | 0 <= g < |groups| ensures Apart(boxes, groups[g], [index]) {
      forall k | 0 <= k < |groups[g]| ensures boxes[groups[g][k]].MaxX() <= boxes[index].MinX() {
        GroupsAreDone(boxes, done, groups, reach, g, k);
      }
    }
    ReachGrows(boxes, done, reach, index);
    ConnectedToItself(boxes, index);
  }

  /** The next box begins before the reach: it joins the last group. */
  lemma JoinGroup(boxes: seq<Rect>, done: seq<nat>, groups: seq<seq<nat>>, reach: real, index: nat)
    requires SweepState(boxes, done, groups, reach) && Comes(boxes, done, index) && groups != []
    ensures SweepState(boxes, done + [index], groups[..|groups| - 1] + [groups[|groups| - 1] + [index]],
                       Max(reach, boxes[index].MaxX()))
  {
    hide Max, Reach;
    var n := |groups| - 1;
    var last := groups[n];
    var longer := groups[..n] + [last + [index]];
    assert longer[..n] == groups[..n];
    GroupsAreDone(boxes, done, groups, reach, n, 0);
    assert boxes[last[0]].MinX() <= boxes[index].MinX() by {
      var m :| 0 <= m < |done| && done[m] == last[0];
      assert Earlier(boxes, done[m], index);
    }
    forall g | 0 <= g < n ensures Apart(boxes, groups[g], last + [index]) {
      assert Apart(boxes, groups[g], last);
      forall k | 0 <= k < |groups[g]| ensures boxes[groups[g][k]].MaxX() <= boxes[index].MinX() {}
    }
    assert n > 0 ==> FromZero(boxes, last);
    ReachGrows(boxes, done, reach, index);
  }

  /** A box that joins the last group overlaps one of its boxes, or begins like it left of zero. */
  lemma JoinerConnects(boxes: seq<Rect>, done: seq<nat>, groups: seq<seq<nat>>, reach: real, index: nat)
    requires SweepState(boxes, done, groups, reach) && Comes(boxes, done, index) && groups != []
    requires forall i :: 0 <= i < |boxes| ==> boxes[i].width > 0.0
    requires boxes[index].MinX() < reach && Hangs(boxes, groups[|groups| - 1])
    ensures groups[|groups| - 1] != [] && Tied(boxes, groups[|groups| - 1][0], index)
  {
    var n := |groups| - 1;
    var last := groups[n];
    GroupsAreDone(boxes, done, groups, reach, n, 0);
    var f :| 0 <= f < |done| && done[f] == last[0];
    assert Earlier(boxes, done[f], index);
    if boxes[index].MinX() >= 0.0 {
      var m :| 0 <= m < |done| && boxes[done[m]].MaxX() == reach;
      InFlatten(groups, done[m]);
      var g :| 0 <= g < |groups| && done[m] in groups[g];
      assert g == n;
      assert Earlier(boxes, done[m], index);
      var k :| 0 <= k < |last| && last[k] == done[m];
      TiedByOverlap(boxes, last[0], last[k], index);
    } else {
      ConnectedToItself(boxes, last[0]);
      ConnectedToItself(boxes, index);
    }
  }

  lemma JoinerHangs(boxes: seq<Rect>, done: seq<nat>, groups: seq<seq<nat>>, reach: real, index: nat)
    requires SweepState(boxes, done, groups, reach) && Comes(boxes, done, index) && groups != []
    requires forall i :: 0 <= i < |boxes| ==> boxes[i].width > 0.0
    requires boxes[index].MinX() < reach && AllHang(boxes, groups)
    ensures AllHang(boxes, groups[..|groups| - 1] + [groups[|groups| - 1] + [index]])
  {
    hide SweepState, Comes, Tied;
    JoinerConnects(boxes, done, groups, reach, index);
    var longer := groups[..|groups| - 1] + [groups[|groups| - 1] + [index]];
    forall g | 0 <= g < |longer| ensures Hangs(boxes, longer[g]) {
      assert Hangs(boxes, groups[g]);
    }
  }

  /** Every box is in exactly one group, once. */
  ghost predicate Partition(boxes: seq<Rect>, groups: seq<seq<nat>>) {
    forall i: nat :: multiset(Flatten(groups))[i] == if i < |boxes| then 1 else 0
  }

  lemma FindGroup(boxes: seq<Rect>, groups: seq<seq<nat>>, i: nat) returns (g: nat)
    requires Partition(boxes, groups) && i < |boxes|
    ensures g < |groups| && i in groups[g]
  {
    assert i in multiset(Flatten(groups));
    InFlatten(groups, i);
    g :| 0 <= g < |groups| && i in groups[g];
  }

  lemma {:induction false} PathStaysInGroup(boxes: seq<Rect>, groups: seq<seq<nat>>, path: seq<nat>, g: nat)
    requires AllIndices(boxes, groups) && Separated(boxes, groups) && Partition(boxes, groups)
    requires IsPath(boxes, path) && g < |groups| && path[0] in groups[g]
    ensures path[|path| - 1] in groups[g]
    decreases |path|
  {
    if |path| > 1 {
      var n := |path| - 1;
      PathStaysInGroup(boxes, groups, path[..n], g);
      var h := FindGroup(boxes, groups, path[n]);
      assert h == g;
    }
  }

  lemma ConnectedShareGroup(boxes: seq<Rect>, groups: seq<seq<nat>>, i: nat, j: nat)
    requires AllIndices(boxes, groups) && Separated(boxes, groups) && Partition(boxes, groups)
    requires Connected(boxes, i, j)
    ensures SameGroup(groups, i, j)
  {
    var path :| PathBetween(boxes, path, i, j);
    var g := FindGroup(boxes, groups, i);
    PathStaysInGroup(boxes, groups, path, g);
  }

  lemma HangingIsTied(boxes: seq<Rect>, groups: seq<seq<nat>>, i: nat, j: nat)
    requires AllHang(boxes, groups) && SameGroup(groups, i, j)
    ensures Tied(boxes, i, j)
  {
    hide Tied;
    var g :| 0 <= g < |groups| && i in groups[g] && j in groups[g];
    var k :| 0 <= k < |groups[g]| && groups[g][k] == i;
    var m :| 0 <= m < |groups[g]| && groups[g][m] == j;
    assert Hangs(boxes, groups[g]);
    TiedThrough(boxes, groups[g][0], groups[g][k], groups[g][m]);
  }

  /** What is connected to a box left of zero is in the first group. */
  lemma ZeroIsFirst(boxes: seq<Rect>, groups: seq<seq<nat>>, i: nat)
    requires AllIndices(boxes, groups) && Separated(boxes, groups) && Partition(boxes, groups)
    requires forall g :: 0 < g < |groups| ==> FromZero(boxes, groups[g])
    requires TiedToZero(boxes, i)
    ensures groups != [] && i in groups[0]
  {
    var n: nat :| n < |boxes| && boxes[n].MinX() < 0.0 && Connected(boxes, i, n);
    NegativesShareGroup(boxes, groups, n);
    ConnectedIsMutual(boxes, i, n);
    var path :| PathBetween(boxes, path, n, i);
    PathStaysInGroup(boxes, groups, path, 0);
  }

  lemma TiedShareGroup(boxes: seq<Rect>, groups: seq<seq<nat>>, i: nat, j: nat)
    requires AllIndices(boxes, groups) && Separated(boxes, groups) && Partition(boxes, groups)
    requires forall g :: 0 < g < |groups| ==> FromZero(boxes, groups[g])
    requires Tied(boxes, i, j)
    ensures SameGroup(groups, i, j)
  {
    if Connected(boxes, i, j) {
      ConnectedShareGroup(boxes, groups, i, j);
    } else {
      ZeroIsFirst(boxes, groups, i);
      ZeroIsFirst(boxes, groups, j);
    }
  }

  lemma NegativesShareGroup(boxes: seq<Rect>, groups: seq<seq<nat>>, i: nat)
    requires AllIndices(boxes, groups) && Partition(boxes, groups) && i < |boxes| && boxes[i].MinX() < 0.0
    requires forall g :: 0 < g < |groups| ==> FromZero(boxes, groups[g])
    ensures groups != [] && i in groups[0]
  {
    var g := FindGroup(boxes, groups, i);
    var k :| 0 <= k < |groups[g]| && groups[g][k] == i;
  }

  lemma GroupsAreComponents(boxes: seq<Rect>, order: seq<nat>, groups: seq<seq<nat>>, reach: real)
    requires SweepState(boxes, order, groups, reach) && AllHang(boxes, groups)
    requires forall i: nat :: multiset(order)[i] == if i < |boxes| then 1 else 0
    ensures Partition(boxes, groups) && forall g :: 0 <= g < |groups| ==> groups[g] != []
    ensures forall i: nat, j: nat :: SameGroup(groups, i, j) <==> Tied(boxes, i, j)
  {
    hide Tied, SameGroup, AllHang;
    forall i: nat, j: nat ensures SameGroup(groups, i, j) <==> Tied(boxes, i, j) {
      if SameGroup(groups, i, j) { HangingIsTied(boxes, groups, i, j); }
      if Tied(boxes, i, j) { TiedShareGroup(boxes, groups, i, j); }
    }
  }

  /** The ties are the connections exactly when the boxes left of zero hang together. */
  lemma TiesAreConnections(boxes: seq<Rect>)
    ensures forall i: nat, j: nat :: Connected(boxes, i, j) ==> Tied(boxes, i, j)
    ensures NegativesConnected(boxes) <==> forall i: nat, j: nat :: Tied(boxes, i, j) ==> Connected(boxes, i, j)
  {
    hide Connected;
    if NegativesConnected(boxes) {
      forall i: nat, j: nat | Tied(boxes, i, j) ensures Connected(boxes, i, j) {
        if !Connected(boxes, i, j) { TiedNegatives(boxes, i, j); }
      }
    }
    forall i: nat, j: nat | i < |boxes| && j < |boxes| && boxes[i].MinX() < 0.0 && boxes[j].MinX() < 0.0
      ensures Tied(boxes, i, j)
    {
      ConnectedToItself(boxes, i);
      ConnectedToItself(boxes, j);
    }
  }

  lemma TiedNegatives(boxes: seq<Rect>, i: nat, j: nat)
    requires NegativesConnected(boxes) && TiedToZero(boxes, i) && TiedToZero(boxes, j)
    ensures Connected(boxes, i, j)
  {
    hide Connected;
    var n: nat :| n < |boxes| && boxes[n].MinX() < 0.0 && Connected(boxes, i, n);
    var m: nat :| m < |boxes| && boxes[m].MinX() < 0.0 && Connected(boxes, j, m);
    ConnectedIsMutual(boxes, i, n);
    ConnectedThrough(boxes, n, i, m);
    ConnectedIsMutual(boxes, j, m);
    ConnectedIsMutual(boxes, i, m);
    ConnectedThrough(boxes, m, i, j);
  }

  /** What the groups are when every box has been swept. */
  lemma SweepEnds(boxes: seq<Rect>, order: seq<nat>, groups: seq<seq<nat>>, reach: real)
    requires SweepState(boxes, order, groups, reach) && AllHang(boxes, groups) && InSweepOrder(boxes, order)
    ensures Partition(boxes, groups) && InSweepOrder(boxes, Flatten(groups))
    ensures forall g :: 0 <= g < |groups| ==> groups[g] != []
    ensures forall i: nat, j: nat :: SameGroup(groups, i, j) <==> Tied(boxes, i, j)
    ensures NegativesConnected(boxes) <==>
            forall i: nat, j: nat :: SameGroup(groups, i, j) ==> Connected(boxes, i, j)
  {
    hide Tied, SameGroup, AllHang, Connected, NegativesConnected;
    GroupsAreComponents(boxes, order, groups, reach);
    TiesAreConnections(boxes);
  }

  lemma EmptySweep(boxes: seq<Rect>)
    ensures SweepState(boxes, [], [], 0.0) && AllHang(boxes, [])
  {}

  lemma NextComes(boxes: seq<Rect>, order: seq<nat>, k: nat)
    requires Sorted(boxes, order) && k < |order|
    ensures AreIndices(boxes, order[..k]) && Comes(boxes, order[..k], order[k]) && order[k] < |boxes|
  {}

  /** Groups the boxes in one sweep from the left. */
  method Groups(boxes: seq<Rect>) returns (groups: seq<seq<nat>>)
    requires forall i :: 0 <= i < |boxes| ==> boxes[i].width > 0.0
    ensures Partition(boxes, groups) && InSweepOrder(boxes, Flatten(groups))
    ensures forall g :: 0 <= g < |groups| ==> groups[g] != []
    ensures forall i: nat, j: nat :: SameGroup(groups, i, j) <==> Tied(boxes, i, j)
    ensures NegativesConnected(boxes) <==>
            forall i: nat, j: nat :: SameGroup(groups, i, j) ==> Connected(boxes, i, j)
  {
    hide SweepState, Sorted, Connected, Tied, NegativesConnected, AllHang, Hangs, Comes, Partition, SameGroup, Flatten,
      InSweepOrder;
    var indexed := SortIndices(boxes);
    EmptySweep(boxes);
    groups := [];
    var current: seq<nat> := [];
    var currentMaxX := 0.0;
    ghost var sweep: seq<seq<nat>> := [];
    for k := 0 to |indexed|
      invariant sweep == if k == 0 then [] else groups + [current]
      invariant (k == 0 <==> current == []) && (k == 0 ==> groups == [])
      invariant SweepState(boxes, indexed[..k], sweep, currentMaxX)
      invariant AllHang(boxes, sweep)
    {
      var index := indexed[k];
      NextComes(boxes, indexed, k);
      var box := boxes[index];
      assert indexed[..k + 1] == indexed[..k] + [index];
      if current != [] && box.MinX() >= currentMaxX {
        OpenGroup(boxes, indexed[..k], sweep, currentMaxX, index);
        groups := groups + [current];
        current := [];
      } else if k == 0 {
        OpenGroup(boxes, indexed[..k], sweep, currentMaxX, index);
      } else {
        assert sweep[..|sweep| - 1] == groups && sweep[|sweep| - 1] == current;
        JoinGroup(boxes, indexed[..k], sweep, currentMaxX, index);
        JoinerHangs(boxes, indexed[..k], sweep, currentMaxX, index);
      }
      assert current == [] ==> current + [index] == [index];
      current := current + [index];
      sweep := groups + [current];
      currentMaxX := if currentMaxX < box.MaxX() then box.MaxX() else currentMaxX;
    }
    if current != [] { groups := groups + [current]; }
    assert indexed[..|indexed|] == indexed;
    assert groups == sweep;
    SweepEnds(boxes, indexed, groups, currentMaxX);
  }

  lemma {:induction false} AloneStaysAlone(boxes: seq<Rect>, i: nat, path: seq<nat>)
    requires IsPath(boxes, path) && path[0] == i
    requires forall j :: 0 <= j < |boxes| && j != i ==> !XOverlap(boxes[i], boxes[j])
    ensures path[|path| - 1] == i
    decreases |path|
  {
    if |path| > 1 { AloneStaysAlone(boxes, i, path[..|path| - 1]); }
  }

  /** Two markers left of zero that do not touch: the sweep, which counts its reach from zero, puts them
      in one group all the same. */
  lemma ApartLeftOfZero(boxes: seq<Rect>)
    requires boxes == [Rect(-30.0, 0.0, 5.0, 1.0), Rect(-10.0, 0.0, 5.0, 1.0)]
    ensures !NegativesConnected(boxes)
  {
    if Connected(boxes, 0, 1) {
      var path :| PathBetween(boxes, path, 0, 1);
      AloneStaysAlone(boxes, 0, path);
    }
    assert !Connected(boxes, 0, 1);
  }
}
