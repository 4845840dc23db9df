/** Train, validation and test splits of the fusion dataset: the samples of each
    label and axis are shuffled and cut, and each group gives test and validation
    parts of equal size while the budgets last. The shuffle is an arbitrary
    permutation; the contracts hold for each of its outcomes. */
module DatasetSplits {
  import opened Prelude

  datatype Kind = Benign | Attack
  datatype Split = Train | Val | Test

  type Axis = string

  datatype Sample = Sample(kind: Kind, axis: Axis, sanity: bool)

  // ----- shares -----

  /** 15 percent of n, rounded to the nearest integer, ties to the even one. */
  function Round15(n: nat): (r: nat)
    ensures 2 * (3 * n) - 20 <= 40 * r <= 2 * (3 * n) + 20
  {
    var q, rest := 3 * n / 20, 3 * n % 20;
    if rest < 10 || (rest == 10 && q % 2 == 0) then q else q + 1
  }

  function Quota(n: nat): nat { if n >= 3 then Max(1, Round15(n)) else 0 }

  function Cap(n: nat): nat
    requires n > 0
  {
    (n - 1) / 2
  }

  /** What a group of n gives to each of test and validation while budget is left. */
  function Take(n: nat, budget: nat): nat
    requires n > 0
  {
    Min(Min(Quota(n), Cap(n)), budget)
  }

  /** Training always keeps something, and at least half of a group exactly
      unless the group has three members and one of them can be afforded. */
  lemma TrainKeeps(n: nat, budget: nat)
    requires n > 0
    ensures n - 2 * Take(n, budget) >= 1
    ensures 2 * (n - 2 * Take(n, budget)) >= n <==> !(n == 3 && budget > 0)
  {
    if n == 3 {
      assert Round15(3) == 0 && Quota(3) == 1;
    }
  }

  /** The cap never binds: a group under three gives nothing away, a larger one the
      integer nearest to 15 percent of it, ties to the even one, but at least one
      member, as far as the budget goes. */
  lemma TakeExactly(n: nat, budget: nat) returns (near: nat)
    requires n > 0
    ensures Nearest(near, n)
    ensures Take(n, budget) == if n < 3 then 0 else Min(Max(1, near), budget)
  {
    near := Round15(n);
    RoundsToNearest(n);
    if n == 3 || n == 4 {
      assert Round15(3) == 0 && Round15(4) == 1;
    }
    hide Round15;
  }

  lemma RoundsToNearest(n: nat)
    ensures Nearest(Round15(n), n)
  {
    var q, rest := 3 * n / 20, 3 * n % 20;
    assert 3 * n == 20 * q + rest;
    NearestOf(n, q, rest, Round15(n));
  }

  lemma NearestOf(n: nat, q: nat, rest: nat, r: nat)
    requires 3 * n == 20 * q + rest && rest < 20
    requires r == if rest < 10 || (rest == 10 && q % 2 == 0) then q else q + 1
    ensures Nearest(r, n)
  {
  }

  /** |20 r - 3 n| is at most 10, and r is even if it is 10. */
  predicate Nearest(r: nat, n: nat) {
    -10 <= 20 * r - 3 * n <= 10 && (20 * r - 3 * n == 10 || 20 * r - 3 * n == -10 ==> r % 2 == 0)
  }

  /** The documented half is missed by a group of three. */
  lemma ThreeSplitEvenly(budget: nat)
    requires budget > 0
    ensures Take(3, budget) == 1 && 2 * (3 - 2 * Take(3, budget)) < 3
  {
    assert Round15(3) == 0;
  }

  // ----- sets of positions -----

  function Members(samples: seq<Sample>, kind: Kind, axis: Axis): set<nat> {
    set p: nat | p < |samples| && !samples[p].sanity && samples[p].kind == kind && samples[p].axis == axis
  }

  function OfKind(samples: seq<Sample>, kind: Kind): set<nat> {
    set p: nat | p < |samples| && !samples[p].sanity && samples[p].kind == kind
  }

  function OfAxes(samples: seq<Sample>, kind: Kind, axes: set<Axis>): set<nat> {
    set p: nat | p < |samples| && !samples[p].sanity && samples[p].kind == kind && samples[p].axis in axes
  }

  function Chosen(splits: seq<Option<Split>>, among: set<nat>, x: Split): set<nat> {
    set p | p in among && p < |splits| && splits[p] == Some(x)
  }

  function ToSet(s: seq<nat>): set<nat> { set p | p in s }

  lemma {:induction false} SizeOfSet(s: seq<nat>)
    requires NoRepeats(s)
    ensures |ToSet(s)| == |s|
  {
    if s != [] {
      var n := |s| - 1;
      SizeOfSet(s[..n]);
      assert ToSet(s) == ToSet(s[..n]) + {s[n]};
    }
  }

  lemma DisjointSize(a: set<nat>, b: set<nat>)
    requires a !! b
    ensures |a + b| == |a| + |b|
  {
  }

  // ----- one group -----

  predicate Arranges(order: seq<nat>, positions: seq<nat>) { NoRepeats(order) && ToSet(order) == ToSet(positions) }

  function Part(i: nat, take: nat): Split { if i < take then Test else if i < 2 * take then Val else Train }

  /** The group's shuffled positions cut into test, validation and train. */
  predicate CutInto(splits: seq<Option<Split>>, order: seq<nat>, take: nat) {
    forall i :: 0 <= i < |order| ==> order[i] < |splits| && splits[order[i]] == Some(Part(i, take))
  }

  /** Test and validation get take each, train the rest. */
  predicate GroupSizes(splits: seq<Option<Split>>, members: set<nat>, take: nat) {
    && |Chosen(splits, members, Test)| == take && |Chosen(splits, members, Val)| == take
    && |Chosen(splits, members, Train)| == |members| - 2 * take
  }

  lemma CutSizes(splits: seq<Option<Split>>, order: seq<nat>, take: nat)
    requires NoRepeats(order) && 2 * take <= |order| && CutInto(splits, order, take)
    ensures GroupSizes(splits, ToSet(order), take)
  {
    CutPart(splits, order, take, 0, take, Test);
    CutPart(splits, order, take, take, 2 * take, Val);
    CutPart(splits, order, take, 2 * take, |order|, Train);
    SizeOfSet(order);
  }

  lemma CutPart(splits: seq<Option<Split>>, order: seq<nat>, take: nat, lo: nat, hi: nat, x: Split)
    requires NoRepeats(order) && 2 * take <= |order| && CutInto(splits, order, take) && lo <= hi <= |order|
    requires forall i :: 0 <= i < |order| ==> (Part(i, take) == x <==> lo <= i < hi)
    ensures |Chosen(splits, ToSet(order), x)| == hi - lo
  {
    var part := order[lo..hi];
    forall p ensures p in Chosen(splits, ToSet(order), x) <==> p in ToSet(part) {
      if p in Chosen(splits, ToSet(order), x) {
        var i :| 0 <= i < |order| && order[i] == p;
        assert part[i - lo] == p;
      }
      if p in ToSet(part) {
        var i :| 0 <= i < |part| && part[i] == p;
        assert order[lo + i] == p;
      }
    }
    assert Chosen(splits, ToSet(order), x) == ToSet(part);
    SizeOfSet(part);
  }

  /** The library's shuffle: each position from the last is swapped with any not after it. */
  method Shuffle(positions: seq<nat>) returns (order: seq<nat>)
    requires NoRepeats(positions)
    ensures Arranges(order, positions) && |order| == |positions|
  {
    order := positions;
    var i := |order|;
    while i > 1
      invariant 0 <= i <= |order| == |positions| && Arranges(order, positions)
    {
      i := i - 1;
      var j :| 0 <= j <= i;
      ghost var before := order;
      order := order[i := order[j]][j := order[i]];
      SwapArranges(before, i, j, positions);
    }
  }

  lemma SwapArranges(s: seq<nat>, i: nat, j: nat, positions: seq<nat>)
    requires j <= i < |s| && Arranges(s, positions)
    ensures Arranges(s[i := s[j]][j := s[i]], positions)
  {
    var t := s[i := s[j]][j := s[i]];
    forall p ensures p in t <==> p in s {
      if p in s {
        var k :| 0 <= k < |s| && s[k] == p;
        assert t[if k == i then j else if k == j then i else k] == p;
      }
    }
    assert ToSet(t) == ToSet(s);
  }

  predicate Unchanged(before: seq<Option<Split>>, after: seq<Option<Split>>, except: set<nat>) {
    |before| == |after| && forall p :: 0 <= p < |after| && p !in except ==> after[p] == before[p]
  }

  /** Splits one group in place and charges both budgets. */
  method SplitGroup(positions: seq<nat>, splits: array<Option<Split>>, testLeft: nat, valLeft: nat)
    returns (testAfter: nat, valAfter: nat)
    requires NoRepeats(positions) && positions != [] && forall i :: 0 <= i < |positions| ==>
             positions[i] < splits.Length
    requires testLeft == valLeft
    modifies splits
    ensures GroupSizes(splits[..], ToSet(positions), Take(|positions|, testLeft))
    ensures testAfter == valAfter == testLeft - Take(|positions|, testLeft)
    ensures forall p :: p in ToSet(positions) ==> p < splits.Length && splits[p].Some?
    ensures Unchanged(old(splits[..]), splits[..], ToSet(positions))
  {
    var n := |positions|;
    var order := Shuffle(positions);
    var takeTest, takeVal := Min(Min(Quota(n), Cap(n)), testLeft), Min(Min(Quota(n), Cap(n)), valLeft);
    testAfter, valAfter := testLeft - takeTest, valLeft - takeVal;
    var testSet, valSet := ToSet(order[..takeTest]), ToSet(order[takeTest..takeTest + takeVal]);
    for k := 0 to n
      invariant forall j :: 0 <= j < k ==> splits[positions[j]] == Some(Side(positions[j], testSet, valSet))
      invariant Unchanged(old(splits[..]), splits[..], ToSet(positions))
    {
      assert positions[k] in ToSet(positions);
      splits[positions[k]] := Some(Side(positions[k], testSet, valSet));
    }
    assert CutInto(splits[..], order, takeTest) by {
      forall i | 0 <= i < |order| ensures order[i] < splits.Length
        && splits[order[i]] == Some(Part(i, takeTest))
      {
        assert order[i] in ToSet(positions);
        var j :| 0 <= j < n && positions[j] == order[i];
        SideAt(order, takeTest, i);
      }
    }
    CutSizes(splits[..], order, takeTest);
    assert ToSet(order) == ToSet(positions);
  }

  function Side(p: nat, testSet: set<nat>, valSet: set<nat>): Split {
    if p in testSet then Test else if p in valSet then Val else Train
  }

  lemma SideAt(order: seq<nat>, take: nat, i: nat)
    requires NoRepeats(order) && 2 * take <= |order| && i < |order|
    ensures Side(order[i], ToSet(order[..take]), ToSet(order[take..take + take])) == Part(i, take)
  {
    if i < take {
      assert order[..take][i] == order[i];
    } else if i < 2 * take {
      assert order[take..take + take][i - take] == order[i];
    }
  }

  // ----- the whole list -----

  /** Every group met so far of one kind: its sizes follow from a budget that was
      left when its turn came, and is the full share while budget remains. */
  predicate GroupOk(samples: seq<Sample>, splits: seq<Option<Split>>, kind: Kind, axis: Axis, left: nat) {
    var members := Members(samples, kind, axis);
    members != {} ==>
      && GroupSizes(splits, members, |Chosen(splits, members, Test)|)
      && |Chosen(splits, members, Test)| <= Min(Quota(|members|), Cap(|members|))
      && (left > 0 ==> |Chosen(splits, members, Test)| == Min(Quota(|members|), Cap(|members|)))
  }

  predicate KindOk(samples: seq<Sample>, splits: seq<Option<Split>>, kind: Kind) {
    var budget := Round15(|OfKind(samples, kind)|);
    var tests := |Chosen(splits, OfKind(samples, kind), Test)|;
    && |splits| == |samples|
    && (forall p :: p in OfKind(samples, kind) ==> splits[p].Some?)
    && tests == |Chosen(splits, OfKind(samples, kind), Val)| <= budget
    && (forall p :: p in OfKind(samples, kind) ==> GroupOk(samples, splits, kind, samples[p].axis, budget - tests))
  }

  type Groups = map<(Kind, Axis), seq<nat>>

  predicate GroupsOk(samples: seq<Sample>, groups: Groups) {
    && (forall g :: g in groups ==>
          NoRepeats(groups[g]) && groups[g] != [] && ToSet(groups[g]) == Members(samples, g.0, g.1))
    && (forall p :: 0 <= p < |samples| && !samples[p].sanity ==> (samples[p].kind, samples[p].axis) in groups)
  }

  /** Groups the samples in order; a sanity sample is training data at once. */
  method CollectGroups(samples: seq<Sample>, splits: array<Option<Split>>) returns (groups: Groups)
    requires splits.Length == |samples|
    modifies splits
    ensures GroupsOk(samples, groups)
    ensures forall p :: 0 <= p < |samples| && samples[p].sanity ==> splits[p] == Some(Train)
  {
    groups := map[];
    for p := 0 to |samples|
      invariant GroupsOk(samples[..p], groups)
      invariant forall q :: 0 <= q < p && samples[q].sanity ==> splits[q] == Some(Train)
    {
      if samples[p].sanity {
        splits[p] := Some(Train);
        SanityStays(samples, p, groups);
      } else {
        var key := (samples[p].kind, samples[p].axis);
        GroupGrows(samples, p, groups);
        groups := groups[key := (if key in groups then groups[key] else []) + [p]];
      }
    }
    assert samples[..|samples|] == samples;
  }

  lemma MembersMore(samples: seq<Sample>, p: nat, kind: Kind, axis: Axis)
    requires p < |samples|
    ensures Members(samples[..p + 1], kind, axis)
         == Members(samples[..p], kind, axis)
            + if !samples[p].sanity && samples[p].kind == kind && samples[p].axis == axis then {p} else {}
  {
  }

  lemma NoMembers(samples: seq<Sample>, groups: Groups, kind: Kind, axis: Axis)
    requires GroupsOk(samples, groups) && (kind, axis) !in groups
    ensures Members(samples, kind, axis) == {}
  {
  }

  lemma SanityStays(samples: seq<Sample>, p: nat, groups: Groups)
    requires p < |samples| && samples[p].sanity && GroupsOk(samples[..p], groups)
    ensures GroupsOk(samples[..p + 1], groups)
  {
    forall g | g in groups ensures ToSet(groups[g]) == Members(samples[..p + 1], g.0, g.1) {
      MembersMore(samples, p, g.0, g.1);
    }
    var now := samples[..p + 1];
    forall q | 0 <= q < |now| && !now[q].sanity ensures (now[q].kind, now[q].axis) in groups {
      assert now[q] == samples[..p][q];
    }
  }

  lemma GroupGrows(samples: seq<Sample>, p: nat, groups: Groups)
    requires p < |samples| && !samples[p].sanity && GroupsOk(samples[..p], groups)
    ensures var key := (samples[p].kind, samples[p].axis);
            GroupsOk(samples[..p + 1], groups[key := (if key in groups then groups[key] else []) + [p]])
  {
    var key := (samples[p].kind, samples[p].axis);
    var was := if key in groups then groups[key] else [];
    var more := groups[key := was + [p]];
    assert ToSet(was) == Members(samples[..p], key.0, key.1) by {
      if key !in groups {
        NoMembers(samples[..p], groups, key.0, key.1);
      }
    }
    forall g | g in more
      ensures NoRepeats(more[g]) && more[g] != [] && ToSet(more[g]) == Members(samples[..p + 1], g.0, g.1)
    {
      MembersMore(samples, p, g.0, g.1);
      if g == key {
        assert forall i :: 0 <= i < |was| ==> was[i] in ToSet(was);
        assert ToSet(more[g]) == ToSet(was) + {p};
      }
    }
    var now := samples[..p + 1];
    forall q | 0 <= q < |now| && !now[q].sanity ensures (now[q].kind, now[q].axis) in more {
      if q < p {
        assert now[q] == samples[..p][q];
      }
    }
  }

  function AxesOf(groups: Groups, kind: Kind): set<Axis> { set g | g in groups && g.0 == kind :: g.1 }

  lemma OfAxesMore(samples: seq<Sample>, kind: Kind, axes: set<Axis>, axis: Axis)
    requires axis !in axes
    ensures OfAxes(samples, kind, axes + {axis}) == OfAxes(samples, kind, axes) + Members(samples, kind, axis)
    ensures OfAxes(samples, kind, axes) !! Members(samples, kind, axis)
    ensures |OfAxes(samples, kind, axes + {axis})| == |OfAxes(samples, kind, axes)| + |Members(samples, kind, axis)|
  {
    DisjointSize(OfAxes(samples, kind, axes), Members(samples, kind, axis));
  }

  lemma AllAxes(samples: seq<Sample>, groups: Groups, kind: Kind)
    requires GroupsOk(samples, groups)
    ensures OfAxes(samples, kind, AxesOf(groups, kind)) == OfKind(samples, kind)
  {
    forall p | p in OfKind(samples, kind) ensures samples[p].axis in AxesOf(groups, kind) {
      assert (samples[p].kind, samples[p].axis) in groups;
    }
  }

  method TotalOf(samples: seq<Sample>, groups: Groups, kind: Kind) returns (total: nat)
    requires GroupsOk(samples, groups)
    ensures total == |OfKind(samples, kind)|
  {
    total := 0;
    var left := AxesOf(groups, kind);
    ghost var done: set<Axis> := {};
    while left != {}
      invariant left + done == AxesOf(groups, kind) && left !! done
      invariant total == |OfAxes(samples, kind, done)|
      decreases left
    {
      var axis :| axis in left;
      OfAxesMore(samples, kind, done, axis);
      SizeOfSet(groups[(kind, axis)]);
      total := total + |groups[(kind, axis)]|;
      left, done := left - {axis}, done + {axis};
    }
    AllAxes(samples, groups, kind);
  }

  lemma ChosenFrame(before: seq<Option<Split>>, after: seq<Option<Split>>, except: set<nat>, among: set<nat>, x: Split)
    requires Unchanged(before, after, except) && among !! except
    ensures Chosen(after, among, x) == Chosen(before, among, x)
  {
  }

  lemma ChosenMore(samples: seq<Sample>, splits: seq<Option<Split>>, kind: Kind, axes: set<Axis>, axis: Axis, x: Split)
    requires axis !in axes
    ensures |Chosen(splits, OfAxes(samples, kind, axes + {axis}), x)|
         == |Chosen(splits, OfAxes(samples, kind, axes), x)| + |Chosen(splits, Members(samples, kind, axis), x)|
  {
    OfAxesMore(samples, kind, axes, axis);
    var a, b := Chosen(splits, OfAxes(samples, kind, axes), x), Chosen(splits, Members(samples, kind, axis), x);
    assert Chosen(splits, OfAxes(samples, kind, axes + {axis}), x) == a + b;
    DisjointSize(a, b);
  }

  // After the groups of some axes: what was spent, and what each group got.
  predicate Walked(samples: seq<Sample>, splits: seq<Option<Split>>, kind: Kind, done: set<Axis>, budget: nat,
                   left: nat) {
    && |splits| == |samples| && left <= budget
    && |Chosen(splits, OfAxes(samples, kind, done), Test)| == budget - left
    && |Chosen(splits, OfAxes(samples, kind, done), Val)| == budget - left
    && (forall axis :: axis in done ==> GroupOk(samples, splits, kind, axis, left))
    && (forall p :: p in OfAxes(samples, kind, done) ==> splits[p].Some?)
  }

  lemma OtherGroupKept(samples: seq<Sample>, before: seq<Option<Split>>, after: seq<Option<Split>>, kind: Kind,
                       axis: Axis, other: Axis,
                       left: nat, left': nat)
    requires axis != other && Unchanged(before, after, Members(samples, kind, axis)) && left' <= left
    requires GroupOk(samples, before, kind, other, left)
    ensures GroupOk(samples, after, kind, other, left')
  {
    var members := Members(samples, kind, other);
    ChosenFrame(before, after, Members(samples, kind, axis), members, Test);
    ChosenFrame(before, after, Members(samples, kind, axis), members, Val);
    ChosenFrame(before, after, Members(samples, kind, axis), members, Train);
  }

  lemma WalkOne(samples: seq<Sample>, before: seq<Option<Split>>, after: seq<Option<Split>>, kind: Kind,
                done: set<Axis>, axis: Axis,
                budget: nat, left: nat)
    requires Walked(samples, before, kind, done, budget, left) && axis !in done && Members(samples, kind, axis) != {}
    requires Unchanged(before, after, Members(samples, kind, axis))
    requires GroupSizes(after, Members(samples, kind, axis), Take(|Members(samples, kind, axis)|, left))
    requires forall p :: p in Members(samples, kind, axis) ==> after[p].Some?
    ensures Walked(samples, after, kind, done + {axis}, budget, left - Take(|Members(samples, kind, axis)|, left))
  {
    hide GroupOk, Chosen, Members, Quota, Cap;
    var members := Members(samples, kind, axis);
    var left' := left - Take(|members|, left);
    OfAxesMore(samples, kind, done, axis);
    ChosenMore(samples, after, kind, done, axis, Test);
    ChosenMore(samples, after, kind, done, axis, Val);
    ChosenFrame(before, after, members, OfAxes(samples, kind, done), Test);
    ChosenFrame(before, after, members, OfAxes(samples, kind, done), Val);
    forall other | other in done + {axis} ensures GroupOk(samples, after, kind, other, left') {
      if other == axis {
        NewGroupOk(samples, after, kind, axis, left);
      } else {
        OtherGroupKept(samples, before, after, kind, axis, other, left, left');
      }
    }
  }

  lemma NewGroupOk(samples: seq<Sample>, splits: seq<Option<Split>>, kind: Kind, axis: Axis, left: nat)
    requires Members(samples, kind, axis) != {}
    requires GroupSizes(splits, Members(samples, kind, axis), Take(|Members(samples, kind, axis)|, left))
    ensures GroupOk(samples, splits, kind, axis, left - Take(|Members(samples, kind, axis)|, left))
  {
  }

  lemma NothingWalked(samples: seq<Sample>, splits: seq<Option<Split>>, kind: Kind, budget: nat)
    requires |splits| == |samples|
    ensures Walked(samples, splits, kind, {}, budget, budget)
  {
    assert OfAxes(samples, kind, {}) == {};
    assert Chosen(splits, {}, Test) == {} && Chosen(splits, {}, Val) == {};
  }

  lemma AllWalked(samples: seq<Sample>, splits: seq<Option<Split>>, groups: Groups, kind: Kind, left: nat)
    requires GroupsOk(samples, groups)
             && Walked(samples, splits, kind, AxesOf(groups, kind), Round15(|OfKind(samples, kind)|), left)
    ensures KindOk(samples, splits, kind)
  {
    AllAxes(samples, groups, kind);
    hide GroupOk, Chosen, Round15;
    forall p | p in OfKind(samples, kind) ensures samples[p].axis in AxesOf(groups, kind) {
      assert (samples[p].kind, samples[p].axis) in groups;
    }
  }

  lemma AxisKnown(samples: seq<Sample>, groups: Groups, kind: Kind, axis: Axis)
    requires GroupsOk(samples, groups) && axis in AxesOf(groups, kind)
    ensures (kind, axis) in groups
  {
  }

  lemma UnchangedMore(samples: seq<Sample>, start: seq<Option<Split>>, before: seq<Option<Split>>,
                      after: seq<Option<Split>>,
                      kind: Kind, done: set<Axis>, axis: Axis)
    requires Unchanged(start, before, OfAxes(samples, kind, done))
             && Unchanged(before, after, Members(samples, kind, axis))
    ensures Unchanged(start, after, OfAxes(samples, kind, done + {axis}))
  {
  }

  /** One group's turn. done are the axes walked before it. */
  method SplitAxis(samples: seq<Sample>, groups: Groups, kind: Kind, axis: Axis, splits: array<Option<Split>>,
                   testLeft: nat, valLeft: nat,
                   ghost done: set<Axis>, ghost budget: nat) returns (testAfter: nat, valAfter: nat)
    requires GroupsOk(samples, groups) && (kind, axis) in groups && axis !in done && splits.Length == |samples|
             && testLeft == valLeft
    requires Walked(samples, splits[..], kind, done, budget, testLeft)
    modifies splits
    ensures testAfter == valAfter && Walked(samples, splits[..], kind, done + {axis}, budget, testAfter)
    ensures Unchanged(old(splits[..]), splits[..], Members(samples, kind, axis))
  {
    hide Walked, Round15, Take, GroupSizes;
    ghost var before := splits[..];
    var positions := groups[(kind, axis)];
    SizeOfSet(positions);
    assert forall i :: 0 <= i < |positions| ==> positions[i] in ToSet(positions);
    testAfter, valAfter := SplitGroup(positions, splits, testLeft, valLeft);
    assert positions[0] in Members(samples, kind, axis);
    WalkOne(samples, before, splits[..], kind, done, axis, budget, testLeft);
  }

  /** Walks the groups of one kind, in any order of their axes. */
  method SplitKind(samples: seq<Sample>, groups: Groups, kind: Kind, splits: array<Option<Split>>)
    requires GroupsOk(samples, groups) && splits.Length == |samples|
    modifies splits
    ensures KindOk(samples, splits[..], kind)
    ensures Unchanged(old(splits[..]), splits[..], OfKind(samples, kind))
  {
    var total := TotalOf(samples, groups, kind);
    var testLeft, valLeft := Round15(total), Round15(total);
    var left := AxesOf(groups, kind);
    ghost var done: set<Axis> := {};
    ghost var start := splits[..];
    NothingWalked(samples, splits[..], kind, Round15(total));
    while left != {}
      invariant left + done == AxesOf(groups, kind) && left !! done && testLeft == valLeft
      invariant Walked(samples, splits[..], kind, done, Round15(total), testLeft)
      invariant Unchanged(start, splits[..], OfAxes(samples, kind, done))
      decreases left
    {
      hide *;
      var axis :| axis in left;
      ghost var before := splits[..];
      AxisKnown(samples, groups, kind, axis);
      testLeft, valLeft := SplitAxis(samples, groups, kind, axis, splits, testLeft, valLeft, done, Round15(total));
      UnchangedMore(samples, start, before, splits[..], kind, done, axis);
      left, done := left - {axis}, done + {axis};
    }
    AllAxes(samples, groups, kind);
    assert done == AxesOf(groups, kind);
    AllWalked(samples, splits[..], groups, kind, testLeft);
  }

  lemma KindFrame(samples: seq<Sample>, before: seq<Option<Split>>, after: seq<Option<Split>>, kind: Kind, other: Kind)
    requires kind != other && KindOk(samples, before, kind) && Unchanged(before, after, OfKind(samples, other))
    ensures KindOk(samples, after, kind)
  {
    hide GroupSizes, Round15, Quota, Cap;
    ChosenFrame(before, after, OfKind(samples, other), OfKind(samples, kind), Test);
    ChosenFrame(before, after, OfKind(samples, other), OfKind(samples, kind), Val);
    var left := Round15(|OfKind(samples, kind)|) - |Chosen(before, OfKind(samples, kind), Test)|;
    forall p | p in OfKind(samples, kind) ensures GroupOk(samples, after, kind, samples[p].axis, left) {
      GroupFrame(samples, before, after, kind, samples[p].axis, OfKind(samples, other), left);
    }
  }

  lemma GroupFrame(samples: seq<Sample>, before: seq<Option<Split>>, after: seq<Option<Split>>, kind: Kind, axis: Axis,
                   except: set<nat>, left: nat)
    requires Unchanged(before, after, except) && Members(samples, kind, axis) !! except
             && GroupOk(samples, before, kind, axis, left)
    ensures GroupOk(samples, after, kind, axis, left)
  {
    ChosenFrame(before, after, except, Members(samples, kind, axis), Test);
    ChosenFrame(before, after, except, Members(samples, kind, axis), Val);
    ChosenFrame(before, after, except, Members(samples, kind, axis), Train);
  }

  /** Every sample gets exactly one split: sanity samples train, and each kind its
      budgeted share of test and validation, group by group. */
  method AssignSplits(samples: seq<Sample>, splits: array<Option<Split>>)
    requires splits.Length == |samples|
    modifies splits
    ensures forall p :: 0 <= p < |samples| ==> splits[p].Some?
    ensures forall p :: 0 <= p < |samples| && samples[p].sanity ==> splits[p] == Some(Train)
    ensures KindOk(samples, splits[..], Benign) && KindOk(samples, splits[..], Attack)
  {
    var groups := CollectGroups(samples, splits);
    SplitKind(samples, groups, Benign, splits);
    ghost var middle := splits[..];
    SplitKind(samples, groups, Attack, splits);
    KindFrame(samples, middle, splits[..], Benign, Attack);
    forall p | 0 <= p < |samples| && !samples[p].sanity ensures splits[p].Some? {
      assert p in OfKind(samples, samples[p].kind);
    }
  }

  /** What an assigned list promises of one group: test and validation are of one
      size and apart, training is not empty, and keeps half but for groups of three. */
  lemma GroupPromise(samples: seq<Sample>, splits: seq<Option<Split>>, kind: Kind, axis: Axis)
    requires KindOk(samples, splits, kind) && Members(samples, kind, axis) != {}
    ensures var members := Members(samples, kind, axis);
            && Chosen(splits, members, Test) !! Chosen(splits, members, Val)
            && |Chosen(splits, members, Test)| == |Chosen(splits, members, Val)|
            && |Chosen(splits, members, Train)| == |members| - 2 * |Chosen(splits, members, Test)| >= 1
            && (2 * |Chosen(splits, members, Train)| >= |members| <==>
                  !(|members| == 3 && Chosen(splits, members, Test) != {}))
  {
    var members := Members(samples, kind, axis);
    var p :| p in members;
    assert p in OfKind(samples, kind) && samples[p].axis == axis;
    var take := |Chosen(splits, members, Test)|;
    assert take <= Min(Quota(|members|), Cap(|members|));
    TrainKeeps(|members|, take);
    if take == 0 {
      assert Chosen(splits, members, Test) == {};
    }
  }
}
