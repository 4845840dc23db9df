/** Equal class totals: the plan with the smaller total grows, one sample at a
    time, round its axes in alphabetical order. That order is defined on the
    names, the number of steps each axis gets has a closed form, and the total
    of a plan does not depend on the order of its axes. */
module PlanBalance {
  import opened Prelude

  type Axis = string

  type Plan = map<Axis, int>

  /** Alphabetical order, by code point. */
  predicate AtMost(a: Axis, b: Axis) {
    a == "" || (b != "" && (a[0] < b[0] || (a[0] == b[0] && AtMost(a[1..], b[1..]))))
  }

  lemma {:induction false} OneWay(a: Axis, b: Axis)
    ensures AtMost(a, b) || AtMost(b, a)
    ensures AtMost(a, b) && AtMost(b, a) ==> a == b
  {
    if a != "" && b != "" && a[0] == b[0] {
      OneWay(a[1..], b[1..]);
      assert a == [a[0]] + a[1..] && b == [b[0]] + b[1..];
    }
  }

  lemma {:induction false} Transitive(a: Axis, b: Axis, c: Axis)
    requires AtMost(a, b) && AtMost(b, c)
    ensures AtMost(a, c)
  {
    if a != "" && a[0] == b[0] == c[0] {
      Transitive(a[1..], b[1..], c[1..]);
    }
  }

  predicate IsLeast(a: Axis, names: set<Axis>) { a in names && forall b :: b in names ==> AtMost(a, b) }

  lemma {:induction false} LeastExists(names: set<Axis>) returns (a: Axis)
    requires names != {}
    ensures IsLeast(a, names)
    decreases names
  {
    a :| a in names;
    OneWay(a, a);
    if names != {a} {
      var b := LeastExists(names - {a});
      OneWay(a, b);
      if AtMost(a, b) {
        forall c | c in names ensures AtMost(a, c) {
          if c != a {
            Transitive(a, b, c);
          }
        }
      } else {
        a := b;
      }
    }
  }

  lemma HasLeast(names: set<Axis>)
    requires names != {}
    ensures exists a :: IsLeast(a, names)
  {
    var a := LeastExists(names);
  }

  lemma OneLeast(a: Axis, b: Axis, names: set<Axis>)
    requires IsLeast(a, names) && IsLeast(b, names)
    ensures a == b
  {
    OneWay(a, b);
  }

  predicate Ascending(axes: seq<Axis>) {
    forall i, j :: 0 <= i < j < |axes| ==> AtMost(axes[i], axes[j]) && axes[i] != axes[j]
  }

  /** The names in alphabetical order. */
  ghost function SortedAxes(names: set<Axis>): seq<Axis>
    decreases names
  {
    if names == {} then []
    else
      HasLeast(names);
      var a :| IsLeast(a, names);
      [a] + SortedAxes(names - {a})
  }

  lemma {:induction false} SortedIs(names: set<Axis>)
    ensures Ascending(SortedAxes(names)) && forall a :: a in SortedAxes(names) <==> a in names
    decreases names
  {
    if names != {} {
      var a := LeastExists(names);
      SortedHead(names, a);
      SortedIs(names - {a});
      var rest := SortedAxes(names - {a});
      assert forall k :: 0 <= k < |rest| ==> rest[k] in rest;
    }
  }

  /** Sorting: the least of what is left, again and again. */
  method Sort(names: set<Axis>) returns (axes: seq<Axis>)
    ensures axes == SortedAxes(names)
  {
    axes := [];
    var left := names;
    while left != {}
      invariant axes + SortedAxes(left) == SortedAxes(names)
      decreases left
    {
      hide SortedAxes, AtMost;
      ghost var least := LeastExists(left);
      var a :| a in left && forall b :: b in left ==> AtMost(a, b);
      SortedHead(left, a);
      assert axes + ([a] + SortedAxes(left - {a})) == (axes + [a]) + SortedAxes(left - {a});
      axes, left := axes + [a], left - {a};
    }
  }

  lemma SortedHead(names: set<Axis>, a: Axis)
    requires IsLeast(a, names)
    ensures SortedAxes(names) == [a] + SortedAxes(names - {a})
  {
    forall b | IsLeast(b, names) ensures b == a {
      OneLeast(a, b, names);
    }
  }

  function SumOver(plan: Plan, axes: seq<Axis>): int
    requires forall i :: 0 <= i < |axes| ==> axes[i] in plan
  {
    if axes == [] then 0 else SumOver(plan, axes[..|axes| - 1]) + plan[axes[|axes| - 1]]
  }

  ghost predicate Lists(axes: seq<Axis>, plan: Plan) {
    && (forall i :: 0 <= i < |axes| ==> axes[i] in plan)
    && (forall i, j :: 0 <= i < j < |axes| ==> axes[i] != axes[j])
    && (forall a :: a in plan ==> a in axes)
  }

  lemma SortedLists(plan: Plan)
    ensures Lists(SortedAxes(plan.Keys), plan) && Ascending(SortedAxes(plan.Keys))
    ensures SortedAxes(plan.Keys) == [] <==> plan == map[]
  {
    hide SortedAxes;
    var axes := SortedAxes(plan.Keys);
    SortedIs(plan.Keys);
    forall i | 0 <= i < |axes| ensures axes[i] in plan {
      assert axes[i] in axes;
    }
    assert |axes| > 0 ==> axes[0] in plan;
    if a :| a in plan {
      assert a in axes;
    } else {
      assert plan == map[];
    }
  }

  /** The sum of a plan's values. */
  ghost function Total(plan: Plan): int {
    SortedLists(plan);
    SumOver(plan, SortedAxes(plan.Keys))
  }

  // ----- sums do not depend on the order -----

  predicate Within(axes: seq<Axis>, plan: Plan) { forall i :: 0 <= i < |axes| ==> axes[i] in plan }

  lemma {:induction false} SumConcat(plan: Plan, a: seq<Axis>, b: seq<Axis>)
    requires Within(a, plan) && Within(b, plan)
    ensures SumOver(plan, a + b) == SumOver(plan, a) + SumOver(plan, b)
  {
    if b == [] {
      assert a + b == a;
    } else {
      assert (a + b)[..|a + b| - 1] == a + b[..|b| - 1];
      SumConcat(plan, a, b[..|b| - 1]);
    }
  }

  lemma {:induction false} SumUniform(plan: Plan, axes: seq<Axis>, v: int)
    requires Within(axes, plan) && forall i :: 0 <= i < |axes| ==> plan[axes[i]] == v
    ensures SumOver(plan, axes) == v * |axes|
  {
    if axes != [] {
      SumUniform(plan, axes[..|axes| - 1], v);
    }
  }

  function Rest(axes: seq<Axis>, k: nat): seq<Axis>
    requires k < |axes|
  {
    axes[..k] + axes[k + 1..]
  }

  lemma {:induction false} SumWithout(plan: Plan, axes: seq<Axis>, k: nat)
    requires Within(axes, plan) && k < |axes|
    ensures Within(Rest(axes, k), plan)
    ensures SumOver(plan, axes) == SumOver(plan, Rest(axes, k)) + plan[axes[k]]
  {
    assert axes == (axes[..k] + [axes[k]]) + axes[k + 1..];
    SumConcat(plan, axes[..k] + [axes[k]], axes[k + 1..]);
    SumConcat(plan, axes[..k], [axes[k]]);
    SumConcat(plan, axes[..k], axes[k + 1..]);
    assert [axes[k]][..0] == [];
  }

  lemma RestHas(axes: seq<Axis>, k: nat)
    requires k < |axes| && NoRepeats(axes)
    ensures NoRepeats(Rest(axes, k)) && forall x :: x in Rest(axes, k) <==> x in axes && x != axes[k]
  {
    forall x ensures x in Rest(axes, k) <==> x in axes && x != axes[k] {
      if x in axes && x != axes[k] {
        var i :| 0 <= i < |axes| && axes[i] == x;
        assert Rest(axes, k)[if i < k then i else i - 1] == x;
      }
    }
  }

  lemma {:induction false} SumSame(plan: Plan, a: seq<Axis>, b: seq<Axis>)
    requires Within(a, plan) && Within(b, plan) && NoRepeats(a) && NoRepeats(b) && forall x :: x in a <==> x in b
    ensures SumOver(plan, a) == SumOver(plan, b)
    decreases |a|
  {
    if a == [] {
      SomethingIn(b);
    } else {
      assert a[0] in b;
      var k :| 0 <= k < |b| && b[k] == a[0];
      hide NoRepeats, Within, Rest, SumOver;
      RestHas(a, 0);
      RestHas(b, k);
      SumWithout(plan, a, 0);
      SumWithout(plan, b, k);
      assert |Rest(a, 0)| < |a| by { RestShorter(a, 0); }
      SumSame(plan, Rest(a, 0), Rest(b, k));
    }
  }

  lemma SomethingIn(axes: seq<Axis>)
    ensures axes != [] ==> exists x :: x in axes
  {
    if axes != [] {
      assert axes[0] in axes;
    }
  }

  lemma RestShorter(axes: seq<Axis>, k: nat)
    requires k < |axes|
    ensures |Rest(axes, k)| < |axes|
  {
  }

  lemma TotalIs(plan: Plan, axes: seq<Axis>)
    requires Lists(axes, plan)
    ensures Total(plan) == SumOver(plan, axes)
  {
    hide SortedAxes;
    SortedLists(plan);
    SumSame(plan, SortedAxes(plan.Keys), axes);
  }

  /** How often the i-th of m axes is hit by the steps 0 .. k-1, step j hitting j mod m. */
  function Turns(k: nat, m: nat, i: nat): nat
    requires i < m
  {
    if k == 0 then 0 else Turns(k - 1, m, i) + if (k - 1) % m == i then 1 else 0
  }

  lemma DivMod(n: nat, m: nat, q: nat, r: nat)
    requires m > 0 && n == q * m + r && r < m
    ensures n / m == q && n % m == r
  {
    var d := q - n / m;
    assert d * m == n % m - r by {
      assert d * m == q * m - (n / m) * m;
    }
    MultipleIsFar(d, m);
  }

  lemma MultipleIsFar(d: int, m: nat)
    ensures d >= 1 ==> d * m >= m
    ensures d <= -1 ==> d * m + m <= 0
  {
    if d >= 1 {
      AtLeastOnce(d, m);
    }
    if d <= -1 {
      AtLeastOnce(-d, m);
      assert (-d) * m == -(d * m);
    }
  }

  lemma {:induction false} AtLeastOnce(d: nat, m: nat)
    requires d >= 1
    ensures d * m >= m
  {
    if d > 1 {
      AtLeastOnce(d - 1, m);
      assert d * m == (d - 1) * m + m;
    }
  }

  /** The growth is even: no axis is ever more than one step ahead of another. */
  lemma {:induction false} TurnsEven(k: nat, m: nat, i: nat)
    requires i < m
    ensures Turns(k, m, i) == k / m + if i < k % m then 1 else 0
  {
    if k == 0 {
      DivMod(0, m, 0, 0);
    } else {
      TurnsEven(k - 1, m, i);
      NextQuotient(k - 1, m);
    }
  }

  lemma NextQuotient(k: nat, m: nat)
    requires m > 0
    ensures k % m + 1 < m ==> (k + 1) / m == k / m && (k + 1) % m == k % m + 1
    ensures k % m + 1 == m ==> (k + 1) / m == k / m + 1 && (k + 1) % m == 0
  {
    var q, r := k / m, k % m;
    assert k == q * m + r;
    if r + 1 < m {
      DivMod(k + 1, m, q, r + 1);
    } else {
      assert k + 1 == (q + 1) * m;
      DivMod(k + 1, m, q + 1, 0);
    }
  }

  lemma {:induction false} SumUnchanged(plan: Plan, axes: seq<Axis>, a: Axis, v: int)
    requires (forall i :: 0 <= i < |axes| ==> axes[i] in plan) && a !in axes
    ensures SumOver(plan[a := v], axes) == SumOver(plan, axes)
  {
    if axes != [] {
      SumUnchanged(plan, axes[..|axes| - 1], a, v);
    }
  }

  lemma {:induction false} SumGrows(plan: Plan, axes: seq<Axis>, at: nat)
    requires (forall i :: 0 <= i < |axes| ==> axes[i] in plan)
             && (forall i, j :: 0 <= i < j < |axes| ==> axes[i] != axes[j]) && at < |axes|
    ensures SumOver(plan[axes[at] := plan[axes[at]] + 1], axes) == SumOver(plan, axes) + 1
  {
    var n := |axes| - 1;
    if at == n {
      SumUnchanged(plan, axes[..n], axes[n], plan[axes[n]] + 1);
    } else {
      SumGrows(plan, axes[..n], at);
    }
  }

  const MAX_STEPS := 10_000

  datatype BalanceError = DidNotConverge | NoAxes

  /** Each axis has grown by its round-robin turns, in alphabetical order. */
  ghost predicate GrownEvenly(before: Plan, after: Plan, k: nat) {
    var axes := SortedAxes(before.Keys);
    && after.Keys == before.Keys
    && forall i :: 0 <= i < |axes| ==>
         axes[i] in before && axes[i] in after && after[axes[i]] == before[axes[i]] + Turns(k, |axes|, i)
  }

  lemma NotGrown(plan: Plan)
    ensures GrownEvenly(plan, plan, 0)
    ensures forall other :: GrownEvenly(plan, other, 0) ==> other == plan
  {
    hide SortedAxes;
    SortedLists(plan);
    var axes := SortedAxes(plan.Keys);
    forall other | GrownEvenly(plan, other, 0) ensures other == plan {
      forall a | a in plan ensures a in other && other[a] == plan[a] {
        var i :| 0 <= i < |axes| && axes[i] == a;
        assert other[axes[i]] == plan[axes[i]] + Turns(0, |axes|, i);
      }
    }
  }

  lemma OneGrows(target: Plan, plan: Plan, axes: seq<Axis>, k: nat)
    requires axes == SortedAxes(target.Keys) != [] && GrownEvenly(target, plan, k) && axes[k % |axes|] in plan
    ensures GrownEvenly(target, plan[axes[k % |axes|] := plan[axes[k % |axes|]] + 1], k + 1)
  {
    hide SortedAxes;
    SortedLists(target);
    var at := k % |axes|;
    var after := plan[axes[at] := plan[axes[at]] + 1];
    assert after.Keys == plan.Keys == target.Keys;
    forall i | 0 <= i < |axes| ensures axes[i] in after && after[axes[i]] == target[axes[i]] + Turns(k + 1, |axes|, i) {
      assert plan[axes[i]] == target[axes[i]] + Turns(k, |axes|, i);
      assert i != at ==> axes[i] != axes[at];
    }
  }

  /** One round of the loop: one sample more, for the axis whose turn it is. */
  lemma OneStep(target: Plan, plan: Plan, axes: seq<Axis>, k: nat)
    requires axes == SortedAxes(target.Keys) != [] && GrownEvenly(target, plan, k)
    ensures var axis := axes[k % |axes|];
            && axis in plan
            && GrownEvenly(target, plan[axis := plan[axis] + 1], k + 1)
            && Total(plan[axis := plan[axis] + 1]) == Total(plan) + 1
  {
    hide SortedAxes, Turns, SumOver;
    SortedLists(plan);
    assert plan.Keys == target.Keys;
    var at := k % |axes|;
    OneGrows(target, plan, axes, k);
    hide GrownEvenly;
    SumGrows(plan, axes, at);
    assert plan[axes[at] := plan[axes[at]] + 1].Keys == plan.Keys;
  }

  method Sum(plan: Plan) returns (sum: int)
    ensures sum == Total(plan)
  {
    hide SortedAxes;
    var axes := Sort(plan.Keys);
    SortedLists(plan);
    sum := 0;
    for k := 0 to |axes|
      invariant sum == SumOver(plan, axes[..k])
    {
      assert axes[..k + 1][..k] == axes[..k];
      sum := sum + plan[axes[k]];
    }
    assert axes[..|axes|] == axes;
  }

  /** The larger plan must have axes to grow. */
  predicate Hopeless(target: Plan, diff: int) { diff > 0 && target == map[] }

  /** Grows the smaller plan one sample at a time, round its axes in alphabetical
      order, until the totals agree. */
  method RebalanceToEqual(a: Plan, b: Plan) returns (res: Result<(Plan, Plan), BalanceError>)
    ensures res == Err(NoAxes) <==> Hopeless(b, Total(a) - Total(b)) || Hopeless(a, Total(b) - Total(a))
    ensures res == Err(DidNotConverge) <==>
            res != Err(NoAxes) && !(-10_000 <= Total(a) - Total(b) <= 10_000)
    ensures res.Ok? ==> Total(res.value.0) == Total(res.value.1)
    ensures res.Ok? && Total(a) >= Total(b) ==> res.value.0 == a && GrownEvenly(b, res.value.1, Total(a) - Total(b))
    ensures res.Ok? && Total(a) <= Total(b) ==> res.value.1 == b && GrownEvenly(a, res.value.0, Total(b) - Total(a))
  {
    hide Total, GrownEvenly;
    var sumA := Sum(a);
    var sumB := Sum(b);
    var diff := sumA - sumB;
    NotGrown(a);
    NotGrown(b);
    if diff > 0 {
      var grown := Grow(b, diff);
      res := match grown case Ok(plan) => Ok((a, plan)) case Err(e) => Err(e);
    } else {
      var grown := Grow(a, -diff);
      res := match grown case Ok(plan) => Ok((plan, b)) case Err(e) => Err(e);
    }
  }

  /** The loop: diff more samples for the target, unless the guard is hit first. */
  method Grow(target: Plan, diff: nat) returns (res: Result<Plan, BalanceError>)
    ensures res == Err(NoAxes) <==> Hopeless(target, diff)
    ensures res == Err(DidNotConverge) <==> target != map[] && diff > 10_000
    ensures res.Ok? ==> Total(res.value) == Total(target) + diff && GrownEvenly(target, res.value, diff)
  {
    hide GrownEvenly, Total, SortedAxes;
    var axes := Sort(target.Keys);
    SortedLists(target);
    if diff > 0 && axes == [] {
      return Err(NoAxes);
    }
    var plan := target;
    var left: nat, k: nat := diff, 0;
    NotGrown(target);
    while left != 0
      invariant k + left == diff && k <= MAX_STEPS
      invariant Total(plan) == Total(target) + k && GrownEvenly(target, plan, k)
      decreases left
    {
      OneStep(target, plan, axes, k);
      var axis := axes[k % |axes|];
      plan := plan[axis := plan[axis] + 1];
      left := left - 1;
      k := k + 1;
      if k > MAX_STEPS {
        return Err(DidNotConverge);
      }
    }
    res := Ok(plan);
  }

  // ----- which axes grow -----

  lemma {:induction false} HitOrNot(k: nat, m: nat, i: nat)
    requires i < m
    ensures Turns(k, m, i) > 0 <==> i < k
  {
    if k > 0 {
      HitOrNot(k - 1, m, i);
      if k - 1 <= i {
        SmallMod(k - 1, m);
      }
    }
  }

  lemma SmallMod(k: nat, m: nat)
    requires k < m
    ensures k % m == k
  {
  }

  predicate Grew(before: Plan, after: Plan, a: Axis) { a in before && a in after && after[a] > before[a] }

  /** No axis grows while a larger one is left out. */
  ghost predicate LargestFirst(before: Plan, after: Plan) {
    forall a, b :: Grew(before, after, a) && b in before && b in after && after[b] == before[b] ==>
      before[a] >= before[b]
  }

  lemma GrownAre(before: Plan, after: Plan, diff: nat, axes: seq<Axis>, i: nat)
    requires GrownEvenly(before, after, diff) && axes == SortedAxes(before.Keys) && i < |axes|
    ensures axes[i] in before && axes[i] in after && after[axes[i]] >= before[axes[i]]
    ensures after[axes[i]] > before[axes[i]] <==> i < diff
  {
    hide SortedAxes, Turns;
    SortedLists(before);
    HitOrNot(diff, |axes|, i);
    assert after[axes[i]] == before[axes[i]] + Turns(diff, |axes|, i);
  }

  /** No axis among the alphabetically first diff is smaller than one behind them. */
  ghost predicate FrontIsLarge(before: Plan, diff: nat) {
    var axes := SortedAxes(before.Keys);
    Within(axes, before) &&
    forall i, j :: 0 <= i < diff && diff <= j < |axes| && i < |axes| ==> before[axes[i]] >= before[axes[j]]
  }

  lemma FrontGrows(before: Plan, after: Plan, diff: nat)
    requires GrownEvenly(before, after, diff) && FrontIsLarge(before, diff)
    ensures LargestFirst(before, after)
  {
    hide SortedAxes, Turns;
    var axes := SortedAxes(before.Keys);
    SortedLists(before);
    forall a, b | Grew(before, after, a) && b in before && b in after && after[b] == before[b]
      ensures before[a] >= before[b]
    {
      var i :| 0 <= i < |axes| && axes[i] == a;
      var j :| 0 <= j < |axes| && axes[j] == b;
      GrownAre(before, after, diff, axes, i);
      GrownAre(before, after, diff, axes, j);
    }
  }

  /** The documented "largest axes": they are the ones that grow exactly if no axis
      among the alphabetically first diff is smaller than one behind them. */
  lemma LargestGrowExactly(before: Plan, after: Plan, diff: nat)
    requires GrownEvenly(before, after, diff)
    ensures LargestFirst(before, after) <==> FrontIsLarge(before, diff)
  {
    hide SortedAxes, Turns, GrownEvenly;
    var axes := SortedAxes(before.Keys);
    SortedLists(before);
    if FrontIsLarge(before, diff) {
      FrontGrows(before, after, diff);
    } else {
      var i, j :| 0 <= i < diff && diff <= j < |axes| && i < |axes| && before[axes[i]] < before[axes[j]];
      GrownAre(before, after, diff, axes, i);
      GrownAre(before, after, diff, axes, j);
    }
  }
}
