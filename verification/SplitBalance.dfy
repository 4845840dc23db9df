/** How many samples of each class the splits hold. */
module SplitBalance {
  import opened Prelude
  import opened DatasetSplits
  import B = PlanBalance
  import opened SmokePlan

  function AxesIn(samples: seq<Sample>, kind: Kind): set<Axis> { set p | p in OfKind(samples, kind) :: samples[p].axis }

  /** The group sizes of one class. */
  function Sizes(samples: seq<Sample>, kind: Kind): B.Plan {
    map a | a in AxesIn(samples, kind) :: |Members(samples, kind, a)|
  }

  /** What a group of n gives to each of test and validation if the budget allows. */
  function Share(n: int): nat { if n <= 0 then 0 else Min(Quota(n), Cap(n)) }

  function Given(plan: B.Plan): B.Plan { map a | a in plan :: Share(plan[a]) }

  // ----- the totals of one class -----

  /** The groups of some axes, one by one: their size, and what they give. */
  lemma {:induction false} Groups(samples: seq<Sample>, splits: seq<Option<Split>>, kind: Kind, axes: seq<Axis>)
    requires KindOk(samples, splits, kind) && NoRepeats(axes) && B.Within(axes, Sizes(samples, kind))
    ensures var some := OfAxes(samples, kind, set a | a in axes);
            var given := B.SumOver(Given(Sizes(samples, kind)), axes);
            && |some| == B.SumOver(Sizes(samples, kind), axes)
            && |Chosen(splits, some, Test)| <= given
            && (|Chosen(splits, OfKind(samples, kind), Test)| < Round15(|OfKind(samples, kind)|) ==>
                  |Chosen(splits, some, Test)| == given)
  {
    hide Round15, KindOk, Members, OfKind, OfAxes, Chosen, Share, Sizes, Given, AxesIn;
    SameKeys(samples, kind);
    if axes == [] {
      assert (set a | a in axes) == {};
      NoGroups(samples, splits, kind);
    } else {
      var n := |axes| - 1;
      var before := set a | a in axes[..n];
      Groups(samples, splits, kind, axes[..n]);
      assert (set a | a in axes) == before + {axes[n]};
      OfAxesMore(samples, kind, before, axes[n]);
      ChosenMore(samples, splits, kind, before, axes[n], Test);
      OneGroup(samples, splits, kind, axes[n]);
    }
  }

  lemma SameKeys(samples: seq<Sample>, kind: Kind)
    ensures Sizes(samples, kind).Keys == Given(Sizes(samples, kind)).Keys == AxesIn(samples, kind)
    ensures forall a :: a in Sizes(samples, kind) ==>
              && Sizes(samples, kind)[a] == |Members(samples, kind, a)|
              && Given(Sizes(samples, kind))[a] == Share(|Members(samples, kind, a)|)
  {
  }

  lemma NoGroups(samples: seq<Sample>, splits: seq<Option<Split>>, kind: Kind)
    ensures OfAxes(samples, kind, {}) == {} && Chosen(splits, {}, Test) == {}
  {
  }

  lemma OneGroup(samples: seq<Sample>, splits: seq<Option<Split>>, kind: Kind, axis: Axis)
    requires KindOk(samples, splits, kind) && axis in AxesIn(samples, kind)
    ensures var members := Members(samples, kind, axis);
            && |Chosen(splits, members, Test)| <= Share(|members|)
            && (|Chosen(splits, OfKind(samples, kind), Test)| < Round15(|OfKind(samples, kind)|) ==>
                  |Chosen(splits, members, Test)| == Share(|members|))
  {
    hide Round15, Quota, Cap;
    var p :| p in OfKind(samples, kind) && samples[p].axis == axis;
    assert p in Members(samples, kind, axis);
  }

  lemma AllGroups(samples: seq<Sample>, kind: Kind, axes: seq<Axis>)
    requires B.Lists(axes, Sizes(samples, kind))
    ensures OfAxes(samples, kind, set a | a in axes) == OfKind(samples, kind)
  {
    forall p | p in OfKind(samples, kind) ensures samples[p].axis in axes {
      assert samples[p].axis in Sizes(samples, kind);
    }
  }

  /** The exact size of each class' test and validation sets. */
  function Held(samples: seq<Sample>, kind: Kind, given: int): int { Min(Round15(|OfKind(samples, kind)|), given) }

  /** In an assigned list a class' test and validation sets have the rounded 15
      percent, or what its groups can give if that is less; training has the rest. */
  lemma ClassTotals(samples: seq<Sample>, splits: seq<Option<Split>>, kind: Kind)
    requires KindOk(samples, splits, kind)
    ensures var held := Held(samples, kind, B.Total(Given(Sizes(samples, kind))));
            && |Chosen(splits, OfKind(samples, kind), Test)| == held
            && |Chosen(splits, OfKind(samples, kind), Val)| == held
            && |Chosen(splits, OfKind(samples, kind), Train)| == |OfKind(samples, kind)| - 2 * held
    ensures B.Total(Sizes(samples, kind)) == |OfKind(samples, kind)|
  {
    var sizes := Sizes(samples, kind);
    var axes := B.SortedAxes(sizes.Keys);
    B.SortedLists(sizes);
    assert Given(sizes).Keys == sizes.Keys;
    hide B.SortedAxes, Round15, Given, Sizes;
    Groups(samples, splits, kind, axes);
    AllGroups(samples, kind, axes);
    Parts(samples, splits, kind);
  }

  lemma Parts(samples: seq<Sample>, splits: seq<Option<Split>>, kind: Kind)
    requires KindOk(samples, splits, kind)
    ensures |Chosen(splits, OfKind(samples, kind), Test)| + |Chosen(splits, OfKind(samples, kind), Val)|
            + |Chosen(splits, OfKind(samples, kind), Train)| == |OfKind(samples, kind)|
  {
    hide Round15, GroupOk;
    var all := OfKind(samples, kind);
    var test, val, train := Chosen(splits, all, Test), Chosen(splits, all, Val), Chosen(splits, all, Train);
    assert all == test + val + train by {
      forall p | p in all ensures p in test + val + train {
        match splits[p].value
        case Test =>
        case Val =>
        case Train =>
      }
    }
    DisjointSize(test, val);
    DisjointSize(test + val, train);
  }

  // ----- the documented balance -----

  /** Each split holds as many samples of one class as of the other. */
  ghost predicate Balanced(samples: seq<Sample>, splits: seq<Option<Split>>) {
    forall x :: |Chosen(splits, OfKind(samples, Attack), x)| == |Chosen(splits, OfKind(samples, Benign), x)|
  }

  /** The splits are balanced if and only if the classes are of one size and can
      give the same number of samples, up to the budget they share. */
  lemma BalancedExactly(samples: seq<Sample>, splits: seq<Option<Split>>)
    requires KindOk(samples, splits, Attack) && KindOk(samples, splits, Benign)
    ensures Balanced(samples, splits) <==>
            && |OfKind(samples, Attack)| == |OfKind(samples, Benign)|
            && Held(samples, Attack, B.Total(Given(Sizes(samples, Attack))))
               == Held(samples, Benign, B.Total(Given(Sizes(samples, Benign))))
  {
    hide KindOk, Held, Given, Sizes, B.Total, Chosen, OfKind;
    ClassTotals(samples, splits, Attack);
    ClassTotals(samples, splits, Benign);
    if Balanced(samples, splits) {
      assert |Chosen(splits, OfKind(samples, Attack), Test)| == |Chosen(splits, OfKind(samples, Benign), Test)|;
      assert |Chosen(splits, OfKind(samples, Attack), Train)| == |Chosen(splits, OfKind(samples, Benign), Train)|;
    } else {
      var x :| |Chosen(splits, OfKind(samples, Attack), x)| != |Chosen(splits, OfKind(samples, Benign), x)|;
      assert x == Test || x == Val || x == Train;
    }
  }

  // ----- the smoke scale misses it -----

  function AddCopies(samples: seq<Sample>, x: Sample, n: int): seq<Sample>
    decreases n
  {
    if n <= 0 then samples else AddCopies(samples, x, n - 1) + [x]
  }

  /** The samples of a plan, axis by axis. */
  ghost function Generate(samples: seq<Sample>, kind: Kind, plan: B.Plan, axes: seq<Axis>): seq<Sample>
    requires B.Within(axes, plan)
  {
    if axes == [] then samples
    else
      var n := |axes| - 1;
      AddCopies(Generate(samples, kind, plan, axes[..n]), Sample(kind, axes[n], false), plan[axes[n]])
  }

  predicate Counted(x: Sample, kind: Kind, axis: Axis) { !x.sanity && x.kind == kind && x.axis == axis }

  lemma MembersSnoc(samples: seq<Sample>, x: Sample, kind: Kind, axis: Axis)
    ensures |Members(samples + [x], kind, axis)|
         == |Members(samples, kind, axis)| + if Counted(x, kind, axis) then 1 else 0
  {
    MembersMore(samples + [x], |samples|, kind, axis);
    assert (samples + [x])[..|samples| + 1] == samples + [x] && (samples + [x])[..|samples|] == samples;
  }

  lemma {:induction false} MembersAdded(samples: seq<Sample>, x: Sample, n: int, kind: Kind, axis: Axis)
    requires n >= 0
    ensures |Members(AddCopies(samples, x, n), kind, axis)|
         == |Members(samples, kind, axis)| + if Counted(x, kind, axis) then n else 0
    decreases n
  {
    if n > 0 {
      MembersAdded(samples, x, n - 1, kind, axis);
      MembersSnoc(AddCopies(samples, x, n - 1), x, kind, axis);
    }
  }

  lemma {:induction false} MembersGenerated(samples: seq<Sample>, k: Kind, plan: B.Plan, axes: seq<Axis>, kind: Kind,
                                            axis: Axis)
    requires B.Within(axes, plan) && NoRepeats(axes) && forall a :: a in plan ==> plan[a] >= 0
    ensures |Members(Generate(samples, k, plan, axes), kind, axis)|
         == |Members(samples, kind, axis)| + if kind == k && axis in axes then plan[axis] else 0
  {
    hide Members;
    if axes != [] {
      var n := |axes| - 1;
      MembersGenerated(samples, k, plan, axes[..n], kind, axis);
      MembersAdded(Generate(samples, k, plan, axes[..n]), Sample(k, axes[n], false), plan[axes[n]], kind, axis);
      assert axis in axes <==> axis in axes[..n] || axis == axes[n];
    }
  }

  ghost function SortedGenerate(samples: seq<Sample>, kind: Kind, plan: B.Plan): seq<Sample> {
    B.SortedLists(plan);
    Generate(samples, kind, plan, B.SortedAxes(plan.Keys))
  }

  /** The samples of a smoke build, with its six sanity samples. */
  ghost function SmokeSamples(): seq<Sample> {
    var attack := SortedGenerate([], Attack, SmokeAttack());
    var both := SortedGenerate(attack, Benign, SmokeBalanced());
    var takeovers := AddCopies(both, Sample(Attack, "sanity_attack_takeover", true), 3);
    var identical := AddCopies(takeovers, Sample(Benign, "sanity_benign_identical", true), 2);
    AddCopies(identical, Sample(Benign, "sanity_benign_quiet", true), 1)
  }

  lemma SortedGenerated(samples: seq<Sample>, k: Kind, plan: B.Plan, kind: Kind, axis: Axis)
    requires forall a :: a in plan ==> plan[a] >= 0
    ensures |Members(SortedGenerate(samples, k, plan), kind, axis)|
         == |Members(samples, kind, axis)| + if kind == k && axis in plan then plan[axis] else 0
  {
    hide B.SortedAxes, Members;
    B.SortedLists(plan);
    MembersGenerated(samples, k, plan, B.SortedAxes(plan.Keys), kind, axis);
  }

  lemma SmokeMembers(kind: Kind, axis: Axis)
    ensures var plan := if kind == Attack then SmokeAttack() else SmokeBalanced();
            |Members(SmokeSamples(), kind, axis)| == if axis in plan then plan[axis] else 0
  {
    assert Members([], kind, axis) == {};
    hide Members, SmokeAttack, SmokeBalanced, SortedGenerate, AddCopies;
    SmokeIsSized();
    var attack := SortedGenerate([], Attack, SmokeAttack());
    var both := SortedGenerate(attack, Benign, SmokeBalanced());
    SortedGenerated([], Attack, SmokeAttack(), kind, axis);
    SortedGenerated(attack, Benign, SmokeBalanced(), kind, axis);
    var takeover := Sample(Attack, "sanity_attack_takeover", true);
    var same := Sample(Benign, "sanity_benign_identical", true);
    MembersAdded(both, takeover, 3, kind, axis);
    MembersAdded(AddCopies(both, takeover, 3), same, 2, kind, axis);
    MembersAdded(AddCopies(AddCopies(both, takeover, 3), same, 2), Sample(Benign, "sanity_benign_quiet", true), 1, kind,
                 axis);
  }

  lemma SmokeIsSized()
    ensures forall a :: a in SmokeAttack() ==> SmokeAttack()[a] >= 2
    ensures forall a :: a in SmokeBalanced() ==> SmokeBalanced()[a] >= 2
  {
    hide AttackTwos, AttackThrees, OtherTwos, OtherThrees, Fours;
  }

  lemma SizesAre(samples: seq<Sample>, kind: Kind, plan: B.Plan)
    requires forall a :: a in plan ==> plan[a] >= 2
    requires forall a :: |Members(samples, kind, a)| == if a in plan then plan[a] else 0
    ensures Sizes(samples, kind) == plan
  {
    forall a ensures a in AxesIn(samples, kind) <==> a in plan {
      if a in plan {
        assert |Members(samples, kind, a)| > 0;
        var p :| p in Members(samples, kind, a);
        assert p in OfKind(samples, kind);
      }
      if a in AxesIn(samples, kind) {
        var p :| p in OfKind(samples, kind) && samples[p].axis == a;
        assert p in Members(samples, kind, a);
      }
    }
  }

  lemma SmokeGives()
    ensures B.Total(Given(SmokeAttack())) == 2 && B.Total(Given(SmokeBalanced())) == 12
  {
    assert Share(2) == 0 && Share(3) == 1 && Share(4) == 1;
    hide AttackTwos, AttackThrees, OtherTwos, OtherThrees, Fours, B.Total, Share;
    AttackNames();
    BenignNames();
    SizedTotal(Given(SmokeAttack()), AttackTwos(), AttackThrees(), [], 0, 1, 1);
    SizedTotal(Given(SmokeBalanced()), OtherTwos(), [UA_VARIATION] + OtherThrees(), [AB_TEST] + Fours(), 0, 1, 1);
  }

  /** After balancing, a smoke build holds out two attack samples and six benign
      ones in each of test and validation. */
  lemma SmokeUnbalanced(splits: seq<Option<Split>>)
    requires KindOk(SmokeSamples(), splits, Attack) && KindOk(SmokeSamples(), splits, Benign)
    ensures var samples := SmokeSamples();
            && |OfKind(samples, Attack)| == |OfKind(samples, Benign)| == 42
            && |Chosen(splits, OfKind(samples, Attack), Test)| == |Chosen(splits, OfKind(samples, Attack), Val)| == 2
            && |Chosen(splits, OfKind(samples, Benign), Test)| == |Chosen(splits, OfKind(samples, Benign), Val)| == 6
            && !Balanced(samples, splits)
  {
    hide KindOk, SmokeSamples, Members, Chosen, OfKind, SmokeAttack, SmokeBalanced, Given, Sizes, B.Total;
    var samples := SmokeSamples();
    SmokeIsSized();
    forall a ensures |Members(samples, Attack, a)| == if a in SmokeAttack() then SmokeAttack()[a] else 0 {
      SmokeMembers(Attack, a);
    }
    forall a ensures |Members(samples, Benign, a)| == if a in SmokeBalanced() then SmokeBalanced()[a] else 0 {
      SmokeMembers(Benign, a);
    }
    SizesAre(samples, Attack, SmokeAttack());
    SizesAre(samples, Benign, SmokeBalanced());
    ClassTotals(samples, splits, Attack);
    ClassTotals(samples, splits, Benign);
    SmokeTotals();
    SmokeGives();
  }
}
