/** The plans of the smoke scale, axis by axis: 12 percent of each count, rounded,
    and at least two, which leaves the classes unequal by two. Balancing them
    grows a small axis before larger ones, and leaves one class with few groups
    that can be split. */
module SmokePlan {
  import opened Prelude
  import opened PlanBalance

  // 12 percent of each axis' count, rounded, and at least two: axes of two,
  // three and four samples.
  function Sized(twos: seq<Axis>, threes: seq<Axis>, fours: seq<Axis>): Plan {
    map a | a in twos + threes + fours :: if a in twos then 2 else if a in threes then 3 else 4
  }

  function AttackTwos(): seq<Axis> {
    ["cloaking_heavy", "cloaking_partial", "combined_subthreshold", "form_action_swap", "hidden_spam_inline",
     "hidden_spam_stealth", "iframe_new_domain", "multi_vector_screamer", "nonnative_full_rewrite",
     "nonnative_partial_inject", "profanity_burst", "script_new_domain", "seo_spam_beyond_cap", "seo_spam_early",
     "sig_medium_weak", "sig_strong_banner", "visual_banner_deface", "visual_hue_recolor"]
  }

  function AttackThrees(): seq<Axis> { ["laundering_padded", "sig_leet"] }

  const AB_TEST := "ab_test_variant"
  const UA_VARIATION := "benign_ua_variation"

  function OtherTwos(): seq<Axis> { ["cache_busting_refs", "theme_hue_refresh"] }

  function OtherThrees(): seq<Axis> {
    ["cert_header_rotation", "editorial_update", "identical_rescan", "minor_css_churn", "mixed_noise_combo",
     "nonnative_editorial", "rotating_ad", "timestamp_counter", "vendor_script_added"]
  }

  const REDESIGN := "site_redesign"

  function Fours(): seq<Axis> { [REDESIGN] }

  function SmokeAttack(): Plan { Sized(AttackTwos(), AttackThrees(), []) }

  function SmokeBenign(): Plan { Sized([UA_VARIATION] + OtherTwos(), [AB_TEST] + OtherThrees(), Fours()) }

  /** The benign plan after the two steps that balance it. */
  function SmokeBalanced(): Plan { Sized(OtherTwos(), [UA_VARIATION] + OtherThrees(), [AB_TEST] + Fours()) }

  // ----- what is to be known of the names -----

  predicate Apart(twos: seq<Axis>, threes: seq<Axis>, fours: seq<Axis>) { NoRepeats(twos + threes + fours) }

  lemma AttackNames()
    ensures Apart(AttackTwos(), AttackThrees(), []) && |AttackTwos()| == 18 && |AttackThrees()| == 2
  {
  }

  lemma BenignNames()
    ensures Apart([UA_VARIATION] + OtherTwos(), [AB_TEST] + OtherThrees(), Fours())
    ensures Apart(OtherTwos(), [UA_VARIATION] + OtherThrees(), [AB_TEST] + Fours())
    ensures |OtherTwos()| == 2 && |OtherThrees()| == 9 && |Fours()| == 1
  {
  }

  predicate AfterB(names: seq<Axis>) { forall k :: 0 <= k < |names| ==> names[k] != "" && names[k][0] > 'b' }

  lemma OtherNames()
    ensures AfterB(OtherTwos()) && AfterB(OtherThrees()) && AfterB(Fours())
  {
  }

  lemma LaterApart(s: seq<Axis>, t: seq<Axis>)
    requires NoRepeats(s + t)
    ensures forall k :: 0 <= k < |t| ==> t[k] !in s
  {
    forall i, k | 0 <= i < |s| && 0 <= k < |t| ensures s[i] != t[k] {
      assert (s + t)[i] == s[i] && (s + t)[|s| + k] == t[k];
    }
  }

  /** The total of a plan, counted by size, whatever is counted of each axis. */
  lemma SizedTotal(plan: Plan, twos: seq<Axis>, threes: seq<Axis>, fours: seq<Axis>, v: int, x: int, y: int)
    requires Apart(twos, threes, fours) && plan.Keys == Sized(twos, threes, fours).Keys
    requires forall a :: a in plan ==> plan[a] == if a in twos then v else if a in threes then x else y
    ensures Total(plan) == v * |twos| + x * |threes| + y * |fours|
  {
    hide Total, SumOver;
    var axes := twos + threes + fours;
    assert Within(twos, plan) by { assert forall k :: 0 <= k < |twos| ==> twos[k] in axes; }
    assert Within(threes, plan) by { assert forall k :: 0 <= k < |threes| ==> threes[k] in axes; }
    assert Within(fours, plan) by { assert forall k :: 0 <= k < |fours| ==> fours[k] in axes; }
    assert axes == twos + (threes + fours);
    LaterApart(twos, threes + fours);
    LaterApart(twos + threes, fours);
    assert forall k :: 0 <= k < |threes| ==> threes[k] == (threes + fours)[k];
    assert forall k :: 0 <= k < |fours| ==> fours[k] == (threes + fours)[|threes| + k];
    SumUniform(plan, twos, v);
    SumUniform(plan, threes, x);
    SumUniform(plan, fours, y);
    SumConcat(plan, twos, threes);
    SumConcat(plan, twos + threes, fours);
    TotalIs(plan, axes);
  }

  lemma SmokeTotals()
    ensures Total(SmokeAttack()) == 42 && Total(SmokeBenign()) == 40 && Total(SmokeBalanced()) == 42
  {
    hide AttackTwos, AttackThrees, OtherTwos, OtherThrees, Fours, Total, Apart;
    AttackNames();
    BenignNames();
    SizedTotal(SmokeAttack(), AttackTwos(), AttackThrees(), [], 2, 3, 4);
    SizedTotal(SmokeBenign(), [UA_VARIATION] + OtherTwos(), [AB_TEST] + OtherThrees(), Fours(), 2, 3, 4);
    SizedTotal(SmokeBalanced(), OtherTwos(), [UA_VARIATION] + OtherThrees(), [AB_TEST] + Fours(), 2, 3, 4);
  }

  // ----- the plan that grows the wrong axis -----

  lemma LettersOrder(a: Axis, b: Axis)
    requires a != "" && b != "" && a[0] < b[0]
    ensures AtMost(a, b)
  {
  }

  /** The first two axes of the benign plan, and a larger one behind them. */
  lemma SmokeHead(others: set<Axis>)
    requires others == SmokeBenign().Keys - {AB_TEST, UA_VARIATION}
    requires AfterB(OtherTwos()) && AfterB(OtherThrees()) && AfterB(Fours())
    ensures SortedAxes(SmokeBenign().Keys) == [AB_TEST] + ([UA_VARIATION] + SortedAxes(others))
  {
    hide OtherTwos, OtherThrees, Fours, SortedAxes, AtMost;
    forall b | b in others ensures AtMost(AB_TEST, b) && AtMost(UA_VARIATION, b) {
      LettersOrder(AB_TEST, b);
      LettersOrder(UA_VARIATION, b);
    }
    OneWay(AB_TEST, AB_TEST);
    OneWay(UA_VARIATION, UA_VARIATION);
    LettersOrder(AB_TEST, UA_VARIATION);
    SortedHead(SmokeBenign().Keys, AB_TEST);
    assert SmokeBenign().Keys - {AB_TEST} == others + {UA_VARIATION};
    assert UA_VARIATION !in others && others + {UA_VARIATION} - {UA_VARIATION} == others;
    SortedHead(others + {UA_VARIATION}, UA_VARIATION);
  }

  /** What is to be known of a plan before and after two axes have grown. */
  lemma AfterIs(before: Plan, after: Plan, others: set<Axis>)
    requires GrownEvenly(before, after, 2) && |SortedAxes(others)| > 0
    requires SortedAxes(before.Keys) == [AB_TEST] + ([UA_VARIATION] + SortedAxes(others))
    ensures AB_TEST in before && AB_TEST in after && after[AB_TEST] == before[AB_TEST] + 1
    ensures UA_VARIATION in before && UA_VARIATION in after && after[UA_VARIATION] == before[UA_VARIATION] + 1
    ensures forall a :: a in others ==> a in before && a in after && after[a] == before[a]
  {
    hide SortedAxes;
    var axes := SortedAxes(before.Keys);
    GrownBy(before, after, axes, 0, 1);
    GrownBy(before, after, axes, 1, 1);
    SortedIs(others);
    forall a | a in others ensures a in before && a in after && after[a] == before[a] {
      assert a in SortedAxes(others);
      var i :| 0 <= i < |SortedAxes(others)| && SortedAxes(others)[i] == a;
      assert axes[i + 2] == a;
      GrownBy(before, after, axes, i + 2, 0);
    }
  }

  lemma GrownBy(before: Plan, after: Plan, axes: seq<Axis>, i: nat, more: nat)
    requires axes == SortedAxes(before.Keys) && GrownEvenly(before, after, 2) && i < |axes| && |axes| > 2
    requires more == if i < 2 then 1 else 0
    ensures axes[i] in before && axes[i] in after && after[axes[i]] == before[axes[i]] + more
  {
    hide SortedAxes, Turns;
    TurnsEven(2, |axes|, i);
    DivMod(2, |axes|, 0, 2);
  }

  lemma BalancedIs()
    ensures SmokeBalanced().Keys == SmokeBenign().Keys
    ensures forall a :: a in SmokeBenign() ==>
              SmokeBalanced()[a] == if a == AB_TEST then 4 else if a == UA_VARIATION then 3 else SmokeBenign()[a]
    ensures AB_TEST in SmokeBenign() && UA_VARIATION in SmokeBenign() && REDESIGN in SmokeBenign()
    ensures SmokeBenign()[AB_TEST] == 3 && SmokeBenign()[UA_VARIATION] == 2 && SmokeBenign()[REDESIGN] == 4
  {
    hide OtherTwos, OtherThrees;
    OtherNames();
    BenignNames();
    NotAfterB(OtherTwos());
    NotAfterB(OtherThrees());
    LaterApart([UA_VARIATION] + OtherTwos() + ([AB_TEST] + OtherThrees()), Fours());
    assert Fours()[0] == REDESIGN;
  }

  lemma NotAfterB(names: seq<Axis>)
    requires AfterB(names)
    ensures AB_TEST !in names && UA_VARIATION !in names
  {
  }

  /** It fails on the smoke plan: an axis of two grows while axes of three and
      four are left out. */
  lemma SmallerAxisGrows(after: Plan, diff: nat)
    requires diff == Total(SmokeAttack()) - Total(SmokeBenign()) && GrownEvenly(SmokeBenign(), after, diff)
    ensures after == SmokeBalanced() && !LargestFirst(SmokeBenign(), after)
  {
    hide SmokeAttack, SmokeBenign, SmokeBalanced, SortedAxes, Total;
    SmokeTotals();
    OtherNames();
    var before := SmokeBenign();
    BalancedIs();
    var others := before.Keys - {AB_TEST, UA_VARIATION};
    SmokeHead(others);
    SortedIs(others);
    assert REDESIGN in others;
    AfterIs(before, after, others);
    assert after.Keys == before.Keys;
    assert Grew(before, after, UA_VARIATION) && after[REDESIGN] == before[REDESIGN];
  }
}
