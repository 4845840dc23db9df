/** The sampler on syntax trees: what a sequence of draws makes of a pattern. */
module TreeSampler {
  import opened Prelude
  import opened Regex
  import opened PatternReader

  function Repeat(c: char, n: nat): string { if n == 0 then "" else Repeat(c, n - 1) + [c] }

  /** n draws from a pool, one number each. */
  function Pick(pool: string, n: nat, draws: Draws, at: nat): string
    requires pool != ""
  {
    if n == 0 then ""
    else Pick(pool, n - 1, draws, at) + [pool[Draw(0, |pool| - 1, draws(at + n - 1))]]
  }

  const FILLER := CharRange('a' as int, 'z' as int) + "    "

  function Inner(n: nat): nat { Max(0, Min(n, 14) - 2) }

  /** n repetitions of an atom, and the number of the next draw. */
  ghost function Words(a: Atom, n: nat, draws: Draws, at: nat): (string, nat)
    decreases a, n
  {
    match a
    case Literal(c) => (Repeat(c, n), at)
    case Escaped(c) => (Repeat(c, n), at)
    case Space => (Repeat(' ', n), at)
    case Word => (Pick(WORD_CHARS, n, draws, at), at + n)
    case Digit => (Pick(DIGITS, n, draws, at), at + n)
    case Dot => (" " + Pick(FILLER, Inner(n), draws, at) + " ", at + Inner(n))
    case Class(ms) => if MembersPool(ms) == "" then ("", at) else (Pick(MembersPool(ms), n, draws, at), at + n)
    case Group(_, bs) =>
      if n == 0 then ("", at)
      else
        var (w, j) := Words(a, n - 1, draws, at);
        var (v, next) := Branch(bs, Draw(0, |BranchTexts(bs)| - 1, draws(j)), draws, j + 1);
        (w + v, next)
  }

  /** The atoms other than groups, one by one. */
  lemma WordsAre(a: Atom, n: nat, draws: Draws, at: nat)
    ensures match a
      case Literal(c) => Words(a, n, draws, at) == (Repeat(c, n), at)
      case Escaped(c) => Words(a, n, draws, at) == (Repeat(c, n), at)
      case Space => Words(a, n, draws, at) == (Repeat(' ', n), at)
      case Word => WORD_CHARS != "" && Words(a, n, draws, at) == (Pick(WORD_CHARS, n, draws, at), at + n)
      case Digit => DIGITS != "" && Words(a, n, draws, at) == (Pick(DIGITS, n, draws, at), at + n)
      case Class(ms) =>
        MembersPool(ms) != "" ==> Words(a, n, draws, at) == (Pick(MembersPool(ms), n, draws, at), at + n)
      case _ => true
  {
    PoolsAreSound();
  }

  ghost function Branch(bs: Branches, k: nat, draws: Draws, at: nat): (string, nat)
    requires k < |BranchTexts(bs)|
    decreases bs, 0
  {
    if k == 0 then Sampled(bs.items, draws, at) else Branch(bs.others, k - 1, draws, at)
  }

  /** One string of the pattern, and the number of the next draw. */
  ghost function Sampled(r: Items, draws: Draws, at: nat): (string, nat)
    decreases r, 0
  {
    match r
    case Nil => ("", at)
    case Cons(a, q, t) =>
      var text := PrintQuant(q);
      var (w, j) := Words(a, QReps(text, draws(at)), draws, at + Spent(text));
      var (v, next) := Sampled(t, draws, j);
      (w + v, next)
  }

  lemma {:induction false} BranchIs(bs: Branches, k: nat, draws: Draws, at: nat)
    requires k < |BranchTexts(bs)|
    ensures Branch(bs, k, draws, at) == Sampled(Nth(bs, k), draws, at)
  {
    if k > 0 {
      BranchIs(bs.others, k - 1, draws, at);
    }
  }

  // ----- every draw gives a string of the language -----

  lemma {:induction false} RepeatPower(a: Atom, c: char, n: nat)
    requires InAtom(a, [c])
    ensures InPower(a, n, Repeat(c, n))
  {
    if n > 0 {
      RepeatPower(a, c, n - 1);
      PowerSnoc(a, n - 1, Repeat(c, n - 1), [c]);
    }
  }

  lemma {:induction false} Picked(pool: string, n: nat, draws: Draws, at: nat)
    requires pool != ""
    ensures |Pick(pool, n, draws, at)| == n && forall c :: c in Pick(pool, n, draws, at) ==> c in pool
  {
    if n > 0 {
      Picked(pool, n - 1, draws, at);
    }
  }

  lemma {:induction false} PickPower(a: Atom, pool: string, n: nat, draws: Draws, at: nat)
    requires pool != "" && forall c :: c in pool ==> InAtom(a, [c])
    ensures InPower(a, n, Pick(pool, n, draws, at))
  {
    if n > 0 {
      PickPower(a, pool, n - 1, draws, at);
      PowerSnoc(a, n - 1, Pick(pool, n - 1, draws, at), [pool[Draw(0, |pool| - 1, draws(at + n - 1))]]);
    }
  }

  lemma {:induction false} WordsIn(a: Atom, n: nat, draws: Draws, at: nat)
    requires FragmentAtom(a, true) || FragmentAtom(a, false)
    requires a != Dot
    ensures InPower(a, n, Words(a, n, draws, at).0)
    decreases a, n
  {
    PoolsAreSound();
    match a
    case Literal(c) => RepeatPower(a, c, n);
    case Escaped(c) => RepeatPower(a, c, n);
    case Space => RepeatPower(a, ' ', n);
    case Word => PickPower(a, WORD_CHARS, n, draws, at);
    case Digit => PickPower(a, DIGITS, n, draws, at);
    case Class(ms) =>
      PoolMatches(ms);
      PickPower(a, MembersPool(ms), n, draws, at);
    case Group(_, bs) =>
      if n > 0 {
        WordsIn(a, n - 1, draws, at);
        var (w, j) := Words(a, n - 1, draws, at);
        var k := Draw(0, |BranchTexts(bs)| - 1, draws(j));
        BranchIn(bs, k, draws, j + 1);
        PowerSnoc(a, n - 1, w, Branch(bs, k, draws, j + 1).0);
      }
    case Dot =>
  }

  lemma {:induction false} BranchIn(bs: Branches, k: nat, draws: Draws, at: nat)
    requires FragmentBranches(bs) && k < |BranchTexts(bs)|
    ensures InBranches(bs, Branch(bs, k, draws, at).0)
    decreases bs, 2
  {
    if k == 0 {
      SampledIn(bs.items, true, draws, at);
    } else {
      BranchIn(bs.others, k - 1, draws, at);
    }
  }

  lemma FillerOnOneLine()
    ensures FILLER != "" && '\n' !in FILLER
  {
    CharRangeIs('a' as int, 'z' as int);
  }

  lemma DotIs(n: nat, draws: Draws, at: nat)
    ensures FILLER != "" && Max(0, Min(n, 14) - 2) >= 0
    ensures var inner := Pick(FILLER, Max(0, Min(n, 14) - 2), draws, at);
            && |inner| == Max(0, Min(n, 14) - 2) <= 12
            && Words(Dot, n, draws, at) == (" " + inner + " ", at + |inner|)
  {
    FillerOnOneLine();
    Picked(FILLER, Inner(n), draws, at);
  }

  /** The word of a dot has two to fourteen characters, spaces at both ends, and is
      matched exactly if the quantifier is one that allows some such length. */
  lemma DotWord(q: Quant, n: nat, draws: Draws, at: nat)
    requires FragmentQuant(q) && Drawn(q, n)
    ensures var w := Words(Dot, n, draws, at).0;
            && |w| == Max(2, Min(n, 14)) && w[0] == ' ' && w[|w| - 1] == ' '
            && (InRepeat(Dot, q, w) <==> DotQuant(q))
  {
    var w := Words(Dot, n, draws, at).0;
    FillerOnOneLine();
    Picked(FILLER, Inner(n), draws, at);
    var inner := Pick(FILLER, Inner(n), draws, at);
    assert w == " " + inner + " ";
    forall k | 0 <= k < |w| ensures w[k] != '\n' {
      assert 0 < k < |w| - 1 ==> w[k] == inner[k - 1] && w[k] in inner;
    }
    DotRepeat(q, w);
  }

  lemma HeadAndTail(r: Items, inGroup: bool, draws: Draws, at: nat)
    requires FragmentItems(r, inGroup) && r.Cons?
    ensures FragmentAtom(r.atom, inGroup) && FragmentQuant(r.quant) && FragmentItems(r.tail, inGroup)
    ensures r.atom == Dot ==> DotQuant(r.quant)
    ensures var text := PrintQuant(r.quant);
            var (w, j) := Words(r.atom, QReps(text, draws(at)), draws, at + Spent(text));
            Sampled(r, draws, at) == (w + Sampled(r.tail, draws, j).0, Sampled(r.tail, draws, j).1)
  {
  }

  /** For every pattern of the fragment every sequence of draws gives one of its strings. */
  lemma {:induction false} SampledIn(r: Items, inGroup: bool, draws: Draws, at: nat)
    requires FragmentItems(r, inGroup)
    ensures InItems(r, Sampled(r, draws, at).0)
    decreases r, 1
  {
    hide *;
    if r.Cons? {
      HeadAndTail(r, inGroup, draws, at);
      var text := PrintQuant(r.quant);
      var (w, j) := Words(r.atom, QReps(text, draws(at)), draws, at + Spent(text));
      HeadIn(r, inGroup, draws(at), draws, at + Spent(text));
      SampledIn(r.tail, inGroup, draws, j);
      ConsIn(r.atom, r.quant, r.tail, w, Sampled(r.tail, draws, j).0);
    } else {
      NothingSampled(r, draws, at);
    }
  }

  lemma NothingSampled(r: Items, draws: Draws, at: nat)
    requires r.Nil?
    ensures Sampled(r, draws, at) == ("", at) && InItems(r, "") && CanItems(r, "") && Longest(r) == 0
  {
  }

  lemma {:induction false} HeadIn(r: Items, inGroup: bool, draw: nat, draws: Draws, at: nat)
    requires r.Cons? && FragmentAtom(r.atom, inGroup) && FragmentQuant(r.quant)
    requires r.atom == Dot ==> DotQuant(r.quant)
    ensures InRepeat(r.atom, r.quant, Words(r.atom, QReps(PrintQuant(r.quant), draw), draws, at).0)
    decreases r, 0
  {
    hide *;
    var n := QReps(PrintQuant(r.quant), draw);
    QRepsDrawn(r.quant, draw);
    if r.atom == Dot {
      DotWord(r.quant, n, draws, at);
    } else {
      DrawnAllowed(r.quant, n);
      EitherFragment(r.atom, inGroup);
      WordsIn(r.atom, n, draws, at);
      RepeatIn(r.atom, r.quant, n, Words(r.atom, n, draws, at).0);
    }
  }

  lemma EitherFragment(a: Atom, inGroup: bool)
    requires FragmentAtom(a, inGroup)
    ensures FragmentAtom(a, true) || FragmentAtom(a, false)
  {
  }

  // ----- exactly which strings -----

  /** n repetitions of an atom as they can come out: a space for every white space,
      class members from the pool, filler of letters and spaces for a dot. */
  ghost predicate CanWords(a: Atom, n: nat, w: string)
    decreases a, n
  {
    match a
    case Literal(c) => w == Repeat(c, n)
    case Escaped(c) => w == Repeat(c, n)
    case Space => w == Repeat(' ', n)
    case Word => |w| == n && forall k :: 0 <= k < n ==> w[k] in WORD_CHARS
    case Digit => |w| == n && forall k :: 0 <= k < n ==> w[k] in DIGITS
    case Dot =>
      && |w| == Max(2, Min(n, 14)) && w[0] == ' ' && w[|w| - 1] == ' '
      && forall k :: 0 < k < |w| - 1 ==> 'a' <= w[k] <= 'z' || w[k] == ' '
    case Class(ms) =>
      if MembersPool(ms) == "" then w == "" else |w| == n && forall k :: 0 <= k < n ==> w[k] in MembersPool(ms)
    case Group(_, bs) =>
      if n == 0 then w == "" else exists k :: 0 <= k <= |w| && CanWords(a, n - 1, w[..k]) && CanBranches(bs, w[k..])
  }

  ghost predicate CanBranches(bs: Branches, w: string)
    decreases bs, 0
  {
    match bs
    case Last(r) => CanItems(r, w)
    case More(r, others) => CanItems(r, w) || CanBranches(others, w)
  }

  ghost predicate CanItems(r: Items, w: string)
    decreases r, 0
  {
    match r
    case Nil => w == ""
    case Cons(a, q, t) =>
      FragmentQuant(q) && exists n: nat, k ::
        0 <= k <= |w| && Drawn(q, n) && CanWords(a, n, w[..k]) && CanItems(t, w[k..])
  }

  lemma FillerIs(c: char)
    ensures c in FILLER <==> 'a' <= c <= 'z' || c == ' '
  {
    CharRangeIs('a' as int, 'z' as int);
    assert FILLER[|FILLER| - 1] == ' ';
  }

  lemma {:induction false} WordsCan(a: Atom, n: nat, draws: Draws, at: nat)
    requires FragmentAtom(a, true) || FragmentAtom(a, false)
    ensures CanWords(a, n, Words(a, n, draws, at).0)
    decreases a, n
  {
    PoolsAreSound();
    var (w, next) := Words(a, n, draws, at);
    match a
    case Word => Picked(WORD_CHARS, n, draws, at);
    case Digit => Picked(DIGITS, n, draws, at);
    case Dot => DotCan(n, draws, at);
    case Class(ms) =>
      if MembersPool(ms) != "" {
        Picked(MembersPool(ms), n, draws, at);
      }
    case Group(_, bs) =>
      if n > 0 {
        WordsCan(a, n - 1, draws, at);
        var (v, j) := Words(a, n - 1, draws, at);
        BranchCan(bs, Draw(0, |BranchTexts(bs)| - 1, draws(j)), draws, j + 1);
        assert w[..|v|] == v && w[|v|..] == Branch(bs, Draw(0, |BranchTexts(bs)| - 1, draws(j)), draws, j + 1).0;
      }
    case _ =>
  }

  lemma DotCan(n: nat, draws: Draws, at: nat)
    ensures CanWords(Dot, n, Words(Dot, n, draws, at).0)
  {
    FillerOnOneLine();
    Picked(FILLER, Inner(n), draws, at);
    var w, inner := Words(Dot, n, draws, at).0, Pick(FILLER, Inner(n), draws, at);
    assert w == " " + inner + " ";
    forall k | 0 < k < |w| - 1 ensures 'a' <= w[k] <= 'z' || w[k] == ' ' {
      assert w[k] == inner[k - 1] && w[k] in inner;
      FillerIs(w[k]);
    }
  }

  lemma {:induction false} BranchCan(bs: Branches, k: nat, draws: Draws, at: nat)
    requires FragmentBranches(bs) && k < |BranchTexts(bs)|
    ensures CanBranches(bs, Branch(bs, k, draws, at).0)
    decreases bs, 0
  {
    if k == 0 {
      SampledCan(bs.items, true, draws, at);
    } else {
      BranchCan(bs.others, k - 1, draws, at);
    }
  }

  lemma {:induction false} SampledCan(r: Items, inGroup: bool, draws: Draws, at: nat)
    requires FragmentItems(r, inGroup)
    ensures CanItems(r, Sampled(r, draws, at).0)
    decreases r, 0
  {
    hide *;
    if r.Cons? {
      HeadAndTail(r, inGroup, draws, at);
      EitherFragment(r.atom, inGroup);
      var text := PrintQuant(r.quant);
      var n := QReps(text, draws(at));
      var (w, j) := Words(r.atom, n, draws, at + Spent(text));
      WordsCan(r.atom, n, draws, at + Spent(text));
      SampledCan(r.tail, inGroup, draws, j);
      QRepsDrawn(r.quant, draws(at));
      CanCons(r, n, w, Sampled(r.tail, draws, j).0);
    } else {
      NothingSampled(r, draws, at);
    }
  }

  lemma CanCons(r: Items, n: nat, u: string, v: string)
    requires r.Cons? && FragmentQuant(r.quant) && Drawn(r.quant, n) && CanWords(r.atom, n, u) && CanItems(r.tail, v)
    ensures CanItems(r, u + v)
  {
    hide Drawn, CanWords, FragmentQuant;
    assert (u + v)[..|u|] == u && (u + v)[|u|..] == v;
  }

  // The draws from number at on are these.
  ghost predicate Follows(draws: Draws, at: nat, tape: seq<nat>) {
    forall i :: 0 <= i < |tape| ==> draws(at + i) == tape[i]
  }

  lemma FollowsSplit(draws: Draws, at: nat, a: seq<nat>, b: seq<nat>)
    requires Follows(draws, at, a + b)
    ensures Follows(draws, at, a) && Follows(draws, at + |a|, b)
  {
    forall i | 0 <= i < |a| ensures draws(at + i) == a[i] {
      assert (a + b)[i] == a[i];
    }
    forall i | 0 <= i < |b| ensures draws(at + |a| + i) == b[i] {
      assert (a + b)[|a| + i] == b[i];
    }
  }

  /** Draws that pick these characters one after the other. */
  lemma {:induction false} PickTape(pool: string, w: string) returns (tape: seq<nat>)
    requires pool != "" && forall k :: 0 <= k < |w| ==> w[k] in pool
    ensures |tape| == |w|
    ensures forall draws, at: nat :: Follows(draws, at, tape) ==> Pick(pool, |w|, draws, at) == w
  {
    hide Draw, Follows;
    tape := [];
    if w != "" {
      var n := |w| - 1;
      var before := PickTape(pool, w[..n]);
      assert w[n] in pool;
      var i :| 0 <= i < |pool| && pool[i] == w[n];
      tape := before + [i];
      DrawReaches(0, |pool| - 1, i);
      assert w[..n] + [w[n]] == w;
      forall draws, at: nat | Follows(draws, at, tape) ensures Pick(pool, |w|, draws, at) == w {
        FollowsSplit(draws, at, before, [i]);
        NextIs(draws, at + n, i);
      }
    }
  }

  lemma NextIs(draws: Draws, at: nat, i: nat)
    requires Follows(draws, at, [i])
    ensures draws(at) == i
  {
    assert draws(at + 0) == [i][0];
  }

  lemma {:induction false} WordsTape(a: Atom, n: nat, w: string) returns (tape: seq<nat>)
    requires CanWords(a, n, w)
    ensures MakesWords(a, n, tape, w)
    decreases a, n
  {
    tape := [];
    PoolsAreSound();
    match a
    case Word => tape := PickTape(WORD_CHARS, w);
    case Digit => tape := PickTape(DIGITS, w);
    case Dot => tape := DotTape(n, w);
    case Class(ms) =>
      if MembersPool(ms) != "" {
        tape := PickTape(MembersPool(ms), w);
      }
    case Group(_, bs) =>
      if n > 0 {
        tape := GroupTape(a, n, w);
      }
    case _ =>
  }

  lemma DotTape(n: nat, w: string) returns (tape: seq<nat>)
    requires CanWords(Dot, n, w)
    ensures MakesWords(Dot, n, tape, w)
  {
    var inner := w[1..|w| - 1];
    FillerOnOneLine();
    forall k | 0 <= k < |inner| ensures inner[k] in FILLER {
      FillerIs(inner[k]);
    }
    tape := PickTape(FILLER, inner);
    assert " " + inner + " " == w;
  }

  ghost predicate MakesBranch(bs: Branches, b: nat, tape: seq<nat>, w: string)
    requires b < |BranchTexts(bs)|
  {
    forall draws, at: nat :: Follows(draws, at, tape) ==> Branch(bs, b, draws, at) == (w, at + |tape|)
  }

  lemma GroupSplit(a: Atom, n: nat, w: string) returns (k: nat)
    requires a.Group? && n > 0 && CanWords(a, n, w)
    ensures k <= |w| && CanWords(a, n - 1, w[..k]) && CanBranches(a.branches, w[k..])
  {
    k :| 0 <= k <= |w| && CanWords(a, n - 1, w[..k]) && CanBranches(a.branches, w[k..]);
  }

  lemma {:induction false} GroupTape(a: Atom, n: nat, w: string) returns (tape: seq<nat>)
    requires a.Group? && n > 0 && CanWords(a, n, w)
    ensures MakesWords(a, n, tape, w)
    decreases a, n, 0
  {
    hide *;
    var k := GroupSplit(a, n, w);
    var before := WordsTape(a, n - 1, w[..k]);
    var b, last := BranchTape(a.branches, w[k..]);
    tape := before + ([b] + last);
    Repeated(a, n, before, w[..k], b, last, w[k..]);
    assert w[..k] + w[k..] == w;
  }

  lemma Repeated(a: Atom, n: nat, before: seq<nat>, u: string, b: nat, last: seq<nat>, v: string)
    requires a.Group? && n > 0 && b < |BranchTexts(a.branches)|
    requires MakesWords(a, n - 1, before, u) && MakesBranch(a.branches, b, last, v)
    ensures MakesWords(a, n, before + ([b] + last), u + v)
  {
    hide Draw, Follows, Branch, BranchTexts;
    DrawReaches(0, |BranchTexts(a.branches)| - 1, b);
    var tape := before + ([b] + last);
    forall draws, at: nat | Follows(draws, at, tape) ensures Words(a, n, draws, at) == (u + v, at + |tape|) {
      FollowsSplit(draws, at, before, [b] + last);
      FollowsSplit(draws, at + |before|, [b], last);
      NextIs(draws, at + |before|, b);
    }
  }

  lemma {:induction false} BranchTape(bs: Branches, w: string) returns (b: nat, tape: seq<nat>)
    requires CanBranches(bs, w)
    ensures b < |BranchTexts(bs)| && MakesBranch(bs, b, tape, w)
    decreases bs, 0
  {
    hide CanItems, Sampled, Follows;
    if CanItems(bs.items, w) {
      b := 0;
      tape := ItemsTape(bs.items, w);
    } else {
      b, tape := BranchTape(bs.others, w);
      b := b + 1;
    }
  }

  lemma CanSplit(r: Items, w: string) returns (n: nat, k: nat)
    requires CanItems(r, w) && r.Cons?
    ensures FragmentQuant(r.quant) && k <= |w|
    ensures Drawn(r.quant, n) && CanWords(r.atom, n, w[..k]) && CanItems(r.tail, w[k..])
  {
    hide CanWords, Drawn, FragmentQuant;
    n, k :| 0 <= k <= |w| && Drawn(r.quant, n) && CanWords(r.atom, n, w[..k]) && CanItems(r.tail, w[k..]);
  }

  ghost predicate MakesWords(a: Atom, n: nat, tape: seq<nat>, w: string) {
    forall draws, at: nat :: Follows(draws, at, tape) ==> Words(a, n, draws, at) == (w, at + |tape|)
  }

  ghost predicate MakesItems(r: Items, tape: seq<nat>, w: string) {
    forall draws, at: nat :: Follows(draws, at, tape) ==> Sampled(r, draws, at) == (w, at + |tape|)
  }

  lemma {:induction false} ItemsTape(r: Items, w: string) returns (tape: seq<nat>)
    requires CanItems(r, w)
    ensures MakesItems(r, tape, w)
    decreases r, 0
  {
    tape := [];
    if r.Cons? {
      var n, k := CanSplit(r, w);
      hide *;
      var draw := QRepsReaches(r.quant, n);
      var first := WordsTape(r.atom, n, w[..k]);
      var rest := ItemsTape(r.tail, w[k..]);
      var head := if PrintQuant(r.quant) == "" then [] else [draw];
      tape := head + (first + rest);
      Chained(r, n, draw, first, w[..k], rest, w[k..]);
      assert w[..k] + w[k..] == w;
    }
  }

  lemma Chained(r: Items, n: nat, draw: nat, first: seq<nat>, u: string, rest: seq<nat>, v: string)
    requires r.Cons? && QReps(PrintQuant(r.quant), draw) == n
    requires MakesWords(r.atom, n, first, u) && MakesItems(r.tail, rest, v)
    ensures MakesItems(r, (if PrintQuant(r.quant) == "" then [] else [draw]) + (first + rest), u + v)
  {
    hide Words, Sampled, QReps, PrintQuant, Follows;
    var head := if PrintQuant(r.quant) == "" then [] else [draw];
    var tape := head + (first + rest);
    forall draws, at: nat | Follows(draws, at, tape) ensures Sampled(r, draws, at) == (u + v, at + |tape|) {
      FollowsSplit(draws, at, head, first + rest);
      FollowsSplit(draws, at + |head|, first, rest);
      TapeFits(r, draws, at, n, draw, u, v, |first|, |rest|);
    }
  }

  lemma TapeFits(r: Items, draws: Draws, at: nat, n: nat, draw: nat, u: string, v: string, i: nat, j: nat)
    requires r.Cons? && QReps(PrintQuant(r.quant), draw) == n
    requires PrintQuant(r.quant) != "" ==> Follows(draws, at, [draw])
    requires var next := at + if PrintQuant(r.quant) == "" then 0 else 1;
             && Words(r.atom, n, draws, next) == (u, next + i)
             && Sampled(r.tail, draws, next + i) == (v, next + i + j)
    ensures Sampled(r, draws, at) == (u + v, at + (if PrintQuant(r.quant) == "" then 0 else 1) + i + j)
  {
    hide Words, QReps, PrintQuant, Follows;
    if PrintQuant(r.quant) == "" {
      NoDraw(r.quant, draw, draws(at));
    } else {
      NextIs(draws, at, draw);
    }
  }

  lemma NoDraw(q: Quant, draw: nat, other: nat)
    requires PrintQuant(q) == ""
    ensures QReps(PrintQuant(q), other) == QReps(PrintQuant(q), draw)
  {
  }

  lemma {:induction false} SomeDraws(r: Items, w: string) returns (draws: Draws)
    requires CanItems(r, w)
    ensures Sampled(r, draws, 0).0 == w
  {
    hide *;
    var tape := ItemsTape(r, w);
    draws := Taped(tape);
    TapedFollows(tape);
    TapeMakes(r, tape, w, draws);
  }

  function Taped(tape: seq<nat>): Draws { (k: nat) => if k < |tape| then tape[k] else 0 }

  lemma TapedFollows(tape: seq<nat>)
    ensures Follows(Taped(tape), 0, tape)
  {
  }

  lemma TapeMakes(r: Items, tape: seq<nat>, w: string, draws: Draws)
    requires MakesItems(r, tape, w) && Follows(draws, 0, tape)
    ensures Sampled(r, draws, 0).0 == w
  {
    hide Sampled, Follows;
  }

  /** The strings that can come out of a pattern are exactly these. */
  lemma {:induction false} SampledExactly(r: Items, w: string)
    requires FragmentItems(r, false)
    ensures (exists draws: Draws :: Sampled(r, draws, 0).0 == w) <==> CanItems(r, w)
  {
    hide *;
    if draws: Draws :| Sampled(r, draws, 0).0 == w {
      SampledCan(r, false, draws, 0);
    }
    if CanItems(r, w) {
      var draws := SomeDraws(r, w);
    }
  }

  // ----- how long they are -----

  function MostReps(q: Quant): nat {
    match q
    case One => 1
    case Optional => 1
    case Star => 2
    case Plus => 3
    case Exactly(lo) => AsNat(lo)
    case AtLeast(lo) => AsNat(lo)
    case Between(lo, hi) => Min(AsNat(hi), AsNat(lo) + 8)
  }

  /** The length of the longest single repetition. */
  function Widest(a: Atom): nat { if a.Group? then WidestBranch(a.branches) else 1 }

  function WidestBranch(bs: Branches): nat {
    match bs
    case Last(r) => Longest(r)
    case More(r, others) => Max(Longest(r), WidestBranch(others))
  }

  function Longest(r: Items): nat {
    match r
    case Nil => 0
    case Cons(a, q, t) =>
      (if a == Dot then Max(2, Min(MostReps(q), 14)) else MostReps(q) * Widest(a)) + Longest(t)
  }

  lemma {:induction false} RepeatLength(c: char, n: nat)
    ensures |Repeat(c, n)| == n
  {
    if n > 0 {
      RepeatLength(c, n - 1);
    }
  }

  lemma {:induction false} WordsLength(a: Atom, n: nat, draws: Draws, at: nat)
    requires (FragmentAtom(a, true) || FragmentAtom(a, false)) && a != Dot
    ensures |Words(a, n, draws, at).0| <= n * Widest(a)
    decreases a, n
  {
    hide Draw, CharRange, FragmentMembers, FragmentItems, Sampled, BranchTexts;
    PoolsAreSound();
    match a
    case Literal(c) => RepeatLength(c, n);
    case Escaped(c) => RepeatLength(c, n);
    case Space => RepeatLength(' ', n);
    case Word => Picked(WORD_CHARS, n, draws, at);
    case Digit => Picked(DIGITS, n, draws, at);
    case Class(ms) =>
      if MembersPool(ms) != "" {
        Picked(MembersPool(ms), n, draws, at);
      }
    case Group(_, bs) =>
      if n > 0 {
        WordsLength(a, n - 1, draws, at);
        var (w, j) := Words(a, n - 1, draws, at);
        BranchLength(bs, Draw(0, |BranchTexts(bs)| - 1, draws(j)), draws, j + 1);
        OneTimesMore(n, Widest(a));
      }
    case Dot =>
  }

  lemma {:induction false} BranchLength(bs: Branches, k: nat, draws: Draws, at: nat)
    requires FragmentBranches(bs) && k < |BranchTexts(bs)|
    ensures |Branch(bs, k, draws, at).0| <= WidestBranch(bs)
    decreases bs, 2
  {
    if k == 0 {
      SampledLength(bs.items, true, draws, at);
    } else {
      BranchLength(bs.others, k - 1, draws, at);
    }
  }

  /** No draw makes a string longer than the pattern's own bound. */
  lemma {:induction false} SampledLength(r: Items, inGroup: bool, draws: Draws, at: nat)
    requires FragmentItems(r, inGroup)
    ensures |Sampled(r, draws, at).0| <= Longest(r)
    decreases r, 1
  {
    hide *;
    if r.Cons? {
      HeadAndTail(r, inGroup, draws, at);
      LongestIs(r);
      var text := PrintQuant(r.quant);
      var (w, j) := Words(r.atom, QReps(text, draws(at)), draws, at + Spent(text));
      HeadLength(r, inGroup, draws(at), draws, at + Spent(text));
      SampledLength(r.tail, inGroup, draws, j);
    } else {
      NothingSampled(r, draws, at);
    }
  }

  function HeadMost(r: Items): nat
    requires r.Cons?
  {
    if r.atom == Dot then Max(2, Min(MostReps(r.quant), 14)) else MostReps(r.quant) * Widest(r.atom)
  }

  lemma {:induction false} HeadLength(r: Items, inGroup: bool, draw: nat, draws: Draws, at: nat)
    requires r.Cons? && FragmentAtom(r.atom, inGroup) && FragmentQuant(r.quant)
    ensures |Words(r.atom, QReps(PrintQuant(r.quant), draw), draws, at).0| <= HeadMost(r)
    decreases r, 0
  {
    hide FragmentAtom, FragmentQuant, Words, QReps, PrintQuant, Drawn, MostReps, Widest, Allows, DotQuant, InRepeat;
    var n := QReps(PrintQuant(r.quant), draw);
    QRepsDrawn(r.quant, draw);
    DrawnMost(r.quant, n);
    if r.atom == Dot {
      DotWord(r.quant, n, draws, at);
      DotLength(n, MostReps(r.quant));
    } else {
      EitherFragment(r.atom, inGroup);
      WordsLength(r.atom, n, draws, at);
      MoreIsMore(n, MostReps(r.quant), Widest(r.atom));
    }
  }

  lemma DotLength(n: nat, most: nat)
    requires n <= most
    ensures Max(2, Min(n, 14)) <= Max(2, Min(most, 14))
  {
  }

  lemma LongestIs(r: Items)
    requires r.Cons?
    ensures Longest(r) == HeadMost(r) + Longest(r.tail)
  {
  }

  lemma DrawnMost(q: Quant, n: nat)
    requires FragmentQuant(q) && Drawn(q, n)
    ensures n <= MostReps(q)
  {
  }

  lemma OneTimesMore(n: nat, k: nat)
    requires n > 0
    ensures n * k == (n - 1) * k + k
  {
  }

  lemma MoreIsMore(m: nat, n: nat, k: nat)
    requires m <= n
    ensures m * k <= n * k
  {
  }
}
