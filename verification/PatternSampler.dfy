/** The regex-string sampler as it reads a pattern, against the sampler on
    trees. Ghost trees say which pattern a text prints, if any. */
module PatternSampler {
  import opened Prelude
  import opened Regex
  import opened PatternReader
  import opened TreeSampler

  // The exceptions the reader raises on text that is no pattern.
  datatype SampleError = TrailingBackslash | UnclosedClass | UnclosedGroup | EmptyClass

  // ----- one element at a time -----

  /** left prints the text still unread, if the pattern is a printed tree. */
  ghost predicate Unread(pat: string, i: nat, left: Items) {
    i <= |pat| && FragmentItems(left, false) && pat[i..] == PrintItems(left)
  }

  /** What the tree sampler makes of left is w and then what it makes of tail. */
  ghost predicate Emits(left: Items, w: string, tail: Items, draws: Draws, at: nat, next: nat) {
    Sampled(left, draws, at) == (w + Sampled(tail, draws, next).0, Sampled(tail, draws, next).1)
  }

  lemma EmitsWord(left: Items, draws: Draws, at: nat)
    requires left.Cons?
    ensures var text := PrintQuant(left.quant);
            var (w, next) := Words(left.atom, QReps(text, draws(at)), draws, at + Spent(text));
            Emits(left, w, left.tail, draws, at, next)
  {
  }

  lemma EmitsAll(r: Items, out: string, left: Items, w: string, tail: Items, draws: Draws, start: nat, at: nat,
                 next: nat)
    requires Emits(r, out, left, draws, start, at) && Emits(left, w, tail, draws, at, next)
    ensures Emits(r, out + w, tail, draws, start, next)
  {
    var v := Sampled(tail, draws, next).0;
    assert out + w + v == out + (w + v);
  }

  lemma HeadText(left: Items)
    requires FragmentItems(left, false) && PrintItems(left) != ""
    ensures left.Cons? && FragmentAtom(left.atom, false) && FragmentQuant(left.quant) && FragmentItems(left.tail, false)
    ensures PrintItems(left) == PrintAtom(left.atom) + (PrintQuant(left.quant) + PrintItems(left.tail))
    ensures EndsQuant(PrintItems(left.tail))
  {
    Assoc(PrintAtom(left.atom), PrintQuant(left.quant), PrintItems(left.tail));
    ItemsEndQuant(left.tail, false);
  }

  /** The first character tells the atoms apart. */
  lemma AtomKind(a: Atom)
    requires FragmentAtom(a, false)
    ensures (PrintAtom(a)[0] == '[') == a.Class?
    ensures (PrintAtom(a)[0] == '(') == a.Group?
    ensures (PrintAtom(a)[0] == '\\') == (a.Escaped? || a.Space? || a.Word? || a.Digit?)
    ensures (PrintAtom(a)[0] !in SPECIAL) == a.Literal?
    ensures (PrintAtom(a)[0] == '.') == a.Dot?
    ensures a.Class? ==> FragmentMembers(a.members) && a.members != NoMember
                         && PrintAtom(a) == "[" + PrintMembers(a.members) + "]"
    ensures a.Group? ==> FragmentBranches(a.branches)
                         && PrintAtom(a) == "(" + GroupBody(a.capturing, a.branches) + ")"
  {
  }

  /** The printed head element, and what the quantifier reader does behind it. */
  lemma HeadOf(pat: string, i: nat, left: Items)
    requires Unread(pat, i, left) && i < |pat|
    ensures left.Cons? && FragmentAtom(left.atom, false) && FragmentQuant(left.quant)
    ensures var e := i + |PrintAtom(left.atom)|;
            var p := PrintQuant(left.quant);
            && e <= |pat| && pat[i..e] == PrintAtom(left.atom) && pat[i] == PrintAtom(left.atom)[0]
            && ReadQuant(pat, e) == (p, e + |p|)
            && Unread(pat, e + |p|, left.tail)
  {
    hide ReadQuant, PrintQuant, PrintItems, FragmentQuant, FragmentAtom, EndsQuant;
    HeadText(left);
    var a, q, t := PrintAtom(left.atom), PrintQuant(left.quant), PrintItems(left.tail);
    SuffixSplit(pat, i, a, q + t);
    ReadQuantInverse(pat, i + |a|, left.quant, t);
  }

  /** n draws from a pool. */
  method DrawMany(pool: string, n: nat, draws: Draws, at: nat) returns (w: string)
    requires pool != ""
    ensures w == Pick(pool, n, draws, at)
  {
    w := "";
    for k := 0 to n
      invariant w == Pick(pool, k, draws, at)
    {
      w := w + [pool[Draw(0, |pool| - 1, draws(at + k))]];
    }
  }

  lemma EscapeHead(pat: string, i: nat, left: Items)
    requires Unread(pat, i, left) && i < |pat| && pat[i] == '\\'
    ensures left.Cons? && i + 1 < |pat|
    ensures match left.atom
      case Escaped(c) => pat[i + 1] == c && c !in "bswd"
      case Space => pat[i + 1] == 's'
      case Word => pat[i + 1] == 'w'
      case Digit => pat[i + 1] == 'd'
      case _ => false
    ensures var p := PrintQuant(left.quant);
            ReadQuant(pat, i + 2) == (p, i + 2 + |p|) && Unread(pat, i + 2 + |p|, left.tail)
  {
    hide ReadQuant, PrintQuant, PrintItems, FragmentQuant, DotQuant, FragmentItems, EndsQuant;
    HeadOf(pat, i, left);
    var s := PrintAtom(left.atom);
    assert |s| == 2;
    assert s[1] == pat[i..i + |s|][1];
  }

  /** A backslash element: an anchor, a space, a pool, or an escaped literal. */
  method SampleEscape(pat: string, i: nat, draws: Draws, at: nat, ghost left: Option<Items>)
    returns (res: Result<(string, nat), SampleError>, next: nat)
    requires i < |pat| && pat[i] == '\\'
    requires left.Some? ==> Unread(pat, i, left.value)
    ensures res.Err? <==> i + 1 == |pat|
    ensures res.Ok? ==> i < res.value.1 <= |pat|
    ensures res.Ok? && pat[i + 1] == 'b' ==> res.value == ("", i + 2) && next == at
    ensures left.Some? ==> res.Ok? && left.value.Cons? && Unread(pat, res.value.1, left.value.tail)
                           && Emits(left.value, res.value.0, left.value.tail, draws, at, next)
  {
    hide *;
    next := at;
    if left.Some? {
      EscapeHead(pat, i, left.value);
      EmitsWord(left.value, draws, at);
      var text := PrintQuant(left.value.quant);
      WordsAre(left.value.atom, QReps(text, draws(at)), draws, at + Spent(text));
    }
    if i + 1 == |pat| {
      return Err(TrailingBackslash), at;
    }
    var esc := pat[i + 1];
    if esc == 'b' {
      return Ok(("", i + 2)), at;
    }
    var (q, j) := ReadQuant(pat, i + 2);
    var reps := QReps(q, draws(at));
    next := at + Spent(q);
    PoolsAreSound();
    var w;
    if esc == 's' {
      w := Repeat(' ', reps);
    } else if esc == 'w' {
      w := DrawMany(WORD_CHARS, reps, draws, next);
      next := next + reps;
    } else if esc == 'd' {
      w := DrawMany(DIGITS, reps, draws, next);
      next := next + reps;
    } else {
      w := Repeat(esc, reps);
    }
    res := Ok((w, j));
  }

  method SampleClass(pat: string, i: nat, draws: Draws, at: nat, ghost left: Option<Items>)
    returns (res: Result<(string, nat), SampleError>, next: nat)
    requires i < |pat| && pat[i] == '['
    requires left.Some? ==> Unread(pat, i, left.value)
    ensures res.Ok? ==> i < res.value.1 <= |pat|
    ensures res == Err(UnclosedClass) <==> ']' !in pat[i + 1..]
    ensures left.Some? ==> res.Ok? && left.value.Cons? && Unread(pat, res.value.1, left.value.tail)
                           && Emits(left.value, res.value.0, left.value.tail, draws, at, next)
  {
    hide *;
    next := at;
    ghost var members: Option<Members> := None;
    if left.Some? {
      var _ := ClassBody(pat, i, left.value);
      members := Some(left.value.atom.members);
      EmitsClass(left.value, draws, at);
    }
    var close := FindChar(pat, i + 1, ']');
    FoundOrNot(pat, i + 1, ']');
    if close.None? {
      return Err(UnclosedClass), at;
    }
    var pool := ReadMembers(pat[i + 1..close.value], members);
    var (q, j) := ReadQuant(pat, close.value + 1);
    var reps := QReps(q, draws(at));
    next := at + Spent(q);
    if pool == "" {
      res := if reps > 0 then Err(EmptyClass) else Ok(("", j));
    } else {
      var w := DrawMany(pool, reps, draws, next);
      next := next + reps;
      res := Ok((w, j));
    }
  }

  lemma {:induction false} FoundOrNot(s: string, i: nat, c: char)
    requires i <= |s|
    ensures FindChar(s, i, c).None? <==> c !in s[i..]
    decreases |s| - i
  {
    if i < |s| {
      FoundOrNot(s, i + 1, c);
      assert s[i..] == [s[i]] + s[i + 1..];
    }
  }

  lemma EmitsClass(left: Items, draws: Draws, at: nat)
    requires left.Cons? && left.atom.Class? && FragmentMembers(left.atom.members) && left.atom.members != NoMember
    ensures var text, pool := PrintQuant(left.quant), MembersPool(left.atom.members);
            var reps := QReps(text, draws(at));
            && pool != ""
            && Emits(left, Pick(pool, reps, draws, at + Spent(text)), left.tail, draws, at, at + Spent(text) + reps)
  {
    hide *;
    PoolMatches(left.atom.members);
    EmitsWord(left, draws, at);
    WordsAre(left.atom, QReps(PrintQuant(left.quant), draws(at)), draws, at + Spent(PrintQuant(left.quant)));
  }

  /** A printed class: the first closing bracket is its own. */
  lemma ClassBody(pat: string, i: nat, left: Items) returns (e: nat)
    requires Unread(pat, i, left) && i < |pat| && pat[i] == '['
    ensures left.Cons? && left.atom.Class? && FragmentQuant(left.quant)
    ensures FragmentMembers(left.atom.members) && left.atom.members != NoMember
    ensures i < e < |pat| && FindChar(pat, i + 1, ']') == Some(e)
    ensures pat[i + 1..e] == PrintMembers(left.atom.members)
    ensures ReadQuant(pat, e + 1) == (PrintQuant(left.quant), e + 1 + |PrintQuant(left.quant)|)
    ensures Unread(pat, e + 1 + |PrintQuant(left.quant)|, left.tail)
  {
    hide *;
    HeadOf(pat, i, left);
    AtomKind(left.atom);
    e := i + |PrintAtom(left.atom)| - 1;
    ClassClose(pat, i, e, left.atom.members);
  }

  lemma ClassClose(pat: string, i: nat, e: nat, ms: Members)
    requires FragmentMembers(ms) && i < e < |pat| && pat[i..e + 1] == "[" + PrintMembers(ms) + "]"
    ensures FindChar(pat, i + 1, ']') == Some(e)
    ensures pat[i + 1..e] == PrintMembers(ms)
  {
    var body := PrintMembers(ms);
    var s := "[" + body + "]";
    MembersUnbracketed(ms);
    assert s[1..|s| - 1] == body && s[|s| - 1] == ']';
    SliceOfSlice(pat, i, e + 1, 1, |s| - 1);
    assert pat[e] == s[|s| - 1];
    forall k | i + 1 <= k < e ensures pat[k] != ']' {
      assert pat[k] == pat[i + 1..e][k - i - 1];
    }
    FirstIs(pat, i + 1, e, ']');
  }

  // ----- groups -----

  /** One past the parenthesis that closes the one at i, counting every
      parenthesis character in between. */
  method GroupEnd(pat: string, i: nat, ghost body: Option<string>) returns (j: Option<nat>)
    requires i < |pat| && pat[i] == '('
    requires body.Some? ==> Balanced(body.value) && i + |body.value| + 2 <= |pat|
                            && pat[i..i + |body.value| + 2] == "(" + body.value + ")"
    ensures j.Some? ==> i + 2 <= j.value <= |pat| && Level(pat[i..], j.value - i) == 0
    ensures forall k {:trigger Level(pat[i..], k)} ::
              0 < k < (if j.Some? then j.value - i else |pat| - i + 1) ==> Level(pat[i..], k) > 0
    ensures body.Some? ==> j.Some? && j.value == i + |body.value| + 2
  {
    var depth, k := 1, i + 1;
    ghost var text := pat[i..];
    assert Level(text, 0) == 0 && Level(text, 1) == 1;
    while depth != 0
      invariant i + 1 <= k <= |pat| && (k == i + 1 ==> depth == 1)
      invariant depth == Level(text, k - i)
      invariant forall n {:trigger Level(text, n)} :: 0 < n < k - i ==> Level(text, n) > 0
      invariant depth >= 0
      invariant body.Some? && k <= i + 1 + |body.value| ==> depth == 1 + Level(body.value, k - i - 1)
      invariant body.Some? ==> k <= i + 2 + |body.value| && (k == i + 2 + |body.value| ==> depth == 0)
      decreases |pat| - k
    {
      if k == |pat| {
        return None;
      }
      if body.Some? {
        assert pat[k] == pat[i..i + |body.value| + 2][k - i] == ("(" + body.value + ")")[k - i];
        assert k <= i + |body.value| ==> Level(body.value, k - i) >= 0;
      }
      assert text[k - i] == pat[k];
      if pat[k] == '(' {
        depth := depth + 1;
      } else if pat[k] == ')' {
        depth := depth - 1;
      }
      k := k + 1;
    }
    j := Some(k);
  }

  /** A printed group: its balanced body, and what follows the parenthesis
      that closes it. */
  lemma GroupHead(pat: string, i: nat, left: Items) returns (body: string, e: nat)
    requires Unread(pat, i, left) && i < |pat| && pat[i] == '('
    ensures left.Cons? && left.atom.Group? && FragmentQuant(left.quant) && FragmentBranches(left.atom.branches)
    ensures body == GroupBody(left.atom.capturing, left.atom.branches) && Balanced(body)
    ensures e == i + |body| + 2 <= |pat| && pat[i..e] == "(" + body + ")" && pat[i + 1..e - 1] == body
    ensures ReadQuant(pat, e) == (PrintQuant(left.quant), e + |PrintQuant(left.quant)|)
    ensures Unread(pat, e + |PrintQuant(left.quant)|, left.tail)
  {
    hide *;
    HeadOf(pat, i, left);
    AtomKind(left.atom);
    body := GroupBody(left.atom.capturing, left.atom.branches);
    e := i + |PrintAtom(left.atom)|;
    BodyBalanced(left.atom.capturing, left.atom.branches);
    Parenthesised(pat, i, e, body);
  }

  lemma Parenthesised(pat: string, i: nat, e: nat, body: string)
    requires i <= e <= |pat| && pat[i..e] == "(" + body + ")"
    ensures e == i + |body| + 2 && pat[i + 1..e - 1] == body
  {
    SliceOfSlice(pat, i, e, 1, |body| + 1);
    assert ("(" + body + ")")[1..|body| + 1] == body;
  }

  lemma BodyBalanced(capturing: bool, bs: Branches)
    requires FragmentBranches(bs)
    ensures Balanced(GroupBody(capturing, bs))
  {
    BranchesBalanced(bs);
    PlainClosed("?:");
    BalancedPrefix("?:", PrintBranches(bs));
  }

  /** The group body without its non-capturing mark. */
  function Unmarked(inner: string): (s: string)
    ensures |s| <= |inner|
  {
    if "?:" <= inner then inner[2..] else inner
  }

  lemma UnmarkedBody(capturing: bool, bs: Branches)
    requires FragmentBranches(bs)
    ensures Unmarked(GroupBody(capturing, bs)) == PrintBranches(bs)
  {
    var s := PrintBranches(bs);
    BranchesStart(bs);
    if !capturing {
      assert ("?:" + s)[2..] == s && ("?:" + s)[..2] == "?:";
    }
  }

  lemma BranchesStart(bs: Branches)
    requires FragmentBranches(bs)
    ensures PrintBranches(bs) != "" ==> PrintBranches(bs)[0] != '?'
  {
    var r := bs.items;
    assert FragmentItems(r, true);
    if r.Cons? {
      assert FragmentAtom(r.atom, true) && PrintItems(r)[0] == PrintAtom(r.atom)[0];
      assert PrintAtom(r.atom)[0] != '?';
      assert PrintBranches(bs)[0] == PrintItems(r)[0];
    } else if bs.More? {
      assert PrintBranches(bs)[0] == '|';
    }
  }

  lemma NoneOf(group: Atom, draws: Draws, at: nat)
    requires group.Group?
    ensures Words(group, 0, draws, at) == ("", at)
  {
  }

  lemma OneMoreOf(group: Atom, k: nat, draws: Draws, at: nat)
    requires group.Group?
    ensures var (w, j) := Words(group, k, draws, at);
            var (v, next) := Branch(group.branches, Draw(0, |BranchTexts(group.branches)| - 1, draws(j)), draws, j + 1);
            Words(group, k + 1, draws, at) == (w + v, next)
  {
  }

  /** As many draws of a branch as the group's quantifier asked for. */
  method SampleBranches(branches: seq<string>, reps: nat, draws: Draws, at: nat, ghost size: nat,
                        ghost group: Option<Atom>)
    returns (res: Result<string, SampleError>, next: nat)
    requires |branches| > 0 && forall k :: 0 <= k < |branches| ==> |branches[k]| < size
    requires group.Some? ==> group.value.Group? && FragmentBranches(group.value.branches)
                             && branches == BranchTexts(group.value.branches)
    ensures group.Some? ==> res.Ok? && (res.value, next) == Words(group.value, reps, draws, at)
    decreases size, 0
  {
    hide *;
    var w := "";
    next := at;
    if group.Some? {
      NoneOf(group.value, draws, at);
    }
    for k := 0 to reps
      invariant group.Some? ==> (w, next) == Words(group.value, k, draws, at)
    {
      var pick := Draw(0, |branches| - 1, draws(next));
      ghost var branch: Option<Items> := None;
      if group.Some? {
        var bs := group.value.branches;
        NthBranch(bs, pick);
        GroupedIsFragment(Nth(bs, pick));
        BranchIs(bs, pick, draws, next + 1);
        OneMoreOf(group.value, k, draws, at);
        branch := Some(Nth(bs, pick));
      }
      var part;
      part, next := SamplePattern(branches[pick], draws, next + 1, branch);
      if part.Err? {
        return part, next;
      }
      w := w + part.value;
    }
    res := Ok(w);
  }

  method SampleGroup(pat: string, i: nat, draws: Draws, at: nat, ghost left: Option<Items>)
    returns (res: Result<(string, nat), SampleError>, next: nat)
    requires i < |pat| && pat[i] == '('
    requires left.Some? ==> Unread(pat, i, left.value)
    ensures res.Ok? ==> i < res.value.1 <= |pat|
    ensures left.Some? ==> res.Ok? && left.value.Cons? && Unread(pat, res.value.1, left.value.tail)
                           && Emits(left.value, res.value.0, left.value.tail, draws, at, next)
    decreases |pat|, 1
  {
    hide *;
    ghost var group: Option<Atom> := None;
    ghost var body: Option<string> := None;
    if left.Some? {
      var b, _ := GroupHead(pat, i, left.value);
      group, body := Some(left.value.atom), Some(b);
      UnmarkedBody(left.value.atom.capturing, left.value.atom.branches);
      EmitsWord(left.value, draws, at);
    }
    var j := GroupEnd(pat, i, body);
    if j.None? {
      return Err(UnclosedGroup), at;
    }
    var inner := pat[i + 1..j.value - 1];
    var branches := SplitAlternation(Unmarked(inner), if group.Some? then Some(group.value.branches) else None);
    var (q, after) := ReadQuant(pat, j.value);
    var reps := QReps(q, draws(at));
    var w;
    w, next := SampleBranches(branches, reps, draws, at + Spent(q), |pat|, group);
    if w.Err? {
      return Err(w.error), next;
    }
    res := Ok((w.value, after));
  }

  // ----- filler and literal runs -----

  lemma DotHead(pat: string, i: nat, left: Items)
    requires Unread(pat, i, left) && i < |pat| && pat[i] == '.'
    ensures left.Cons? && left.atom == Dot && FragmentQuant(left.quant) && DotQuant(left.quant)
    ensures ReadQuant(pat, i + 1).0 == PrintQuant(left.quant) && Unread(pat, ReadQuant(pat, i + 1).1, left.tail)
  {
    hide ReadQuant, PrintQuant, PrintItems, FragmentQuant, DotQuant, FragmentAtom;
    HeadOf(pat, i, left);
    AtomKind(left.atom);
  }

  /** The dot emits a space, some filler and a space, whatever it repeats: a word
      that the quantified dot matches for some quantifiers, and for no others. */
  method SampleDot(pat: string, i: nat, draws: Draws, at: nat, ghost quant: Option<Quant>)
    returns (w: string, j: nat, next: nat)
    requires i < |pat| && pat[i] == '.'
    requires quant.Some? ==> FragmentQuant(quant.value) && ReadQuant(pat, i + 1).0 == PrintQuant(quant.value)
    ensures i < j <= |pat| && j == ReadQuant(pat, i + 1).1
    ensures 2 <= |w| <= 14 && w[0] == ' ' && w[|w| - 1] == ' '
    ensures var q := ReadQuant(pat, i + 1).0; (w, next) == Words(Dot, QReps(q, draws(at)), draws, at + Spent(q))
    ensures quant.Some? ==> (InRepeat(Dot, quant.value, w) <==> DotQuant(quant.value))
  {
    hide *;
    var (q, after) := ReadQuant(pat, i + 1);
    var reps := QReps(q, draws(at));
    DotIs(reps, draws, at + Spent(q));
    var filler := DrawMany(FILLER, Max(0, Min(reps, 14) - 2), draws, at + Spent(q));
    w, j, next := " " + filler + " ", after, at + Spent(q) + |filler|;
    if quant.Some? {
      QRepsDrawn(quant.value, draws(at));
      DotWord(quant.value, reps, draws, at + Spent(q));
    }
  }

  /** The comment on the dot says that a count from none to one is served by one
      space; but the word it emits is never matched by such a dot. */
  lemma DotTooLong(w: string)
    requires 2 <= |w| && w[0] == ' ' && w[|w| - 1] == ' '
    ensures FragmentQuant(Between("0", "1")) && !InRepeat(Dot, Between("0", "1"), w)
  {
    assert ToNat("0") == 0 && ToNat("1") == 1;
    forall n: nat | n <= 1 ensures !InPower(Dot, n, w) {
      if n == 1 {
        forall k | 0 <= k <= |w| && InAtom(Dot, w[..k]) ensures !InPower(Dot, 0, w[k..]) {
          assert |w[..k]| == 1;
        }
      }
    }
  }

  /** Inside a run of literals: cur is the last one read, its quantifier is
      still ahead, and everything before it has been emitted. */
  ghost predicate InRun(pat: string, j: nat, run: string, left: Items, cur: Items, draws: Draws, at: nat) {
    j <= |pat| && FragmentItems(cur, false) &&
    if run == "" then cur == left && Unread(pat, j, left)
    else
      && cur.Cons? && cur.atom == Literal(run[|run| - 1])
      && Emits(left, run[..|run| - 1], cur, draws, at, at)
      && pat[j..] == PrintQuant(cur.quant) + PrintItems(cur.tail)
  }

  /** The literal at the head of the unread text. */
  lemma LiteralHead(pat: string, j: nat, left: Items)
    requires Unread(pat, j, left) && j < |pat| && pat[j] !in SPECIAL
    ensures left.Cons? && left.atom == Literal(pat[j])
    ensures pat[j + 1..] == PrintQuant(left.quant) + PrintItems(left.tail)
  {
    HeadOf(pat, j, left);
    AtomKind(left.atom);
    HeadText(left);
    SuffixSplit(pat, j, [pat[j]], PrintQuant(left.quant) + PrintItems(left.tail));
  }

  lemma OneLiteral(cur: Items, c: char, draws: Draws, at: nat)
    requires cur.Cons? && cur.atom == Literal(c) && cur.quant == One
    ensures Emits(cur, [c], cur.tail, draws, at, at)
  {
    hide Draw, DrawBounds, Sampled, Emits;
    EmitsWord(cur, draws, at);
    assert Repeat(c, 1) == Repeat(c, 0) + [c] == [c];
  }

  /** A literal that is followed by another one carried no quantifier, and drew nothing. */
  lemma LiteralDone(pat: string, j: nat, run: string, left: Items, cur: Items, draws: Draws, at: nat)
    requires InRun(pat, j, run, left, cur, draws, at) && run != "" && j < |pat| && pat[j] !in SPECIAL
    ensures Unread(pat, j, cur.tail) && Emits(left, run, cur.tail, draws, at, at)
  {
    hide Emits, QReps, Sampled, Words;
    var last := run[|run| - 1];
    assert pat[j..][0] == pat[j];
    assert cur.quant == One;
    assert PrintQuant(One) + PrintItems(cur.tail) == PrintItems(cur.tail);
    OneLiteral(cur, last, draws, at);
    EmitsAll(left, run[..|run| - 1], cur, [last], cur.tail, draws, at, at, at);
    assert run[..|run| - 1] + [last] == run;
  }

  lemma RunStep(pat: string, j: nat, run: string, left: Items, cur: Items, draws: Draws, at: nat) returns (next: Items)
    requires InRun(pat, j, run, left, cur, draws, at) && j < |pat| && pat[j] !in SPECIAL
    ensures InRun(pat, j + 1, run + [pat[j]], left, next, draws, at)
  {
    next := cur;
    if run == "" {
      assert "" + Sampled(left, draws, at).0 == Sampled(left, draws, at).0;
    } else {
      LiteralDone(pat, j, run, left, cur, draws, at);
      next := cur.tail;
    }
    LiteralHead(pat, j, next);
    assert (run + [pat[j]])[..|run|] == run;
  }

  lemma RunStart(pat: string, i: nat, left: Items, draws: Draws, at: nat)
    requires Unread(pat, i, left) && i < |pat| && pat[i] !in "\\[(."
    ensures InRun(pat, i, "", left, left, draws, at) && pat[i] !in SPECIAL
  {
    HeadOf(pat, i, left);
    AtomKind(left.atom);
  }

  /** At the end of the run the last literal's quantifier is read. */
  lemma RunEnd(pat: string, j: nat, run: string, left: Items, cur: Items, draws: Draws, at: nat)
    requires InRun(pat, j, run, left, cur, draws, at) && run != ""
    ensures cur.Cons? && cur.atom == Literal(run[|run| - 1]) && FragmentQuant(cur.quant)
    ensures Emits(left, run[..|run| - 1], cur, draws, at, at)
    ensures ReadQuant(pat, j) == (PrintQuant(cur.quant), j + |PrintQuant(cur.quant)|)
    ensures Unread(pat, j + |PrintQuant(cur.quant)|, cur.tail)
    ensures PrintQuant(cur.quant) == "" ==> j + |PrintQuant(cur.quant)| == j
  {
    hide ReadQuant, PrintQuant, Emits, PrintItems, FragmentQuant, EndsQuant;
    ItemsEndQuant(cur.tail, false);
    ReadQuantInverse(pat, j, cur.quant, PrintItems(cur.tail));
  }

  lemma LastRepeated(cur: Items, last: char, draws: Draws, at: nat)
    requires cur.Cons? && cur.atom == Literal(last)
    ensures var text := PrintQuant(cur.quant);
            Emits(cur, Repeat(last, QReps(text, draws(at))), cur.tail, draws, at, at + Spent(text))
  {
    EmitsWord(cur, draws, at);
  }

  lemma RepeatOnce(run: string, draw: nat)
    requires run != ""
    ensures run[..|run| - 1] + Repeat(run[|run| - 1], QReps("", draw)) == run && Spent("") == 0
  {
    assert Repeat(run[|run| - 1], 1) == Repeat(run[|run| - 1], 0) + [run[|run| - 1]];
  }

  /** A run of literal characters; a quantifier repeats only the last one. A special
      character that stands alone is emitted as it is. */
  method SampleRun(pat: string, i: nat, draws: Draws, at: nat, ghost left: Option<Items>)
    returns (w: string, j: nat, next: nat, ghost tail: Items)
    requires i < |pat| && pat[i] !in "\\[(."
    requires left.Some? ==> Unread(pat, i, left.value)
    ensures i < j <= |pat|
    ensures pat[i] in SPECIAL ==> w == [pat[i]] && j == i + 1 && next == at
    ensures left.Some? ==> Unread(pat, j, tail) && Emits(left.value, w, tail, draws, at, next)
  {
    hide *;
    var run := "";
    j, next := i, at;
    ghost var cur := if left.Some? then left.value else Nil;
    if left.Some? {
      RunStart(pat, i, left.value, draws, at);
    }
    while j < |pat| && pat[j] !in SPECIAL
      invariant i <= j <= |pat| && |run| == j - i
      invariant left.Some? ==> InRun(pat, j, run, left.value, cur, draws, at)
      invariant j > i ==> pat[i] !in SPECIAL
      invariant left.Some? && j == i ==> pat[i] !in SPECIAL
    {
      if left.Some? {
        cur := RunStep(pat, j, run, left.value, cur, draws, at);
      }
      run := run + [pat[j]];
      j := j + 1;
    }
    tail := if cur.Cons? then cur.tail else Nil;
    if run == "" {
      return [pat[i]], i + 1, at, tail;
    }
    var head, last := run[..|run| - 1], run[|run| - 1];
    if left.Some? {
      RunEnd(pat, j, run, left.value, cur, draws, at);
      LastRepeated(cur, last, draws, at);
    }
    var (q, after) := ReadQuant(pat, j);
    if q != "" {
      w := head + Repeat(last, QReps(q, draws(at)));
      j := after;
    } else {
      w := run;
      RepeatOnce(run, draws(at));
    }
    next := at + Spent(q);
    if left.Some? {
      EmitsAll(left.value, head, cur, Repeat(last, QReps(q, draws(at))), cur.tail, draws, at, at, next);
    }
  }

  // ----- the sampler -----

  /** Samples one string. For every pattern of the fragment and every sequence of
      draws it is the string the sampler on trees makes of that pattern. */
  method SamplePattern(pat: string, draws: Draws, start: nat, ghost tree: Option<Items>)
    returns (res: Result<string, SampleError>, at: nat)
    requires tree.Some? ==> FragmentItems(tree.value, false) && pat == PrintItems(tree.value)
    ensures tree.Some? ==> res.Ok? && (res.value, at) == Sampled(tree.value, draws, start)
    ensures tree.Some? ==> InItems(tree.value, res.value) && |res.value| <= Longest(tree.value)
    decreases |pat|, 2
  {
    hide *;
    var out := "";
    var i := 0;
    at := start;
    ghost var left := tree;
    if tree.Some? {
      Beginning(pat, tree.value, draws, start);
    }
    while i < |pat|
      invariant 0 <= i <= |pat|
      invariant left.Some? == tree.Some?
      invariant tree.Some? ==> Unread(pat, i, left.value) && Emits(tree.value, out, left.value, draws, start, at)
      decreases |pat| - i
    {
      ghost var before, drawn := left, at;
      var c := pat[i];
      var w;
      if c == '\\' {
        var r;
        r, at := SampleEscape(pat, i, draws, at, left);
        if r.Err? { return Err(r.error), at; }
        w, i := r.value.0, r.value.1;
        left := if left.Some? then Some(left.value.tail) else None;
      } else if c == '[' {
        var r;
        r, at := SampleClass(pat, i, draws, at, left);
        if r.Err? { return Err(r.error), at; }
        w, i := r.value.0, r.value.1;
        left := if left.Some? then Some(left.value.tail) else None;
      } else if c == '(' {
        var r;
        r, at := SampleGroup(pat, i, draws, at, left);
        if r.Err? { return Err(r.error), at; }
        w, i := r.value.0, r.value.1;
        left := if left.Some? then Some(left.value.tail) else None;
      } else if c == '.' {
        ghost var quant: Option<Quant> := None;
        if left.Some? {
          DotHead(pat, i, left.value);
          EmitsWord(left.value, draws, at);
          quant := Some(left.value.quant);
          left := Some(left.value.tail);
        }
        w, i, at := SampleDot(pat, i, draws, at, quant);
      } else {
        ghost var tail;
        w, i, at, tail := SampleRun(pat, i, draws, at, left);
        left := if left.Some? then Some(tail) else None;
      }
      if tree.Some? {
        EmitsAll(tree.value, out, before.value, w, left.value, draws, start, drawn, at);
      }
      out := out + w;
    }
    if tree.Some? {
      Ending(pat, tree.value, out, left.value, draws, start, at);
      SampledIn(tree.value, false, draws, start);
      SampledLength(tree.value, false, draws, start);
    }
    res := Ok(out);
  }

  lemma Beginning(pat: string, tree: Items, draws: Draws, start: nat)
    requires FragmentItems(tree, false) && pat == PrintItems(tree)
    ensures Unread(pat, 0, tree) && Emits(tree, "", tree, draws, start, start)
  {
    assert pat[0..] == pat && "" + Sampled(tree, draws, start).0 == Sampled(tree, draws, start).0;
  }

  lemma Ending(pat: string, tree: Items, out: string, left: Items, draws: Draws, start: nat, at: nat)
    requires Unread(pat, |pat|, left) && Emits(tree, out, left, draws, start, at)
    ensures (out, at) == Sampled(tree, draws, start)
  {
    assert left == Nil;
    assert out + "" == out;
  }
}
