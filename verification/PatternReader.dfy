/** What the regex-string sampler reads and draws piece by piece. Ghost
    trees say which piece of a pattern a text prints, if any. */
module PatternReader {
  import opened Prelude
  import opened Regex

  // ----- the random generator -----

  // An arbitrary sequence of numbers; every use of the generator takes the next.
  type Draws = nat -> nat

  /** A number from lo to hi. */
  function Draw(lo: nat, hi: nat, draw: nat): (n: nat)
    requires lo <= hi
    ensures lo <= n <= hi
  {
    lo + draw % (hi - lo + 1)
  }

  lemma DrawReaches(lo: nat, hi: nat, n: nat)
    requires lo <= n <= hi
    ensures Draw(lo, hi, n - lo) == n
  {
    var m := n - lo;
    assert m % (hi - lo + 1) == m;
  }

  // ----- reading quantifiers -----

  function DigitsEnd(pat: string, i: nat): (j: nat)
    requires i <= |pat|
    ensures i <= j <= |pat|
    ensures forall k :: i <= k < j ==> IsDigit(pat[k])
    ensures j < |pat| ==> !IsDigit(pat[j])
    decreases |pat| - i
  {
    if i < |pat| && IsDigit(pat[i]) then DigitsEnd(pat, i + 1) else i
  }

  /** End of the longest match of \{(\d+)(,(\d*))?\} at i. */
  function BracesEnd(pat: string, i: nat): (e: Option<nat>)
    requires i <= |pat|
    ensures e.Some? ==> i < e.value <= |pat|
  {
    if i == |pat| || pat[i] != '{' then None else
      var d := DigitsEnd(pat, i + 1);
      if d == i + 1 || d == |pat| then None
      else if pat[d] == '}' then Some(d + 1)
      else if pat[d] != ',' then None
      else
        var e := DigitsEnd(pat, d + 1);
        if e < |pat| && pat[e] == '}' then Some(e + 1) else None
  }

  function ReadQuant(pat: string, i: nat): (r: (string, nat))
    requires i <= |pat|
    ensures i <= r.1 <= |pat| && r.0 == pat[i..r.1]
  {
    if i < |pat| && pat[i] in "?*+" then ([pat[i]], i + 1)
    else if i < |pat| && pat[i] == '{' then
      match BracesEnd(pat, i)
      case Some(e) => (pat[i..e], e)
      case None => ("", i)
    else ("", i)
  }

  lemma {:induction false} DigitsEndIs(pat: string, i: nat, j: nat)
    requires i <= j < |pat| && !IsDigit(pat[j])
    requires forall k :: i <= k < j ==> IsDigit(pat[k])
    ensures DigitsEnd(pat, i) == j
    decreases j - i
  {
    if i < j {
      DigitsEndIs(pat, i + 1, j);
    }
  }

  /** Text that can follow a quantifier: nothing that would extend it. */
  predicate EndsQuant(rest: string) { rest != "" ==> !IsQuantStart(rest[0]) }

  lemma SuffixSplit(pat: string, i: nat, p: string, rest: string)
    requires i <= |pat| && pat[i..] == p + rest
    ensures i + |p| <= |pat| && pat[i..i + |p|] == p && pat[i + |p|..] == rest
    ensures p != "" ==> pat[i] == p[0]
  {
    assert pat[i..][..|p|] == p && pat[i..][|p|..] == rest;
    assert p != "" ==> pat[i..][0] == p[0];
  }

  lemma Assoc(a: string, b: string, c: string)
    ensures (a + b) + c == a + (b + c)
  {
  }

  lemma SliceOfSlice(pat: string, i: nat, j: nat, a: nat, b: nat)
    requires i <= j <= |pat| && a <= b <= j - i
    ensures pat[i..j][a..b] == pat[i + a..i + b]
  {
    assert forall k :: 0 <= k < b - a ==> pat[i..j][a..b][k] == pat[i + a..i + b][k];
  }

  lemma DigitSlice(pat: string, i: nat, j: nat, digits: string)
    requires i <= j <= |pat| && pat[i..j] == digits && forall k :: 0 <= k < |digits| ==> IsDigit(digits[k])
    ensures forall k :: i <= k < j ==> IsDigit(pat[k])
  {
    assert forall k :: i <= k < j ==> pat[k] == digits[k - i];
  }

  lemma BracesCount(pat: string, i: nat, d: nat)
    requires i + 1 < d < |pat| && pat[i] == '{' && pat[d] == '}'
    requires forall k :: i < k < d ==> IsDigit(pat[k])
    ensures BracesEnd(pat, i) == Some(d + 1)
  {
    DigitsEndIs(pat, i + 1, d);
  }

  lemma BracesRange(pat: string, i: nat, d: nat, e: nat)
    requires i + 1 < d < e < |pat| && pat[i] == '{' && pat[d] == ',' && pat[e] == '}'
    requires forall k :: i < k < d ==> IsDigit(pat[k])
    requires forall k :: d < k < e ==> IsDigit(pat[k])
    ensures BracesEnd(pat, i) == Some(e + 1)
  {
    DigitsEndIs(pat, i + 1, d);
    DigitsEndIs(pat, d + 1, e);
  }

  /** An opening character, then digits. */
  lemma PeelCount(pat: string, i: nat, open: string, digits: string, tail: string)
    requires i <= |pat| && |open| == 1 && forall k :: 0 <= k < |digits| ==> IsDigit(digits[k])
    requires pat[i..] == open + (digits + tail)
    ensures i + 1 + |digits| <= |pat| && pat[i + 1 + |digits|..] == tail && pat[i] == open[0]
    ensures forall k :: i < k < i + 1 + |digits| ==> IsDigit(pat[k])
  {
    SuffixSplit(pat, i, open, digits + tail);
    SuffixSplit(pat, i + 1, digits, tail);
    DigitSlice(pat, i + 1, i + 1 + |digits|, digits);
  }

  lemma ReadExactly(pat: string, i: nat, lo: string, rest: string)
    requires i <= |pat| && IsNumeral(lo)
    requires pat[i..] == "{" + (lo + ("}" + rest))
    ensures BracesEnd(pat, i) == Some(i + 2 + |lo|)
  {
    PeelCount(pat, i, "{", lo, "}" + rest);
    SuffixSplit(pat, i + 1 + |lo|, "}", rest);
    BracesCount(pat, i, i + 1 + |lo|);
  }

  lemma ReadBetween(pat: string, i: nat, lo: string, hi: string, rest: string)
    requires i <= |pat| && IsNumeral(lo) && forall k :: 0 <= k < |hi| ==> IsDigit(hi[k])
    requires pat[i..] == "{" + (lo + ("," + (hi + ("}" + rest))))
    ensures BracesEnd(pat, i) == Some(i + 3 + |lo| + |hi|)
  {
    PeelCount(pat, i, "{", lo, "," + (hi + ("}" + rest)));
    PeelCount(pat, i + 1 + |lo|, ",", hi, "}" + rest);
    SuffixSplit(pat, i + 2 + |lo| + |hi|, "}", rest);
    BracesRange(pat, i, i + 1 + |lo|, i + 2 + |lo| + |hi|);
  }

  lemma Reassociate(lo: string, hi: string, rest: string)
    ensures "{" + lo + "}" + rest == "{" + (lo + ("}" + rest))
    ensures "{" + lo + "," + hi + "}" + rest == "{" + (lo + ("," + (hi + ("}" + rest))))
    ensures "{" + lo + ",}" == "{" + lo + "," + "" + "}"
  {
    Assoc("{" + lo, "}", rest);
    Assoc("{", lo, "}" + rest);
    Assoc("{" + lo + "," + hi, "}", rest);
    Assoc("{" + lo + ",", hi, "}" + rest);
    Assoc("{" + lo, ",", hi + ("}" + rest));
    Assoc("{", lo, "," + (hi + ("}" + rest)));
  }

  /** The printed quantifier is read back whole, whatever follows it. */
  lemma ReadQuantInverse(pat: string, i: nat, q: Quant, rest: string)
    requires i <= |pat| && pat[i..] == PrintQuant(q) + rest
    requires FragmentQuant(q) && EndsQuant(rest)
    ensures ReadQuant(pat, i) == (PrintQuant(q), i + |PrintQuant(q)|)
    ensures pat[i + |PrintQuant(q)|..] == rest
  {
    SuffixSplit(pat, i, PrintQuant(q), rest);
    match q
    case Exactly(lo) =>
      Reassociate(lo, "", rest);
      ReadExactly(pat, i, lo, rest);
    case AtLeast(lo) =>
      Reassociate(lo, "", rest);
      ReadBetween(pat, i, lo, "", rest);
    case Between(lo, hi) =>
      Reassociate(lo, hi, rest);
      ReadBetween(pat, i, lo, hi, rest);
    case One =>
      if i < |pat| {
        assert pat[i..][0] == pat[i];
      }
    case _ =>
  }

  /** The counts of a quantifier are numerals, in any order. */
  predicate Numerals(q: Quant) {
    match q
    case Exactly(lo) => IsNumeral(lo)
    case AtLeast(lo) => IsNumeral(lo)
    case Between(lo, hi) => IsNumeral(lo) && IsNumeral(hi)
    case _ => true
  }

  /** Whatever is read as a quantifier is the printed form of one. */
  lemma ReadQuantOnly(pat: string, i: nat) returns (q: Quant)
    requires i <= |pat| && ReadQuant(pat, i).0 != ""
    ensures q != One && Numerals(q) && ReadQuant(pat, i).0 == PrintQuant(q)
  {
    hide DigitsEnd, IsDigit;
    q := if pat[i] == '?' then Optional else if pat[i] == '*' then Star else Plus;
    if pat[i] == '{' {
      var d := DigitsEnd(pat, i + 1);
      DigitsOf(pat, i + 1, d);
      if pat[d] == '}' {
        q := Exactly(pat[i + 1..d]);
        BracesText(pat, i, d);
      } else {
        var e := DigitsEnd(pat, d + 1);
        DigitsOf(pat, d + 1, e);
        RangeText(pat, i, d, e);
        q := if e == d + 1 then AtLeast(pat[i + 1..d]) else Between(pat[i + 1..d], pat[d + 1..e]);
      }
    }
  }

  lemma DigitsOf(pat: string, i: nat, j: nat)
    requires i <= j <= |pat| && forall k :: i <= k < j ==> IsDigit(pat[k])
    ensures i < j ==> IsNumeral(pat[i..j])
  {
    assert forall k :: 0 <= k < j - i ==> pat[i..j][k] == pat[i + k];
  }

  lemma BracesText(pat: string, i: nat, d: nat)
    requires i < d < |pat| && pat[i] == '{' && pat[d] == '}'
    ensures pat[i..d + 1] == "{" + pat[i + 1..d] + "}"
  {
  }

  lemma RangeText(pat: string, i: nat, d: nat, e: nat)
    requires i < d < e < |pat| && pat[i] == '{' && pat[d] == ',' && pat[e] == '}'
    ensures pat[i..e + 1] == "{" + pat[i + 1..d] + "," + pat[d + 1..e] + "}"
    ensures e == d + 1 ==> pat[i..e + 1] == "{" + pat[i + 1..d] + ",}"
  {
  }

  lemma ItemsEndQuant(r: Items, inGroup: bool)
    requires FragmentItems(r, inGroup)
    ensures EndsQuant(PrintItems(r))
  {
  }

  // ----- drawing a repetition count -----

  function FindChar(s: string, i: nat, c: char): (j: Option<nat>)
    requires i <= |s|
    ensures j.Some? ==> i <= j.value < |s| && s[j.value] == c
    decreases |s| - i
  {
    if i == |s| then None else if s[i] == c then Some(i) else FindChar(s, i + 1, c)
  }

  lemma {:induction false} FirstIs(s: string, i: nat, j: nat, c: char)
    requires i <= j <= |s| && (j < |s| ==> s[j] == c) && forall k :: i <= k < j ==> s[k] != c
    ensures FindChar(s, i, c) == if j < |s| then Some(j) else None
    decreases j - i
  {
    if i < j {
      FirstIs(s, i + 1, j, c);
    }
  }

  /** The text before and after the first comma. */
  function Partition(s: string): (string, string) {
    match FindChar(s, 0, ',')
    case Some(j) => (s[..j], s[j + 1..])
    case None => (s, "")
  }

  lemma PartitionNumerals(l: string, h: string)
    requires IsNumeral(l)
    ensures Partition(l) == (l, "")
    ensures Partition(l + "," + h) == (l, h)
  {
    var s := l + "," + h;
    assert s[..|l|] == l && s[|l| + 1..] == h && s[|l|] == ',';
    assert forall k :: 0 <= k < |l| ==> s[k] == l[k] && IsDigit(l[k]);
    FirstIs(l, 0, |l|, ',');
    FirstIs(s, 0, |l|, ',');
  }

  lemma QuantInner(q: Quant)
    requires q.Exactly? || q.AtLeast? || q.Between?
    ensures var p := PrintQuant(q);
            |p| >= 2 && p[0] == '{' && p[1..|p| - 1] ==
              match q case Exactly(l) => l case AtLeast(l) => l + "," + "" case Between(l, h) => l + "," + h
  {
    var p := PrintQuant(q);
    match q
    case Exactly(l) => assert p[1..|p| - 1] == l;
    case AtLeast(l) => assert p[1..|p| - 1] == l + "," + "";
    case Between(l, h) => assert p[1..|p| - 1] == l + "," + h;
  }

  function AsNat(s: string): nat {
    if forall k :: 0 <= k < |s| ==> IsDigit(s[k]) then ToNat(s) else 0
  }

  /** The bounds a braces quantifier draws between. */
  function DrawBounds(q: string): (b: (nat, nat))
    requires |q| >= 2
    ensures b.0 <= b.1
  {
    var (loText, hiText) := Partition(q[1..|q| - 1]);
    var lo := AsNat(loText);
    var hi := if hiText != "" then Min(AsNat(hiText), lo + 8) else lo;
    (lo, Max(lo, hi))
  }

  /** How often an element with quantifier text q is repeated. */
  function QReps(q: string, draw: nat): nat {
    if q == "?" then Draw(0, 1, draw)
    else if q == "+" then Draw(1, 3, draw)
    else if q == "*" then Draw(0, 2, draw)
    else if |q| >= 2 && q[0] == '{' then
      var (lo, hi) := DrawBounds(q);
      Draw(lo, hi, draw)
    else 1
  }

  /** Whether a number is drawn for it at all. */
  function Spent(q: string): nat { if q == "" then 0 else 1 }

  /** The counts the reader draws from: some of those the quantifier allows. */
  predicate Drawn(q: Quant, n: nat)
    requires FragmentQuant(q)
  {
    match q
    case One => n == 1
    case Optional => n <= 1
    case Star => n <= 2
    case Plus => 1 <= n <= 3
    case Exactly(lo) => n == ToNat(lo)
    case AtLeast(lo) => n == ToNat(lo)
    case Between(lo, hi) => ToNat(lo) <= n <= Min(ToNat(hi), ToNat(lo) + 8)
  }

  /** A count is drawn from the lower bound up to the upper one, eight more at most;
      an upper bound that is missing, or below the lower one, counts as the lower one. */
  lemma BoundsAre(q: Quant)
    requires (q.Exactly? || q.AtLeast? || q.Between?) && Numerals(q)
    ensures |PrintQuant(q)| >= 2 && PrintQuant(q)[0] == '{'
    ensures DrawBounds(PrintQuant(q))
         == (ToNat(q.lo),
             if q.Between? then Max(ToNat(q.lo), Min(ToNat(q.hi), ToNat(q.lo) + 8)) else ToNat(q.lo))
  {
    hide ToNat;
    QuantInner(q);
    PartitionNumerals(q.lo, if q.Between? then q.hi else "");
  }

  /** Whatever is drawn for a printed quantifier is one of these counts. */
  lemma QRepsDrawn(q: Quant, draw: nat)
    requires FragmentQuant(q)
    ensures Drawn(q, QReps(PrintQuant(q), draw))
  {
    hide Draw, ToNat;
    if q.Exactly? || q.AtLeast? || q.Between? {
      BoundsAre(q);
    }
  }

  /** Each of them is the answer to some draw, and for a single count to every one. */
  lemma QRepsReaches(q: Quant, n: nat) returns (draw: nat)
    requires FragmentQuant(q) && Drawn(q, n)
    ensures QReps(PrintQuant(q), draw) == n
  {
    hide Draw, DrawBounds, ToNat;
    var lo, hi := 1, 1;
    if q.Optional? {
      lo := 0;
    } else if q.Star? {
      lo, hi := 0, 2;
    } else if q.Plus? {
      hi := 3;
    } else if !q.One? {
      BoundsAre(q);
      lo, hi := DrawBounds(PrintQuant(q)).0, DrawBounds(PrintQuant(q)).1;
    }
    draw := n - lo;
    DrawReaches(lo, hi, n);
  }

  /** The quantifier allows every one of them. */
  lemma DrawnAllowed(q: Quant, n: nat)
    requires FragmentQuant(q) && Drawn(q, n)
    ensures Allows(q, n)
  {
  }

  // ----- alternation -----

  function Join(texts: seq<string>): string
    requires |texts| > 0
  {
    if |texts| == 1 then texts[0] else Join(texts[..|texts| - 1]) + "|" + texts[|texts| - 1]
  }

  lemma JoinSnoc(texts: seq<string>, text: string)
    ensures Join(texts + [text]) == if texts == [] then text else Join(texts) + "|" + text
  {
    assert (texts + [text])[..|texts|] == texts;
  }

  lemma {:induction false} JoinBound(texts: seq<string>)
    requires |texts| > 0
    ensures forall k :: 0 <= k < |texts| ==> |texts[k]| <= |Join(texts)|
  {
    if |texts| > 1 {
      JoinBound(texts[..|texts| - 1]);
    }
  }

  lemma JoinStep(done: seq<string>, cur: string, ch: char)
    ensures Join(done + [cur + [ch]]) == Join(done + [cur]) + [ch]
    ensures Join(done + [cur] + [""]) == Join(done + [cur]) + "|"
  {
    JoinSnoc(done, cur);
    JoinSnoc(done, cur + [ch]);
    JoinSnoc(done + [cur], "");
  }

  /** Where the scan of a printed alternation stands: cur is a prefix of the
      branch being read, and a bar at depth 0 comes exactly at its end. */
  lemma ScanPoint(left: Branches, cur: string, rest: string)
    requires FragmentBranches(left) && cur + rest == PrintBranches(left) && rest != ""
    requires |cur| <= |PrintItems(left.items)|
    ensures var first := PrintItems(left.items);
            if |cur| == |first| then
              cur == first && rest[0] == '|' && Level(first, |cur|) == 0
              && left.More? && rest[1..] == PrintBranches(left.others)
            else
              rest[0] == first[|cur|] && Level(first, |cur| + 1) == Level(first, |cur|) + Delta(rest[0])
              && !(rest[0] == '|' && Level(first, |cur|) == 0)
  {
    var first := PrintItems(left.items);
    var whole := PrintBranches(left);
    ItemsClosed(left.items);
    assert whole[..|first|] == first;
    assert whole[..|cur|] == cur && whole[|cur|..] == rest && whole[|cur|] == rest[0];
    if |cur| == |first| {
      assert cur == first;
      assert left.More? ==> whole[|first|] == '|' && whole[|first| + 1..] == PrintBranches(left.others);
    }
  }

  /** The scan of a printed alternation: the branches already split off, the
      part of the current one read, and the text still to come. */
  ghost predicate Scanning(tree: Branches, left: Branches, done: seq<string>, cur: string, rest: string, depth: int) {
    && FragmentBranches(left)
    && done + BranchTexts(left) == BranchTexts(tree)
    && cur + rest == PrintBranches(left)
    && |cur| <= |PrintItems(left.items)|
    && depth == Level(PrintItems(left.items), |cur|)
  }

  lemma ScanStep(tree: Branches, left: Branches, done: seq<string>, cur: string, rest: string, depth: int)
    requires Scanning(tree, left, done, cur, rest, depth) && rest != ""
    ensures if rest[0] == '|' && depth == 0 then
              left.More? && Scanning(tree, left.others, done + [cur], "", rest[1..], 0)
            else
              Scanning(tree, left, done, cur + [rest[0]], rest[1..], depth + Delta(rest[0]))
  {
    hide Level, PrintItems, Delta, FragmentItems, Closed;
    ScanPoint(left, cur, rest);
    if |cur| == |PrintItems(left.items)| {
      assert done + [cur] + BranchTexts(left.others) == done + BranchTexts(left);
      assert "" + rest[1..] == PrintBranches(left.others);
      LevelZero(PrintItems(left.others.items));
    } else {
      assert cur + [rest[0]] + rest[1..] == cur + rest;
    }
  }

  lemma LevelZero(s: string)
    ensures Level(s, 0) == 0
  {
  }

  lemma ScanStart(tree: Branches)
    requires FragmentBranches(tree)
    ensures Scanning(tree, tree, [], "", PrintBranches(tree), 0)
  {
    assert [] + BranchTexts(tree) == BranchTexts(tree) && "" + PrintBranches(tree) == PrintBranches(tree);
  }

  lemma ScanEnd(tree: Branches, left: Branches, done: seq<string>, cur: string, depth: int)
    requires Scanning(tree, left, done, cur, "", depth)
    ensures done + [cur] == BranchTexts(tree)
  {
    assert cur + "" == cur;
    assert left.More? ==> |PrintBranches(left)| > |PrintItems(left.items)|;
  }

  /** Splits at the bars outside parentheses: the pieces join back to the text,
      and for a printed alternation they are its printed branches. */
  method SplitAlternation(text: string, ghost tree: Option<Branches>) returns (branches: seq<string>)
    ensures |branches| > 0 && Join(branches) == text
    ensures forall k :: 0 <= k < |branches| ==> |branches[k]| <= |text|
    ensures tree.Some? && FragmentBranches(tree.value) && text == PrintBranches(tree.value)
            ==> branches == BranchTexts(tree.value)
  {
    hide Scanning, Join, BranchTexts, PrintBranches, FragmentBranches;
    branches := [];
    var depth := 0;
    var cur := "";
    ghost var printed := tree.Some? && FragmentBranches(tree.value) && text == PrintBranches(tree.value);
    ghost var left := if printed then tree.value else Last(Nil);
    assert text[0..] == text;
    if printed {
      ScanStart(tree.value);
    }
    JoinSnoc(branches, cur);
    var k := 0;
    while k < |text|
      invariant 0 <= k <= |text|
      invariant Join(branches + [cur]) == text[..k]
      invariant printed ==> Scanning(tree.value, left, branches, cur, text[k..], depth)
    {
      var ch := text[k];
      if printed {
        ScanStep(tree.value, left, branches, cur, text[k..], depth);
        assert text[k..][1..] == text[k + 1..];
      }
      assert text[..k + 1] == text[..k] + [ch];
      JoinStep(branches, cur, ch);
      if ch == '(' {
        depth := depth + 1;
      } else if ch == ')' {
        depth := depth - 1;
      }
      if ch == '|' && depth == 0 {
        branches, cur := branches + [cur], "";
        left := if printed then left.others else left;
      } else {
        cur := cur + [ch];
      }
      k := k + 1;
    }
    if printed {
      assert text[k..] == "";
      ScanEnd(tree.value, left, branches, cur, depth);
    }
    assert text[..k] == text;
    branches := branches + [cur];
    JoinBound(branches);
  }

  // ----- character classes -----

  function CharRange(first: int, last: int): (s: string)
    decreases last - first
  {
    if last < first then ""
    else
      (if 0 <= first < 0xD800 || 0xE000 <= first < 0x11_0000 then [first as char] else "") + CharRange(first + 1, last)
  }

  lemma {:induction false} CharRangeIs(first: int, last: int)
    ensures forall c :: c in CharRange(first, last) <==> first <= c as int <= last
    decreases last - first
  {
    if first <= last {
      CharRangeIs(first + 1, last);
    }
  }

  const DIGITS := CharRange('0' as int, '9' as int)
  const WORD_CHARS := CharRange('a' as int, 'z' as int) + CharRange('A' as int, 'Z' as int) + DIGITS

  /** What an escape inside a class stands for. */
  function EscapePool(c: char): string {
    if c == 'w' then WORD_CHARS else if c == 'd' then DIGITS else [c]
  }

  lemma PoolsAreSound()
    ensures WORD_CHARS != "" && forall c :: c in WORD_CHARS <==> IsAlnum(c)
    ensures DIGITS != "" && forall c :: c in DIGITS <==> IsDigit(c)
  {
    CharRangeIs('a' as int, 'z' as int);
    CharRangeIs('A' as int, 'Z' as int);
    CharRangeIs('0' as int, '9' as int);
    assert '0' in DIGITS;
  }

  /** The pool of a class: its members' characters, member by member. */
  function MembersPool(ms: Members): string {
    match ms
    case NoMember => ""
    case Member(c, rest) => [c] + MembersPool(rest)
    case Range(first, last, rest) => CharRange(first as int, last as int) + MembersPool(rest)
    case MemberEscape(c, rest) => [c] + MembersPool(rest)
    case WordMembers(rest) => WORD_CHARS + MembersPool(rest)
    case DigitMembers(rest) => DIGITS + MembersPool(rest)
  }

  /** It holds only characters that the class matches, all of them but perhaps the
      underscore that a word escape matches, and is not empty. */
  lemma {:induction false} PoolMatches(ms: Members)
    requires FragmentMembers(ms)
    ensures forall c :: c in MembersPool(ms) ==> InMembers(ms, c)
    ensures forall c :: InMembers(ms, c) && c != '_' ==> c in MembersPool(ms)
    ensures ms != NoMember ==> MembersPool(ms) != ""
  {
    if ms != NoMember {
      PoolMatches(ms.rest);
      PoolsAreSound();
      if ms.Range? {
        CharRangeIs(ms.first as int, ms.last as int);
        assert ms.first in CharRange(ms.first as int, ms.last as int);
      }
    }
  }

  /** What the reader takes for the next member, and where it goes on. Behind the
      last backslash of a body stands the closing bracket. */
  function NextPiece(body: string, k: nat): (string, nat)
    requires k < |body|
  {
    if body[k] == '\\' then (EscapePool(if k + 1 < |body| then body[k + 1] else ']'), k + 2)
    else if k + 2 < |body| && body[k + 1] == '-' then (CharRange(body[k] as int, body[k + 2] as int), k + 3)
    else ([body[k]], k + 1)
  }

  lemma PieceIs(body: string, k: nat, left: Members)
    requires k < |body| && FragmentMembers(left) && body[k..] == PrintMembers(left)
    ensures left != NoMember && FragmentMembers(left.rest)
    ensures NextPiece(body, k).1 <= |body| && body[NextPiece(body, k).1..] == PrintMembers(left.rest)
    ensures MembersPool(left) == NextPiece(body, k).0 + MembersPool(left.rest)
  {
    hide CharRange;
    MembersHead(body, k, left);
  }

  /** The members of a class body, read up to its closing bracket. */
  method ReadMembers(body: string, ghost tree: Option<Members>) returns (members: string)
    ensures tree.Some? && FragmentMembers(tree.value) && body == PrintMembers(tree.value) ==>
              members == MembersPool(tree.value)
  {
    hide CharRange, MembersPool, PrintMembers, FragmentMembers;
    members := "";
    ghost var printed := tree.Some? && FragmentMembers(tree.value) && body == PrintMembers(tree.value);
    ghost var left := if printed then tree.value else NoMember;
    var k := 0;
    assert body[0..] == body;
    while k < |body|
      invariant 0 <= k && (printed ==> k <= |body|)
      invariant printed ==> FragmentMembers(left) && body[k..] == PrintMembers(left)
      invariant printed ==> members + MembersPool(left) == MembersPool(tree.value)
    {
      ghost var before, piece := members, NextPiece(body, k);
      if printed {
        PieceIs(body, k, left);
        left := left.rest;
      }
      if body[k] == '\\' {
        members := members + EscapePool(if k + 1 < |body| then body[k + 1] else ']');
        k := k + 2;
      } else if k + 2 < |body| && body[k + 1] == '-' {
        members := members + CharRange(body[k] as int, body[k + 2] as int);
        k := k + 3;
      } else {
        members := members + [body[k]];
        k := k + 1;
      }
      assert members == before + piece.0 && k == piece.1;
      assert members + MembersPool(left) == before + (piece.0 + MembersPool(left));
    }
    if printed {
      NothingLeft(left);
    }
  }

  lemma NothingLeft(left: Members)
    requires PrintMembers(left) == ""
    ensures MembersPool(left) == ""
  {
  }

  /** How the class reader sees the next member of a printed body. */
  lemma MembersHead(body: string, k: nat, left: Members)
    requires k < |body| && FragmentMembers(left) && body[k..] == PrintMembers(left)
    ensures left != NoMember
    ensures match left
      case Member(c, rest) =>
        body[k] == c && c != '\\' && !(k + 2 < |body| && body[k + 1] == '-') && body[k + 1..] == PrintMembers(rest)
      case Range(first, last, rest) =>
        k + 2 < |body| && body[k] == first && first != '\\' && body[k + 1] == '-' && body[k + 2] == last
        && body[k + 3..] == PrintMembers(rest)
      case MemberEscape(c, rest) =>
        k + 1 < |body| && body[k] == '\\' && body[k + 1] == c && body[k + 2..] == PrintMembers(rest)
      case WordMembers(rest) =>
        k + 1 < |body| && body[k] == '\\' && body[k + 1] == 'w' && body[k + 2..] == PrintMembers(rest)
      case DigitMembers(rest) =>
        k + 1 < |body| && body[k] == '\\' && body[k + 1] == 'd' && body[k + 2..] == PrintMembers(rest)
      case NoMember => false
  {
    match left
    case Member(c, rest) =>
      SuffixSplit(body, k, [c], PrintMembers(rest));
      if k + 2 < |body| {
        assert body[k + 1..][0] == body[k + 1];
      }
    case Range(first, last, rest) => SuffixSplit(body, k, [first, '-', last], PrintMembers(rest));
    case MemberEscape(c, rest) => SuffixSplit(body, k, ['\\', c], PrintMembers(rest));
    case WordMembers(rest) => SuffixSplit(body, k, "\\w", PrintMembers(rest));
    case DigitMembers(rest) => SuffixSplit(body, k, "\\d", PrintMembers(rest));
    case NoMember =>
  }

  lemma {:induction false} MembersUnbracketed(ms: Members)
    requires FragmentMembers(ms)
    ensures ']' !in PrintMembers(ms)
  {
    if ms != NoMember {
      MembersUnbracketed(ms.rest);
    }
  }
}
