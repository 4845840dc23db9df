/** The regular expressions the payload sampler is meant for: their syntax
    trees, their printed form and the language each one denotes. Nothing here
    mentions the sampler; it is the reference the sampler is judged against.
    Printed group bodies are balanced, which is what finding a group's end needs. */
module Regex {

  // Repetition counts keep the digits as written, so "{07}" is a count too.
  datatype Quant =
    | One
    | Optional
    | Star
    | Plus
    | Exactly(lo: string)
    | AtLeast(lo: string)
    | Between(lo: string, hi: string)

  datatype Members =
    | NoMember
    | Member(c: char, rest: Members)
    | Range(first: char, last: char, rest: Members)
    | MemberEscape(c: char, rest: Members)
    | WordMembers(rest: Members)
    | DigitMembers(rest: Members)

  datatype Atom =
    | Literal(c: char)
    | Escaped(c: char)
    | Space
    | Word
    | Digit
    | Dot
    | Class(members: Members)
    | Group(capturing: bool, branches: Branches)

  datatype Items = Nil | Cons(atom: Atom, quant: Quant, tail: Items)

  datatype Branches = Last(items: Items) | More(items: Items, others: Branches)

  // ----- characters and numerals -----

  const SPECIAL := "\\[](|).*?+{}"

  predicate IsDigit(c: char) { '0' <= c <= '9' }

  predicate IsAlnum(c: char) { 'a' <= c <= 'z' || 'A' <= c <= 'Z' || IsDigit(c) }

  predicate IsSpace(c: char) { c in " \t\n\r" || c as int == 11 || c as int == 12 }

  predicate IsParenOrBar(c: char) { c == '(' || c == ')' || c == '|' }

  predicate IsQuantStart(c: char) { c in "?*+{" }

  predicate IsNumeral(s: string) { s != "" && forall k :: 0 <= k < |s| ==> IsDigit(s[k]) }

  function ToNat(s: string): nat
    requires forall k :: 0 <= k < |s| ==> IsDigit(s[k])
  {
    if s == "" then 0
    else
      assert IsDigit(s[|s| - 1]);
      10 * ToNat(s[..|s| - 1]) + (s[|s| - 1] as int - '0' as int)
  }

  // ----- printed form -----

  function PrintQuant(q: Quant): string {
    match q
    case One => ""
    case Optional => "?"
    case Star => "*"
    case Plus => "+"
    case Exactly(lo) => "{" + lo + "}"
    case AtLeast(lo) => "{" + lo + ",}"
    case Between(lo, hi) => "{" + lo + "," + hi + "}"
  }

  function PrintMembers(ms: Members): string {
    match ms
    case NoMember => ""
    case Member(c, rest) => [c] + PrintMembers(rest)
    case Range(first, last, rest) => [first, '-', last] + PrintMembers(rest)
    case MemberEscape(c, rest) => ['\\', c] + PrintMembers(rest)
    case WordMembers(rest) => "\\w" + PrintMembers(rest)
    case DigitMembers(rest) => "\\d" + PrintMembers(rest)
  }

  function PrintAtom(a: Atom): (s: string)
    ensures s != ""
  {
    match a
    case Literal(c) => [c]
    case Escaped(c) => ['\\', c]
    case Space => "\\s"
    case Word => "\\w"
    case Digit => "\\d"
    case Dot => "."
    case Class(ms) => "[" + PrintMembers(ms) + "]"
    case Group(capturing, bs) => "(" + GroupBody(capturing, bs) + ")"
  }

  function GroupBody(capturing: bool, bs: Branches): string
    decreases bs, 1
  {
    if capturing then PrintBranches(bs) else "?:" + PrintBranches(bs)
  }

  function PrintItems(r: Items): string {
    match r
    case Nil => ""
    case Cons(a, q, t) => PrintAtom(a) + PrintQuant(q) + PrintItems(t)
  }

  function PrintBranches(bs: Branches): string
    decreases bs, 0
  {
    match bs
    case Last(r) => PrintItems(r)
    case More(r, others) => PrintItems(r) + "|" + PrintBranches(others)
  }

  /** The printed branches one by one. */
  function BranchTexts(bs: Branches): (texts: seq<string>)
    ensures |texts| > 0
  {
    match bs
    case Last(r) => [PrintItems(r)]
    case More(r, others) => [PrintItems(r)] + BranchTexts(others)
  }

  // ----- the fragment -----

  predicate FragmentQuant(q: Quant) {
    match q
    case Exactly(lo) => IsNumeral(lo)
    case AtLeast(lo) => IsNumeral(lo)
    case Between(lo, hi) => IsNumeral(lo) && IsNumeral(hi) && ToNat(lo) <= ToNat(hi)
    case _ => true
  }

  /** A dash that could open a range must not follow a single member. */
  predicate NoDashAhead(rest: Members) {
    var s := PrintMembers(rest);
    |s| >= 2 ==> s[0] != '-'
  }

  predicate FragmentMembers(ms: Members) {
    match ms
    case NoMember => true
    case Member(c, rest) => c != '\\' && c != ']' && NoDashAhead(rest) && FragmentMembers(rest)
    case Range(first, last, rest) =>
      first != '\\' && first != ']' && last != '\\' && last != ']' && first <= last && FragmentMembers(rest)
    case MemberEscape(c, rest) => !IsAlnum(c) && c != ']' && NoDashAhead(rest) && FragmentMembers(rest)
    case WordMembers(rest) => NoDashAhead(rest) && FragmentMembers(rest)
    case DigitMembers(rest) => NoDashAhead(rest) && FragmentMembers(rest)
  }

  predicate FragmentAtom(a: Atom, inGroup: bool) {
    match a
    case Literal(c) => c !in SPECIAL && c != '^' && c != '$'
    case Escaped(c) => !IsAlnum(c) && (inGroup ==> !IsParenOrBar(c))
    case Class(ms) =>
      && FragmentMembers(ms)
      && ms != NoMember
      && PrintMembers(ms)[..1] != "^"
      && (inGroup ==> forall k :: 0 <= k < |PrintMembers(ms)| ==> !IsParenOrBar(PrintMembers(ms)[k]))
    case Group(_, bs) => FragmentBranches(bs)
    case _ => true
  }

  /** The counts of a dot for which two to fourteen characters are a fair sample. */
  predicate DotQuant(q: Quant)
    requires FragmentQuant(q)
  {
    match q
    case One => false
    case Optional => false
    case Star => true
    case Plus => true
    case Exactly(lo) => 2 <= ToNat(lo) <= 14
    case AtLeast(lo) => ToNat(lo) <= 14
    case Between(lo, hi) => ToNat(lo) <= 14 && 2 <= ToNat(hi)
  }

  predicate FragmentItems(r: Items, inGroup: bool) {
    match r
    case Nil => true
    case Cons(a, q, t) =>
      FragmentAtom(a, inGroup) && FragmentQuant(q) && (a == Dot ==> DotQuant(q)) && FragmentItems(t, inGroup)
  }

  predicate FragmentBranches(bs: Branches) {
    match bs
    case Last(r) => FragmentItems(r, true)
    case More(r, others) => FragmentItems(r, true) && FragmentBranches(others)
  }

  lemma {:induction false} GroupedIsFragment(r: Items)
    requires FragmentItems(r, true)
    ensures FragmentItems(r, false)
  {
    if r.Cons? {
      GroupedIsFragment(r.tail);
    }
  }

  // ----- the language -----

  predicate Allows(q: Quant, n: nat)
    requires FragmentQuant(q)
  {
    match q
    case One => n == 1
    case Optional => n <= 1
    case Star => true
    case Plus => n >= 1
    case Exactly(lo) => n == ToNat(lo)
    case AtLeast(lo) => n >= ToNat(lo)
    case Between(lo, hi) => ToNat(lo) <= n <= ToNat(hi)
  }

  predicate InMembers(ms: Members, c: char) {
    match ms
    case NoMember => false
    case Member(d, rest) => c == d || InMembers(rest, c)
    case Range(first, last, rest) => first <= c <= last || InMembers(rest, c)
    case MemberEscape(d, rest) => c == d || InMembers(rest, c)
    case WordMembers(rest) => IsAlnum(c) || c == '_' || InMembers(rest, c)
    case DigitMembers(rest) => IsDigit(c) || InMembers(rest, c)
  }

  ghost predicate InAtom(a: Atom, w: string)
    decreases a, 0
  {
    match a
    case Literal(c) => w == [c]
    case Escaped(c) => w == [c]
    case Space => |w| == 1 && IsSpace(w[0])
    case Word => |w| == 1 && (IsAlnum(w[0]) || w[0] == '_')
    case Digit => |w| == 1 && IsDigit(w[0])
    case Dot => |w| == 1 && w[0] != '\n'
    case Class(ms) => |w| == 1 && InMembers(ms, w[0])
    case Group(_, bs) => InBranches(bs, w)
  }

  /** w is n words of the atom, one after the other. */
  ghost predicate InPower(a: Atom, n: nat, w: string)
    decreases a, 1, n
  {
    if n == 0 then w == ""
    else exists k :: 0 <= k <= |w| && InAtom(a, w[..k]) && InPower(a, n - 1, w[k..])
  }

  ghost predicate InRepeat(a: Atom, q: Quant, w: string)
    requires FragmentQuant(q)
    decreases a, 2
  {
    exists n: nat :: Allows(q, n) && InPower(a, n, w)
  }

  ghost predicate InItems(r: Items, w: string)
    decreases r
  {
    match r
    case Nil => w == ""
    case Cons(a, q, t) =>
      FragmentQuant(q) && exists k :: 0 <= k <= |w| && InRepeat(a, q, w[..k]) && InItems(t, w[k..])
  }

  ghost predicate InBranches(bs: Branches, w: string)
    decreases bs
  {
    match bs
    case Last(r) => InItems(r, w)
    case More(r, others) => InItems(r, w) || InBranches(others, w)
  }

  // ----- laws of the language -----

  lemma ConsIn(a: Atom, q: Quant, t: Items, u: string, v: string)
    requires FragmentQuant(q) && InRepeat(a, q, u) && InItems(t, v)
    ensures InItems(Cons(a, q, t), u + v)
  {
    assert (u + v)[..|u|] == u && (u + v)[|u|..] == v;
  }

  lemma {:induction false} PowerSnoc(a: Atom, n: nat, u: string, v: string)
    requires InPower(a, n, u) && InAtom(a, v)
    ensures InPower(a, n + 1, u + v)
    decreases n
  {
    if n == 0 {
      assert u + v == v && v[..|v|] == v && v[|v|..] == "";
    } else {
      var k :| 0 <= k <= |u| && InAtom(a, u[..k]) && InPower(a, n - 1, u[k..]);
      PowerSnoc(a, n - 1, u[k..], v);
      assert (u + v)[..k] == u[..k] && (u + v)[k..] == u[k..] + v;
    }
  }

  lemma RepeatIn(a: Atom, q: Quant, n: nat, w: string)
    requires FragmentQuant(q) && Allows(q, n) && InPower(a, n, w)
    ensures InRepeat(a, q, w)
  {
  }

  /** On one line the dot matches any character, so only the length counts. */
  lemma {:induction false} DotPower(w: string, n: nat)
    requires forall k :: 0 <= k < |w| ==> w[k] != '\n'
    ensures InPower(Dot, n, w) <==> n == |w|
    decreases n
  {
    if n > 0 {
      if w != "" {
        DotPower(w[1..], n - 1);
        assert InAtom(Dot, w[..1]);
      }
      forall k | 0 <= k <= |w| && InAtom(Dot, w[..k]) ensures k == 1 {
      }
    }
  }

  lemma DotRepeat(q: Quant, w: string)
    requires FragmentQuant(q) && forall k :: 0 <= k < |w| ==> w[k] != '\n'
    ensures InRepeat(Dot, q, w) <==> Allows(q, |w|)
  {
    DotPower(w, |w|);
    if n: nat :| Allows(q, n) && InPower(Dot, n, w) {
      DotPower(w, n);
    }
  }

  /** The items of the k-th branch. */
  ghost function Nth(bs: Branches, k: nat): Items
    requires k < |BranchTexts(bs)|
  {
    if k == 0 then bs.items else Nth(bs.others, k - 1)
  }

  lemma {:induction false} NthBranch(bs: Branches, k: nat)
    requires k < |BranchTexts(bs)| && FragmentBranches(bs)
    ensures FragmentItems(Nth(bs, k), true)
    ensures BranchTexts(bs)[k] == PrintItems(Nth(bs, k))
    ensures forall w :: InItems(Nth(bs, k), w) ==> InBranches(bs, w)
  {
    if k > 0 {
      NthBranch(bs.others, k - 1);
    }
  }

  // ----- how printed text nests -----

  function Delta(c: char): int { if c == '(' then 1 else if c == ')' then -1 else 0 }

  /** Open minus closed parentheses in the first k characters. */
  function Level(s: string, k: nat): int
    requires k <= |s|
  {
    if k == 0 then 0 else Level(s, k - 1) + Delta(s[k - 1])
  }

  ghost predicate Balanced(s: string) {
    (forall k {:trigger Level(s, k)} :: 0 <= k <= |s| ==> Level(s, k) >= 0) && Level(s, |s|) == 0
  }

  /** Balanced, and every bar sits inside some parentheses. */
  ghost predicate Closed(s: string) {
    Balanced(s) && forall k :: 0 <= k < |s| && s[k] == '|' ==> Level(s, k) > 0
  }

  lemma {:induction false} LevelPrefix(u: string, v: string, k: nat)
    requires k <= |u|
    ensures Level(u + v, k) == Level(u, k)
  {
    if k > 0 {
      LevelPrefix(u, v, k - 1);
    }
  }

  lemma {:induction false} LevelConcat(u: string, v: string, k: nat)
    requires k <= |v|
    ensures Level(u + v, |u| + k) == Level(u, |u|) + Level(v, k)
  {
    if k == 0 {
      LevelPrefix(u, v, |u|);
    } else {
      LevelConcat(u, v, k - 1);
      assert (u + v)[|u| + k - 1] == v[k - 1];
    }
  }

  lemma LevelOfConcat(u: string, v: string)
    ensures forall k {:trigger Level(u + v, k)} :: 0 <= k <= |u| ==> Level(u + v, k) == Level(u, k)
    ensures forall k {:trigger Level(u + v, k)} :: |u| <= k <= |u| + |v| ==>
            Level(u + v, k) == Level(u, |u|) + Level(v, k - |u|)
  {
    forall k | 0 <= k <= |u| ensures Level(u + v, k) == Level(u, k) {
      LevelPrefix(u, v, k);
    }
    forall k | |u| <= k <= |u| + |v| ensures Level(u + v, k) == Level(u, |u|) + Level(v, k - |u|) {
      LevelConcat(u, v, k - |u|);
    }
  }

  lemma ClosedConcat(u: string, v: string)
    requires Closed(u) && Closed(v)
    ensures Closed(u + v)
  {
    LevelOfConcat(u, v);
  }

  lemma BalancedBar(u: string, v: string)
    requires Closed(u) && Balanced(v)
    ensures Balanced(u + "|" + v)
  {
    LevelOfConcat(u, "|");
    LevelOfConcat(u + "|", v);
    assert Level("|", 0) == 0 && Level("|", 1) == 0;
  }

  lemma ClosedGroup(u: string)
    requires Balanced(u)
    ensures Closed("(" + u + ")")
  {
    LevelOfConcat("(", u);
    LevelOfConcat("(" + u, ")");
    assert Level("(", 0) == 0 && Level("(", 1) == 1;
    assert Level(")", 0) == 0 && Level(")", 1) == -1;
  }

  lemma {:induction false} PlainLevel(u: string, k: nat)
    requires k <= |u| && forall i :: 0 <= i < |u| ==> !IsParenOrBar(u[i])
    ensures Level(u, k) == 0
  {
    if k > 0 {
      PlainLevel(u, k - 1);
    }
  }

  lemma PlainClosed(u: string)
    requires forall i :: 0 <= i < |u| ==> !IsParenOrBar(u[i])
    ensures Closed(u)
  {
    forall k | 0 <= k <= |u| ensures Level(u, k) == 0 {
      PlainLevel(u, k);
    }
  }

  lemma QuantClosed(q: Quant)
    requires FragmentQuant(q)
    ensures Closed(PrintQuant(q))
  {
    PlainClosed(PrintQuant(q));
  }

  lemma {:induction false} AtomClosed(a: Atom)
    requires FragmentAtom(a, true)
    ensures Closed(PrintAtom(a))
    decreases a
  {
    match a
    case Group(capturing, bs) =>
      BranchesBalanced(bs);
      PlainClosed("?:");
      if !capturing {
        BalancedPrefix("?:", PrintBranches(bs));
      }
      ClosedGroup(GroupBody(capturing, bs));
    case Class(ms) =>
      PlainClosed(PrintAtom(a));
    case _ =>
      PlainClosed(PrintAtom(a));
  }

  lemma BalancedPrefix(u: string, v: string)
    requires Closed(u) && Balanced(v)
    ensures Balanced(u + v)
  {
    LevelOfConcat(u, v);
  }

  lemma {:induction false} ItemsClosed(r: Items)
    requires FragmentItems(r, true)
    ensures Closed(PrintItems(r))
    decreases r
  {
    match r
    case Nil => PlainClosed("");
    case Cons(a, q, t) =>
      AtomClosed(a);
      QuantClosed(q);
      ItemsClosed(t);
      ClosedConcat(PrintAtom(a), PrintQuant(q));
      ClosedConcat(PrintAtom(a) + PrintQuant(q), PrintItems(t));
  }

  lemma {:induction false} BranchesBalanced(bs: Branches)
    requires FragmentBranches(bs)
    ensures Balanced(PrintBranches(bs))
    decreases bs
  {
    ItemsClosed(bs.items);
    if bs.More? {
      BranchesBalanced(bs.others);
      BalancedBar(PrintItems(bs.items), PrintBranches(bs.others));
    }
  }
}
