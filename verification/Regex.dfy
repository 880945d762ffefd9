/** Regular expressions as Python's `re` runs them: greedy repetitions of character classes with
    backtracking, first success wins.  `Mark` records the current offset, as a group boundary does. */
module Regex {
  import opened Common

  datatype Cls =
    | OpenBrace | CloseBrace | Space | White | AtSign
    | IdChar       // [A-Za-z0-9:_-]
    | DottedIdChar // [a-zA-Z:0-9_.-]
    | VarChar      // [A-Za-z0-9_.-]
    | GlobalChar   // [A-Za-z0-9_.]
    | Lit(c: char)

  predicate Alnum(ch: char) {
    'a' <= ch <= 'z' || 'A' <= ch <= 'Z' || '0' <= ch <= '9'
  }

  /** What `\s` matches and `str.strip` removes. */
  predicate IsWhite(ch: char) {
    || '\t' <= ch <= '\r' || '\U{1c}' <= ch <= ' ' || ch == '\U{85}' || ch == '\U{a0}' || ch == '\U{1680}'
    || '\U{2000}' <= ch <= '\U{200a}' || ch == '\U{2028}' || ch == '\U{2029}' || ch == '\U{202f}'
    || ch == '\U{205f}' || ch == '\U{3000}'
  }

  predicate In(c: Cls, ch: char) {
    match c
    case OpenBrace => ch == '{'
    case CloseBrace => ch == '}'
    case Space => ch == ' '
    case White => IsWhite(ch)
    case AtSign => ch == '@'
    case IdChar => Alnum(ch) || ch == ':' || ch == '_' || ch == '-'
    case DottedIdChar => Alnum(ch) || ch == ':' || ch == '_' || ch == '.' || ch == '-'
    case VarChar => Alnum(ch) || ch == '_' || ch == '.' || ch == '-'
    case GlobalChar => Alnum(ch) || ch == '_' || ch == '.'
    case Lit(l) => ch == l
  }

  datatype Re = Done | One(c: Cls, next: Re) | Many(c: Cls, min: nat, next: Re) | Alt(a: Re, b: Re) | Mark(next: Re)

  /** The length of the longest prefix of `t` in class `c`. */
  function Span(c: Cls, t: string): (n: nat)
    ensures n <= |t|
    ensures n < |t| ==> !In(c, t[n])
    ensures n > 0 ==> In(c, t[0])
  {
    if t == [] || !In(c, t[0]) then 0 else 1 + Span(c, t[1..])
  }

  lemma {:induction false} SpanIsInClass(c: Cls, t: string)
    ensures forall k :: 0 <= k < Span(c, t) ==> In(c, t[k])
  {
    if Span(c, t) > 0 {
      SpanIsInClass(c, t[1..]);
      forall k | 0 <= k < Span(c, t) ensures In(c, t[k]) {
        if k > 0 { assert t[k] == t[1..][k - 1]; }
      }
    }
  }

  lemma SpanStep(c: Cls, x: char, u: string)
    ensures Span(c, [x] + u) == if In(c, x) then 1 + Span(c, u) else 0
  {
    assert ([x] + u)[1..] == u;
  }

  lemma NoSpan(c: Cls, u: string)
    requires u == [] || !In(c, u[0])
    ensures Span(c, u) == 0
  {
  }

  lemma SomeSpan(c: Cls, u: string)
    requires u != [] && In(c, u[0])
    ensures Span(c, u) > 0
  {
    hide In;
  }

  lemma BraceClasses()
    ensures In(CloseBrace, '}') && In(OpenBrace, '{') && !In(White, '}') && !In(White, '{') && !In(Space, '{')
    ensures !In(OpenBrace, ' ') && In(White, ' ') && In(Space, ' ') && !In(OpenBrace, '}')
  {
  }

  /** The first match of `re` at the head of `t`, where `at` characters were read before: the marked
      offsets, followed by the offset where the match ends. */
  function Match(re: Re, t: string, at: nat): Option<seq<nat>>
    decreases re, 0
  {
    match re
    case Done => Some([at])
    case One(c, next) => if t != [] && In(c, t[0]) then Match(next, t[1..], at + 1) else None
    case Many(c, min, next) => Longest(next, t, at, min, Span(c, t))
    case Alt(a, b) => if Match(a, t, at).Some? then Match(a, t, at) else Match(b, t, at)
    case Mark(next) =>
      match Match(next, t, at)
      case None => None
      case Some(marks) => Some([at] + marks)
  }

  /** Backtracking of one repetition: try to go on after `k` characters, then after fewer. */
  function Longest(next: Re, t: string, at: nat, min: nat, k: nat): Option<seq<nat>>
    requires k <= |t|
    decreases next, 1, k
  {
    if k < min then None
    else if Match(next, t[k..], at + k).Some? then Match(next, t[k..], at + k)
    else if k == 0 then None
    else Longest(next, t, at, min, k - 1)
  }

  // ---------- One step of the matcher ----------

  lemma OneStep(c: Cls, next: Re, t: string, at: nat)
    ensures Match(One(c, next), t, at) == if t != [] && In(c, t[0]) then Match(next, t[1..], at + 1) else None
  {
  }

  lemma AltStep(a: Re, b: Re, t: string, at: nat)
    ensures Match(Alt(a, b), t, at) == if Match(a, t, at).Some? then Match(a, t, at) else Match(b, t, at)
  {
  }

  lemma MarkStep(next: Re, t: string, at: nat)
    ensures Match(Mark(next), t, at) == if Match(next, t, at).Some? then Some([at] + Match(next, t, at).value) else None
  {
  }

  // ---------- When backtracking cannot help ----------

  ghost predicate Disjoint(c: Cls, d: Cls) {
    forall ch :: !(In(c, ch) && In(d, ch))
  }

  /** `re` matches nothing that begins with a character of class `c`. */
  ghost predicate Shuns(re: Re, c: Cls) {
    match re
    case Done => false
    case One(d, _) => Disjoint(c, d)
    case Many(d, min, next) => Disjoint(c, d) && (min == 0 ==> Shuns(next, c))
    case Alt(a, b) => Shuns(a, c) && Shuns(b, c)
    case Mark(next) => Shuns(next, c)
  }

  lemma {:induction false} ShunnedFails(re: Re, c: Cls, t: string, at: nat)
    requires Shuns(re, c) && t != [] && In(c, t[0])
    ensures Match(re, t, at) == None
  {
    match re
    case Done =>
    case One(d, next) =>
    case Many(d, min, next) =>
      assert Span(d, t) == 0;
      if min == 0 {
        ShunnedFails(next, c, t, at);
        assert t[0..] == t;
      }
    case Alt(a, b) =>
      ShunnedFails(a, c, t, at);
      ShunnedFails(b, c, t, at);
    case Mark(next) =>
      ShunnedFails(next, c, t, at);
  }

  lemma {:induction false} LongestOnly(next: Re, c: Cls, t: string, at: nat, min: nat, k: nat)
    requires Shuns(next, c) && k < Span(c, t)
    ensures Longest(next, t, at, min, k) == None
    decreases k
  {
    SpanIsInClass(c, t);
    ShunnedFails(next, c, t[k..], at + k);
    if k >= min && k > 0 {
      LongestOnly(next, c, t, at, min, k - 1);
    }
  }

  /** A repetition whose continuation shuns its class, or matches behind the longest run, takes all it
      can, or fails. */
  lemma ManyIsGreedy(c: Cls, min: nat, next: Re, t: string, at: nat)
    requires Shuns(next, c) || Match(next, t[Span(c, t)..], at + Span(c, t)).Some?
    ensures var n := Span(c, t);
      Match(Many(c, min, next), t, at) == if n >= min then Match(next, t[n..], at + n) else None
  {
    var n := Span(c, t);
    if Shuns(next, c) && n > 0 {
      LongestOnly(next, c, t, at, min, n - 1);
    }
  }

  /** A repetition at the end of the pattern. */
  lemma LastManyIsGreedy(c: Cls, min: nat, t: string, at: nat)
    ensures Match(Many(c, min, Done), t, at) == if Span(c, t) >= min then Some([at + Span(c, t)]) else None
  {
    assert Match(Done, t[Span(c, t)..], at + Span(c, t)) == Some([at + Span(c, t)]);
    ManyIsGreedy(c, min, Done, t, at);
  }
}
