/** The two reference patterns of the canvas, as deterministic scanners proved equal to the
    backtracking matcher: what the migration rewrites and what the canvas substitutes. */
module References {
  import opened Common
  import opened Regex

  /** Where a match has its interesting part, and where it ends. */
  datatype Site = Site(start: nat, stop: nat, end: nat)

  function Marks(s: Option<Site>): Option<seq<nat>> {
    match s
    case None => None
    case Some(x) => Some([x.start, x.stop, x.end])
  }

  // ---------- `VARIABLE_REF_PATTERN` of the migration ----------

  const CLOSING: Re := Many(White, 0, Many(CloseBrace, 1, Done))
  const AFTER_ID: Re := Mark(One(AtSign, Many(VarChar, 1, CLOSING)))
  const MIGRATION_REF: Re := Many(OpenBrace, 1, Many(White, 0, Mark(Many(IdChar, 1, AFTER_ID))))

  /** The end of `var ws* }+` at the head of `t`, or nothing. */
  function AfterAt(t: string): (end: Option<nat>)
    ensures end.Some? ==> 2 <= end.value <= |t|
  {
    var v := Span(VarChar, t);
    var w := v + Span(White, t[v..]);
    var end := w + Span(CloseBrace, t[w..]);
    if v == 0 || end == w then None else Some(end)
  }

  /** `id@var ws* }+` at the head of `t`; the site is the id. */
  function IdPart(t: string): (s: Option<Site>)
    ensures s.Some? ==> 0 == s.value.start < s.value.stop < s.value.end <= |t|
  {
    var n := Span(IdChar, t);
    if n == 0 || n == |t| || t[n] != '@' then None
    else
      match AfterAt(t[n + 1..])
      case None => None
      case Some(e) => Some(Site(0, n, n + 1 + e))
  }

  function Shift(s: Option<Site>, off: nat): Option<Site> {
    match s
    case None => None
    case Some(x) => Some(Site(off + x.start, off + x.stop, off + x.end))
  }

  /** The braces and the white space in front of an id. */
  function Lead(t: string): (n: nat)
    ensures n <= |t|
  {
    var a := Span(OpenBrace, t);
    a + Span(White, t[a..])
  }

  /** A braced `{id@var}` at the head of `t`, white space allowed inside the braces; the site is the id. */
  function Braced(t: string): (s: Option<Site>)
    ensures s.Some? ==> 1 <= s.value.start < s.value.stop < s.value.end <= |t|
  {
    if t == [] || t[0] != '{' then None else Shift(IdPart(t[Lead(t)..]), Lead(t))
  }

  lemma ClosingIsGreedy(t: string, at: nat)
    ensures var w := Span(White, t);
      var end := w + Span(CloseBrace, t[w..]);
      Match(CLOSING, t, at) == if end == w then None else Some([at + end])
  {
    hide Match;
    ManyIsGreedy(White, 0, Many(CloseBrace, 1, Done), t, at);
    var w := Span(White, t);
    LastManyIsGreedy(CloseBrace, 1, t[w..], at + w);
  }

  lemma PatternFacts()
    ensures Shuns(CLOSING, VarChar) && Shuns(AFTER_ID, IdChar)
    ensures Shuns(Mark(Many(IdChar, 1, AFTER_ID)), White)
    ensures Shuns(Many(White, 0, Mark(Many(IdChar, 1, AFTER_ID))), OpenBrace)
  {
  }

  /** `AfterAt` with the ends of its three runs named. */
  lemma AfterAtRuns(t: string, v: nat, w: nat, end: nat)
    requires v == Span(VarChar, t) && w == v + Span(White, t[v..]) && w <= |t| && end == w + Span(CloseBrace, t[w..])
    ensures AfterAt(t) == if v == 0 || end == w then None else Some(end)
  {
    hide Span, In;
  }

  lemma AfterAtIsGreedy(t: string, at: nat)
    ensures Match(Many(VarChar, 1, CLOSING), t, at)
         == if AfterAt(t).Some? then Some([at + AfterAt(t).value]) else None
  {
    hide Match, Longest, Span, In, Shuns, AfterAt;
    PatternFacts();
    ManyIsGreedy(VarChar, 1, CLOSING, t, at);
    var v := Span(VarChar, t);
    SpanFits(VarChar, t);
    ClosingIsGreedy(t[v..], at + v);
    var w := Span(White, t[v..]);
    SpanFits(White, t[v..]);
    TwoDrops(t, v, w);
    AfterAtRuns(t, v, v + w, v + w + Span(CloseBrace, t[v + w..]));
  }

  lemma AfterIdIsGreedy(t: string, at: nat)
    ensures Match(AFTER_ID, t, at)
         == if t == [] || t[0] != '@' || AfterAt(t[1..]).None? then None
            else Some([at, at + 1 + AfterAt(t[1..]).value])
  {
    hide Match, AfterAt;
    MarkStep(One(AtSign, Many(VarChar, 1, CLOSING)), t, at);
    OneStep(AtSign, Many(VarChar, 1, CLOSING), t, at);
    if t != [] && t[0] == '@' {
      AfterAtIsGreedy(t[1..], at + 1);
      assert forall e: nat {:trigger [at] + [e]} :: [at] + [e] == [at, e];
    }
  }

  lemma IdPartIsGreedy(t: string, at: nat)
    ensures Match(Mark(Many(IdChar, 1, AFTER_ID)), t, at) == Marks(Shift(IdPart(t), at))
  {
    PatternFacts();
    hide Match, AfterAt, Shuns, In;
    var n := Span(IdChar, t);
    MarkStep(Many(IdChar, 1, AFTER_ID), t, at);
    ManyIsGreedy(IdChar, 1, AFTER_ID, t, at);
    AfterIdIsGreedy(t[n..], at + n);
    if n < |t| {
      assert t[n..][1..] == t[n + 1..];
    }
    var m := Match(Many(IdChar, 1, AFTER_ID), t, at);
    if m.Some? {
      var end := at + n + 1 + AfterAt(t[n + 1..]).value;
      assert m.value == [at + n, end];
      assert [at] + [at + n, end] == [at, at + n, end];
    }
  }

  /** The migration's pattern never needs to backtrack: `Braced` is its match. */
  lemma BracedIsRegex(t: string)
    ensures Match(MIGRATION_REF, t, 0) == Marks(Braced(t))
  {
    PatternFacts();
    hide Match, IdPart, Shuns;
    var inner := Mark(Many(IdChar, 1, AFTER_ID));
    var a := Span(OpenBrace, t);
    var u := t[a..];
    var w := Span(White, u);
    ManyIsGreedy(OpenBrace, 1, Many(White, 0, inner), t, 0);
    ManyIsGreedy(White, 0, inner, u, a);
    assert u[w..] == t[a + w..];
    IdPartIsGreedy(t[a + w..], a + w);
  }

  // ---------- The pattern of `get_value_with_variable` ----------

  const TAIL: Re := One(CloseBrace, Many(Space, 0, Many(CloseBrace, 0, Done)))
  const DOTTED_KEY: Re := Many(DottedIdChar, 1, One(AtSign, VAR_THEN_TAIL))
  const SYS_KEY: Re := One(Lit('s'), One(Lit('y'), One(Lit('s'), One(Lit('.'), Many(GlobalChar, 1, Mark(TAIL))))))
  const ENV_KEY: Re := One(Lit('e'), One(Lit('n'), One(Lit('v'), One(Lit('.'), Many(GlobalChar, 1, Mark(TAIL))))))
  const KEY: Re := Mark(Alt(DOTTED_KEY, Alt(SYS_KEY, ENV_KEY)))
  const CANVAS_REF: Re := Many(OpenBrace, 0, Many(Space, 0, One(OpenBrace, KEY)))

  /** The length of `id@var` at the head of `t`, when a closing brace follows. */
  function DottedKey(t: string): (n: Option<nat>)
    ensures n.Some? ==> n.value < |t| && t[n.value] == '}'
  {
    var i := Span(DottedIdChar, t);
    if i == 0 || i == |t| || t[i] != '@' then None
    else
      var v := i + 1 + Span(VarChar, t[i + 1..]);
      if v == i + 1 || v == |t| || t[v] != '}' then None else Some(v)
  }

  /** The length of a global's name at the head of `t`, when a closing brace follows. */
  function GlobalKey(prefix: string, t: string): (n: Option<nat>)
    ensures n.Some? ==> n.value < |t| && t[n.value] == '}'
  {
    if !(prefix <= t) then None
    else
      var v := |prefix| + Span(GlobalChar, t[|prefix|..]);
      if v == |prefix| || v == |t| || t[v] != '}' then None else Some(v)
  }

  function Key(t: string): (n: Option<nat>)
    ensures n.Some? ==> n.value < |t| && t[n.value] == '}'
  {
    if DottedKey(t).Some? then DottedKey(t)
    else if GlobalKey("sys.", t).Some? then GlobalKey("sys.", t)
    else GlobalKey("env.", t)
  }

  /** How many characters in front of the key belong to the reference: the braces, or braces, spaces and
      one more brace; 0 when there is no opening at the head of `t`. */
  function Opening(t: string): (h: nat)
    ensures h <= |t|
  {
    var a := Span(OpenBrace, t);
    var b := Span(Space, t[a..]);
    if b > 0 then (if a + b < |t| && t[a + b] == '{' then a + b + 1 else 0) else a
  }

  /** The length of the closing brace, the spaces and the braces that follow a key. */
  function Tail(t: string): (n: nat)
    requires t != []
    ensures 1 <= n <= |t|
  {
    var b := 1 + Span(Space, t[1..]);
    b + Span(CloseBrace, t[b..])
  }

  /** A reference the canvas substitutes, at the head of `t`; the site is the key. */
  function Reference(t: string): (s: Option<Site>)
    ensures s.Some? ==> 1 <= s.value.start <= s.value.stop < s.value.end <= |t|
  {
    var h := Opening(t);
    if h == 0 then None
    else
      match Key(t[h..])
      case None => None
      case Some(n) => Some(Site(h, h + n, h + n + Tail(t[h + n..])))
  }

  lemma OnlyBrace(x: char)
    ensures In(CloseBrace, x) <==> x == '}'
    ensures In(OpenBrace, x) <==> x == '{'
    ensures In(AtSign, x) <==> x == '@'
  {
  }

  lemma TailIs(t: string, b: nat)
    requires t != [] && b == Span(Space, t[1..])
    ensures t[1..][b..] == t[1 + b..] && Tail(t) == 1 + b + Span(CloseBrace, t[1..][b..])
  {
    hide Span;
    assert t[1..][b..] == t[1 + b..];
  }

  lemma TailIsGreedy(t: string, at: nat)
    ensures Match(TAIL, t, at) == if t == [] || t[0] != '}' then None else Some([at + Tail(t)])
  {
    hide Match, Longest, Span, In, Tail, Shuns;
    OneStep(CloseBrace, Many(Space, 0, Many(CloseBrace, 0, Done)), t, at);
    BraceClasses();
    if t != [] && t[0] == '}' {
      var u := t[1..];
      var b := Span(Space, u);
      TailIs(t, b);
      LastManyIsGreedy(CloseBrace, 0, u[b..], at + 1 + b);
      ManyIsGreedy(Space, 0, Many(CloseBrace, 0, Done), u, at + 1);
    } else if t != [] {
      OnlyBrace(t[0]);
    }
  }

  /** What a key pattern yields for a key of length `n` in front of its tail. */
  function Keyed(n: Option<nat>, t: string, at: nat): Option<seq<nat>>
    requires n.Some? ==> n.value < |t|
  {
    match n
    case None => None
    case Some(k) => Some([at + k, at + k + Tail(t[k..])])
  }

  lemma PatternsShun()
    ensures Shuns(One(AtSign, VAR_THEN_TAIL), DottedIdChar) && Shuns(One(OpenBrace, KEY), Space)
    ensures Shuns(Mark(TAIL), VarChar) && Shuns(Mark(TAIL), GlobalChar)
  {
  }

  /** `DottedKey` with its two runs named. */
  lemma DottedKeyRuns(t: string, i: nat, v: nat)
    requires i == Span(DottedIdChar, t)
    requires i < |t| ==> v == Span(VarChar, t[i + 1..])
    ensures DottedKey(t) ==
            if i == 0 || i == |t| || t[i] != '@' || v == 0 || i + 1 + v == |t| || t[i + 1 + v] != '}' then None
            else Some(i + 1 + v)
  {
    hide Span, In;
  }

  lemma SpanFits(c: Cls, t: string)
    ensures Span(c, t) <= |t|
  {
    hide Span, In;
  }

  lemma KeyedIs(n: Option<nat>, t: string, at: nat)
    requires n.Some? ==> n.value < |t|
    ensures Keyed(n, t, at) == if n.None? then None else Some([at + n.value, at + n.value + Tail(t[n.value..])])
  {
    hide Tail;
  }

  lemma GlobalKeyRuns(prefix: string, t: string, n: nat)
    requires |prefix| == 4 && (prefix <= t ==> n == Span(GlobalChar, t[4..]))
    ensures GlobalKey(prefix, t) ==
            if !(prefix <= t) || n == 0 || 4 + n == |t| || t[4 + n] != '}' then None else Some(4 + n)
  {
    hide Span, In;
  }

  lemma TwoDrops(t: string, i: nat, k: nat)
    requires i + k <= |t|
    ensures t[i..][k..] == t[i + k..] && (i + k < |t| ==> t[i..][k] == t[i + k])
    ensures i < |t| ==> t[i..] != [] && t[i..][0] == t[i]
  {
  }

  /** What follows the id of a key that is read behind its first `i` characters. */
  lemma AtSignThenTail(t: string, at: nat, i: nat)
    requires i <= |t|
    ensures var r := Match(One(AtSign, VAR_THEN_TAIL), t[i..], at + i);
      && (i == |t| || t[i] != '@' ==> r == None)
      && (i < |t| && t[i] == '@' ==>
            var v := Span(VarChar, t[i + 1..]);
            && i + 1 + v <= |t|
            && r == if v == 0 || i + 1 + v == |t| || t[i + 1 + v] != '}' then None
                    else Some([at + (i + 1 + v), at + (i + 1 + v) + Tail(t[i + 1 + v..])]))
  {
    hide Match, Longest, Span, In, Tail, Shuns;
    OneStep(AtSign, VAR_THEN_TAIL, t[i..], at + i);
    TwoDrops(t, i, 0);
    if i < |t| {
      OnlyBrace(t[i]);
      TwoDrops(t, i, 1);
      SpanFits(VarChar, t[i + 1..]);
      TwoDrops(t, i + 1, Span(VarChar, t[i + 1..]));
      VarThenTail(t[i + 1..], at + i + 1);
    }
  }

  lemma DottedKeyIsGreedy(t: string, at: nat)
    ensures Match(DOTTED_KEY, t, at) == Keyed(DottedKey(t), t, at)
  {
    hide Match, Longest, Span, In, Tail, Shuns, DottedKey, GlobalKey, Keyed;
    var i := Span(DottedIdChar, t);
    SpanFits(DottedIdChar, t);
    PatternsShun();
    ManyIsGreedy(DottedIdChar, 1, One(AtSign, VAR_THEN_TAIL), t, at);
    AtSignThenTail(t, at, i);
    if i < |t| {
      DottedKeyRuns(t, i, Span(VarChar, t[i + 1..]));
    } else {
      DottedKeyRuns(t, i, 0);
    }
    KeyedIs(DottedKey(t), t, at);
  }

  const VAR_THEN_TAIL: Re := Many(VarChar, 1, Mark(TAIL))

  lemma VarThenTail(u: string, at: nat)
    ensures var n := Span(VarChar, u);
      Match(VAR_THEN_TAIL, u, at)
        == if n == 0 || n == |u| || u[n] != '}' then None else Some([at + n, at + n + Tail(u[n..])])
  {
    hide Match;
    var n := Span(VarChar, u);
    assert Shuns(Mark(TAIL), VarChar);
    ManyIsGreedy(VarChar, 1, Mark(TAIL), u, at);
    MarkStep(TAIL, u[n..], at + n);
    TailIsGreedy(u[n..], at + n);
    hide Span, Tail, Shuns;
    assert forall x: nat, e: nat {:trigger [x] + [e]} :: [x] + [e] == [x, e];
  }

  /** The name part of a global's key, and the tail. */
  lemma GlobalNameIsGreedy(u: string, at: nat)
    ensures var n := Span(GlobalChar, u);
      Match(Many(GlobalChar, 1, Mark(TAIL)), u, at)
        == if n == 0 || n == |u| || u[n] != '}' then None else Some([at + n, at + n + Tail(u[n..])])
  {
    hide Match;
    var n := Span(GlobalChar, u);
    assert Shuns(Mark(TAIL), GlobalChar);
    ManyIsGreedy(GlobalChar, 1, Mark(TAIL), u, at);
    MarkStep(TAIL, u[n..], at + n);
    TailIsGreedy(u[n..], at + n);
    hide Span, Tail, Shuns;
    assert forall x: nat, e: nat {:trigger [x] + [e]} :: [x] + [e] == [x, e];
  }

  /** A literal prefix of four characters. */
  lemma LiteralPrefix(a: char, b: char, c: char, d: char, next: Re, t: string, at: nat)
    ensures var word := [a, b, c, d];
      Match(One(Lit(a), One(Lit(b), One(Lit(c), One(Lit(d), next)))), t, at)
        == if word <= t then Match(next, t[4..], at + 4) else None
  {
    hide Match;
    var r3 := One(Lit(d), next);
    var r2 := One(Lit(c), r3);
    var r1 := One(Lit(b), r2);
    OneStep(Lit(a), r1, t, at);
    if |t| >= 1 {
      OneStep(Lit(b), r2, t[1..], at + 1);
      if |t| >= 2 {
        assert t[1..][1..] == t[2..];
        OneStep(Lit(c), r3, t[2..], at + 2);
        if |t| >= 3 {
          assert t[2..][1..] == t[3..];
          OneStep(Lit(d), next, t[3..], at + 3);
          if |t| >= 4 {
            assert t[3..][1..] == t[4..];
          }
        }
      }
    }
  }

  lemma GlobalKeyIsGreedy(prefix: string, t: string, at: nat)
    requires |prefix| == 4
    ensures Match(One(Lit(prefix[0]),
        One(Lit(prefix[1]), One(Lit(prefix[2]), One(Lit(prefix[3]), Many(GlobalChar, 1, Mark(TAIL)))))), t, at)
         == Keyed(GlobalKey(prefix, t), t, at)
  {
    hide Match, Longest, Span, In, Tail, Shuns, DottedKey, GlobalKey, Keyed;
    LiteralPrefix(prefix[0], prefix[1], prefix[2], prefix[3], Many(GlobalChar, 1, Mark(TAIL)), t, at);
    assert [prefix[0], prefix[1], prefix[2], prefix[3]] == prefix;
    KeyedIs(GlobalKey(prefix, t), t, at);
    if prefix <= t {
      var u := t[4..];
      var n := Span(GlobalChar, u);
      SpanFits(GlobalChar, u);
      GlobalNameIsGreedy(u, at + 4);
      TwoDrops(t, 4, n);
      GlobalKeyRuns(prefix, t, n);
    } else {
      GlobalKeyRuns(prefix, t, 0);
    }
  }

  lemma KeyIsRegex(t: string, at: nat)
    ensures var n := Key(t);
      Match(KEY, t, at) == if n.Some? then Some([at, at + n.value, at + n.value + Tail(t[n.value..])]) else None
  {
    hide Match, Span, Tail;
    MarkStep(Alt(DOTTED_KEY, Alt(SYS_KEY, ENV_KEY)), t, at);
    AltStep(DOTTED_KEY, Alt(SYS_KEY, ENV_KEY), t, at);
    AltStep(SYS_KEY, ENV_KEY, t, at);
    DottedKeyIsGreedy(t, at);
    GlobalKeyIsGreedy("sys.", t, at);
    GlobalKeyIsGreedy("env.", t, at);
    hide DottedKey, GlobalKey;
    var n := Key(t);
    if n.Some? {
      var end := at + n.value + Tail(t[n.value..]);
      assert [at] + [at + n.value, end] == [at, at + n.value, end];
    }
  }

  /** Giving back braces never helps: behind fewer of them the key would have to begin with a brace. */
  lemma {:induction false} FewerBracesFail(t: string, at: nat, k: nat)
    requires k + 1 < Span(OpenBrace, t)
    ensures Longest(Many(Space, 0, One(OpenBrace, KEY)), t, at, 0, k) == None
    decreases k
  {
    hide Match;
    SpanIsInClass(OpenBrace, t);
    NoKeyBehindBrace(t[k + 1..], at + k + 1);
    OpeningBrace(t[k..], at + k);
    assert t[k..][1..] == t[k + 1..];
    if k > 0 {
      FewerBracesFail(t, at, k - 1);
    }
  }

  lemma NoKeyBehindBrace(t: string, at: nat)
    requires t != [] && (t[0] == '{' || t[0] == ' ')
    ensures Match(KEY, t, at) == None
  {
    hide Match;
    KeyIsRegex(t, at);
  }

  /** `Many(Space)` and one brace in front of the key. */
  lemma OpeningBrace(t: string, at: nat)
    ensures var b := Span(Space, t);
      Match(Many(Space, 0, One(OpenBrace, KEY)), t, at)
        == if b < |t| && t[b] == '{' then Match(KEY, t[b + 1..], at + b + 1) else None
  {
    hide Match, Longest, Span, In, Tail, Shuns, DottedKey, GlobalKey, Keyed;
    var b := Span(Space, t);
    SpanFits(Space, t);
    PatternsShun();
    ManyIsGreedy(Space, 0, One(OpenBrace, KEY), t, at);
    OneStep(OpenBrace, KEY, t[b..], at + b);
    TwoDrops(t, b, 0);
    if b < |t| {
      TwoDrops(t, b, 1);
      OnlyBrace(t[b]);
    }
  }

  lemma ManyStep(c: Cls, min: nat, next: Re, t: string, at: nat)
    ensures Match(Many(c, min, next), t, at) == Longest(next, t, at, min, Span(c, t))
  {
  }

  lemma LongestStep(next: Re, t: string, at: nat, k: nat)
    requires k <= |t|
    ensures Longest(next, t, at, 0, k)
         == if Match(next, t[k..], at + k).Some? then Match(next, t[k..], at + k)
            else if k == 0 then None else Longest(next, t, at, 0, k - 1)
  {
  }

  /** The canvas pattern backtracks by one brace at most: `Reference` is its match. */
  lemma ReferenceIsRegex(t: string)
    ensures Match(CANVAS_REF, t, 0) == Marks(Reference(t))
  {
    hide Match, Longest, Key, Tail, Opening;
    var next := Many(Space, 0, One(OpenBrace, KEY));
    var a := Span(OpenBrace, t);
    ManyStep(OpenBrace, 0, next, t, 0);
    LongestStep(next, t, 0, a);
    FullOpening(t);
    if a > 0 {
      BehindLastBrace(t);
      LongestStep(next, t, 0, a - 1);
      if a > 1 {
        FewerBracesFail(t, 0, a - 2);
      }
    }
    hide Span;
    KeyIsRegex(t[Opening(t)..], Opening(t));
  }

  lemma FirstSpace(u: string)
    requires Span(Space, u) > 0
    ensures u != [] && u[0] == ' '
  {
  }

  /** Which way of reading the opening can have a key behind it: the one `Opening` describes. */
  lemma FullOpening(t: string)
    ensures var a := Span(OpenBrace, t);
      var all := Match(Many(Space, 0, One(OpenBrace, KEY)), t[a..], a);
      var key := Match(KEY, t[Opening(t)..], Opening(t));
      && (Opening(t) > a ==> all == key && (a > 0 ==> Match(KEY, t[a..], a) == None))
      && (Opening(t) <= a ==> all == None)
      && (0 < a && Opening(t) == 0 ==> Match(KEY, t[a..], a) == None)
      && (Opening(t) <= a ==> Opening(t) == 0 || Opening(t) == a)
  {
    hide Match, Longest, Span, In, Shuns;
    var a := Span(OpenBrace, t);
    SpanFits(OpenBrace, t);
    var u := t[a..];
    var b := Span(Space, u);
    TwoDrops(t, a, 0);
    if a < |t| {
      OnlyBrace(t[a]);
    }
    SpanFits(Space, u);
    OpeningBrace(u, a);
    if b < |u| {
      TwoDrops(t, a, b);
      TwoDrops(t, a, b + 1);
    }
    if b > 0 {
      FirstSpace(u);
      NoKeyBehindBrace(u, a);
    }
  }

  /** Giving back the last brace leaves it to be the one in front of the key. */
  lemma BehindLastBrace(t: string)
    requires Span(OpenBrace, t) > 0
    ensures var a := Span(OpenBrace, t);
      Match(Many(Space, 0, One(OpenBrace, KEY)), t[a - 1..], a - 1) == Match(KEY, t[a..], a)
  {
    hide Match;
    var a := Span(OpenBrace, t);
    SpanIsInClass(OpenBrace, t);
    var w := t[a - 1..];
    OpeningBrace(w, a - 1);
    assert w[0] == '{' && Span(Space, w) == 0 && w[1..] == t[a..];
  }
}
