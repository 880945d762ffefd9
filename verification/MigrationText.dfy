/** The text half of the DSL migration: rewriting the ids inside reference braces, and exactly when the
    rewritten text renders as before once the outputs are kept under the new ids. */
module MigrationText {
  import opened Common
  import opened Regex
  import opened References

  type Renaming = string -> string

  /** `VARIABLE_REF_PATTERN.sub(repl, text)`: every match, left to right, with its id renamed. */
  function Rewrite(f: Renaming, t: string): string
    decreases |t|
  {
    if t == [] then []
    else
      match Braced(t)
      case None => [t[0]] + Rewrite(f, t[1..])
      case Some(s) => t[..s.start] + f(t[s.start..s.stop]) + t[s.stop..s.end] + Rewrite(f, t[s.end..])
  }

  /** An id the migration's pattern can see. */
  predicate Plain(id: string) {
    id != [] && Span(IdChar, id) == |id|
  }

  ghost predicate KeepsPlain(f: Renaming) {
    forall id :: Plain(id) ==> Plain(f(id))
  }

  // ---------- What the canvas reads ----------

  /** Component outputs by id and variable name (as text), and the global variables. */
  datatype Outputs = Outputs(cpns: map<string, string -> string>, globals: map<string, string>)

  function IndexOf(c: char, s: string): (i: nat)
    ensures i <= |s|
  {
    if s == [] || s[0] == c then 0 else 1 + IndexOf(c, s[1..])
  }

  /** `get_variable_value`; None stands for the exception on an unknown component or global. */
  function ValueOf(w: Outputs, key: string): Option<string> {
    var i := IndexOf('@', key);
    if i == |key| then (if key in w.globals then Some(w.globals[key]) else None)
    else if key[..i] in w.cpns then Some(w.cpns[key[..i]](key[i + 1..]))
    else None
  }

  /** `get_value_with_variable`. */
  function Render(w: Outputs, t: string): Option<string>
    decreases |t|
  {
    if t == [] then Some([])
    else
      match Reference(t)
      case None => Prefixed(Some([t[0]]), Render(w, t[1..]))
      case Some(s) => Prefixed(ValueOf(w, t[s.start..s.stop]), Render(w, t[s.end..]))
  }

  function Prefixed(a: Option<string>, b: Option<string>): Option<string> {
    if a.Some? && b.Some? then Some(a.value + b.value) else None
  }

  // ---------- Spans of spliced text ----------

  lemma SpanHead(c: Cls, t: string)
    requires t != []
    ensures Span(c, t) == if In(c, t[0]) then 1 + Span(c, t[1..]) else 0
  {
    hide In;
  }

  lemma {:induction false} SpanAppend(c: Cls, x: string, y: string)
    ensures Span(c, x) < |x| || y == [] || !In(c, y[0]) ==> Span(c, x + y) == Span(c, x)
    ensures Span(c, x) == |x| ==> Span(c, x + y) == |x| + Span(c, y)
  {
    if x == [] {
      assert x + y == y;
    } else {
      assert (x + y)[0] == x[0] && (x + y)[1..] == x[1..] + y;
      SpanAppend(c, x[1..], y);
      SpanHead(c, x);
      SpanHead(c, x + y);
      hide Span, In;
    }
  }

  lemma {:induction false} SpanDrop(c: Cls, t: string, k: nat)
    requires k <= Span(c, t)
    ensures Span(c, t[k..]) == Span(c, t) - k
  {
    if k > 0 {
      assert t[k..] == t[1..][k - 1..];
      SpanDrop(c, t[1..], k - 1);
    } else {
      assert t[0..] == t;
    }
  }

  lemma {:induction false} SpanTake(c: Cls, t: string, k: nat)
    requires k <= Span(c, t)
    ensures Span(c, t[..k]) == k
  {
    if k > 0 {
      assert t[..k][1..] == t[1..][..k - 1];
      SpanTake(c, t[1..], k - 1);
    }
  }

  // ---------- Where rewriting does nothing ----------

  lemma HeadKept(f: Renaming, t: string)
    requires t != []
    ensures Rewrite(f, t) != [] && Rewrite(f, t)[0] == t[0]
  {
    hide Braced;
  }

  lemma TakesNothing(t: string, rest: string)
    ensures t[0..] == t && t[..0] + rest == rest
  {
  }

  lemma TakesOne(t: string, k: nat, rest: string)
    requires 0 < k <= |t|
    ensures [t[0]] + (t[1..][..k - 1] + rest) == t[..k] + rest
  {
    assert [t[0]] + t[1..][..k - 1] == t[..k];
  }

  lemma RewriteCopies(f: Renaming, t: string)
    requires t != [] && Braced(t) == None
    ensures Rewrite(f, t) == [t[0]] + Rewrite(f, t[1..])
  {
    hide Braced;
  }

  lemma {:induction false} RewriteSkips(f: Renaming, t: string, k: nat)
    requires k <= |t| && forall j :: 0 <= j < k ==> Braced(t[j..]) == None
    ensures Rewrite(f, t) == t[..k] + Rewrite(f, t[k..])
    decreases k
  {
    hide Braced, Rewrite;
    if k == 0 {
      TakesNothing(t, Rewrite(f, t));
    } else {
      forall j | 0 <= j < k - 1 ensures Braced(t[1..][j..]) == None {
        TwoDrops(t, 1, j);
      }
      RewriteSkips(f, t[1..], k - 1);
      TwoDrops(t, 1, k - 1);
      assert t[0..] == t;
      RewriteCopies(f, t);
      TakesOne(t, k, Rewrite(f, t[k..]));
    }
  }

  ghost predicate NoBrace(x: string) {
    '{' !in x
  }

  lemma RewriteSkipsPlainText(f: Renaming, t: string, k: nat)
    requires k <= |t| && NoBrace(t[..k])
    ensures Rewrite(f, t) == t[..k] + Rewrite(f, t[k..])
  {
    forall j | 0 <= j < k ensures Braced(t[j..]) == None {
      assert t[j..][0] == t[j] == t[..k][j];
    }
    RewriteSkips(f, t, k);
  }

  lemma BracesAt(t: string, j: nat)
    requires j < Span(OpenBrace, t)
    ensures t[j] == '{' && t[0] == '{'
  {
    SpanIsInClass(OpenBrace, t);
    hide Span;
  }

  lemma LeadInRun(t: string, j: nat)
    requires j < Span(OpenBrace, t)
    ensures t[j] == '{' && t[0] == '{' && Lead(t[j..]) == Lead(t) - j
  {
    hide *;
    var a := Span(OpenBrace, t);
    SpanFits(OpenBrace, t);
    BracesAt(t, j);
    SpanDrop(OpenBrace, t, j);
    LeadShape(t);
    LeadShape(t[j..]);
    TwoDrops(t, j, a - j);
  }

  lemma LeadFits(t: string)
    ensures Span(OpenBrace, t) <= Lead(t) <= |t|
  {
  }

  lemma Behind(t: string, j: nat, k: nat)
    requires j <= k <= |t|
    ensures t[j..][k - j..] == t[k..]
    ensures j < |t| ==> t[j..] != [] && t[j..][0] == t[j]
  {
  }

  lemma BracedShape(t: string)
    ensures Braced(t) == None <==> t == [] || t[0] != '{' || IdPart(t[Lead(t)..]) == None
  {
    hide IdPart, Lead;
  }

  /** Behind fewer braces of the same run there is a match exactly when there is one behind all. */
  lemma BracedInRun(t: string, j: nat)
    requires j < Span(OpenBrace, t)
    ensures Braced(t[j..]) == None <==> Braced(t) == None
  {
    hide *;
    LeadInRun(t, j);
    LeadFits(t);
    Behind(t, j, Lead(t));
    BracedShape(t);
    BracedShape(t[j..]);
  }

  lemma LeadLength(t: string)
    ensures Span(OpenBrace, t) + Span(Space, t[Span(OpenBrace, t)..]) <= |t|
  {
  }

  lemma SpaceAt(u: string, k: nat)
    requires k < Span(Space, u)
    ensures u[k] == ' '
  {
    SpanIsInClass(Space, u);
  }

  lemma Behind2(t: string, a: nat, j: nat)
    requires a <= j < |t|
    ensures t[j..] != [] && t[j..][0] == t[a..][j - a] == t[j]
  {
  }

  lemma NoMatchInLead(t: string, j: nat)
    requires Braced(t) == None
    requires j < Span(OpenBrace, t) + Span(Space, t[Span(OpenBrace, t)..])
    ensures Braced(t[j..]) == None
  {
    hide *;
    var a := Span(OpenBrace, t);
    if j < a {
      BracedInRun(t, j);
    } else {
      SpaceAt(t[a..], j - a);
      Behind2(t, a, j);
      BracedShape(t[j..]);
    }
  }

  /** Without a match at its head, a run of braces and the spaces behind it are copied. */
  lemma LeadIsCopied(f: Renaming, t: string)
    requires Braced(t) == None
    ensures var a := Span(OpenBrace, t);
      var n := a + Span(Space, t[a..]);
      Rewrite(f, t) == t[..n] + Rewrite(f, t[n..])
  {
    hide *;
    LeadLength(t);
    forall j | 0 <= j < Span(OpenBrace, t) + Span(Space, t[Span(OpenBrace, t)..]) ensures Braced(t[j..]) == None {
      NoMatchInLead(t, j);
    }
    RewriteSkips(f, t, Span(OpenBrace, t) + Span(Space, t[Span(OpenBrace, t)..]));
  }

  // ---------- Keys ----------

  lemma BraceIsOutside()
    ensures !In(DottedIdChar, '{') && !In(VarChar, '{') && !In(GlobalChar, '{')
  {
  }

  lemma Appended(x: string, y: string, i: nat)
    requires i <= |x|
    ensures (x + y)[i..] == x[i..] + y
    ensures forall k :: 0 <= k < |x| ==> (x + y)[k] == x[k]
    ensures y != [] ==> (x + y)[|x|] == y[0]
  {
  }

  lemma DottedKeyLocal(x: string, y: string)
    requires y == [] || y[0] == '{'
    ensures DottedKey(x + y) == DottedKey(x)
  {
    hide *;
    BraceIsOutside();
    NoSpan(DottedIdChar, y);
    NoSpan(VarChar, y);
    SpanAppend(DottedIdChar, x, y);
    var i := Span(DottedIdChar, x);
    SpanFits(DottedIdChar, x);
    if i < |x| {
      var u := x[i + 1..];
      var v := Span(VarChar, u);
      SpanFits(VarChar, u);
      SpanAppend(VarChar, u, y);
      Appended(x, y, i + 1);
      DottedKeyRuns(x, i, v);
      DottedKeyRuns(x + y, i, v);
    } else {
      DottedKeyRuns(x, i, 0);
      Appended(x, y, i);
      DottedKeyRuns(x + y, i, if y == [] then 0 else Span(VarChar, (x + y)[i + 1..]));
    }
  }

  lemma GlobalKeyLocal(prefix: string, x: string, y: string)
    requires y == [] || y[0] == '{'
    requires |prefix| == 4 && NoBrace(prefix)
    ensures GlobalKey(prefix, x + y) == GlobalKey(prefix, x)
  {
    if prefix <= x {
      assert (x + y)[4..] == x[4..] + y;
      SpanAppend(GlobalChar, x[4..], y);
    } else {
      assert |x| < 4 && y != [] ==> prefix[|x|] != '{' && (x + y)[|x|] == '{';
      assert |x| >= 4 ==> (x + y)[..4] == x[..4];
    }
    hide Span;
  }

  /** A key is read off the text before the next opening brace. */
  lemma KeyLocal(x: string, y: string)
    requires y == [] || y[0] == '{'
    ensures Key(x + y) == Key(x)
  {
    hide DottedKey, GlobalKey;
    DottedKeyLocal(x, y);
    GlobalKeyLocal("sys.", x, y);
    GlobalKeyLocal("env.", x, y);
  }

  function UptoBrace(t: string): (n: nat)
    ensures n <= |t|
    ensures NoBrace(t[..n])
    ensures n < |t| ==> t[n] == '{'
  {
    if t == [] || t[0] == '{' then 0
    else
      var n := 1 + UptoBrace(t[1..]);
      assert t[..n] == [t[0]] + t[1..][..n - 1];
      n
  }

  /** Rewriting what follows neither makes nor breaks a key at the head. */
  lemma KeyIsStable(f: Renaming, t: string)
    ensures Key(Rewrite(f, t)) == Key(t)
  {
    hide Key, Rewrite, Braced;
    var p := UptoBrace(t);
    RewriteSkipsPlainText(f, t, p);
    assert t == t[..p] + t[p..];
    if p < |t| {
      HeadKept(f, t[p..]);
    }
    RewriteOfNothing(f);
    KeyLocal(t[..p], t[p..]);
    KeyLocal(t[..p], Rewrite(f, t[p..]));
  }

  lemma RewriteOfNothing(f: Renaming)
    ensures Rewrite(f, []) == []
  {
  }

  /** The key with its id renamed, when the migration's pattern can see the id. */
  function RenamedKey(f: Renaming, key: string): string {
    var i := IndexOf('@', key);
    if i < |key| && Plain(key[..i]) then f(key[..i]) + key[i..] else key
  }

  lemma {:induction false} IndexOfIn(c: char, x: string, k: nat)
    requires k < |x| && x[k] == c && forall j :: 0 <= j < k ==> x[j] != c
    ensures IndexOf(c, x) == k
  {
    if k > 0 {
      assert x[1..][k - 1] == c;
      forall j | 0 <= j < k - 1 ensures x[1..][j] != c { assert x[1..][j] == x[j + 1]; }
      IndexOfIn(c, x[1..], k - 1);
    }
  }

  lemma {:induction false} IndexOfAbsent(c: char, x: string)
    requires forall j :: 0 <= j < |x| ==> x[j] != c
    ensures IndexOf(c, x) == |x|
  {
    if x != [] {
      forall j | 0 <= j < |x| - 1 ensures x[1..][j] != c { assert x[1..][j] == x[j + 1]; }
      IndexOfAbsent(c, x[1..]);
    }
  }

  /** A dotted key is an id, `@` and a variable name. */
  lemma DottedKeyShape(u: string)
    requires DottedKey(u).Some?
    ensures var n, i := DottedKey(u).value, Span(DottedIdChar, u);
      && 0 < i < i + 1 < n && u[i] == '@' && n == i + 1 + Span(VarChar, u[i + 1..])
      && IndexOf('@', u[..n]) == i
      && NoBrace(u[..n])
  {
    var n, i := DottedKey(u).value, Span(DottedIdChar, u);
    SpanIsInClass(DottedIdChar, u);
    SpanIsInClass(VarChar, u[i + 1..]);
    IndexOfIn('@', u[..n], i);
    forall k | 0 <= k < n ensures u[..n][k] != '{' {
      if k > i {
        assert u[i + 1..][k - i - 1] == u[k];
      }
    }
    hide Span;
  }

  lemma GlobalKeyShape(prefix: string, u: string)
    requires |prefix| == 4 && NoBrace(prefix) && '@' !in prefix
    requires GlobalKey(prefix, u).Some?
    ensures var n := GlobalKey(prefix, u).value;
      n > 4 && NoBrace(u[..n]) && IndexOf('@', u[..n]) == n && u[..4] == prefix
  {
    var n := GlobalKey(prefix, u).value;
    SpanIsInClass(GlobalChar, u[4..]);
    forall k | 0 <= k < n ensures u[k] != '{' && u[k] != '@' {
      if k >= 4 {
        assert u[4..][k - 4] == u[k];
      } else {
        assert u[k] == prefix[k];
      }
    }
    IndexOfAbsent('@', u[..n]);
    hide Span;
  }

  /** A key contains no brace, and begins with neither a space nor any other white space. */
  lemma KeyShape(u: string)
    requires Key(u).Some?
    ensures var n := Key(u).value;
      0 < n && NoBrace(u[..n]) && !IsWhite(u[0]) && u[n] == '}'
  {
    var n := Key(u).value;
    if DottedKey(u).Some? {
      DottedKeyShape(u);
    } else if GlobalKey("sys.", u).Some? {
      GlobalKeyShape("sys.", u);
      assert u[0] == u[..4][0];
    } else {
      GlobalKeyShape("env.", u);
      assert u[0] == u[..4][0];
    }
  }

  /** The plain characters of a dotted id are all of it, or stop at a dot. */
  lemma PlainPrefix(t: string)
    ensures Span(IdChar, t) <= Span(DottedIdChar, t)
    ensures Span(IdChar, t) < Span(DottedIdChar, t) ==> t[Span(IdChar, t)] == '.'
  {
  }

  lemma DotIsNoIdChar()
    ensures !In(IdChar, '.')
  {
  }

  lemma TakeSplits(t: string, k: nat, i: nat)
    requires k <= i <= |t|
    ensures t[..i] == t[..k] + t[k..i] && |t[..k]| == k
  {
  }

  lemma SpanOfIdChars(t: string, i: nat)
    requires i == Span(DottedIdChar, t) <= |t|
    ensures Span(IdChar, t[..i]) == Span(IdChar, t)
  {
    hide *;
    PlainPrefix(t);
    var k := Span(IdChar, t);
    SpanTake(DottedIdChar, t, i);
    SpanTake(IdChar, t, k);
    Cut(t[..i], k, i);
    SpanAppend(IdChar, t[..k], t[k..i]);
    DotIsNoIdChar();
    if k < i {
      assert t[k..i][0] == t[k];
    }
    TakeSplits(t, k, i);
  }

  lemma IdPartRuns(u: string, m: nat, after: Option<nat>)
    requires m == Span(IdChar, u) && m < |u| && after == AfterAt(u[m + 1..])
    ensures IdPart(u) == if m == 0 || u[m] != '@' || after.None? then None else Some(Site(0, m, m + 1 + after.value))
  {
    hide Span, AfterAt;
  }

  lemma AfterKey(u: string, i: nat, v: nat)
    requires DottedKey(u) == Some(i + 1 + v) && i + 1 + v < |u|
    ensures u[i + 1..][v..] == u[i + 1 + v..] && u[i + 1..][v] == '}' && v < |u[i + 1..]|
  {
    hide DottedKey;
    TwoDrops(u, i + 1, v);
  }

  lemma IdPartOfDottedKey(u: string)
    requires DottedKey(u).Some?
    ensures var n, i := DottedKey(u).value, Span(DottedIdChar, u);
      && (IdPart(u).Some? <==> Span(IdChar, u) == i)
      && (IdPart(u).Some? ==> IdPart(u).value == Site(0, i, n + Span(CloseBrace, u[n..])))
  {
    hide *;
    DottedKeyShape(u);
    PlainPrefix(u);
    var n, i := DottedKey(u).value, Span(DottedIdChar, u);
    var m, v := Span(IdChar, u), n - i - 1;
    if m == i {
      AfterKey(u, i, v);
      AfterAtAtTail(u[i + 1..]);
      IdPartRuns(u, i, AfterAt(u[i + 1..]));
    } else {
      IdPartRuns(u, m, AfterAt(u[m + 1..]));
    }
  }

  /** A variable name directly followed by a closing brace. */
  lemma AfterAtAtTail(t: string)
    requires var v := Span(VarChar, t);
      0 < v < |t| && t[v] == '}'
    ensures var v := Span(VarChar, t);
      AfterAt(t) == Some(v + Span(CloseBrace, t[v..]))
  {
    hide *;
    var v := Span(VarChar, t);
    assert t[v..] != [] && t[v..][0] == '}';
    BraceClasses();
    NoSpan(White, t[v..]);
    SomeSpan(CloseBrace, t[v..]);
    AfterAtRuns(t, v, v, v + Span(CloseBrace, t[v..]));
  }

  lemma IdPartOfGlobalKey(prefix: string, u: string)
    requires prefix == "sys." || prefix == "env."
    requires GlobalKey(prefix, u).Some?
    ensures IdPart(u) == None && IndexOf('@', u[..GlobalKey(prefix, u).value]) == GlobalKey(prefix, u).value
  {
    GlobalKeyShape(prefix, u);
    assert u[3] == u[..4][3] == '.' && u[0] == u[..4][0] && u[1] == u[..4][1] && u[2] == u[..4][2];
    ThreeLetters(u);
    hide Span, AfterAt;
  }

  /** In front of a key the migration's pattern matches exactly the keys with a plain id, and it ends
      with the closing braces that follow directly. */
  lemma MigrationSeesPlainKeys(u: string)
    requires Key(u).Some?
    ensures var n := Key(u).value;
      var i := IndexOf('@', u[..n]);
      && (IdPart(u).Some? <==> i < n && Plain(u[..i]))
      && (IdPart(u).Some? ==> u[..n][..i] == u[..i])
      && (IdPart(u).Some? ==> IdPart(u).value == Site(0, i, n + Span(CloseBrace, u[n..])))
  {
    if DottedKey(u).Some? {
      DottedKeyShape(u);
      IdPartOfDottedKey(u);
      SpanOfIdChars(u, Span(DottedIdChar, u));
    } else if GlobalKey("sys.", u).Some? {
      IdPartOfGlobalKey("sys.", u);
    } else {
      IdPartOfGlobalKey("env.", u);
    }
    hide Span, IdPart, DottedKey, GlobalKey, IndexOf;
  }

  lemma ThreeLetters(u: string)
    requires |u| > 3 && In(IdChar, u[0]) && In(IdChar, u[1]) && In(IdChar, u[2]) && u[3] == '.'
    ensures Span(IdChar, u) == 3
  {
    assert u == u[..3] + u[3..];
    assert u[..3] == [u[0], u[1], u[2]];
    assert Span(IdChar, [u[0], u[1], u[2]]) == 3 by {
      assert [u[0], u[1], u[2]][1..] == [u[1], u[2]];
      assert [u[1], u[2]][1..] == [u[2]];
    }
    SpanAppend(IdChar, u[..3], u[3..]);
  }

  // ---------- Rewriting and reading at one reference ----------

  lemma NoBraceInRun(c: Cls, w: string, a: nat, b: nat)
    requires c == VarChar || c == White || c == Space || c == CloseBrace
    requires a <= |w| && b == a + Span(c, w[a..])
    ensures b <= |w| && forall k :: a <= k < b ==> w[k] != '{'
    ensures c == CloseBrace && b > a ==> w[b - 1] == '}'
  {
    SpanIsInClass(c, w[a..]);
    forall k | a <= k < b ensures w[k] == w[a..][k - a] && In(c, w[a..][k - a]) {
    }
    hide Span;
  }

  lemma NoneInPrefix(w: string, e: nat)
    requires e <= |w| && forall k :: 0 <= k < e ==> w[k] != '{'
    ensures '{' !in w[..e] && NoBrace(w[..e])
  {
  }

  /** The braces that follow a closing brace directly belong to its tail. */
  lemma CloseSpanFits(v: string)
    requires v != [] && v[0] == '}'
    ensures Span(CloseBrace, v) <= Tail(v)
  {
    BraceClasses();
    SpanHead(CloseBrace, v);
    var b := Span(Space, v[1..]);
    hide Span, In;
    TailIs(v, b);
    if b == 0 {
      assert v[1..][0..] == v[1..];
    } else {
      SpaceStops(v[1..]);
    }
  }

  lemma SpaceStops(u: string)
    requires Span(Space, u) > 0
    ensures Span(CloseBrace, u) == 0
  {
  }

  lemma TailShape(v: string)
    requires v != [] && v[0] == '}'
    ensures Span(CloseBrace, v) <= Tail(v) && NoBrace(v[..Tail(v)])
  {
    hide *;
    var b := 1 + Span(Space, v[1..]);
    SpanFits(Space, v[1..]);
    SpanFits(CloseBrace, v[b..]);
    TailIs(v, b - 1);
    TwoDrops(v, 1, b - 1);
    BraceClasses();
    SpanHead(CloseBrace, v);
    CloseSpanFits(v);
    NoBraceInRun(Space, v, 1, b);
    NoBraceInRun(CloseBrace, v, b, Tail(v));
    NoneInPrefix(v, Tail(v));
  }

  lemma NoBraceSlice(v: string, y: nat, e: nat)
    requires y <= e <= |v| && NoBrace(v[..e])
    ensures NoBrace(v[y..][..e - y]) && v[y..][..e - y] == v[y..e] && v[y..][e - y..] == v[e..]
  {
    Cut(v, y, e);
    assert forall ch <- v[y..e] :: ch in v[..e];
  }

  // Slices of slices and regrouped concatenations, kept away from larger proofs.

  lemma Cut(t: string, i: nat, j: nat)
    requires i <= j <= |t|
    ensures t[i..][..j - i] == t[i..j] && t[i..][j - i..] == t[j..] && t[..i] + t[i..j] == t[..j]
  {
  }

  lemma Cut3(t: string, i: nat, j: nat, k: nat)
    requires i <= j <= k <= |t|
    ensures t[i..][j - i..k - i] == t[j..k] && t[i..j] + t[j..k] == t[i..k]
  {
  }

  lemma Glue(a: string, b: string, c: string)
    ensures a + (b + c) == a + b + c
  {
  }

  lemma Glue4(a: string, b: string, c: string, d: string)
    ensures a + (b + c + d) == a + b + c + d
  {
  }

  lemma Regroup(a: string, b: string, c: string, d: string, e: string)
    ensures a + (b + c + d + e) == (a + b) + c + d + e
  {
  }

  /** Behind a key: the braces the migration's match takes are part of the canvas's tail, and the rest of
      the tail is copied. */
  lemma TailIsCopied(f: Renaming, v: string)
    requires v != [] && v[0] == '}'
    ensures Span(CloseBrace, v) <= Tail(v)
    ensures Rewrite(f, v[Span(CloseBrace, v)..]) == v[Span(CloseBrace, v)..Tail(v)] + Rewrite(f, v[Tail(v)..])
  {
    hide Rewrite, Span, Tail, NoBrace;
    TailShape(v);
    var y, e := Span(CloseBrace, v), Tail(v);
    NoBraceSlice(v, y, e);
    RewriteSkipsPlainText(f, v[y..], e - y);
  }

  /** Rewriting from a key on. */
  lemma RewriteFromKey(f: Renaming, u: string)
    requires Key(u).Some?
    ensures var n := Key(u).value;
      var e := n + Tail(u[n..]);
      && (IdPart(u).Some? ==>
            var p := IdPart(u).value;
            f(u[..p.stop]) + u[p.stop..p.end] + Rewrite(f, u[p.end..])
              == RenamedKey(f, u[..n]) + u[n..e] + Rewrite(f, u[e..]))
      && (IdPart(u).None? ==> Rewrite(f, u) == RenamedKey(f, u[..n]) + u[n..e] + Rewrite(f, u[e..]))
  {
    if IdPart(u).Some? {
      RewriteFromPlainKey(f, u);
    } else {
      RewriteFromOtherKey(f, u);
    }
  }

  lemma RenamedPlainKey(f: Renaming, key: string, i: nat)
    requires i == IndexOf('@', key) && i < |key| && Plain(key[..i])
    ensures RenamedKey(f, key) == f(key[..i]) + key[i..]
  {
    hide IndexOf, Plain;
  }

  lemma PlainKeySlices(u: string, n: nat, i: nat, y: nat, e: nat, id: string, rest: string)
    requires i <= n <= |u| && y <= e <= |u| - n
    ensures var v := u[n..];
      && v[y..] == u[n + y..] && v[e..] == u[n + e..] && v[y..e] == u[n + y..n + e]
      && u[..n][..i] == u[..i] && u[..n][i..] == u[i..n]
      && id + u[i..n + y] + (v[y..e] + rest) == id + u[i..n] + u[n..n + e] + rest
  {
    var v := u[n..];
    assert v[y..e] == u[n + y..n + e];
    assert u[i..n + y] + u[n + y..n + e] == u[i..n] + u[n..n + e];
    Glue5(id, u[i..n + y], u[n + y..n + e], u[i..n], u[n..n + e], rest);
  }

  lemma Glue5(id: string, a: string, b: string, c: string, d: string, rest: string)
    requires a + b == c + d
    ensures id + a + (b + rest) == id + c + d + rest
  {
    assert id + a + (b + rest) == id + (a + b) + rest;
    assert id + c + d + rest == id + (c + d) + rest;
  }

  lemma RewriteFromPlainKey(f: Renaming, u: string)
    requires Key(u).Some? && IdPart(u).Some?
    ensures var n := Key(u).value;
      var e := n + Tail(u[n..]);
      var p := IdPart(u).value;
      f(u[..p.stop]) + u[p.stop..p.end] + Rewrite(f, u[p.end..]) == RenamedKey(f, u[..n]) + u[n..e] + Rewrite(f, u[e..])
  {
    hide *;
    var n := Key(u).value;
    var v := u[n..];
    KeyShape(u);
    MigrationSeesPlainKeys(u);
    TailIsCopied(f, v);
    var i := IndexOf('@', u[..n]);
    RenamedPlainKey(f, u[..n], i);
    PlainKeySlices(u, n, i, Span(CloseBrace, v), Tail(v), f(u[..i]), Rewrite(f, u[n + Tail(v)..]));
  }

  lemma RewriteFromOtherKey(f: Renaming, u: string)
    requires Key(u).Some? && IdPart(u).None?
    ensures var n := Key(u).value;
      var e := n + Tail(u[n..]);
      Rewrite(f, u) == RenamedKey(f, u[..n]) + u[n..e] + Rewrite(f, u[e..])
  {
    hide Rewrite, Key, IdPart, Tail, Span;
    var n := Key(u).value;
    var v := u[n..];
    var e := n + Tail(v);
    KeyShape(u);
    MigrationSeesPlainKeys(u);
    TailShape(v);
    forall k | 0 <= k < e ensures u[..e][k] != '{' {
      if k < n { assert u[..n][k] != '{'; } else { assert v[..Tail(v)][k - n] != '{'; }
    }
    RewriteSkipsPlainText(f, u, e);
    var i := IndexOf('@', u[..n]);
    assert u[..n][..i] == u[..i];
    assert RenamedKey(f, u[..n]) == u[..n];
    Cut(u, n, e);
  }

  lemma BracedAtBraces(t: string)
    requires Reference(t).Some? && Span(Space, t[Span(OpenBrace, t)..]) == 0
    ensures var a := Span(OpenBrace, t);
      var n := Key(t[a..]);
      && n.Some? && Reference(t).value == Site(a, a + n.value, a + n.value + Tail(t[a..][n.value..]))
      && Braced(t) == Shift(IdPart(t[a..]), a)
  {
    hide IdPart, Key, Tail;
    var a := Span(OpenBrace, t);
    KeyShape(t[a..]);
    SpanIsInClass(OpenBrace, t);
    assert Span(White, t[a..]) == 0;
  }

  /** A key behind `a` characters that are copied. */
  lemma RewriteAtLead(f: Renaming, t: string, a: nat)
    requires a <= |t| && Braced(t) == Shift(IdPart(t[a..]), a) && Key(t[a..]).Some?
    requires Braced(t) == None ==> Rewrite(f, t) == t[..a] + Rewrite(f, t[a..])
    ensures var u := t[a..];
      var n := Key(u).value;
      var e := n + Tail(u[n..]);
      Rewrite(f, t) == t[..a] + (RenamedKey(f, u[..n]) + u[n..e] + Rewrite(f, u[e..]))
  {
    hide *;
    RewriteFromKey(f, t[a..]);
    BracedUnfolds(f, t, a, IdPart(t[a..]));
  }

  lemma CutKey(t: string, a: nat, stop: nat, end: nat)
    requires a <= stop <= end <= |t|
    ensures var u := t[a..];
      u[..stop - a] == t[a..stop] && u[stop - a..end - a] == t[stop..end] && u[end - a..] == t[end..]
  {
    Cut(t, a, stop);
    Cut3(t, a, stop, end);
    Cut(t, a, end);
  }

  /** A reference that is opened by braces only. */
  lemma RewriteAtBraces(f: Renaming, t: string)
    requires Reference(t).Some? && Span(Space, t[Span(OpenBrace, t)..]) == 0
    ensures var s := Reference(t).value;
      Rewrite(f, t) == t[..s.start] + RenamedKey(f, t[s.start..s.stop]) + t[s.stop..s.end] + Rewrite(f, t[s.end..])
  {
    hide *;
    BracedAtBraces(t);
    LeadCopied0(f, t);
    var s := Reference(t).value;
    RewriteAtLead(f, t, s.start);
    CutKey(t, s.start, s.stop, s.end);
    Glue4(t[..s.start], RenamedKey(f, t[s.start..s.stop]), t[s.stop..s.end], Rewrite(f, t[s.end..]));
  }

  lemma LeadCopied0(f: Renaming, t: string)
    requires Span(Space, t[Span(OpenBrace, t)..]) == 0
    ensures Braced(t) == None ==> Rewrite(f, t) == t[..Span(OpenBrace, t)] + Rewrite(f, t[Span(OpenBrace, t)..])
  {
    if Braced(t) == None {
      LeadIsCopied(f, t);
    }
  }

  /** Unfolding one match whose id starts at `a`. */
  lemma BracedUnfolds(f: Renaming, t: string, a: nat, p: Option<Site>)
    requires a <= |t| && Braced(t) == Shift(p, a)
    requires p.Some? ==> p.value.start == 0
    ensures p.Some? ==>
              var u := t[a..];
              && p.value.stop <= p.value.end <= |u|
              && Rewrite(f, t) == t[..a]
                + (f(u[..p.value.stop]) + u[p.value.stop..p.value.end] + Rewrite(f, u[p.value.end..]))
    ensures p.None? ==> Braced(t) == None
  {
    hide Braced, Rewrite;
    if p.Some? {
      var stop, end := p.value.stop, p.value.end;
      assert Braced(t) == Some(Site(a, a + stop, a + end));
      RewriteUnfolds(f, t);
      Cut(t, a, a + stop);
      Cut3(t, a, a + stop, a + end);
      Cut(t, a, a + end);
      Glue4(t[..a], f(t[a..][..stop]), t[a..][stop..end], Rewrite(f, t[a..][end..]));
    }
  }

  lemma RewriteUnfolds(f: Renaming, t: string)
    ensures Braced(t).Some? ==>
              var s := Braced(t).value;
              Rewrite(f, t) == t[..s.start] + f(t[s.start..s.stop]) + t[s.stop..s.end] + Rewrite(f, t[s.end..])
  {
    hide Braced;
  }

  lemma SpacedShape(t: string)
    requires Reference(t).Some? && Span(Space, t[Span(OpenBrace, t)..]) > 0
    ensures var q := Span(OpenBrace, t) + Span(Space, t[Span(OpenBrace, t)..]);
      && q < |t| && t[q] == '{' && Key(t[q + 1..]).Some?
      && var n := Key(t[q + 1..]).value;
         Reference(t).value == Site(q + 1, q + 1 + n, q + 1 + n + Tail(t[q + 1..][n..]))
  {
    hide *;
    OpeningShape(t);
    ReferenceShape(t);
  }

  lemma OpeningShape(t: string)
    ensures var a := Span(OpenBrace, t);
      var b := Span(Space, t[a..]);
      b > 0 && Opening(t) > 0 ==> a + b < |t| && t[a + b] == '{' && Opening(t) == a + b + 1
  {
    hide Span;
  }

  lemma ReferenceShape(t: string)
    requires Reference(t).Some?
    ensures Opening(t) > 0 && Key(t[Opening(t)..]).Some?
    ensures var h, n := Opening(t), Key(t[Opening(t)..]).value;
      Reference(t).value == Site(h, h + n, h + n + Tail(t[h..][n..]))
  {
    hide Opening, Key, Tail;
    var h, n := Opening(t), Key(t[Opening(t)..]).value;
    assert t[h..][n..] == t[h + n..];
  }

  lemma ReferenceAtOneBrace(w: string)
    requires |w| > 1 && Opening(w) == 1 && Key(w[1..]).Some?
    ensures var n := Key(w[1..]).value;
      Reference(w) == Some(Site(1, 1 + n, 1 + n + Tail(w[1..][n..])))
  {
    hide Key, Tail, Opening;
    var n := Key(w[1..]).value;
    assert w[1..][n..] == w[1 + n..];
  }

  lemma LastBrace(t: string, q: nat, n: nat)
    requires q < |t| && t[q] == '{' && Key(t[q + 1..]) == Some(n)
    ensures 1 + n < |t[q..]| && n < |t[q + 1..]|
    ensures Reference(t[q..]) == Some(Site(1, 1 + n, 1 + n + Tail(t[q + 1..][n..])))
    ensures Span(OpenBrace, t[q..]) == 1 && Span(Space, t[q..][1..]) == 0
  {
    hide *;
    var w := t[q..];
    assert w[1..] == t[q + 1..];
    KeyHead(t[q + 1..]);
    OneBrace(w);
    ReferenceAtOneBrace(w);
  }

  /** Braces, spaces and one brace more: the last brace alone opens the same reference. */
  lemma BehindSpaces(t: string, q: nat)
    requires q < |t| && t[q] == '{' && Key(t[q + 1..]).Some?
    ensures var n := Key(t[q + 1..]).value;
      && Reference(t[q..]) == Some(Site(1, 1 + n, 1 + n + Tail(t[q + 1..][n..])))
      && Span(OpenBrace, t[q..]) == 1 && Span(Space, t[q..][1..]) == 0
  {
    hide *;
    LastBrace(t, q, Key(t[q + 1..]).value);
  }

  lemma SpacedOpening(t: string)
    requires Reference(t).Some? && Span(Space, t[Span(OpenBrace, t)..]) > 0
    ensures var s := Reference(t).value;
      var q := Span(OpenBrace, t) + Span(Space, t[Span(OpenBrace, t)..]);
      && s.start == q + 1 && t[q] == '{'
      && Reference(t[q..]) == Some(Site(1, s.stop - q, s.end - q))
      && Span(OpenBrace, t[q..]) == 1 && Span(Space, t[q..][1..]) == 0
  {
    hide *;
    SpacedShape(t);
    BehindSpaces(t, Span(OpenBrace, t) + Span(Space, t[Span(OpenBrace, t)..]));
  }

  lemma KeyHead(u: string)
    requires Key(u).Some?
    ensures u != [] && u[0] != '{' && u[0] != ' '
  {
    KeyShape(u);
    hide Key;
    assert u[..Key(u).value][0] == u[0];
  }

  lemma OneBrace(w: string)
    requires |w| > 1 && w[0] == '{' && w[1] != '{' && w[1] != ' '
    ensures Span(OpenBrace, w) == 1 && Span(Space, w[1..]) == 0 && Opening(w) == 1
  {
    assert Span(OpenBrace, w) == 1 + Span(OpenBrace, w[1..]);
  }

  lemma LeadBeforeBrace(t: string)
    requires var a := Span(OpenBrace, t);
      var b := Span(Space, t[a..]);
      a + b < |t| && t[a + b] == '{'
    ensures Lead(t) == Span(OpenBrace, t) + Span(Space, t[Span(OpenBrace, t)..])
  {
    hide *;
    LeadShape(t);
    var u := t[Span(OpenBrace, t)..];
    BraceIsNotWhite(u, Span(Space, u));
    SpacesAreWhite(u);
  }

  lemma LeadShape(t: string)
    ensures Lead(t) == Span(OpenBrace, t) + Span(White, t[Span(OpenBrace, t)..])
  {
  }

  lemma BraceIsNotWhite(u: string, b: nat)
    requires b < |u| && u[b] == '{'
    ensures !IsWhite(u[b])
  {
  }

  lemma NoBracedBeforeSpaces(t: string)
    requires var a := Span(OpenBrace, t);
      var b := Span(Space, t[a..]);
      b > 0 && a + b < |t| && t[a + b] == '{'
    ensures Braced(t) == None
  {
    LeadBeforeBrace(t);
    hide IdPart, Span, Lead;
    NoIdAtBrace(t[Lead(t)..]);
  }

  lemma NoIdAtBrace(t: string)
    requires t != [] && t[0] == '{'
    ensures IdPart(t) == None
  {
  }

  lemma {:induction false} SpacesAreWhite(u: string)
    ensures Span(Space, u) < |u| && !IsWhite(u[Span(Space, u)]) ==> Span(White, u) == Span(Space, u)
  {
    if Span(Space, u) > 0 {
      SpacesAreWhite(u[1..]);
    }
  }

  /** Rewriting a text that begins with a reference renames the id inside the key and nothing else there. */
  lemma RewriteAtReference(f: Renaming, t: string)
    requires Reference(t).Some?
    ensures var s := Reference(t).value;
      Rewrite(f, t) == t[..s.start] + RenamedKey(f, t[s.start..s.stop]) + t[s.stop..s.end] + Rewrite(f, t[s.end..])
  {
    hide *;
    if Span(Space, t[Span(OpenBrace, t)..]) == 0 {
      RewriteAtBraces(f, t);
    } else {
      SpacedOpening(t);
      NoBracedBeforeSpaces(t);
      LeadIsCopied(f, t);
      ShiftedReference(f, t, Reference(t).value.start - 1, Reference(t).value);
    }
  }

  lemma Splice(t: string, q: nat, s: Site, key: string, rest: string)
    requires q < s.start <= s.stop < s.end <= |t|
    ensures var w := t[q..];
      t[..q] + (w[..s.start - q] + key + w[s.stop - q..s.end - q] + rest)
          == t[..s.start] + key + t[s.stop..s.end] + rest
  {
    Cut3(t, q, s.stop, s.end);
    Cut(t, q, s.start);
    Regroup(t[..q], t[q..s.start], key, t[s.stop..s.end], rest);
  }

  lemma ShiftedSlices(t: string, q: nat, s: Site)
    requires q < s.start <= s.stop < s.end <= |t|
    ensures var w := t[q..];
      w[s.start - q..s.stop - q] == t[s.start..s.stop] && w[s.end - q..] == t[s.end..]
  {
    Cut3(t, q, s.start, s.stop);
    Cut(t, q, s.end);
  }

  lemma Respliced(t: string, w: string, q: nat, s: Site, key: string, rest: string, tail: string)
    requires q < s.start <= s.stop < s.end <= |t| && w == t[q..]
    requires tail == w[..s.start - q] + key + w[s.stop - q..s.end - q] + rest
    ensures t[..q] + tail == t[..s.start] + key + t[s.stop..s.end] + rest
  {
    Splice(t, q, s, key, rest);
  }

  lemma ShiftedReference(f: Renaming, t: string, q: nat, s: Site)
    requires q < s.start <= s.stop < s.end <= |t|
    requires Reference(t[q..]) == Some(Site(s.start - q, s.stop - q, s.end - q))
    requires Span(Space, t[q..][Span(OpenBrace, t[q..])..]) == 0
    requires Rewrite(f, t) == t[..q] + Rewrite(f, t[q..])
    ensures Rewrite(f, t)
        == t[..s.start] + RenamedKey(f, t[s.start..s.stop]) + t[s.stop..s.end] + Rewrite(f, t[s.end..])
  {
    hide *;
    RewriteAtBraces(f, t[q..]);
    ShiftedSlices(t, q, s);
    Respliced(t, t[q..], q, s, RenamedKey(f, t[s.start..s.stop]), Rewrite(f, t[s.end..]), Rewrite(f, t[q..]));
  }
}
