/** Exactly when a migrated text renders as before. */
module MigrationMeaning {
  import opened Common
  import opened Regex
  import opened References
  import opened MigrationText

  // ---------- Openings and tails of spliced text ----------

  lemma OpeningOfBraces(x: string, u: string)
    requires x != [] && Span(OpenBrace, x) == |x|
    requires u != [] && u[0] != '{' && u[0] != ' '
    ensures Opening(x + u) == |x|
  {
    SpanAppend(OpenBrace, x, u);
    assert (x + u)[|x|..] == u;
    assert Span(Space, u) == 0;
    hide Span;
  }

  lemma OpeningOfSpaces(x: string, y: string, u: string)
    requires Span(OpenBrace, x) == |x|
    requires y != [] && Span(Space, y) == |y| && (u != [] ==> u[0] != ' ')
    ensures Opening(x + y + u) == if u != [] && u[0] == '{' then |x| + |y| + 1 else 0
  {
    hide *;
    SpansOfOpening(x, y, u);
    NoSpaces(u);
    OpeningCases(x + y + u);
  }

  lemma NoSpaces(u: string)
    ensures u == [] || u[0] != ' ' ==> Span(Space, u) == 0
  {
  }

  lemma SpansOfOpening(x: string, y: string, u: string)
    requires Span(OpenBrace, x) == |x|
    requires y != [] && Span(Space, y) == |y|
    ensures var t := x + y + u;
      && Span(OpenBrace, t) == |x|
      && t[|x|..] == y + u
      && Span(Space, t[|x|..]) == |y| + Span(Space, u)
      && (u != [] ==> t[|x| + |y|] == u[0])
  {
    Glue(x, y, u);
    SpanAppend(OpenBrace, x, y + u);
    SpanAppend(Space, y, u);
    assert y[0] == ' ';
    assert (y + u)[0] == y[0];
    hide Span;
    assert (x + (y + u))[|x|..] == y + u;
  }

  /** What stands behind the opening does not matter to it, as long as its first character is alike. */
  lemma OpeningIsLocal(t: string, u: string)
    requires Opening(t) > 0 && u != [] && u[0] != '{' && u[0] != ' '
    ensures Opening(t[..Opening(t)] + u) == Opening(t)
  {
    hide *;
    OpeningCases(t);
    var a := Span(OpenBrace, t);
    var b := Span(Space, t[a..]);
    SpanTake(OpenBrace, t, a);
    if b == 0 {
      SpanIsAll(OpenBrace, t, a);
      OpeningOfBraces(t[..a], u);
    } else {
      SpanIsAll(OpenBrace, t, a);
      SpanTake(Space, t[a..], b);
      OpeningOfSpaces(t[..a], t[a..][..b], "{" + u);
      SplitOpening(t, a, b, u);
    }
  }

  lemma OpeningCases(t: string)
    ensures var a := Span(OpenBrace, t);
      var b := Span(Space, t[a..]);
      && (b == 0 ==> Opening(t) == a)
      && (b > 0 && Opening(t) > 0 ==> a + b < |t| && t[a + b] == '{' && Opening(t) == a + b + 1)
      && (b > 0 && a + b < |t| && t[a + b] == '{' ==> Opening(t) == a + b + 1)
      && (b > 0 && !(a + b < |t| && t[a + b] == '{') ==> Opening(t) == 0)
  {
    hide Span;
  }

  lemma SpanIsAll(c: Cls, t: string, a: nat)
    requires a == Span(c, t)
    ensures a > 0 ==> t[..a] != []
  {
  }

  lemma SplitOpening(t: string, a: nat, b: nat, u: string)
    requires a + b < |t| && t[a + b] == '{'
    ensures t[..a] + t[a..][..b] + ("{" + u) == t[..a + b + 1] + u
    ensures b > 0 ==> t[a..][..b] != []
    ensures |t[..a]| == a && |t[a..][..b]| == b && ("{" + u)[0] == '{' && "{" + u != []
  {
  }

  /** A tail ends where it did when the text behind it begins alike. */
  lemma TailIsLocal(v: string, z: string)
    requires v != [] && v[0] == '}'
    requires z == [] <==> Tail(v) == |v|
    requires z != [] ==> z[0] == v[Tail(v)]
    ensures Tail(v[..Tail(v)] + z) == Tail(v)
  {
    hide *;
    var b := Span(Space, v[1..]);
    TailValue(v);
    var c := Span(CloseBrace, v[1 + b..]);
    TailEnds(v, b, c);
    SpanTake(Space, v[1..], b);
    SpanTake(CloseBrace, v[1 + b..], c);
    TailPieces(v, z, b, c);
    var x, y := v[1..][..b], v[1 + b..][..c];
    SpanAppend(Space, x, y + z);
    SpanAppend(CloseBrace, y, z);
    NoSpaces(y + z);
    NoCloseBrace(z);
    TailValue(v[..Tail(v)] + z);
  }

  lemma TailValue(v: string)
    requires v != []
    ensures var b := Span(Space, v[1..]);
      1 + b <= |v| && Tail(v) == 1 + b + Span(CloseBrace, v[1 + b..])
  {
  }

  lemma NoCloseBrace(t: string)
    ensures t == [] || t[0] != '}' ==> Span(CloseBrace, t) == 0
  {
  }

  lemma TailPieces(v: string, z: string, b: nat, c: nat)
    requires 1 + b + c <= |v|
    ensures var x, y := v[1..][..b], v[1 + b..][..c];
      var w := v[..1 + b + c] + z;
      && w[1..] == x + (y + z) && w[1 + b..] == y + z && |x| == b && |y| == c
      && (c == 0 ==> y + z == z)
      && (c > 0 ==> y + z != [] && (y + z)[0] == v[1 + b])
  {
  }

  lemma TailEnds(v: string, b: nat, c: nat)
    requires v != [] && b == Span(Space, v[1..]) && 1 + b <= |v| && c == Span(CloseBrace, v[1 + b..])
    ensures 1 + b < |v| ==> v[1 + b] != ' '
    ensures 1 + b + c < |v| ==> v[1 + b + c] != '}'
    ensures c > 0 ==> v[1 + b] == '}'
  {
    assert 1 + b < |v| ==> v[1..][b] == v[1 + b];
    assert 1 + b + c < |v| ==> v[1 + b..][c] == v[1 + b + c];
  }

  // ---------- Keys of spliced text ----------

  lemma PlainIsDotted(id: string)
    requires Plain(id)
    ensures Span(DottedIdChar, id) == |id| && '{' !in id && '.' !in id && '@' !in id && !IsWhite(id[0])
  {
    PlainPrefix(id);
    SpanIsInClass(IdChar, id);
    hide Span;
  }

  lemma NotGlobal(prefix: string, id: string, rest: string)
    requires prefix == "sys." || prefix == "env."
    requires Plain(id) && rest != [] && rest[0] == '@'
    ensures GlobalKey(prefix, id + rest) == None
  {
    PlainIsDotted(id);
    var t := id + rest;
    hide Span;
    assert |id| > 3 ==> t[3] == id[3] && id[3] != '.';
    assert |id| <= 3 ==> t[|id|] == '@' && prefix[|id|] != '@';
  }

  /** The key that begins with a plain id and `@`. */
  lemma KeyOfPlainId(id: string, rest: string)
    requires Plain(id) && rest != [] && rest[0] == '@'
    ensures var v := Span(VarChar, rest[1..]);
      Key(id + rest) == if v == 0 || 1 + v == |rest| || rest[1 + v] != '}' then None else Some(|id| + 1 + v)
  {
    NotGlobal("sys.", id, rest);
    NotGlobal("env.", id, rest);
    PlainIsDotted(id);
    SpanAppend(DottedIdChar, id, rest);
    var t := id + rest;
    assert t[|id| + 1..] == rest[1..];
    hide Span, GlobalKey;
  }

  /** Two texts that agree beyond a variable name and the character behind it. */
  lemma SpanAgrees(c: Cls, x: string, y: string, k: nat)
    requires k <= |x| && k <= |y| && x[..k] == y[..k] && Span(c, x) < k
    ensures Span(c, y) == Span(c, x)
  {
    var n := Span(c, x);
    assert y == x[..k] + y[k..] && x == x[..k] + x[k..];
    SpanOfPrefix(c, x, k);
    SpanAppend(c, x[..k], y[k..]);
  }

  lemma SpanOfPrefix(c: Cls, x: string, k: nat)
    requires k <= |x| && Span(c, x) < k
    ensures Span(c, x[..k]) == Span(c, x)
  {
    var n := Span(c, x);
    SpanTake(c, x, n);
    assert x[..k] == x[..n] + x[n..k];
    assert x[n..k][0] == x[n];
    SpanAppend(c, x[..n], x[n..k]);
  }

  lemma CloserIsOutside()
    ensures !In(DottedIdChar, '}') && !In(VarChar, '}') && !In(GlobalChar, '}')
  {
  }

  lemma DottedKeyInside(x: string, y: string, i: nat, v: nat)
    requires y != [] && y[0] == '}' && Span(VarChar, y) == 0
    requires i < |x| && i == Span(DottedIdChar, x + y) && v == Span(VarChar, x[i + 1..])
    ensures i + 1 + v <= |x|
    ensures DottedKey(x + y) ==
            if i == 0 || x[i] != '@' || v == 0 || (i + 1 + v < |x| && x[i + 1 + v] != '}') then None
            else Some(i + 1 + v)
  {
    hide *;
    SpanFits(VarChar, x[i + 1..]);
    CloserIsOutside();
    SpanAppend(VarChar, x[i + 1..], y);
    Appended(x, y, i + 1);
    DottedKeyRuns(x + y, i, v);
  }

  /** The dotted key in front of a closing brace, by the runs in `x` alone. */
  lemma DottedKeyBefore(x: string, y: string, i: nat, v: nat)
    requires y != [] && y[0] == '}'
    requires i == Span(DottedIdChar, x) && (i < |x| ==> v == Span(VarChar, x[i + 1..]))
    ensures i < |x| ==> i + 1 + v <= |x|
    ensures DottedKey(x + y) ==
            if i == 0 || i == |x| || x[i] != '@' || v == 0 || (i + 1 + v < |x| && x[i + 1 + v] != '}') then None
            else Some(i + 1 + v)
  {
    hide *;
    CloserIsOutside();
    NoSpan(DottedIdChar, y);
    NoSpan(VarChar, y);
    SpanAppend(DottedIdChar, x, y);
    SpanFits(DottedIdChar, x);
    if i < |x| {
      DottedKeyInside(x, y, i, v);
    } else {
      Appended(x, y, i);
      DottedKeyRuns(x + y, i, Span(VarChar, (x + y)[i + 1..]));
    }
  }

  lemma PrefixBefore(prefix: string, x: string, y: string)
    requires |prefix| == 4 && '}' !in prefix && y != [] && y[0] == '}'
    ensures prefix <= x + y <==> prefix <= x
    ensures |x| >= 4 ==> (x + y)[4..] == x[4..] + y
  {
    if |x| < 4 {
      assert (x + y)[|x|] == '}' && prefix[|x|] in prefix;
    } else {
      assert (x + y)[..4] == x[..4];
    }
  }

  lemma GlobalKeyBefore(prefix: string, x: string, y: string, n: nat)
    requires |prefix| == 4 && '}' !in prefix && y != [] && y[0] == '}'
    requires prefix <= x ==> n == Span(GlobalChar, x[4..])
    ensures prefix <= x ==> 4 + n <= |x|
    ensures GlobalKey(prefix, x + y) ==
            if !(prefix <= x) || n == 0 || (4 + n < |x| && x[4 + n] != '}') then None else Some(4 + n)
  {
    hide *;
    CloserIsOutside();
    PrefixBefore(prefix, x, y);
    if prefix <= x {
      NoSpan(GlobalChar, y);
      SpanFits(GlobalChar, x[4..]);
      SpanAppend(GlobalChar, x[4..], y);
      Appended(x, y, 4);
    }
    GlobalKeyRuns(prefix, x + y, n);
  }

  lemma KeyClosedDotted(x: string, y: string, z: string)
    requires y != [] && z != [] && y[0] == '}' && z[0] == '}'
    ensures DottedKey(x + y) == DottedKey(x + z)
  {
    var i := Span(DottedIdChar, x);
    hide *;
    var v := if i < |x| then Span(VarChar, x[i + 1..]) else 0;
    DottedKeyBefore(x, y, i, v);
    DottedKeyBefore(x, z, i, v);
  }

  lemma KeyClosedGlobal(prefix: string, x: string, y: string, z: string)
    requires prefix == "sys." || prefix == "env."
    requires y != [] && z != [] && y[0] == '}' && z[0] == '}'
    ensures GlobalKey(prefix, x + y) == GlobalKey(prefix, x + z)
  {
    hide *;
    var n := if prefix <= x then Span(GlobalChar, x[4..]) else 0;
    GlobalKeyBefore(prefix, x, y, n);
    GlobalKeyBefore(prefix, x, z, n);
  }

  /** A key does not depend on what follows its closing brace. */
  lemma KeyClosed(x: string, y: string, z: string)
    requires y != [] && z != [] && y[0] == '}' && z[0] == '}'
    ensures Key(x + y) == Key(x + z)
  {
    KeyClosedDotted(x, y, z);
    KeyClosedGlobal("sys.", x, y, z);
    KeyClosedGlobal("env.", x, y, z);
    hide DottedKey, GlobalKey;
  }

  /** The renamed key is again a key, in front of any closing brace. */
  lemma KeyCut(u: string, i: nat, n: nat)
    requires i <= n <= |u|
    ensures u[..n][..i] == u[..i] && u[..n][i..] == u[i..n]
  {
  }

  lemma PlainKeyRenamed(f: Renaming, u: string, i: nat, n: nat, z: string)
    requires KeepsPlain(f) && i < n < |u| && Plain(u[..i]) && u[i] == '@'
    requires Span(VarChar, u[i + 1..]) == n - i - 1 > 0 && z != [] && z[0] == '}'
    ensures var key := f(u[..i]) + u[i..n];
      key != [] && key[0] != '{' && key[0] != ' ' && Key(key + z) == Some(|key|)
  {
    hide *;
    StaysPlain(f, u[..i]);
    var id := f(u[..i]);
    PlainRest(u, i, n, z);
    KeyOfPlainId(id, u[i..n] + z);
    PlainIsDotted(id);
    Glue(id, u[i..n], z);
    SpaceIsWhite();
  }

  lemma RenamedKeyIsKey(f: Renaming, u: string, z: string)
    requires KeepsPlain(f) && Key(u).Some? && z != [] && z[0] == '}'
    ensures var key := RenamedKey(f, u[..Key(u).value]);
      && key != [] && key[0] != '{' && key[0] != ' '
      && Key(key + z) == Some(|key|)
  {
    hide *;
    var n := Key(u).value;
    KeyShape(u);
    KeyHead(u);
    RenamedKeyCases(f, u[..n]);
    var i := IndexOf('@', u[..n]);
    if i < n && Plain(u[..n][..i]) {
      KeyCut(u, i, n);
      PlainDottedKey(u, i, n);
      PlainKeyRenamed(f, u, i, n, z);
    } else {
      assert u == u[..n] + u[n..];
      KeyClosed(u[..n], u[n..], z);
    }
  }

  lemma SpaceIsWhite()
    ensures IsWhite(' ')
  {
  }

  lemma StaysPlain(f: Renaming, id: string)
    requires KeepsPlain(f) && Plain(id)
    ensures Plain(f(id)) && f(id) != []
  {
  }

  lemma RenamedKeyCases(f: Renaming, key: string)
    ensures var i := IndexOf('@', key);
      RenamedKey(f, key) == if i < |key| && Plain(key[..i]) then f(key[..i]) + key[i..] else key
  {
  }

  lemma PlainDottedKey(u: string, i: nat, n: nat)
    requires Key(u) == Some(n) && i < n && IndexOf('@', u[..n]) == i && Plain(u[..i])
    ensures u[i] == '@' && n < |u| && u[n] == '}' && Span(VarChar, u[i + 1..]) == n - i - 1 > 0
  {
    if DottedKey(u).Some? {
      DottedKeyShape(u);
    } else if GlobalKey("sys.", u).Some? {
      GlobalKeyShape("sys.", u);
    } else {
      GlobalKeyShape("env.", u);
    }
  }

  lemma CloserIsNoVar(z: string)
    requires z != [] && z[0] == '}'
    ensures !In(VarChar, z[0]) && Span(VarChar, z) == 0
  {
  }

  lemma RestSlices(u: string, i: nat, n: nat, z: string)
    requires i < n < |u| && u[i] == '@' && z != []
    ensures var rest, x := u[i..n] + z, u[i + 1..][..n - i - 1];
      rest != [] && rest[0] == '@' && rest[1..] == x + z && |x| == n - i - 1 && n - i < |rest| && rest[n - i] == z[0]
  {
  }

  lemma PlainRest(u: string, i: nat, n: nat, z: string)
    requires i < n < |u| && u[i] == '@' && Span(VarChar, u[i + 1..]) == n - i - 1 && z != [] && z[0] == '}'
    ensures var rest := u[i..n] + z;
      rest != [] && rest[0] == '@' && Span(VarChar, rest[1..]) == n - i - 1 && n - i < |rest| && rest[n - i] == '}'
  {
    hide *;
    var v := n - i - 1;
    var x := u[i + 1..][..v];
    SpanTake(VarChar, u[i + 1..], v);
    CloserIsNoVar(z);
    SpanAppend(VarChar, x, z);
    RestSlices(u, i, n, z);
  }

  // ---------- References of the rewritten text ----------

  lemma ReferenceParts(t: string)
    requires Reference(t).Some?
    ensures var s := Reference(t).value;
      && s.start == Opening(t) > 0
      && Key(t[s.start..]) == Some(s.stop - s.start)
      && s.stop < |t| && t[s.stop] == '}' && s.end == s.stop + Tail(t[s.stop..])
  {
    hide *;
    ReferenceShape(t);
    var h := Opening(t);
    KeyShape(t[h..]);
    var n := Key(t[h..]).value;
    Cut(t, h, h + n);
    assert t[h..][n] == t[h + n];
    TailBound(t, h + n);
  }

  lemma TailBound(t: string, k: nat)
    requires k < |t|
    ensures 1 <= Tail(t[k..]) <= |t| - k
  {
  }

  lemma ReferenceFrom(t: string, h: nat, n: nat)
    requires h <= |t| && Opening(t) == h > 0 && Key(t[h..]) == Some(n)
    ensures h + n < |t| && Reference(t) == Some(Site(h, h + n, h + n + Tail(t[h + n..])))
  {
    hide Key, Opening, Tail;
    KeyShape(t[h..]);
    assert t[h..][n..] == t[h + n..];
  }

  /** Splicing another key and alike text into a reference leaves a reference. */
  lemma ReferenceSpliced(t: string, key: string, z: string)
    requires Reference(t).Some?
    requires key != [] && key[0] != '{' && key[0] != ' '
    requires forall y: string :: y != [] && y[0] == '}' ==> Key(key + y) == Some(|key|)
    requires var s := Reference(t).value;
      (z == [] <==> s.end == |t|) && (z != [] ==> s.end < |t| && z[0] == t[s.end])
    ensures var s := Reference(t).value;
      var r := t[..s.start] + key + t[s.stop..s.end] + z;
      Reference(r) == Some(Site(s.start, s.start + |key|, s.start + |key| + (s.end - s.stop)))
  {
    hide *;
    ReferenceParts(t);
    var s := Reference(t).value;
    var v := t[s.stop..];
    var tail := v[..s.end - s.stop];
    Cut(t, s.stop, s.end);
    assert tail == t[s.stop..s.end] && tail[0] == '}';
    TailIsLocal(v, z);
    var y := tail + z;
    OpeningIsLocal(t, key + y);
    Regroup3(t[..s.start], key, tail, z);
    var r := t[..s.start] + (key + y);
    assert r[s.start..] == key + y;
    ReferenceFrom(r, s.start, |key|);
    assert r[s.start + |key|..] == y;
  }

  lemma Regroup3(a: string, b: string, c: string, d: string)
    ensures a + b + c + d == a + (b + (c + d))
  {
  }

  /** Where the text had a reference the rewritten text has one, with the renamed key and the same
      surroundings, and both go on behind it. */
  lemma ReferenceIsRenamed(f: Renaming, t: string)
    requires KeepsPlain(f) && Reference(t).Some?
    ensures var s := Reference(t).value;
      var key := RenamedKey(f, t[s.start..s.stop]);
      var r := Rewrite(f, t);
      var q := Reference(r);
      && q.Some? && r != []
      && r[q.value.start..q.value.stop] == key
      && r[q.value.end..] == Rewrite(f, t[s.end..])
  {
    hide *;
    RewriteAtReference(f, t);
    ReferenceParts(t);
    var s := Reference(t).value;
    Cut(t, s.start, s.stop);
    var key, z := RenamedKey(f, t[s.start..s.stop]), Rewrite(f, t[s.end..]);
    forall y: string | y != [] && y[0] == '}' ensures Key(key + y) == Some(|key|) {
      RenamedKeyIsKey(f, t[s.start..], y);
    }
    RenamedKeyIsKey(f, t[s.start..], "}");
    RestIsAlike(f, t, s.end);
    ReferenceSpliced(t, key, z);
    SplicedSlices(t[..s.start], key, t[s.stop..s.end], z);
  }

  lemma SplicedSlices(a: string, b: string, c: string, d: string)
    ensures var r := a + b + c + d;
      r[|a|..|a| + |b|] == b && r[|a| + |b| + |c|..] == d && (a != [] ==> r != [])
  {
  }

  lemma RestIsAlike(f: Renaming, t: string, k: nat)
    requires k <= |t|
    ensures Rewrite(f, t[k..]) == [] <==> k == |t|
    ensures k < |t| ==> Rewrite(f, t[k..])[0] == t[k]
  {
    if k < |t| {
      HeadKept(f, t[k..]);
    } else {
      RewriteOfNothing(f);
      assert t[k..] == [];
    }
    hide Rewrite;
  }

  // ---------- Texts without a reference at the head ----------

  lemma OpeningWithoutSpaces(x: string, r: string)
    requires Span(OpenBrace, x) == |x|
    requires r != [] ==> r[0] != '{' && r[0] != ' '
    ensures Opening(x + r) == |x|
  {
    hide *;
    NoOpenBrace(r);
    NoSpaces(r);
    SpanAppend(OpenBrace, x, r);
    assert (x + r)[|x|..] == r;
    OpeningCases(x + r);
  }

  /** Opening braces and spaces, followed by texts that begin alike. */
  lemma OpeningIsAlike(t: string, a: nat, b: nat, r: string)
    requires a == Span(OpenBrace, t) && b == Span(Space, t[a..])
    requires r == [] <==> a + b == |t|
    requires r != [] ==> a + b < |t| && r[0] == t[a + b]
    ensures Opening(t[..a + b] + r) == Opening(t)
  {
    hide *;
    OpeningCases(t);
    LeadStops(t, a, b);
    SpanTake(OpenBrace, t, a);
    if b == 0 {
      OpeningWithoutSpaces(t[..a], r);
    } else {
      SpanTake(Space, t[a..], b);
      OpeningOfSpaces(t[..a], t[a..][..b], r);
      LeadPieces(t, a, b);
    }
  }

  lemma LeadPieces(t: string, a: nat, b: nat)
    requires a + b <= |t|
    ensures t[..a] + t[a..][..b] == t[..a + b] && |t[..a]| == a && |t[a..][..b]| == b
  {
  }

  lemma NoOpenBrace(t: string)
    ensures t == [] || t[0] != '{' ==> Span(OpenBrace, t) == 0
  {
  }

  lemma LeadStops(t: string, a: nat, b: nat)
    requires a == Span(OpenBrace, t) && b == Span(Space, t[a..])
    ensures a + b < |t| ==> t[a + b] != ' ' && (b == 0 ==> t[a] != '{')
  {
    assert a + b < |t| ==> t[a..][b] == t[a + b];
  }

  /** Without a reference, behind the opening there is no key. */
  lemma NoReferenceNoKey(t: string)
    ensures Reference(t) == None <==> Opening(t) == 0 || Key(t[Opening(t)..]) == None
  {
    hide Opening, Key, Tail;
  }

  /** Renaming a plain id neither makes nor breaks the key it begins. */
  lemma PlainKeyIsStable(f: Renaming, id: string, rest: string, other: string, k: nat)
    requires KeepsPlain(f) && Plain(id)
    requires rest != [] && rest[0] == '@' && k <= |rest| && k <= |other| && rest[..k] == other[..k]
    requires 2 + Span(VarChar, rest[1..]) <= k
    ensures Key(f(id) + other).Some? <==> Key(id + rest).Some?
  {
    hide *;
    StaysPlain(f, id);
    AgreeBehindAt(rest, other, k);
    KeyOfPlainId(id, rest);
    KeyOfPlainId(f(id), other);
  }

  lemma AgreeBehindAt(rest: string, other: string, k: nat)
    requires rest != [] && rest[0] == '@' && k <= |rest| && k <= |other| && rest[..k] == other[..k]
    requires 2 + Span(VarChar, rest[1..]) <= k
    ensures var v := Span(VarChar, rest[1..]);
      && other != [] && other[0] == '@' && Span(VarChar, other[1..]) == v
      && 1 + v < |rest| && 1 + v < |other| && other[1 + v] == rest[1 + v]
  {
    var v := Span(VarChar, rest[1..]);
    assert forall i {:trigger rest[i]} :: 0 <= i < k ==> rest[i] == rest[..k][i] == other[..k][i] == other[i];
    assert rest[1..][..k - 1] == rest[..k][1..] == other[..k][1..] == other[1..][..k - 1];
    SpanAgrees(VarChar, rest[1..], other[1..], k - 1);
    hide Span;
  }

  // ---------- A braced id the canvas does not read ----------

  /** What the migration's match at the head of `t` consists of. */
  lemma NoOpenJoin(t: string, a: nat, l: nat, e: nat)
    requires a <= l <= e <= |t| && '{' !in t[a..l] && '{' !in t[l..][..e - l]
    ensures '{' !in t[a..e]
  {
    assert t[a..e] == t[a..l] + t[l..][..e - l];
  }

  lemma BracedNoOpen(t: string)
    requires Braced(t).Some?
    ensures '{' !in t[Span(OpenBrace, t)..Braced(t).value.end]
  {
    hide *;
    BracedFrom(t);
    LeadParts(t);
    var l := Lead(t);
    IdPartParts(t[l..]);
    NoOpenJoin(t, Span(OpenBrace, t), l, Braced(t).value.end);
  }

  lemma BracedParts(t: string)
    requires Braced(t).Some?
    ensures var p := Braced(t).value;
      var a := Span(OpenBrace, t);
      && 0 < a <= p.start && t[a] != '{' && Plain(t[p.start..p.stop])
      && (a < p.start ==> IsWhite(t[a]))
      && t[p.stop] == '@' && p.stop + 2 + Span(VarChar, t[p.stop + 1..]) <= p.end
      && t[p.end - 1] == '}' && '{' !in t[a..p.end]
  {
    hide *;
    BracedNoOpen(t);
    BracedFrom(t);
    LeadParts(t);
    var l := Lead(t);
    IdPartParts(t[l..]);
    PlainIsDotted(t[l..][..IdPart(t[l..]).value.stop]);
    BracedSlices(t, Span(OpenBrace, t), l, IdPart(t[l..]).value);
  }

  lemma BracedSlices(t: string, a: nat, l: nat, q: Site)
    requires a <= l <= |t| && 0 < q.stop < q.end <= |t| - l
    requires t[l..][..q.end][0] != '{'
    ensures var u := t[l..];
      && u[..q.stop] == t[l..l + q.stop] && u[q.stop] == t[l + q.stop] && u[q.stop + 1..] == t[l + q.stop + 1..]
      && u[q.end - 1] == t[l + q.end - 1]
      && u[..q.stop][0] == t[l] && (a == l ==> t[a] != '{')
  {
    assert t[l] == t[l..][..q.end][0];
  }

  lemma BracedFrom(t: string)
    requires Braced(t).Some?
    ensures t != [] && t[0] == '{' && IdPart(t[Lead(t)..]).Some?
    ensures var q, l := IdPart(t[Lead(t)..]).value, Lead(t);
      q.start == 0 && Braced(t).value == Site(l, l + q.stop, l + q.end)
  {
  }

  lemma LeadParts(t: string)
    requires t != [] && t[0] == '{'
    ensures var a := Span(OpenBrace, t);
      && 0 < a <= Lead(t) && '{' !in t[a..Lead(t)]
      && (a < Lead(t) ==> IsWhite(t[a]) && t[a] != '{')
  {
    var a := Span(OpenBrace, t);
    var w := Span(White, t[a..]);
    SpanIsInClass(White, t[a..]);
    forall k | a <= k < a + w ensures t[k] != '{' && IsWhite(t[k]) {
      assert t[a..][k - a] == t[k];
    }
    hide Span;
  }

  lemma IdPartParts(u: string)
    requires IdPart(u).Some?
    ensures var p := IdPart(u).value;
      && Plain(u[..p.stop]) && u[p.stop] == '@' && p.stop + 2 + Span(VarChar, u[p.stop + 1..]) <= p.end
      && u[p.end - 1] == '}' && '{' !in u[..p.end]
  {
    hide *;
    IdPartFrom(u);
    var n := Span(IdChar, u);
    SpanTake(IdChar, u, n);
    PlainFrom(u[..n]);
    PlainIsDotted(u[..n]);
    AfterAtParts(u[n + 1..]);
    IdSlices(u, n, AfterAt(u[n + 1..]).value);
  }

  lemma IdPartFrom(u: string)
    requires IdPart(u).Some?
    ensures var n := Span(IdChar, u);
      && 0 < n < |u| && u[n] == '@' && AfterAt(u[n + 1..]).Some?
      && IdPart(u).value == Site(0, n, n + 1 + AfterAt(u[n + 1..]).value)
  {
    hide AfterAt;
  }

  lemma PlainFrom(id: string)
    requires id != [] && Span(IdChar, id) == |id|
    ensures Plain(id)
  {
  }

  lemma IdSlices(u: string, n: nat, e: nat)
    requires n < |u| && 0 < e <= |u| - n - 1 && u[n] == '@'
    requires '{' !in u[..n] && '{' !in u[n + 1..][..e]
    ensures u[n + 1..][e - 1] == u[n + e] && '{' !in u[..n + 1 + e]
  {
    assert u[..n + 1 + e] == u[..n] + ['@'] + u[n + 1..][..e];
  }

  lemma AfterAtParts(w: string)
    requires AfterAt(w).Some?
    ensures var e := AfterAt(w).value;
      Span(VarChar, w) + 1 <= e && w[e - 1] == '}' && '{' !in w[..e]
  {
    hide *;
    var v := Span(VarChar, w);
    assert w[0..] == w;
    NoBraceInRun(VarChar, w, 0, v);
    var x := v + Span(White, w[v..]);
    NoBraceInRun(White, w, v, x);
    var e := x + Span(CloseBrace, w[x..]);
    NoBraceInRun(CloseBrace, w, x, e);
    AfterAtRuns(w, v, x, e);
    NoneInPrefix(w, e);
  }

  // ---------- Where neither text has a reference ----------

  lemma BadHead(t: string)
    requires t != [] && (t[0] == '{' || IsWhite(t[0]))
    ensures Key(t) == None
  {
    if Key(t).Some? {
      KeyShape(t);
      KeyHead(t);
    }
    hide Key;
  }

  lemma KeyBehindBrace(f: Renaming, u: string)
    requires KeepsPlain(f) && u != [] && u[0] == '{' && Key(u[1..]) == None
    ensures Rewrite(f, u) != [] && Key(Rewrite(f, u)[1..]) == None
  {
    hide *;
    HeadKept(f, u);
    if Braced(u) == None {
      RewriteStep(f, u);
      KeyIsStable(f, u[1..]);
    } else {
      BracedParts(u);
      RewriteUnfolds(f, u);
      var p := Braced(u).value;
      var id, z := u[p.start..p.stop], Rewrite(f, u[p.end..]);
      if p.start > 1 {
        SecondCharacter(u, p.start, f(id), u[p.stop..p.end], z);
        if Span(OpenBrace, u) > 1 {
          SecondBrace(u);
        }
        BadHead(Rewrite(f, u)[1..]);
      } else {
        BehindOneBrace(u, p, f(id), z);
        PlainKeyIsStable(f, id, u[p.stop..], u[p.stop..p.end] + z, p.end - p.stop);
      }
    }
  }

  lemma RewriteStep(f: Renaming, t: string)
    requires t != [] && Braced(t) == None
    ensures Rewrite(f, t) == [t[0]] + Rewrite(f, t[1..]) && Rewrite(f, t)[1..] == Rewrite(f, t[1..])
  {
    hide Braced;
  }

  lemma SecondBrace(u: string)
    requires Span(OpenBrace, u) > 1
    ensures u[1] == '{'
  {
    SpanIsInClass(OpenBrace, u);
  }

  lemma SecondCharacter(u: string, start: nat, id: string, rest: string, z: string)
    requires 1 < start <= |u|
    ensures var r := u[..start] + id + rest + z;
      r[1..] != [] && r[1..][0] == u[1]
  {
  }

  lemma BehindOneBrace(u: string, p: Site, id: string, z: string)
    requires p.start == 1 < p.stop < p.end <= |u|
    ensures (u[..1] + id + u[p.stop..p.end] + z)[1..] == id + (u[p.stop..p.end] + z)
    ensures u[1..] == u[1..p.stop] + u[p.stop..]
    ensures u[p.stop..][..p.end - p.stop] == (u[p.stop..p.end] + z)[..p.end - p.stop]
    ensures u[p.stop..][1..] == u[p.stop + 1..]
  {
  }

  /** Rewriting makes no reference where there was neither a reference nor a match. */
  lemma NoReferenceMade(f: Renaming, t: string)
    requires KeepsPlain(f) && Reference(t) == None && Braced(t) == None
    ensures Reference(Rewrite(f, t)) == None
  {
    hide *;
    var a := Span(OpenBrace, t);
    var b := Span(Space, t[a..]);
    var l := a + b;
    var r := Rewrite(f, t[l..]);
    LeadIsCopied(f, t);
    RestIsAlike(f, t, l);
    OpeningIsAlike(t, a, b, r);
    OpeningCases(t);
    NoReferenceNoKey(t);
    NoReferenceNoKey(Rewrite(f, t));
    if Opening(t) > 0 {
      if b == 0 {
        assert (t[..l] + r)[l..] == r;
        KeyIsStable(f, t[l..]);
      } else {
        assert t[l..][0] == '{' && t[l..][1..] == t[l + 1..];
        KeyBehindBrace(f, t[l..]);
        assert (t[..l] + r)[l + 1..] == r[1..];
      }
    }
  }

  lemma NoOpening(u: string, k: nat)
    requires 0 < k <= |u| && '{' !in u[..k] && u[k - 1] != ' '
    ensures Opening(u) == 0
  {
    assert u[..k][0] == u[0];
    NoOpenBrace(u);
    assert u[0..] == u;
    var b := Span(Space, u);
    SpanIsInClass(Space, u);
    hide Span;
    assert b < k;
    assert u[..k][b] == u[b];
  }

  lemma SpaceSpan(u: string)
    requires u != []
    ensures Span(Space, u) > 0 <==> u[0] == ' '
    ensures forall k :: 0 <= k < Span(Space, u) ==> u[k] == ' '
  {
    SpanIsInClass(Space, u);
  }

  lemma NotIn(t: string, a: nat, e: nat, k: nat)
    requires a <= k < e <= |t| && '{' !in t[a..e]
    ensures t[k] != '{' && t[a..][k - a] == t[k]
  {
    assert t[a..e][k - a] == t[k];
  }

  lemma SpacesBeforeText(t: string, a: nat, e: nat, b: nat)
    requires a < e <= |t| && '{' !in t[a..e] && t[e - 1] != ' '
    requires b <= |t| - a && forall k :: 0 <= k < b ==> t[a..][k] == ' '
    ensures t[a..] != [] && t[a..][0] == t[a]
    ensures b > 0 ==> a + b < e && t[a + b] != '{'
  {
    assert t[a..][e - 1 - a] == t[e - 1];
    if b > 0 {
      NotIn(t, a, e, a + b);
    }
  }

  lemma OpeningThenText(t: string, a: nat, e: nat)
    requires a == Span(OpenBrace, t) && a < e <= |t| && '{' !in t[a..e] && t[e - 1] != ' '
    ensures Opening(t) == if t[a] == ' ' then 0 else a
  {
    hide *;
    OpeningCases(t);
    SpaceSpan(t[a..]);
    SpacesBeforeText(t, a, e, Span(Space, t[a..]));
  }

  /** From `b` up to `d` and behind it `u` reads like `t` from `a` up to `e`. */
  ghost predicate RunAlike(t: string, a: nat, e: nat, u: string, b: nat, d: nat) {
    && a < e <= |t| && 0 < b < d <= |u|
    && u[b..d] == t[a..e] && u[d - 1] == t[e - 1] && u[b] == t[a] && u[b..] == t[a..]
  }

  lemma InRunSlices(t: string, j: nat, a: nat, e: nat)
    requires j < a < e <= |t|
    ensures RunAlike(t, a, e, t[j..], a - j, e - j)
  {
    Cut(t, j, a);
    Cut3(t, j, a, e);
  }

  /** A run of braces `u` with a brace-free text behind it has a reference at its head exactly if a key follows. */
  lemma ReferenceBehindRun(u: string, a: nat, e: nat)
    requires a == Span(OpenBrace, u) && 0 < a < e <= |u| && '{' !in u[a..e] && u[e - 1] != ' '
    ensures Reference(u) == None <==> u[a] == ' ' || Key(u[a..]) == None
  {
    hide *;
    OpeningThenText(u, a, e);
    NoReferenceNoKey(u);
  }

  lemma SilentAlike(t: string, a: nat, e: nat, u: string, b: nat, d: nat)
    requires a == Span(OpenBrace, t) && 0 < a < e <= |t| && NoBrace(t[a..e]) && t[e - 1] != ' '
    requires b == Span(OpenBrace, u) && RunAlike(t, a, e, u, b, d) && Reference(t) == None
    ensures Reference(u) == None
  {
    hide Span, Reference, Key;
    ReferenceBehindRun(t, a, e);
    ReferenceBehindRun(u, b, d);
  }

  lemma SilentInRun(t: string, a: nat, e: nat, j: nat)
    requires a == Span(OpenBrace, t) && j < a < e <= |t| && NoBrace(t[a..e]) && t[e - 1] != ' '
    requires Reference(t) == None
    ensures Reference(t[j..]) == None
  {
    hide *;
    InRunSlices(t, j, a, e);
    SpanDrop(OpenBrace, t, j);
    SilentAlike(t, a, e, t[j..], a - j, e - j);
  }

  lemma SilentBehind(t: string, a: nat, e: nat, j: nat)
    requires a <= j < e <= |t| && '{' !in t[a..e] && t[e - 1] != ' '
    ensures Reference(t[j..]) == None
  {
    hide *;
    NoReferenceNoKey(t[j..]);
    Cut(t, j, e);
    assert t[a..e] == t[a..j] + t[j..e];
    assert t[j..][e - j - 1] == t[e - 1];
    NoOpening(t[j..], e - j);
  }

  /** A run of braces with a brace-free text behind it, in which the canvas sees no reference at all. */
  lemma Silent(t: string, a: nat, e: nat)
    requires a == Span(OpenBrace, t) && 0 < a < e <= |t| && '{' !in t[a..e] && t[e - 1] != ' '
    requires Reference(t) == None
    ensures forall j :: 0 <= j < e ==> Reference(t[j..]) == None
  {
    hide Reference, Span;
    assert NoBrace(t[a..e]);
    forall j | 0 <= j < e ensures Reference(t[j..]) == None {
      if j < a {
        SilentInRun(t, a, e, j);
      } else {
        SilentBehind(t, a, e, j);
      }
    }
  }

  /** A match of the migration that the canvas does not read: nothing is read in it, before or after. */
  lemma UnreadMatch(f: Renaming, t: string)
    requires KeepsPlain(f) && Reference(t) == None && Braced(t).Some?
    ensures var p := Braced(t).value;
      var id := t[p.start..p.stop];
      var e := p.start + |f(id)| + (p.end - p.stop);
      var r := Rewrite(f, t);
      && (forall j :: 0 <= j < p.end ==> Reference(t[j..]) == None)
      && e <= |r| && r[..e] == t[..p.start] + f(id) + t[p.stop..p.end] && r[e..] == Rewrite(f, t[p.end..])
      && (forall j :: 0 <= j < e ==> Reference(r[j..]) == None)
  {
    hide *;
    BracedParts(t);
    RewriteUnfolds(f, t);
    var a := Span(OpenBrace, t);
    var p := Braced(t).value;
    Silent(t, a, p.end);
    var id, z := t[p.start..p.stop], Rewrite(f, t[p.end..]);
    StaysPlain(f, id);
    PlainIsDotted(f(id));
    UnreadShape(t, a, p, f(id), z);
    var r := Rewrite(f, t);
    var e := p.start + |f(id)| + (p.end - p.stop);
    NoReferenceNoKey(t);
    NoReferenceNoKey(r);
    OpeningThenText(t, a, p.end);
    OpeningThenText(r, a, e);
    if a < p.start {
      if r[a] != ' ' {
        BadHead(r[a..]);
      }
    } else {
      assert t[p.start] != ' ' by { assert t[p.start] == id[0]; PlainIsDotted(id); SpaceIsWhite(); }
      UnreadKey(t, p, f(id), z);
      PlainKeyIsStable(f, id, t[p.stop..], t[p.stop..p.end] + z, p.end - p.stop);
    }
    Silent(r, a, e);
  }

  lemma UnreadShape(t: string, a: nat, p: Site, id: string, z: string)
    requires a == Span(OpenBrace, t) && 0 < a <= p.start < p.stop < p.end <= |t| && t[a] != '{'
    requires '{' !in t[a..p.end] && t[p.end - 1] == '}' && id != [] && '{' !in id
    ensures var r := t[..p.start] + id + t[p.stop..p.end] + z;
      var e := p.start + |id| + (p.end - p.stop);
      && Span(OpenBrace, r) == a && a < e <= |r| && '{' !in r[a..e] && r[e - 1] == '}'
      && r[..e] == t[..p.start] + id + t[p.stop..p.end] && r[e..] == z
      && (a < p.start ==> r[a] == t[a] && r[a..] != [] && r[a..][0] == t[a])
      && (a == p.start ==> r[a] == id[0])
  {
    hide *;
    var x, y := t[a..p.start] + id + t[p.stop..p.end], t[..a];
    var r := t[..p.start] + id + t[p.stop..p.end] + z;
    assert r == y + (x + z) by { assert t[..p.start] == y + t[a..p.start]; }
    SpanTake(OpenBrace, t, a);
    assert x[0] != '{' by {
      assert x[0] == if a < p.start then t[a] else id[0];
      assert id[0] in id;
    }
    NoOpenBrace(x + z);
    SpanAppend(OpenBrace, y, x + z);
    assert r[a..p.start + |id| + (p.end - p.stop)] == x;
    assert forall ch <- t[a..p.start] :: ch in t[a..p.end];
    assert forall ch <- t[p.stop..p.end] :: ch in t[a..p.end];
  }

  lemma UnreadKey(t: string, p: Site, id: string, z: string)
    requires p.start < p.stop < p.end <= |t|
    ensures (t[..p.start] + id + t[p.stop..p.end] + z)[p.start..] == id + (t[p.stop..p.end] + z)
    ensures t[p.start..] == t[p.start..p.stop] + t[p.stop..]
    ensures t[p.stop..][..p.end - p.stop] == (t[p.stop..p.end] + z)[..p.end - p.stop]
    ensures t[p.stop..][1..] == t[p.stop + 1..]
  {
  }

  // ---------- Rendering ----------

  lemma {:induction false} RenderSkips(w: Outputs, t: string, k: nat)
    requires k <= |t| && forall j :: 0 <= j < k ==> Reference(t[j..]) == None
    ensures Render(w, t) == Prefixed(Some(t[..k]), Render(w, t[k..]))
    decreases k
  {
    hide Reference;
    if k == 0 {
      assert t[0..] == t && t[..0] == [];
      assert Render(w, t).Some? ==> [] + Render(w, t).value == Render(w, t).value;
    } else {
      assert t[0..] == t;
      forall j | 0 <= j < k - 1 ensures Reference(t[1..][j..]) == None {
        assert t[1..][j..] == t[j + 1..];
      }
      RenderSkips(w, t[1..], k - 1);
      assert t[1..][k - 1..] == t[k..];
      assert [t[0]] + t[1..][..k - 1] == t[..k];
      if Render(w, t[k..]).Some? {
        assert [t[0]] + (t[1..][..k - 1] + Render(w, t[k..]).value) == t[..k] + Render(w, t[k..]).value;
      }
    }
  }

  lemma RenderReference(w: Outputs, t: string)
    requires Reference(t).Some?
    ensures var s := Reference(t).value;
      Render(w, t) == Prefixed(ValueOf(w, t[s.start..s.stop]), Render(w, t[s.end..]))
  {
    hide Reference;
  }

  lemma Cancel(x: string, a: Option<string>, b: Option<string>)
    ensures Prefixed(Some(x), a) == Prefixed(Some(x), b) <==> a == b
  {
    if a.Some? && b.Some? {
      var p, q := x + a.value, x + b.value;
      assert p[|x|..] == a.value && q[|x|..] == b.value;
      assert Prefixed(Some(x), a) == Some(p) && Prefixed(Some(x), b) == Some(q);
      assert p == q ==> a.value == b.value;
    }
  }

  /** `f` renames some of the components of `w`: plain ids stay plain, a renamed id changes its first
      character, and no component is renamed to an id that is itself renamed. */
  ghost predicate MigrationMap(f: Renaming, w: Outputs) {
    && KeepsPlain(f)
    && forall id :: f(id) != id ==>
                      && id in w.cpns && id != [] && f(id) != [] && f(id)[0] != id[0]
                      && forall was <- w.cpns :: f(was) != id
  }

  /** `v` holds the outputs of `w` under the new ids, and nothing else. */
  ghost predicate Rekeyed(f: Renaming, w: Outputs, v: Outputs) {
    && (forall id <- w.cpns :: f(id) in v.cpns && v.cpns[f(id)] == w.cpns[id])
    && (forall id <- v.cpns :: exists was <- w.cpns :: f(was) == id)
    && v.globals == w.globals
  }

  /** The key names no renamed component, or one whose id the migration's pattern can see. */
  predicate KeyKept(f: Renaming, key: string) {
    var i := IndexOf('@', key);
    i < |key| ==> Plain(key[..i]) || f(key[..i]) == key[..i]
  }

  /** What a caller can check before migrating: in every reference the canvas reads, a renamed id is free
      of dots; and no renamed id stands in braces that the canvas does not read (white space inside). */
  predicate Clean(f: Renaming, t: string)
    decreases |t|
  {
    if t == [] then true
    else if Reference(t).Some? then
      var s := Reference(t).value;
      KeyKept(f, t[s.start..s.stop]) && Clean(f, t[s.end..])
    else if Braced(t).Some? then
      var p := Braced(t).value;
      f(t[p.start..p.stop]) == t[p.start..p.stop] && Clean(f, t[p.end..])
    else Clean(f, t[1..])
  }

  lemma RenamedKeyIndex(id: string, key: string, i: nat)
    requires i < |key| && key[i] == '@' && '@' !in id
    ensures IndexOf('@', id + key[i..]) == |id|
    ensures (id + key[i..])[..|id|] == id && (id + key[i..])[|id| + 1..] == key[i + 1..]
  {
    forall j | 0 <= j < |id| ensures (id + key[i..])[j] != '@' {
      assert id[j] in id;
    }
    IndexOfIn('@', id + key[i..], |id|);
    hide IndexOf;
  }

  lemma IndexOfFinds(c: char, s: string)
    ensures IndexOf(c, s) < |s| ==> s[IndexOf(c, s)] == c
  {
  }

  /** A value that could be read is read under the renamed key, exactly when the key is kept. */
  lemma ValueIsKept(f: Renaming, w: Outputs, v: Outputs, key: string)
    requires MigrationMap(f, w) && Rekeyed(f, w, v) && ValueOf(w, key).Some?
    ensures ValueOf(v, RenamedKey(f, key)) == if KeyKept(f, key) then ValueOf(w, key) else None
  {
    var i := IndexOf('@', key);
    IndexOfFinds('@', key);
    hide IndexOf, Span, In;
    if i < |key| {
      var id := key[..i];
      if Plain(id) {
        assert Plain(f(id));
        PlainIsDotted(f(id));
        RenamedKeyIndex(f(id), key, i);
      } else if f(id) == id {
        assert RenamedKey(f, key) == key;
      } else {
        assert RenamedKey(f, key) == key;
        assert id !in v.cpns;
      }
    }
  }

  lemma DifferentPrefix(x: string, id: string, renamed: string, a: string, b: string, c: string, d: string)
    requires id != [] && renamed != [] && id[0] != renamed[0]
    ensures x + id + a + b != x + renamed + c + d
  {
    assert (x + id + a + b)[|x|] == id[0];
    assert (x + renamed + c + d)[|x|] == renamed[0];
  }

  /** The migration preserves what a text means, exactly when the text is clean: for every text the canvas
      could render, the rewritten text with the outputs under their renamed ids renders to the same string if
      and only if no dotted id and no id in spaced-out braces was renamed. */
  lemma {:induction false} RenderingIsPreserved(f: Renaming, w: Outputs, v: Outputs, t: string)
    requires MigrationMap(f, w) && Rekeyed(f, w, v)
    requires Render(w, t).Some?
    ensures Render(v, Rewrite(f, t)) == Render(w, t) <==> Clean(f, t)
    decreases |t|
  {
    if t == [] {
    } else if Reference(t).Some? {
      PreservedAtReference(f, w, v, t);
      RenderReference(w, t);
      hide *;
      RenderingIsPreserved(f, w, v, t[Reference(t).value.end..]);
    } else if Braced(t).Some? {
      PreservedAtMatch(f, w, v, t);
      hide *;
      RenderingIsPreserved(f, w, v, t[Braced(t).value.end..]);
    } else {
      PreservedAtText(f, w, v, t);
      hide *;
      RenderingIsPreserved(f, w, v, t[1..]);
    }
  }

  lemma PreservedAtReference(f: Renaming, w: Outputs, v: Outputs, t: string)
    requires MigrationMap(f, w) && Rekeyed(f, w, v)
    requires Render(w, t).Some? && Reference(t).Some?
    ensures var rest := t[Reference(t).value.end..];
      && Render(w, rest).Some?
      && (Clean(f, t) <==> KeyKept(f, t[Reference(t).value.start..Reference(t).value.stop]) && Clean(f, rest))
      && ((Render(v, Rewrite(f, t)) == Render(w, t))
          <==> KeyKept(f, t[Reference(t).value.start..Reference(t).value.stop])
               && Render(v, Rewrite(f, rest)) == Render(w, rest))
  {
    CleanAtReference(f, t);
    assert KeepsPlain(f);
    hide *;
    var s := Reference(t).value;
    var key := t[s.start..s.stop];
    RenderReference(w, t);
    ReferenceIsRenamed(f, t);
    RenderReference(v, Rewrite(f, t));
    BothSome(ValueOf(w, key), Render(w, t[s.end..]));
    ValueIsKept(f, w, v, key);
    if KeyKept(f, key) {
      Cancel(ValueOf(w, key).value, Render(v, Rewrite(f, t[s.end..])), Render(w, t[s.end..]));
    } else {
      NotSome(Render(v, Rewrite(f, t[s.end..])));
    }
  }

  lemma BothSome(a: Option<string>, b: Option<string>)
    ensures Prefixed(a, b).Some? ==> a.Some? && b.Some? && a == Some(a.value)
  {
  }

  lemma NotSome(b: Option<string>)
    ensures Prefixed(None, b) == None
  {
  }

  lemma CleanAtReference(f: Renaming, t: string)
    requires Reference(t).Some?
    ensures Clean(f, t)
       <==> KeyKept(f, t[Reference(t).value.start..Reference(t).value.stop]) && Clean(f, t[Reference(t).value.end..])
  {
    hide Reference, KeyKept;
  }

  lemma MapFacts(f: Renaming, w: Outputs, id: string)
    requires MigrationMap(f, w)
    ensures KeepsPlain(f) && (f(id) != id ==> id != [] && f(id) != [] && f(id)[0] != id[0])
  {
    hide KeepsPlain;
  }

  lemma BracedBounds(t: string)
    requires Braced(t).Some?
    ensures var p := Braced(t).value;
      1 <= p.start < p.stop < p.end <= |t|
  {
  }

  lemma PreservedAtMatch(f: Renaming, w: Outputs, v: Outputs, t: string)
    requires MigrationMap(f, w)
    requires Render(w, t).Some? && Reference(t) == None && Braced(t).Some?
    ensures var p := Braced(t).value;
      var rest := t[p.end..];
      && Render(w, rest).Some?
      && (Clean(f, t) <==> f(t[p.start..p.stop]) == t[p.start..p.stop] && Clean(f, rest))
      && ((Render(v, Rewrite(f, t)) == Render(w, t))
          <==> f(t[p.start..p.stop]) == t[p.start..p.stop] && Render(v, Rewrite(f, rest)) == Render(w, rest))
  {
    hide *;
    var p := Braced(t).value;
    var id := t[p.start..p.stop];
    CleanAtMatch(f, t);
    MapFacts(f, w, id);
    BracedBounds(t);
    MatchRenders(f, w, v, t);
    var a, b := Render(w, t[p.end..]), Render(v, Rewrite(f, t[p.end..]));
    BothSome(Some(t[..p.end]), a);
    if f(id) == id {
      MatchText(t, p);
      Cancel(t[..p.end], b, a);
    } else {
      assert id[0] == t[p.start];
      Differ(t, p, f(id), a, b);
    }
  }

  lemma MatchRenders(f: Renaming, w: Outputs, v: Outputs, t: string)
    requires KeepsPlain(f) && Reference(t) == None && Braced(t).Some?
    ensures var p := Braced(t).value;
      && Render(w, t) == Prefixed(Some(t[..p.end]), Render(w, t[p.end..]))
      && Render(v, Rewrite(f, t))
         == Prefixed(Some(t[..p.start] + f(t[p.start..p.stop]) + t[p.stop..p.end]), Render(v, Rewrite(f, t[p.end..])))
  {
    hide *;
    UnreadMatch(f, t);
    var p := Braced(t).value;
    RenderSkips(w, t, p.end);
    RenderSkips(v, Rewrite(f, t), p.start + |f(t[p.start..p.stop])| + (p.end - p.stop));
  }

  lemma MatchText(t: string, p: Site)
    requires p.start < p.stop < p.end <= |t|
    ensures t[..p.end] == t[..p.start] + t[p.start..p.stop] + t[p.stop..p.end]
  {
  }

  lemma Differ(t: string, p: Site, renamed: string, a: Option<string>, b: Option<string>)
    requires p.start < p.stop < p.end <= |t| && renamed != [] && t[p.start] != renamed[0] && a.Some?
    ensures Prefixed(Some(t[..p.end]), a) != Prefixed(Some(t[..p.start] + renamed + t[p.stop..p.end]), b)
  {
    MatchText(t, p);
    if b.Some? {
      DifferentPrefix(t[..p.start], t[p.start..p.stop], renamed, t[p.stop..p.end], a.value, t[p.stop..p.end], b.value);
    }
  }

  lemma CleanAtMatch(f: Renaming, t: string)
    requires Reference(t) == None && Braced(t).Some?
    ensures var p := Braced(t).value;
      Clean(f, t) <==> f(t[p.start..p.stop]) == t[p.start..p.stop] && Clean(f, t[p.end..])
  {
    hide Reference, Braced;
    assert t != [] by { assert Braced(t).value.end <= |t|; }
  }

  lemma PreservedAtText(f: Renaming, w: Outputs, v: Outputs, t: string)
    requires MigrationMap(f, w)
    requires Render(w, t).Some? && t != [] && Reference(t) == None && Braced(t) == None
    ensures Render(w, t[1..]).Some?
    ensures Clean(f, t) <==> Clean(f, t[1..])
    ensures Render(v, Rewrite(f, t)) == Render(w, t) <==> Render(v, Rewrite(f, t[1..])) == Render(w, t[1..])
  {
    CleanAtText(f, t);
    assert KeepsPlain(f);
    hide *;
    NoReferenceMade(f, t);
    RewriteStep(f, t);
    HeadKept(f, t);
    RenderStep(w, t);
    RenderStep(v, Rewrite(f, t));
    BothSome(Some([t[0]]), Render(w, t[1..]));
    Cancel([t[0]], Render(v, Rewrite(f, t[1..])), Render(w, t[1..]));
  }

  lemma RenderStep(w: Outputs, t: string)
    requires t != [] && Reference(t) == None
    ensures Render(w, t) == Prefixed(Some([t[0]]), Render(w, t[1..]))
  {
    hide Reference;
  }

  lemma CleanAtText(f: Renaming, t: string)
    requires t != [] && Reference(t) == None && Braced(t) == None
    ensures Clean(f, t) <==> Clean(f, t[1..])
  {
    hide Reference, Braced;
  }

  // ---------- Which references a text has ----------

  /** The keys of the references the canvas reads in `t`, in order. */
  function KeysRead(t: string): seq<string>
    decreases |t|
  {
    if t == [] then []
    else
      match Reference(t)
      case None => KeysRead(t[1..])
      case Some(s) => [t[s.start..s.stop]] + KeysRead(t[s.end..])
  }

  function RenamedKeys(f: Renaming, keys: seq<string>): seq<string> {
    if keys == [] then [] else [RenamedKey(f, keys[0])] + RenamedKeys(f, keys[1..])
  }

  lemma {:induction false} KeysSkip(t: string, k: nat)
    requires k <= |t| && forall j :: 0 <= j < k ==> Reference(t[j..]) == None
    ensures KeysRead(t) == KeysRead(t[k..])
    decreases k
  {
    hide Reference;
    assert t[0..] == t;
    if k > 0 {
      forall j | 0 <= j < k - 1 ensures Reference(t[1..][j..]) == None {
        assert t[1..][j..] == t[j + 1..];
      }
      KeysSkip(t[1..], k - 1);
      assert t[1..][k - 1..] == t[k..];
    }
  }

  lemma KeysStep(t: string)
    requires t != []
    ensures Reference(t) == None ==> KeysRead(t) == KeysRead(t[1..])
    ensures Reference(t).Some? ==>
              var s := Reference(t).value;
              KeysRead(t) == [t[s.start..s.stop]] + KeysRead(t[s.end..])
  {
    hide Reference;
  }

  /** The canvas reads the same references in the rewritten text, key for key with plain ids renamed: the
      rewriting makes no reference, loses none and changes no variable name, for every text. */
  lemma {:induction false} ReferencesAreRenamed(f: Renaming, t: string)
    requires KeepsPlain(f)
    ensures KeysRead(Rewrite(f, t)) == RenamedKeys(f, KeysRead(t))
    decreases |t|
  {
    if t == [] {
    } else if Reference(t).Some? {
      ReferenceIsRenamed(f, t);
      KeysStep(t);
      KeysStep(Rewrite(f, t));
      RenamedKeysCons(f, t[Reference(t).value.start..Reference(t).value.stop], KeysRead(t[Reference(t).value.end..]));
      hide *;
      ReferencesAreRenamed(f, t[Reference(t).value.end..]);
    } else if Braced(t).Some? {
      KeysAtMatch(f, t);
      hide *;
      ReferencesAreRenamed(f, t[Braced(t).value.end..]);
    } else {
      KeysAtText(f, t);
      hide *;
      ReferencesAreRenamed(f, t[1..]);
    }
  }

  lemma RenamedKeysCons(f: Renaming, key: string, keys: seq<string>)
    ensures RenamedKeys(f, [key] + keys) == [RenamedKey(f, key)] + RenamedKeys(f, keys)
  {
  }

  lemma KeysAtMatch(f: Renaming, t: string)
    requires KeepsPlain(f) && Reference(t) == None && Braced(t).Some?
    ensures var rest := t[Braced(t).value.end..];
      KeysRead(t) == KeysRead(rest) && KeysRead(Rewrite(f, t)) == KeysRead(Rewrite(f, rest))
  {
    hide *;
    UnreadMatch(f, t);
    var p := Braced(t).value;
    KeysSkip(t, p.end);
    KeysSkip(Rewrite(f, t), p.start + |f(t[p.start..p.stop])| + (p.end - p.stop));
  }

  lemma KeysAtText(f: Renaming, t: string)
    requires KeepsPlain(f) && t != [] && Reference(t) == None && Braced(t) == None
    ensures KeysRead(t) == KeysRead(t[1..]) && KeysRead(Rewrite(f, t)) == KeysRead(Rewrite(f, t[1..]))
  {
    hide *;
    NoReferenceMade(f, t);
    RewriteStep(f, t);
    HeadKept(f, t);
    KeysStep(t);
    KeysStep(Rewrite(f, t));
  }

  // ---------- The two ways to be unclean ----------

  /** The ids in braces that the migration rewrites and the canvas does not read. */
  function UnreadIds(t: string): seq<string>
    decreases |t|
  {
    if t == [] then []
    else if Reference(t).Some? then UnreadIds(t[Reference(t).value.end..])
    else if Braced(t).Some? then
      var p := Braced(t).value;
      [t[p.start..p.stop]] + UnreadIds(t[p.end..])
    else UnreadIds(t[1..])
  }

  lemma KeysBehindMatch(t: string)
    requires Reference(t) == None && Braced(t).Some?
    ensures KeysRead(t) == KeysRead(t[Braced(t).value.end..])
  {
    hide *;
    var same: Renaming := id => id;
    assert KeepsPlain(same) by { SameKeepsPlain(same); }
    KeysAtMatch(same, t);
  }

  lemma SameKeepsPlain(same: Renaming)
    requires forall id :: same(id) == id
    ensures KeepsPlain(same)
  {
  }

  /** A text is clean exactly if every key the canvas reads in it is kept and no id in an unread match is renamed. */
  lemma {:induction false} CleanExactly(f: Renaming, t: string)
    ensures Clean(f, t)
       <==> (forall key <- KeysRead(t) :: KeyKept(f, key)) && (forall id <- UnreadIds(t) :: f(id) == id)
    decreases |t|
  {
    hide Reference, Braced, KeyKept;
    if t != [] {
      if Reference(t).Some? {
        CleanExactly(f, t[Reference(t).value.end..]);
      } else if Braced(t).Some? {
        KeysBehindMatch(t);
        CleanExactly(f, t[Braced(t).value.end..]);
      } else {
        CleanExactly(f, t[1..]);
      }
    }
  }

  /** White space inside the braces of a renamed component's reference. */
  lemma SpacedReferenceBreaks(f: Renaming, id: string, name: string)
    requires Plain(id) && f(id) != id
    requires name != [] && Span(VarChar, name) == |name|
    ensures !Clean(f, "{ " + id + "@" + name + "}")
  {
    hide *;
    var t := "{ " + id + "@" + name + "}";
    var u := id + "@" + name + "}";
    SpacedSpans(id, u);
    assert t == "{ " + u;
    IdPartOfWhole(id, name);
    BracedOfSpaced(u, |id|, |u|);
    assert t[2..2 + |id|] == id;
    CleanAtMatch(f, t);
  }

  lemma SpacedSpans(id: string, u: string)
    requires Plain(id) && id <= u
    ensures u != [] && u[0] == id[0] && u[0] != '{' && !IsWhite(u[0])
  {
    PlainIsDotted(id);
    hide Span;
    assert id[0] in id;
  }

  lemma IdPartOfWhole(id: string, name: string)
    requires Plain(id) && name != [] && Span(VarChar, name) == |name|
    ensures var u := id + "@" + name + "}";
      IdPart(u) == Some(Site(0, |id|, |u|))
  {
    hide *;
    WholeReference(id, name, IdChar);
    PlainFromSpan(id);
    SpanAppend(IdChar, id, "@" + name + "}");
    NameThenBrace(name);
    IdPartIs(id + "@" + name + "}", |id|);
  }

  lemma PlainFromSpan(id: string)
    requires Plain(id)
    ensures id != [] && Span(IdChar, id) == |id|
  {
  }

  /** Neither id class contains `@`. */
  lemma WholeReference(id: string, name: string, c: Cls)
    requires c == IdChar || c == DottedIdChar
    ensures var rest := "@" + name + "}";
      && id + "@" + name + "}" == id + rest
      && rest != [] && rest[0] == '@' && !In(c, rest[0])
      && (id + rest)[|id|] == '@' && (id + rest)[|id| + 1..] == name + "}"
  {
  }

  lemma BraceAlone()
    ensures Span(VarChar, "}") == 0 && Span(CloseBrace, "}") == 1
  {
    assert Span(CloseBrace, "}") == 1 + Span(CloseBrace, "}"[1..]);
  }

  lemma NameThenBrace(name: string)
    requires name != [] && Span(VarChar, name) == |name|
    ensures Span(VarChar, name + "}") == |name| && (name + "}")[|name|] == '}'
    ensures AfterAt(name + "}") == Some(|name| + 1)
  {
    hide *;
    SpanAppend(VarChar, name, "}");
    BraceAlone();
    assert (name + "}")[|name|..] == "}";
    AfterAtAtTail(name + "}");
  }

  lemma IdPartIs(u: string, n: nat)
    requires n == Span(IdChar, u) && 0 < n < |u| && u[n] == '@' && AfterAt(u[n + 1..]).Some?
    ensures IdPart(u) == Some(Site(0, n, n + 1 + AfterAt(u[n + 1..]).value))
  {
    hide Span, AfterAt;
  }

  lemma DottedKeyIs(u: string, n: nat)
    requires n == Span(DottedIdChar, u) && 0 < n < |u| && u[n] == '@'
    requires var v := Span(VarChar, u[n + 1..]);
      0 < v < |u| - n - 1 && u[n + 1..][v] == '}'
    ensures Key(u) == Some(n + 1 + Span(VarChar, u[n + 1..]))
  {
    hide Span, GlobalKey;
  }

  lemma SpacedClasses(x: char)
    requires x != '{' && !IsWhite(x)
    ensures In(OpenBrace, '{') && !In(OpenBrace, ' ') && In(White, ' ') && In(Space, ' ')
    ensures !In(White, x) && !In(Space, x)
  {
  }

  lemma BracedOfLead(t: string, site: Site)
    requires t != [] && t[0] == '{' && IdPart(t[Lead(t)..]) == Some(site)
    ensures Braced(t) == Some(Site(Lead(t) + site.start, Lead(t) + site.stop, Lead(t) + site.end))
  {
    hide IdPart, Lead;
  }

  lemma NoOpeningNoReference(t: string)
    requires Opening(t) == 0
    ensures Reference(t) == None
  {
    hide Opening;
  }

  lemma BracedOfSpaced(u: string, stop: nat, end: nat)
    requires u != [] && u[0] != '{' && !IsWhite(u[0])
    requires IdPart(u) == Some(Site(0, stop, end))
    ensures var t := "{ " + u;
      Reference(t) == None && Braced(t) == Some(Site(2, 2 + stop, 2 + end))
  {
    hide *;
    var t := "{ " + u;
    var v := [' '] + u;
    assert t == ['{'] + v;
    assert t[1..] == v && t[2..] == u && v[0] == ' ' && v[1] == u[0];
    SpacedClasses(u[0]);
    NoSpan(White, u);
    NoSpan(Space, u);
    NoSpan(OpenBrace, v);
    SpanStep(OpenBrace, '{', v);
    SpanStep(White, ' ', u);
    SpanStep(Space, ' ', u);
    OpeningCases(t);
    NoOpeningNoReference(t);
    LeadShape(t);
    BracedOfLead(t, Site(0, stop, end));
  }

  /** A renamed component whose id contains a dot. */
  lemma DottedReferenceBreaks(f: Renaming, id: string, name: string)
    requires id != [] && Span(DottedIdChar, id) == |id| && '.' in id && f(id) != id
    requires name != [] && Span(VarChar, name) == |name|
    ensures !Clean(f, "{" + id + "@" + name + "}")
  {
    hide *;
    var key, rest := id + "@" + name, "@" + (name + "}");
    DottedPieces(id, name);
    NameThenBrace(name);
    KeyOfRest(id, rest, name + "}", |name|);
    FirstOfKey(id, name);
    ReferenceOfKey(key);
    KeyIsBehindBrace(key);
    CleanAtReference(f, "{" + (key + "}"));
    NotKept(f, id, name);
  }

  lemma KeyOfRest(id: string, rest: string, after: string, n: nat)
    requires id != [] && Span(DottedIdChar, id) == |id|
    requires rest != [] && rest[0] == '@' && rest[1..] == after
    requires 0 < n < |after| && n == Span(VarChar, after) && after[n] == '}'
    ensures Key(id + rest) == Some(|id| + 1 + n)
  {
    hide *;
    assert (id + rest)[|id|] == '@' && (id + rest)[|id| + 1..] == rest[1..];
    KeyOfDottedParts(id, rest, after);
  }

  lemma DottedPieces(id: string, name: string)
    ensures var key, rest := id + "@" + name, "@" + (name + "}");
      && key + "}" == id + rest && rest != [] && rest[0] == '@' && rest[1..] == name + "}"
      && |key| == |id| + 1 + |name| && "{" + id + "@" + name + "}" == "{" + (key + "}")
  {
  }

  lemma KeyIsBehindBrace(key: string)
    ensures ("{" + (key + "}"))[1..1 + |key|] == key
  {
  }

  lemma KeyOfDottedParts(id: string, rest: string, after: string)
    requires id != [] && Span(DottedIdChar, id) == |id|
    requires rest != [] && rest[0] == '@' && (id + rest)[|id|] == '@' && (id + rest)[|id| + 1..] == after
    requires var v := Span(VarChar, after);
      0 < v < |after| && after[v] == '}'
    ensures Key(id + rest) == Some(|id| + 1 + Span(VarChar, after))
  {
    hide *;
    DottedIdSpan(id, rest);
    DottedKeyIs(id + rest, |id|);
  }

  lemma DottedIdSpan(id: string, rest: string)
    requires Span(DottedIdChar, id) == |id| && rest != [] && rest[0] == '@'
    ensures Span(DottedIdChar, id + rest) == |id|
  {
    SpanAppend(DottedIdChar, id, rest);
  }

  lemma FirstOfKey(id: string, name: string)
    requires id != [] && Span(DottedIdChar, id) == |id|
    ensures (id + "@" + name)[0] != '{' && (id + "@" + name)[0] != ' '
  {
    SpanIsInClass(DottedIdChar, id);
    assert (id + "@" + name)[0] == id[0];
    hide Span;
  }

  lemma TailAlone()
    ensures Tail("}") == 1
  {
  }

  lemma ReferenceOfKey(key: string)
    requires key != [] && key[0] != '{' && key[0] != ' ' && Key(key + "}") == Some(|key|)
    ensures var t := "{" + (key + "}");
      Reference(t) == Some(Site(1, 1 + |key|, 2 + |key|))
  {
    hide *;
    var t := "{" + (key + "}");
    assert t[1..] == key + "}" && t[1 + |key|..] == "}";
    OneBrace(t);
    TailAlone();
    ReferenceFrom(t, 1, |key|);
  }

  lemma NotKept(f: Renaming, id: string, name: string)
    requires id != [] && Span(DottedIdChar, id) == |id| && '.' in id && f(id) != id
    ensures !KeyKept(f, id + "@" + name)
  {
    var key := id + "@" + name;
    SpanIsInClass(DottedIdChar, id);
    IndexOfIn('@', key, |id|);
    assert key[..|id|] == id;
    if Plain(id) {
      PlainIsDotted(id);
      assert false;
    }
    hide Span, IndexOf;
  }

  // ---------- Texts that are not rewritten ----------

  /** The key names no component that is renamed. */
  predicate KeyUntouched(f: Renaming, key: string) {
    var i := IndexOf('@', key);
    i < |key| ==> f(key[..i]) == key[..i]
  }

  lemma ValueIsUntouched(f: Renaming, w: Outputs, v: Outputs, key: string)
    requires MigrationMap(f, w) && Rekeyed(f, w, v) && ValueOf(w, key).Some?
    ensures ValueOf(v, key) == if KeyUntouched(f, key) then ValueOf(w, key) else None
  {
    hide IndexOf, Plain, KeepsPlain;
    var i := IndexOf('@', key);
    if i < |key| && f(key[..i]) != key[..i] {
      assert key[..i] !in v.cpns;
    }
  }

  /** A text that is left as it is, with the outputs under their renamed ids, renders as before exactly if none of
      the keys read in it names a renamed component. */
  lemma {:induction false} UnrewrittenText(f: Renaming, w: Outputs, v: Outputs, t: string)
    requires MigrationMap(f, w) && Rekeyed(f, w, v) && Render(w, t).Some?
    ensures Render(v, t) == Render(w, t) <==> forall key <- KeysRead(t) :: KeyUntouched(f, key)
    decreases |t|
  {
    hide Reference, KeyUntouched, MigrationMap, Rekeyed, ValueOf, Render, KeysRead;
    if t == [] {
      EmptyText(w);
      EmptyText(v);
    } else {
      KeysStep(t);
      if Reference(t).Some? {
        var s := Reference(t).value;
        RenderReference(w, t);
        RenderReference(v, t);
        ValueIsUntouched(f, w, v, t[s.start..s.stop]);
        UnrewrittenText(f, w, v, t[s.end..]);
        CancelValue(ValueOf(w, t[s.start..s.stop]), Render(v, t[s.end..]), Render(w, t[s.end..]));
      } else {
        RenderStep(w, t);
        RenderStep(v, t);
        UnrewrittenText(f, w, v, t[1..]);
        CancelValue(Some([t[0]]), Render(v, t[1..]), Render(w, t[1..]));
      }
    }
  }

  lemma EmptyText(w: Outputs)
    ensures Render(w, []) == Some([]) && KeysRead([]) == []
  {
  }

  lemma CancelValue(x: Option<string>, a: Option<string>, b: Option<string>)
    requires x.Some? && b.Some?
    ensures Prefixed(x, a) == Prefixed(x, b) <==> a == b
    ensures Prefixed(None, a) == None && Prefixed(x, b).Some?
  {
    Cancel(x.value, a, b);
  }
}
