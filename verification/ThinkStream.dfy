/** The differ that turns cumulative model answers into a stream of pieces (`delta` in the LLM
    component), and its corrected twin in the dialog service. */
module ThinkStream {
  import opened Common

  const OPEN := "<think>"
  const CLOSE := "</think>"

  // ---------- Python's string operations ----------

  /** `s.find(sub)` for a non-empty `sub`. */
  function Find(s: string, sub: string): (i: int)
    requires sub != []
    ensures -1 <= i <= |s| - |sub| || i == -1
    ensures i >= 0 ==> sub <= s[i..]
    decreases |s|
  {
    if |s| < |sub| then -1
    else if sub <= s then 0
    else
      var i := Find(s[1..], sub);
      if i < 0 then -1 else i + 1
  }

  /** A slice bound: negative ones count from the end, and both ends are clipped. */
  function Bound(i: int, n: nat): (r: nat)
    ensures r <= n
  {
    if i < 0 then (if i + n < 0 then 0 else i + n) else if i > n then n else i
  }

  function Slice(s: string, i: int, j: int): string {
    var a, b := Bound(i, |s|), Bound(j, |s|);
    if a <= b then s[a..b] else []
  }

  /** `re.sub(r"(<think>|</think>)", "", s)`: one pass, left to right. */
  function RemoveTags(s: string): string
    decreases |s|
  {
    if s == [] then []
    else if OPEN <= s then RemoveTags(s[|OPEN|..])
    else if CLOSE <= s then RemoveTags(s[|CLOSE|..])
    else [s[0]] + RemoveTags(s[1..])
  }

  // ---------- One call ----------

  datatype Cursor = Cursor(lastIdx: int, endsThink: bool)

  /** What a call yields: a tag of its own, a stretch of the answer as it is, or one with its tags removed. */
  datatype Piece = Tag(s: string) | Raw(s: string) | Cleaned(s: string)

  function Yielded(p: Piece): string {
    if p.Cleaned? then RemoveTags(p.s) else p.s
  }

  /** The answer text in a piece: tags do not count. */
  function TextOf(p: Piece): string {
    if p.Tag? then "" else RemoveTags(p.s)
  }

  function Pending(c: Cursor, txt: string): string {
    Slice(txt, c.lastIdx, |txt|)
  }

  /** The common end of a call: everything pending is yielded, a closing tag at the end stays pending. */
  function Finish(txt: string, endsThink: bool, pending: string): (Cursor, Piece) {
    (Cursor(|txt| - (if EndsWith(txt, CLOSE) then |CLOSE| else 0), endsThink), Cleaned(pending))
  }

  /** `delta(txt)`.  In the second branch the pending text is cut before it is searched again, so the
      search fails and moves the cursor by -1. */
  function Delta(c: Cursor, txt: string): (Cursor, Piece) {
    var pending := Pending(c, txt);
    var at := Find(pending, OPEN);
    if at == 0 then (c.(lastIdx := c.lastIdx + |OPEN|), Tag(OPEN))
    else if at > 0 then
      var cut := Slice(txt, c.lastIdx, c.lastIdx + at);
      (c.(lastIdx := c.lastIdx + Find(cut, OPEN)), Raw(cut))
    else if EndsWith(pending, CLOSE) then Finish(txt, true, pending)
    else if c.endsThink then (c.(endsThink := false), Tag(CLOSE))
    else Finish(txt, c.endsThink, pending)
  }

  /** `_next_think_delta` for a text that changed: the same, with the search done once. */
  function TwinDelta(c: Cursor, txt: string): (Cursor, Piece) {
    var pending := Pending(c, txt);
    var at := Find(pending, OPEN);
    if at > 0 then (c.(lastIdx := c.lastIdx + at), Raw(Slice(txt, c.lastIdx, c.lastIdx + at)))
    else Delta(c, txt)
  }

  /** The closure's variables. */
  class Differ {
    var ans: string
    var lastIdx: int
    var endswithThink: bool

    function Position(): Cursor
      reads this
    {
      Cursor(lastIdx, endswithThink)
    }

    constructor ()
      ensures ans == "" && Position() == Cursor(0, false)
    {
      ans := "";
      lastIdx := 0;
      endswithThink := false;
    }

    method Next(txt: string) returns (out: string)
      modifies this
      ensures ans == txt
      ensures Position() == Delta(old(Position()), txt).0
      ensures out == Yielded(Delta(old(Position()), txt).1)
    {
      hide Find, Slice, EndsWith, RemoveTags;
      var deltaAns := Slice(txt, lastIdx, |txt|);
      ans := txt;
      if Find(deltaAns, OPEN) == 0 {
        lastIdx := lastIdx + |OPEN|;
        return OPEN;
      } else if Find(deltaAns, OPEN) > 0 {
        deltaAns := Slice(txt, lastIdx, lastIdx + Find(deltaAns, OPEN));
        lastIdx := lastIdx + Find(deltaAns, OPEN);
        return deltaAns;
      } else if EndsWith(deltaAns, CLOSE) {
        endswithThink := true;
      } else if endswithThink {
        endswithThink := false;
        return CLOSE;
      }
      lastIdx := |ans|;
      if EndsWith(ans, CLOSE) {
        lastIdx := lastIdx - |CLOSE|;
      }
      return RemoveTags(deltaAns);
    }
  }

  // ---------- Tags and cuts ----------

  function TagLength(t: string, q: nat): nat
    requires q <= |t|
  {
    if OPEN <= t[q..] then |OPEN| else if CLOSE <= t[q..] then |CLOSE| else 0
  }

  /** No tag of `t` lies across position `p`. */
  ghost predicate Whole(t: string, p: nat) {
    forall q :: 0 <= q <= |t| && q < p ==> q + TagLength(t, q) <= p
  }

  /** Inside a tag there is no `<`, so tags never overlap. */
  lemma NoTagInsideTag(t: string, q: nat, r: nat)
    requires q < r <= |t| && r < q + TagLength(t, q)
    ensures t[r] != '<' && TagLength(t, r) == 0
  {
    var n := TagLength(t, q);
    var tag := if OPEN <= t[q..] then OPEN else CLOSE;
    assert t[r] == t[q..][r - q] == tag[r - q];
    assert tag[r - q] != '<';
    assert t[r..] != [] && t[r..][0] == t[r];
  }

  /** The end of a tag is no place inside another one. */
  lemma WholeBehindTag(t: string, q: nat)
    requires q <= |t| && Whole(t, q) && TagLength(t, q) > 0
    ensures q + TagLength(t, q) <= |t| && Whole(t, q + TagLength(t, q))
  {
    var p := q + TagLength(t, q);
    forall r | 0 <= r <= |t| && r < p ensures r + TagLength(t, r) <= p {
      if r > q {
        NoTagInsideTag(t, q, r);
      }
    }
  }

  /** The beginning of a tag is no place inside another one. */
  lemma WholeBeforeTag(t: string, q: nat)
    requires q <= |t| && TagLength(t, q) > 0
    ensures Whole(t, q)
  {
    forall r | 0 <= r <= |t| && r < q ensures r + TagLength(t, r) <= q {
      if q < r + TagLength(t, r) {
        NoTagInsideTag(t, r, q);
      }
    }
  }

  lemma WholeSuffix(t: string, k: nat, p: nat)
    requires k <= p <= |t| && Whole(t, p)
    ensures Whole(t[k..], p - k)
  {
    forall q | 0 <= q <= |t| - k && q < p - k ensures q + TagLength(t[k..], q) <= p - k {
      assert t[k..][q..] == t[k + q..];
      assert TagLength(t[k..], q) == TagLength(t, k + q);
    }
  }

  /** A prefix has at its head the tag of the whole text, or none. */
  lemma TagInPrefix(t: string, u: string)
    requires u <= t
    ensures OPEN <= u ==> OPEN <= t
    ensures CLOSE <= u ==> CLOSE <= t && !(OPEN <= t)
    ensures OPEN <= t && |OPEN| <= |u| ==> OPEN <= u
    ensures CLOSE <= t && |CLOSE| <= |u| ==> CLOSE <= u
  {
    if CLOSE <= t {
      assert t[1] == CLOSE[1] != OPEN[1];
    }
  }

  lemma WholePrefix(t: string, m: nat, p: nat)
    requires p <= m <= |t| && Whole(t, p)
    ensures Whole(t[..m], p)
  {
    forall q | 0 <= q <= m && q < p ensures q + TagLength(t[..m], q) <= p {
      assert t[..m][q..] == t[q..][..m - q];
      TagInPrefix(t[q..], t[..m][q..]);
      assert TagLength(t[..m], q) == 0 || TagLength(t[..m], q) == TagLength(t, q);
    }
  }

  lemma NothingRemoved(t: string)
    ensures RemoveTags(t[..0]) == [] && t[0..] == t
  {
  }

  lemma WholeFits(t: string, p: nat)
    requires 0 < p <= |t| && Whole(t, p)
    ensures TagLength(t, 0) <= p
  {
    hide TagLength;
  }

  lemma HeadLength(t: string)
    ensures TagLength(t, 0) == if OPEN <= t then |OPEN| else if CLOSE <= t then |CLOSE| else 0
  {
    assert t[0..] == t;
  }

  lemma HeadRemoved(t: string)
    requires t != []
    ensures var n := TagLength(t, 0);
      && n <= |t|
      && RemoveTags(t) == if n > 0 then RemoveTags(t[n..]) else [t[0]] + RemoveTags(t[1..])
  {
    hide TagLength;
    HeadLength(t);
  }

  lemma Joined(a: string, b: string, c: string)
    ensures a + (b + c) == a + b + c
  {
  }

  /** Removing tags works piecewise when no tag lies across the cut. */
  lemma {:induction false} RemoveTagsSplits(t: string, p: nat)
    requires p <= |t| && Whole(t, p)
    ensures RemoveTags(t) == RemoveTags(t[..p]) + RemoveTags(t[p..])
    decreases p
  {
    hide RemoveTags, TagLength, Whole;
    if p == 0 {
      NothingRemoved(t);
    } else {
      var n := TagLength(t, 0);
      WholeFits(t, p);
      var k := if n > 0 then n else 1;
      WholeSuffix(t, k, p);
      RemoveTagsSplits(t[k..], p - k);
      assert t[k..][..p - k] == t[..p][k..] && t[k..][p - k..] == t[p..];
      HeadTag(t, p);
      HeadRemoved(t);
      HeadRemoved(t[..p]);
      if n == 0 {
        Joined([t[0]], RemoveTags(t[..p][1..]), RemoveTags(t[p..]));
      }
    }
  }

  /** A prefix that cuts no tag begins with the tag the text begins with. */
  lemma HeadTag(t: string, p: nat)
    requires 0 < p <= |t| && TagLength(t, 0) <= p
    ensures TagLength(t[..p], 0) == TagLength(t, 0)
    ensures t[..p][0] == t[0]
  {
    assert t[0..] == t && t[..p][0..] == t[..p];
    TagInPrefix(t, t);
    TagInPrefix(t, t[..p]);
  }

  /** Piecewise removal between two cuts of a text. */
  lemma RemoveTagsBetween(t: string, a: nat, b: nat)
    requires a <= b <= |t| && Whole(t, a) && Whole(t, b)
    ensures RemoveTags(t[..b]) == RemoveTags(t[..a]) + RemoveTags(t[a..b])
  {
    WholePrefix(t, b, a);
    RemoveTagsSplits(t[..b], a);
    assert t[..b][..a] == t[..a] && t[..b][a..] == t[a..b];
  }

  // ---------- What a stream keeps ----------

  /** The part of a text that later texts keep: a closing tag at its end may still be taken back. */
  function Held(t: string): (h: nat)
    ensures h <= |t|
  {
    |t| - (if EndsWith(t, CLOSE) then |CLOSE| else 0)
  }

  /** `y` may arrive after `x`: it is the same text, or it grows behind the part of `x` that is kept, and no tag of
      `y` lies across the end of that part. */
  ghost predicate Follows(x: string, y: string) {
    var h := Held(x);
    h <= |y| && y[..h] == x[..h] && Whole(y, h) && (h < |y| || y == x)
  }

  /** After the text `t` arrived: the cursor stands in it and cuts no tag, and `text` is `t` up to the cursor, tags
      removed.  A closing tag at the very end is still pending. */
  ghost predicate Sound(t: string, c: Cursor, text: string) {
    && 0 <= c.lastIdx <= |t|
    && Whole(t, c.lastIdx)
    && text == RemoveTags(t[..c.lastIdx])
    && (c.lastIdx == |t| ==> !EndsWith(t, CLOSE))
  }

  /** The guard of the second branch: an opening tag is pending, but not first. */
  predicate TagPendingBehindText(c: Cursor, txt: string) {
    Find(Pending(c, txt), OPEN) > 0
  }

  lemma PendingIs(t: string, c: Cursor)
    requires 0 <= c.lastIdx <= |t|
    ensures Pending(c, t) == t[c.lastIdx..]
  {
  }

  lemma ClosingTagAt(t: string)
    requires EndsWith(t, CLOSE)
    ensures var q := |t| - |CLOSE|;
      t[q..] == CLOSE && TagLength(t, q) == |CLOSE| && Whole(t, q)
  {
    var q := |t| - |CLOSE|;
    assert TagLength(t, q) == |CLOSE| by { TagInPrefix(t[q..], t[q..]); }
    WholeBeforeTag(t, q);
  }

  lemma NotInside(t: string, p: nat, q: nat)
    requires p <= |t| && q <= |t| && Whole(t, p)
    ensures p <= q || q + TagLength(t, q) <= p
  {
  }

  lemma TagsApart(t: string, a: nat, b: nat)
    requires a < b <= |t| && TagLength(t, b) > 0
    ensures a + TagLength(t, a) <= b
  {
    if b < a + TagLength(t, a) {
      NoTagInsideTag(t, a, b);
    }
  }

  /** The cursor stands in the part that is kept. */
  lemma CursorIsHeld(t: string, c: Cursor, text: string)
    requires Sound(t, c, text)
    ensures c.lastIdx <= Held(t)
  {
    if EndsWith(t, CLOSE) {
      ClosingTagAt(t);
      NotInside(t, c.lastIdx, |t| - |CLOSE|);
    }
  }

  lemma WholeInside(x: string, y: string, h: nat, l: nat)
    requires l <= h <= |x| && h <= |y| && y[..h] == x[..h] && Whole(x, l) && Whole(y, h)
    ensures Whole(y, l)
  {
    forall q | 0 <= q <= |y| && q < l ensures q + TagLength(y, q) <= l {
      var n := TagLength(y, q);
      if n > 0 {
        assert q + n <= h;
        assert y[q..][..n] == y[..h][q..q + n] == x[..h][q..q + n] == x[q..][..n];
        TagInPrefix(x[q..], x[q..][..n]);
        assert TagLength(x, q) == n;
      }
    }
  }

  /** What was sound for a text is sound for the one that follows it. */
  lemma SoundCarries(x: string, y: string, c: Cursor, text: string)
    requires Sound(x, c, text) && Follows(x, y)
    ensures Sound(y, c, text)
  {
    CursorIsHeld(x, c, text);
    var l := c.lastIdx;
    WholeInside(x, y, Held(x), l);
    hide Whole, RemoveTags, EndsWith;
    assert y[..l] == y[..Held(x)][..l] == x[..l];
  }

  lemma TagStands(t: string, l: nat)
    requires l <= |t| && Find(t[l..], OPEN) == 0
    ensures l + |OPEN| <= |t| && OPEN <= t[l..] && t[l..l + |OPEN|] == OPEN && TagLength(t, l) == |OPEN|
    ensures t[..l + |OPEN|][l..] == OPEN
  {
    FoundAtHead(t[l..]);
    assert t[l..][..|OPEN|] == t[l..l + |OPEN|] == t[..l + |OPEN|][l..];
    hide Find;
  }

  lemma FoundAtHead(s: string)
    requires Find(s, OPEN) == 0
    ensures OPEN <= s
  {
  }

  lemma OpeningTagAlone()
    ensures RemoveTags(OPEN) == []
  {
    assert OPEN[|OPEN|..] == [];
  }

  lemma ClosingTagAlone()
    ensures RemoveTags(CLOSE) == []
  {
    assert CLOSE[|CLOSE|..] == [];
    assert !(OPEN <= CLOSE) by { assert CLOSE[1] != OPEN[1]; }
  }

  lemma NotClosedByOpen(s: string)
    requires |s| >= |OPEN| && s[|s| - |OPEN|..] == OPEN
    ensures !EndsWith(s, CLOSE)
  {
    if |s| >= |CLOSE| {
      var k := |s| - |CLOSE|;
      assert s[k..][1] == s[k + 1] == s[k + 1..][0];
      assert s[k + 1..] == OPEN;
      assert CLOSE[1] != OPEN[0];
    }
  }

  /** An opening tag that is first in the pending text is consumed, nothing else. */
  lemma OpeningTag(t: string, c: Cursor, text: string)
    requires Sound(t, c, text) && Find(t[c.lastIdx..], OPEN) == 0
    ensures Sound(t, c.(lastIdx := c.lastIdx + |OPEN|), text)
  {
    hide Whole, RemoveTags, Find, EndsWith, TagLength;
    var l := c.lastIdx;
    var q := l + |OPEN|;
    TagStands(t, l);
    WholeBehindTag(t, l);
    RemoveTagsBetween(t, l, q);
    OpeningTagAlone();
    NotClosedByOpen(t[..q]);
    assert q == |t| ==> t[..q] == t;
    assert text + [] == text;
  }

  lemma EndIsWhole(t: string)
    ensures Whole(t, |t|)
  {
  }

  lemma WithoutClosingTag(t: string)
    requires EndsWith(t, CLOSE)
    ensures RemoveTags(t[..|t| - |CLOSE|]) == RemoveTags(t)
  {
    hide Whole, RemoveTags, TagLength;
    ClosingTagAt(t);
    var q := |t| - |CLOSE|;
    EndIsWhole(t);
    RemoveTagsBetween(t, q, |t|);
    assert t[q..|t|] == t[q..] && t[..|t|] == t;
    ClosingTagAlone();
  }

  /** All pending text is taken, up to a closing tag at its end. */
  lemma AllPending(t: string, c: Cursor, text: string, endsThink: bool)
    requires Sound(t, c, text)
    ensures var r := Finish(t, endsThink, t[c.lastIdx..]);
      Sound(t, r.0, text + TextOf(r.1)) && c.lastIdx <= r.0.lastIdx
  {
    hide Whole, RemoveTags, EndsWith, TagLength;
    CursorIsHeld(t, c, text);
    EndIsWhole(t);
    RemoveTagsBetween(t, c.lastIdx, |t|);
    assert t[..|t|] == t && t[c.lastIdx..|t|] == t[c.lastIdx..];
    if EndsWith(t, CLOSE) {
      ClosingTagAt(t);
      WithoutClosingTag(t);
    }
  }

  /** The second branch: the cursor moves back by one. */
  lemma MovesBack(t: string, c: Cursor)
    requires 0 <= c.lastIdx <= |t| && TagPendingBehindText(c, t)
    ensures var at := Find(t[c.lastIdx..], OPEN);
      && 0 < at <= |t| - c.lastIdx
      && Delta(c, t) == (c.(lastIdx := c.lastIdx - 1), Raw(t[c.lastIdx..c.lastIdx + at]))
  {
    hide Find, EndsWith, Finish;
    PendingIs(t, c);
    var pending := t[c.lastIdx..];
    var at := Find(pending, OPEN);
    FirstFind(pending, OPEN);
    CutIs(t, c.lastIdx, at);
  }

  lemma CutIs(t: string, l: nat, at: nat)
    requires l + at <= |t|
    ensures Slice(t, l, l + at) == t[l..][..at] == t[l..l + at]
  {
  }

  /** In front of the first occurrence there is none. */
  lemma {:induction false} FirstFind(s: string, sub: string)
    requires sub != []
    ensures Find(s, sub) >= 0 ==> Find(s[..Find(s, sub)], sub) == -1
    decreases |s|
  {
    var i := Find(s, sub);
    if i > 0 {
      FirstFind(s[1..], sub);
      FoundLater(s, sub);
      NotFoundInFront(s, sub, i);
    }
  }

  lemma FoundLater(s: string, sub: string)
    requires sub != [] && Find(s, sub) > 0
    ensures !(sub <= s) && s != [] && Find(s[1..], sub) == Find(s, sub) - 1
  {
  }

  lemma NotFoundInFront(s: string, sub: string, i: nat)
    requires sub != [] && 0 < i <= |s| && !(sub <= s) && Find(s[1..][..i - 1], sub) == -1
    ensures Find(s[..i], sub) == -1
  {
    assert s[..i][1..] == s[1..][..i - 1];
    assert sub <= s[..i] ==> sub <= s;
  }

  /** The other branches, by what is pending. */
  lemma OtherBranches(t: string, c: Cursor)
    requires 0 <= c.lastIdx <= |t| && !TagPendingBehindText(c, t)
    ensures var pending := t[c.lastIdx..];
      Delta(c, t)
        == if Find(pending, OPEN) == 0 then (c.(lastIdx := c.lastIdx + |OPEN|), Tag(OPEN))
           else if EndsWith(pending, CLOSE) then Finish(t, true, pending)
           else if c.endsThink then (c.(endsThink := false), Tag(CLOSE))
           else Finish(t, false, pending)
  {
    PendingIs(t, c);
    hide Find, EndsWith;
  }

  lemma CursorIsInside(t: string, c: Cursor, text: string)
    requires Sound(t, c, text)
    ensures 0 <= c.lastIdx <= |t|
  {
  }

  lemma TagIsNoText()
    ensures TextOf(Tag(OPEN)) == "" && TextOf(Tag(CLOSE)) == ""
  {
  }

  /** One call on a sound stream: whatever text follows, the stream stays sound, and the cursor does not move back,
      exactly when no opening tag is pending behind other text. */
  lemma CallIsSound(x: string, y: string, c: Cursor, text: string)
    requires Sound(x, c, text) && Follows(x, y)
    ensures var r := Delta(c, y);
      && (!TagPendingBehindText(c, y) ==> Sound(y, r.0, text + TextOf(r.1)))
      && (c.lastIdx <= r.0.lastIdx <==> !TagPendingBehindText(c, y))
      && (TagPendingBehindText(c, y) ==> r.0.lastIdx == c.lastIdx - 1)
  {
    hide Sound, Whole, Find, RemoveTags, EndsWith, TagPendingBehindText, Delta, Finish, Follows, TextOf, Slice;
    SoundCarries(x, y, c, text);
    CursorIsInside(y, c, text);
    TagIsNoText();
    if TagPendingBehindText(c, y) {
      MovesBack(y, c);
    } else {
      OtherBranches(y, c);
      var pending := y[c.lastIdx..];
      assert text + "" == text;
      if Find(pending, OPEN) == 0 {
        OpeningTag(y, c, text);
      } else if EndsWith(pending, CLOSE) || !c.endsThink {
        AllPending(y, c, text, EndsWith(pending, CLOSE));
      } else {
        StaysWhere(y, c, text);
      }
    }
  }

  lemma StaysWhere(t: string, c: Cursor, text: string)
    requires Sound(t, c, text)
    ensures Sound(t, c.(endsThink := false), text)
  {
  }

  // ---------- Whole streams ----------

  /** The texts arrive one after the other, the first of them after `x`. */
  ghost predicate Arrives(x: string, texts: seq<string>)
    decreases |texts|
  {
    texts == [] || (Follows(x, texts[0]) && Arrives(texts[0], texts[1..]))
  }

  type Step = (Cursor, string) -> (Cursor, Piece)

  /** The cursor after the calls, and the answer text yielded on top of `text`. */
  function Stream(step: Step, c: Cursor, text: string, texts: seq<string>): (Cursor, string)
    decreases |texts|
  {
    if texts == [] then (c, text)
    else Stream(step, step(c, texts[0]).0, text + TextOf(step(c, texts[0]).1), texts[1..])
  }

  /** The pieces of the calls. */
  function Pieces(step: Step, c: Cursor, texts: seq<string>): (r: seq<Piece>)
    ensures |r| == |texts|
    decreases |texts|
  {
    if texts == [] then [] else [step(c, texts[0]).1] + Pieces(step, step(c, texts[0]).0, texts[1..])
  }

  /** The cursor never moves back. */
  predicate Advances(step: Step, c: Cursor, texts: seq<string>)
    decreases |texts|
  {
    texts == []
    || (c.lastIdx <= step(c, texts[0]).0.lastIdx && Advances(step, step(c, texts[0]).0, texts[1..]))
  }

  /** No call finds an opening tag pending behind other text. */
  predicate TagsComeFirst(c: Cursor, texts: seq<string>)
    decreases |texts|
  {
    texts == [] || (!TagPendingBehindText(c, texts[0]) && TagsComeFirst(Delta(c, texts[0]).0, texts[1..]))
  }

  function LastText(x: string, texts: seq<string>): string {
    if texts == [] then x else texts[|texts| - 1]
  }

  /** The differ is lossless exactly as long as every opening tag is first when it becomes pending.  Then the
      yielded text is the last text up to the cursor, without tags: nothing is sent twice or out of order, and what
      is not sent is what stands behind the cursor.  Otherwise the cursor moves back at that call. */
  lemma {:induction false} StreamIsLossless(x: string, c: Cursor, text: string, texts: seq<string>)
    requires Sound(x, c, text) && Arrives(x, texts)
    ensures Advances(Delta, c, texts) <==> TagsComeFirst(c, texts)
    ensures TagsComeFirst(c, texts) ==>
              var r := Stream(Delta, c, text, texts);
              Sound(LastText(x, texts), r.0, r.1)
    decreases |texts|
  {
    hide Sound, Follows, Delta, TagPendingBehindText, TextOf;
    if texts != [] {
      var y := texts[0];
      CallIsSound(x, y, c, text);
      var r := Delta(c, y);
      if !TagPendingBehindText(c, y) {
        StreamIsLossless(y, r.0, text + TextOf(r.1), texts[1..]);
        assert LastText(x, texts) == LastText(y, texts[1..]);
      }
    }
  }

  /** From the start of a stream. */
  lemma WholeStream(texts: seq<string>)
    requires Arrives("", texts)
    ensures var c := Cursor(0, false);
      && (Advances(Delta, c, texts) <==> TagsComeFirst(c, texts))
      && (TagsComeFirst(c, texts) ==>
            var r := Stream(Delta, c, "", texts);
            && 0 <= r.0.lastIdx <= |LastText("", texts)|
            && r.1 == RemoveTags(LastText("", texts)[..r.0.lastIdx]))
  {
    NothingIsSound();
    hide Arrives, Advances, TagsComeFirst, Stream, RemoveTags, Whole, EndsWith;
    StreamIsLossless("", Cursor(0, false), "", texts);
  }

  lemma NothingIsSound()
    ensures Sound("", Cursor(0, false), "")
  {
  }

  // ---------- The texts the model bundle sends ----------

  const CALL := "<tool_call>"
  const CALL_END := "</tool_call>"

  /** `re.sub(r"<tool_call>.*?</tool_call>", "", s)`. */
  function RemoveCalls(s: string): string
    decreases |s|
  {
    if s == [] then []
    else if CALL <= s && Find(s[|CALL|..], CALL_END) >= 0
      then RemoveCalls(s[|CALL|..][Find(s[|CALL|..], CALL_END) + |CALL_END|..])
    else [s[0]] + RemoveCalls(s[1..])
  }

  /** What the bundle adds for a piece, and what it adds it to: a closing tag at the end of the answer is withdrawn
      when the piece, as it came, ends with one, too. */
  function Grown(ans: string, piece: string, verbose: bool): string {
    (if EndsWith(piece, CLOSE) && EndsWith(ans, CLOSE) then ans[..|ans| - |CLOSE|] else ans)
    + (if verbose then piece else RemoveCalls(piece))
  }

  function Answers(ans: string, pieces: seq<string>, verbose: bool): seq<string>
    decreases |pieces|
  {
    if pieces == [] then []
    else [Grown(ans, pieces[0], verbose)] + Answers(Grown(ans, pieces[0], verbose), pieces[1..], verbose)
  }

  /** No tag begins in the part that is kept and ends in the piece behind it.  Where the answer goes on behind a closing
      tag nothing is asked: only two pieces of reasoning, or of answer, can share a tag. */
  ghost predicate Unbroken(ans: string, pieces: seq<string>, verbose: bool)
    decreases |pieces|
  {
    pieces == []
    || var y := Grown(ans, pieces[0], verbose);
       && ((EndsWith(ans, CLOSE) && !EndsWith(pieces[0], CLOSE)) || (Held(ans) <= |y| ==> Whole(y, Held(ans))))
       && Unbroken(y, pieces[1..], verbose)
  }

  /** A closing tag and the end of a tool call cannot overlap. */
  lemma CallEndsInFront(s: string, e: nat)
    requires EndsWith(s, CLOSE) && |CALL_END| <= e <= |s| && s[e - |CALL_END|..e] == CALL_END
    ensures e <= |s| - |CLOSE|
  {
    var q := |s| - |CLOSE|;
    var calls := s[e - |CALL_END|..e];
    assert s[e - 1] == calls[|CALL_END| - 1] == '>' && s[e - 2] == calls[|CALL_END| - 2] == 'l';
    forall p | q <= p < |s| ensures s[p] == CLOSE[p - q] {
      assert s[q..][p - q] == s[p];
    }
    assert CLOSE[|CLOSE| - 2] == 'k' && forall k :: 0 <= k < |CLOSE| - 1 ==> CLOSE[k] != '>';
  }

  lemma ClosingTagOutlives(s: string, e: nat)
    requires EndsWith(s, CLOSE) && |CALL_END| <= e <= |s| && s[e - |CALL_END|..e] == CALL_END
    ensures EndsWith(s[e..], CLOSE)
  {
    CallEndsInFront(s, e);
    var q := |s| - |CLOSE|;
    assert s[e..][q - e..] == s[q..];
  }

  /** Removing tool calls leaves a closing tag at the end. */
  lemma {:induction false} CallsKeepClosingTag(s: string)
    requires EndsWith(s, CLOSE)
    ensures EndsWith(RemoveCalls(s), CLOSE)
    decreases |s|
  {
    hide Find, RemoveCalls;
    var at := if CALL <= s then Find(s[|CALL|..], CALL_END) else -1;
    var e := if at >= 0 then |CALL| + at + |CALL_END| else 0;
    CallsUnfold(s, e);
    if at >= 0 {
      CallIsThere(s, at);
      ClosingTagOutlives(s, e);
      hide EndsWith;
      CallsKeepClosingTag(s[e..]);
    } else if |s| > |CLOSE| {
      TailEndsAlike(s);
      CallsKeepClosingTag(s[1..]);
      EndsBehindFirst(s[0], RemoveCalls(s[1..]));
    } else {
      NoCallsIn(s);
    }
  }

  lemma CallsUnfold(s: string, e: nat)
    requires s != []
    ensures var at := if CALL <= s then Find(s[|CALL|..], CALL_END) else -1;
      && (at >= 0 && e == |CALL| + at + |CALL_END| ==> e <= |s| && RemoveCalls(s) == RemoveCalls(s[e..]))
      && (at < 0 ==> RemoveCalls(s) == [s[0]] + RemoveCalls(s[1..]))
  {
    if CALL <= s && Find(s[|CALL|..], CALL_END) >= 0 {
      CallIsThere(s, Find(s[|CALL|..], CALL_END));
    }
    hide Find;
  }

  lemma EndsBehindFirst(x: char, r: string)
    requires EndsWith(r, CLOSE)
    ensures EndsWith([x] + r, CLOSE)
  {
    assert ([x] + r)[1 + |r| - |CLOSE|..] == r[|r| - |CLOSE|..];
  }

  lemma TailEndsAlike(s: string)
    requires EndsWith(s, CLOSE) && |s| > |CLOSE|
    ensures EndsWith(s[1..], CLOSE)
  {
    assert s[1..][|s| - 1 - |CLOSE|..] == s[|s| - |CLOSE|..];
  }

  lemma CallIsThere(s: string, at: nat)
    requires CALL <= s && Find(s[|CALL|..], CALL_END) == at
    ensures var e := |CALL| + at + |CALL_END|;
      e <= |s| && s[e - |CALL_END|..e] == CALL_END && s[|CALL|..][at + |CALL_END|..] == s[e..]
  {
    assert CALL_END <= s[|CALL|..][at..];
    hide Find;
    assert s[|CALL|..][at..][..|CALL_END|] == s[|CALL| + at..|CALL| + at + |CALL_END|];
  }

  lemma {:induction false} NoCallsIn(s: string)
    requires |s| < |CALL|
    ensures RemoveCalls(s) == s
    decreases |s|
  {
    if s != [] {
      NoCallsIn(s[1..]);
      assert !(CALL <= s);
    }
  }

  lemma GrownKeeps(ans: string, piece: string, verbose: bool)
    ensures var y := Grown(ans, piece, verbose);
      Held(ans) <= |y| && y[..Held(ans)] == ans[..Held(ans)] && (Held(ans) < |y| || y == ans)
  {
    var added := if verbose then piece else RemoveCalls(piece);
    if EndsWith(piece, CLOSE) && EndsWith(ans, CLOSE) {
      CallsKeepClosingTag(piece);
      assert |added| > 0;
      assert (ans[..Held(ans)] + added)[..Held(ans)] == ans[..Held(ans)];
    } else {
      assert (ans + added)[..Held(ans)] == ans[..Held(ans)];
      assert added == [] ==> ans + added == ans;
    }
    hide RemoveCalls;
  }

  /** Where an answer goes on behind a closing tag no tag is broken. */
  lemma BehindClosingTag(ans: string, piece: string, verbose: bool)
    requires EndsWith(ans, CLOSE) && !EndsWith(piece, CLOSE)
    ensures Whole(Grown(ans, piece, verbose), Held(ans))
  {
    var y, q := Grown(ans, piece, verbose), Held(ans);
    assert y[q..][..|CLOSE|] == ans[q..];
    TagInPrefix(y[q..], CLOSE);
    hide RemoveCalls;
    WholeBeforeTag(y, q);
  }

  /** However the pieces of reasoning and answer alternate, the accumulated texts follow each other, so the stream
      law covers them. */
  lemma {:induction false} AnswersArrive(ans: string, pieces: seq<string>, verbose: bool)
    requires Unbroken(ans, pieces, verbose)
    ensures Arrives(ans, Answers(ans, pieces, verbose))
    decreases |pieces|
  {
    hide Whole, Held, Grown, EndsWith;
    if pieces != [] {
      var y := Grown(ans, pieces[0], verbose);
      GrownKeeps(ans, pieces[0], verbose);
      if EndsWith(ans, CLOSE) && !EndsWith(pieces[0], CLOSE) {
        BehindClosingTag(ans, pieces[0], verbose);
      }
      AnswersArrive(y, pieces[1..], verbose);
      var texts := Answers(ans, pieces, verbose);
      assert texts[0] == y && texts[1..] == Answers(y, pieces[1..], verbose);
    }
  }

  // ---------- A tag behind other text ----------

  /** The first `|u|` characters of the texts, which end in an opening tag at `at`. */
  ghost predicate TagAtEnd(u: string, at: nat) {
    |u| == at + |OPEN| && u[at..] == OPEN
  }

  /** No opening tag of `u` stands at a position from `from` up to `at`. */
  ghost predicate NoTagBetween(u: string, from: int, at: nat) {
    forall q :: 0 <= q <= |u| && from <= q < at ==> !(OPEN <= u[q..])
  }

  ghost predicate AllExtend(u: string, texts: seq<string>) {
    forall k :: 0 <= k < |texts| ==> u <= texts[k]
  }

  lemma ExtendAt(u: string, texts: seq<string>, k: nat)
    requires AllExtend(u, texts) && k < |texts|
    ensures u <= texts[k] && AllExtend(u, texts[1..])
  {
  }

  lemma ExtendTake(u: string, texts: seq<string>, n: nat)
    requires AllExtend(u, texts) && n <= |texts|
    ensures AllExtend(u, texts[..n])
  {
  }

  lemma TagInText(u: string, y: string, q: nat, at: nat)
    requires u <= y && TagAtEnd(u, at) && q <= at
    ensures OPEN <= y[q..] <==> OPEN <= u[q..]
  {
    assert u[q..] == y[q..][..|u| - q];
    TagInPrefix(y[q..], u[q..]);
  }

  lemma AtHead(s: string)
    requires OPEN <= s
    ensures Find(s, OPEN) == 0
  {
  }

  lemma BehindHead(s: string)
    requires s != [] && !(OPEN <= s) && Find(s[1..], OPEN) >= 0
    ensures Find(s, OPEN) == 1 + Find(s[1..], OPEN)
  {
  }

  lemma {:induction false} FirstTag(u: string, y: string, l: nat, at: nat)
    requires u <= y && TagAtEnd(u, at) && l <= at && NoTagBetween(u, l, at)
    ensures Find(y[l..], OPEN) == at - l
    decreases at - l
  {
    hide Find, TagAtEnd;
    TagFits(u, at);
    TagInText(u, y, l, at);
    if l == at {
      TagIsThere(u, at);
      AtHead(y[l..]);
    } else {
      FirstTag(u, y, l + 1, at);
      assert y[l..][1..] == y[l + 1..];
      BehindHead(y[l..]);
    }
  }

  lemma TagIsThere(u: string, at: nat)
    requires TagAtEnd(u, at)
    ensures OPEN <= u[at..]
  {
  }

  lemma TagFits(u: string, at: nat)
    requires TagAtEnd(u, at)
    ensures |u| == at + |OPEN|
  {
  }

  /** The cursor slips back by one, and the text in front of the tag is sent. */
  lemma SlipsBack(u: string, y: string, c: Cursor, at: nat)
    requires u <= y && TagAtEnd(u, at) && 0 <= c.lastIdx < at && NoTagBetween(u, c.lastIdx, at)
    ensures Delta(c, y) == (c.(lastIdx := c.lastIdx - 1), Raw(u[c.lastIdx..at]))
  {
    hide Delta, Find;
    FirstTag(u, y, c.lastIdx, at);
    PendingIs(y, c);
    MovesBack(y, c);
    assert y[c.lastIdx..at] == u[c.lastIdx..at];
  }

  /** It goes on slipping, call after call, and every call sends all text from the cursor to the tag again. */
  lemma {:induction false} KeepsSlipping(u: string, c: Cursor, text: string, texts: seq<string>, at: nat)
    requires TagAtEnd(u, at) && 0 <= c.lastIdx < at && |texts| <= c.lastIdx + 1
    requires NoTagBetween(u, c.lastIdx - |texts| + 1, at)
    requires AllExtend(u, texts)
    ensures Stream(Delta, c, text, texts).0 == c.(lastIdx := c.lastIdx - |texts|)
    ensures forall k :: 0 <= k < |texts| ==> Pieces(Delta, c, texts)[k] == Raw(u[c.lastIdx - k..at])
    decreases |texts|
  {
    hide Delta, TagAtEnd, TextOf;
    if texts != [] {
      var y := texts[0];
      ExtendAt(u, texts, 0);
      TagFits(u, at);
      SlipsBack(u, y, c, at);
      var r := Delta(c, y);
      if |texts| > 1 {
        ExtendAt(u, texts, 0);
        KeepsSlipping(u, r.0, text + TextOf(r.1), texts[1..], at);
        assert forall k :: 1 <= k < |texts| ==> Pieces(Delta, c, texts)[k] == Pieces(Delta, r.0, texts[1..])[k - 1];
      } else {
        assert texts[1..] == [];
      }
    }
  }

  /** At -1 only the last character is pending: it is sent, and the cursor jumps to the end of the text, unless a
      closing tag is still to be sent first. */
  lemma FromBehind(c: Cursor, y: string)
    requires c.lastIdx == -1 && y != []
    ensures Delta(c, y) == if c.endsThink then (c.(endsThink := false), Tag(CLOSE))
                           else (Cursor(Held(y), false), Cleaned(y[|y| - 1..]))
  {
    assert Pending(c, y) == y[|y| - 1..];
    assert |Pending(c, y)| == 1;
  }

  /** The texts hold the tag, and text can follow it, so the end of what is kept lies behind the tag. */
  lemma HeldBehindTag(u: string, y: string, at: nat)
    requires u <= y && TagAtEnd(u, at)
    ensures Held(y) >= |u|
  {
    TagInText(u, y, at, at);
    TagIsThere(u, at);
    if EndsWith(y, CLOSE) {
      var q := |y| - |CLOSE|;
      ClosingTagAt(y);
      hide EndsWith;
      if at < q {
        TagsApart(y, at, q);
      } else if q < at {
        TagsApart(y, q, at);
      }
    }
  }

  /** What happens to the first opening tag of an answer when it becomes pending behind text: after `lastIdx + 1`
      calls the cursor is at -1; the next call, or the one after it if a closing tag is due, sends the last
      character only and sets the cursor behind the tag.  The tag and the text behind it are never sent. */
  lemma FirstTagIsLost(u: string, c: Cursor, text: string, texts: seq<string>, y: string, at: nat)
    requires TagAtEnd(u, at) && 0 <= c.lastIdx < at && NoTagBetween(u, 0, at)
    requires |texts| == c.lastIdx + 1 && u <= y && AllExtend(u, texts)
    ensures var s := Stream(Delta, c, text, texts).0;
      && s == c.(lastIdx := -1)
      && (forall k :: 0 <= k < |texts| ==> Pieces(Delta, c, texts)[k] == Raw(u[c.lastIdx - k..at]))
      && (c.endsThink ==> Delta(s, y) == (Cursor(-1, false), Tag(CLOSE)))
      && Delta(Cursor(-1, false), y) == (Cursor(Held(y), false), Cleaned(y[|y| - 1..]))
      && at + |OPEN| <= Held(y)
  {
    hide Delta, Stream, Pieces;
    KeepsSlipping(u, c, text, texts, at);
    FromBehind(c.(lastIdx := -1), y);
    FromBehind(Cursor(-1, false), y);
    HeldBehindTag(u, y, at);
  }

  /** Behind an earlier opening tag at `q` the cursor never gets out: it slips back to that tag, which is sent again,
      and begins anew behind it, however many texts arrive. */
  lemma {:induction false} LaterTagIsNeverReached(
      u: string, c: Cursor, text: string, texts: seq<string>, q: nat, at: nat)
    requires TagAtEnd(u, at) && q + |OPEN| < at && OPEN <= u[q..] && NoTagBetween(u, q + 1, at)
    requires q <= c.lastIdx < at && AllExtend(u, texts)
    ensures q <= Stream(Delta, c, text, texts).0.lastIdx < at
    decreases |texts|
  {
    hide Delta, TagAtEnd, TextOf;
    if texts != [] {
      var y := texts[0];
      ExtendAt(u, texts, 0);
      TagFits(u, at);
      if c.lastIdx == q {
        SendsTagAgain(u, y, c, at);
      } else {
        SlipsBack(u, y, c, at);
      }
      var r := Delta(c, y);
      ExtendAt(u, texts, 0);
      LaterTagIsNeverReached(u, r.0, text + TextOf(r.1), texts[1..], q, at);
    }
  }

  lemma SendsTagAgain(u: string, y: string, c: Cursor, at: nat)
    requires u <= y && TagAtEnd(u, at) && 0 <= c.lastIdx <= at && OPEN <= u[c.lastIdx..]
    ensures Delta(c, y) == (c.(lastIdx := c.lastIdx + |OPEN|), Tag(OPEN))
  {
    TagInText(u, y, c.lastIdx, at);
    PendingIs(y, c);
    AtHead(y[c.lastIdx..]);
    hide Find, EndsWith;
  }

  lemma {:induction false} FindIsFirst(s: string)
    ensures forall q :: 0 <= q < Find(s, OPEN) ==> !(OPEN <= s[q..])
    decreases |s|
  {
    if Find(s, OPEN) > 0 {
      FoundLater(s, OPEN);
      FindIsFirst(s[1..]);
      forall q | 0 <= q < Find(s, OPEN) ensures !(OPEN <= s[q..]) {
        if q > 0 {
          assert s[q..] == s[1..][q - 1..];
        } else {
          assert s[q..] == s;
        }
      }
    }
  }

  lemma {:induction false} FindFinds(s: string, q: nat)
    requires q <= |s| && OPEN <= s[q..]
    ensures 0 <= Find(s, OPEN) <= q
    decreases q
  {
    if q > 0 && !(OPEN <= s) {
      assert s[q..] == s[1..][q - 1..];
      FindFinds(s[1..], q - 1);
    } else {
      assert s[0..] == s;
    }
  }

  lemma {:induction false} LastTagBefore(u: string, q: nat, at: nat) returns (last: nat)
    requires q < at <= |u| && OPEN <= u[q..]
    ensures q <= last < at && OPEN <= u[last..] && NoTagBetween(u, last + 1, at)
    decreases at - q
  {
    if r :| q < r < at && OPEN <= u[r..] {
      last := LastTagBefore(u, r, at);
    } else {
      last := q;
    }
  }

  lemma {:induction false} StreamSnoc(step: Step, c: Cursor, text: string, texts: seq<string>, y: string)
    ensures Stream(step, c, text, texts + [y]).0 == step(Stream(step, c, text, texts).0, y).0
    decreases |texts|
  {
    hide TextOf;
    if texts == [] {
      assert texts + [y] == [y] && [y][1..] == [];
    } else {
      assert (texts + [y])[0] == texts[0] && (texts + [y])[1..] == texts[1..] + [y];
      StreamSnoc(step, step(c, texts[0]).0, text + TextOf(step(c, texts[0]).1), texts[1..], y);
    }
  }

  /** The text up to and including the tag that is pending behind other text. */
  function UptoTag(t: string, c: Cursor): string
    requires 0 <= c.lastIdx <= |t| && TagPendingBehindText(c, t)
  {
    t[..c.lastIdx + Find(Pending(c, t), OPEN) + |OPEN|]
  }

  lemma TwoDrops(t: string, l: nat, at: nat)
    requires l + at <= |t|
    ensures t[l..][at..] == t[l + at..]
  {
  }

  lemma TagAhead(t: string, l: nat)
    requires l <= |t| && Find(t[l..], OPEN) > 0
    ensures var q := l + Find(t[l..], OPEN);
      q < |t| && OPEN <= t[q..] && TagLength(t, q) > 0
  {
    var at := Find(t[l..], OPEN);
    assert OPEN <= t[l..][at..];
    hide Find;
    TwoDrops(t, l, at);
  }

  lemma TagCutOut(t: string, at: nat)
    requires at <= |t| && OPEN <= t[at..]
    ensures at + |OPEN| <= |t| && TagAtEnd(t[..at + |OPEN|], at)
  {
    assert t[..at + |OPEN|][at..] == t[at..][..|OPEN|];
  }

  lemma NoneCutOut(t: string, l: nat, at: nat)
    requires l <= at && at + |OPEN| <= |t|
    requires forall q :: 0 <= q < at - l ==> !(OPEN <= t[l..][q..])
    ensures NoTagBetween(t[..at + |OPEN|], l, at)
  {
    var u := t[..at + |OPEN|];
    forall q | 0 <= q <= |u| && l <= q < at ensures !(OPEN <= u[q..]) {
      assert t[l..][q - l..] == t[q..];
      assert u[q..] == t[q..][..|u| - q];
      TagInPrefix(t[q..], u[q..]);
    }
  }

  lemma PrefixOf(t: string, n: nat)
    requires n <= |t|
    ensures t[..n] <= t
  {
  }

  lemma PendingTag(t: string, c: Cursor)
    requires 0 <= c.lastIdx <= |t| && TagPendingBehindText(c, t)
    ensures var u, at := UptoTag(t, c), c.lastIdx + Find(Pending(c, t), OPEN);
      && c.lastIdx < at && at + |OPEN| <= |t| && u <= t && TagAtEnd(u, at) && NoTagBetween(u, c.lastIdx, at)
  {
    hide Find, TagLength, Pending, NoTagBetween, TagAtEnd;
    PendingIs(t, c);
    var l := c.lastIdx;
    var at := l + Find(t[l..], OPEN);
    TagAhead(t, l);
    FindIsFirst(t[l..]);
    TagCutOut(t, at);
    NoneCutOut(t, l, at);
    PrefixOf(t, at + |OPEN|);
  }

  /** A tag that becomes pending behind other text is passed, whatever texts arrive from then on, exactly if it is the
      first opening tag of the answer; and then only by losing it.  With an earlier one the cursor never reaches it. */
  lemma TagIsPassedIff(t: string, c: Cursor, text: string, texts: seq<string>)
    requires Sound(t, c, text) && TagPendingBehindText(c, t)
    requires |texts| >= c.lastIdx + 3 && AllExtend(UptoTag(t, c), texts)
    ensures var at := c.lastIdx + Find(Pending(c, t), OPEN);
      (exists n: nat :: n <= |texts| && Stream(Delta, c, text, texts[..n]).0.lastIdx >= at) <==> Find(t, OPEN) == at
  {
    hide Delta, Find, Stream, UptoTag, TagAtEnd, NoTagBetween, Whole, RemoveTags, TagPendingBehindText;
    var u, at := UptoTag(t, c), c.lastIdx + Find(Pending(c, t), OPEN);
    PendingTag(t, c);
    TagFits(u, at);
    TagInText(u, t, at, at);
    TagIsThere(u, at);
    FindFinds(t, at);
    var q := Find(t, OPEN);
    if q == at {
      FirstTagIsPassed(t, c, text, texts, u, at);
    } else {
      assert OPEN <= t[q..];
      LaterTagIsNotPassed(t, c, text, texts, u, q, at);
    }
  }

  lemma EarlierTagIsBehind(t: string, c: Cursor, text: string, u: string, q: nat, at: nat)
    requires Sound(t, c, text) && u <= t && TagAtEnd(u, at) && q < at && OPEN <= u[q..]
    requires c.lastIdx < at && NoTagBetween(u, c.lastIdx, at)
    ensures q + |OPEN| <= c.lastIdx
  {
    TagInText(u, t, q, at);
    NotInside(t, c.lastIdx, q);
  }

  lemma NoneInFront(u: string, t: string, at: nat)
    requires u <= t && TagAtEnd(u, at) && Find(t, OPEN) == at
    ensures NoTagBetween(u, 0, at)
  {
    FindIsFirst(t);
    hide Find;
    forall q | 0 <= q <= |u| && 0 <= q < at ensures !(OPEN <= u[q..]) {
      TagInText(u, t, q, at);
    }
  }

  lemma LaterTagIsNotPassed(t: string, c: Cursor, text: string, texts: seq<string>, u: string, q: nat, at: nat)
    requires Sound(t, c, text) && u <= t && TagAtEnd(u, at) && c.lastIdx < at && NoTagBetween(u, c.lastIdx, at)
    requires q < at && OPEN <= t[q..] && AllExtend(u, texts)
    ensures forall n: nat :: n <= |texts| ==> Stream(Delta, c, text, texts[..n]).0.lastIdx < at
  {
    hide Delta, Find, Stream;
    TagFits(u, at);
    TagInText(u, t, q, at);
    var last := LastTagBefore(u, q, at);
    EarlierTagIsBehind(t, c, text, u, last, at);
    hide Sound, TagAtEnd, NoTagBetween;
    forall n: nat | n <= |texts| ensures Stream(Delta, c, text, texts[..n]).0.lastIdx < at {
      ExtendTake(u, texts, n);
      LaterTagIsNeverReached(u, c, text, texts[..n], last, at);
    }
  }

  lemma FirstTagIsPassed(t: string, c: Cursor, text: string, texts: seq<string>, u: string, at: nat)
    requires 0 <= c.lastIdx < at && u <= t && TagAtEnd(u, at) && Find(t, OPEN) == at
    requires |texts| >= c.lastIdx + 3 && AllExtend(u, texts)
    ensures exists n: nat :: n <= |texts| && Stream(Delta, c, text, texts[..n]).0.lastIdx >= at
  {
    hide Delta, Find, TagAtEnd, Stream, Pieces, Held, AllExtend, NoTagBetween;
    NoneInFront(u, t, at);
    var k := c.lastIdx + 1;
    AfterSlipping(u, c, text, texts, k, at);
    if c.endsThink {
      AfterSlipping(u, c, text, texts, k + 1, at);
      OneMore(c, text, texts, k + 1);
      assert Stream(Delta, c, text, texts[..k + 2]).0.lastIdx >= at;
    } else {
      assert Stream(Delta, c, text, texts[..k + 1]).0.lastIdx >= at;
    }
  }

  lemma OneMore(c: Cursor, text: string, texts: seq<string>, n: nat)
    requires n < |texts|
    ensures Stream(Delta, c, text, texts[..n + 1]).0 == Delta(Stream(Delta, c, text, texts[..n]).0, texts[n]).0
  {
    hide Delta, Stream;
    assert texts[..n + 1] == texts[..n] + [texts[n]];
    StreamSnoc(Delta, c, text, texts[..n], texts[n]);
  }

  /** `FirstTagIsLost` with the text `texts[n]` as the one that arrives at -1. */
  lemma AfterSlipping(u: string, c: Cursor, text: string, texts: seq<string>, n: nat, at: nat)
    requires TagAtEnd(u, at) && 0 <= c.lastIdx < at && NoTagBetween(u, 0, at) && AllExtend(u, texts)
    requires c.lastIdx + 1 <= n < |texts|
    ensures var k := c.lastIdx + 1;
      && Stream(Delta, c, text, texts[..k + 1]).0
        == (if c.endsThink then Cursor(-1, false) else Cursor(Held(texts[k]), false))
      && Delta(Cursor(-1, false), texts[n]).0 == Cursor(Held(texts[n]), false)
      && Held(texts[n]) >= at && Held(texts[k]) >= at
  {
    hide Delta, Stream, Pieces, Held, TagAtEnd, AllExtend, NoTagBetween;
    var k := c.lastIdx + 1;
    ExtendTake(u, texts, k);
    ExtendAt(u, texts, k);
    ExtendAt(u, texts, n);
    FirstTagIsLost(u, c, text, texts[..k], texts[k], at);
    FirstTagIsLost(u, c, text, texts[..k], texts[n], at);
    OneMore(c, text, texts, k);
  }

  // ---------- The corrected twin ----------

  lemma TwinTakesText(t: string, c: Cursor, text: string)
    requires Sound(t, c, text) && TagPendingBehindText(c, t)
    ensures var r := TwinDelta(c, t);
      Sound(t, r.0, text + TextOf(r.1)) && c.lastIdx <= r.0.lastIdx
  {
    hide Find, RemoveTags, Whole, EndsWith, TagLength, Slice;
    PendingIs(t, c);
    var l := c.lastIdx;
    var q := l + Find(t[l..], OPEN);
    TagAhead(t, l);
    WholeBeforeTag(t, q);
    RemoveTagsBetween(t, l, q);
    CutIs(t, l, q - l);
  }

  lemma TwinCall(x: string, y: string, c: Cursor, text: string)
    requires Sound(x, c, text) && Follows(x, y)
    ensures var r := TwinDelta(c, y);
      Sound(y, r.0, text + TextOf(r.1)) && c.lastIdx <= r.0.lastIdx
  {
    SoundCarries(x, y, c, text);
    hide Sound, Follows, Delta, Find, RemoveTags, Pending, Slice;
    if TagPendingBehindText(c, y) {
      TwinTakesText(y, c, text);
    } else {
      CallIsSound(x, y, c, text);
    }
  }

  /** The twin is lossless on every stream. */
  lemma {:induction false} TwinIsLossless(x: string, c: Cursor, text: string, texts: seq<string>)
    requires Sound(x, c, text) && Arrives(x, texts)
    ensures var r := Stream(TwinDelta, c, text, texts);
      Sound(LastText(x, texts), r.0, r.1) && Advances(TwinDelta, c, texts)
    decreases |texts|
  {
    hide Sound, Follows, TwinDelta, TextOf;
    if texts != [] {
      var y := texts[0];
      TwinCall(x, y, c, text);
      var r := TwinDelta(c, y);
      TwinIsLossless(y, r.0, text + TextOf(r.1), texts[1..]);
      assert LastText(x, texts) == LastText(y, texts[1..]);
    }
  }
}
