/** Unique sheet names of an exported workbook. */
module SheetNames {
  import opened Common

  const DIGITS := "0123456789"
  const LIMIT := 31

  function Decimal(n: nat): (r: string)
    ensures r != [] && '_' !in r
  {
    if n < 10 then [DIGITS[n]] else Decimal(n / 10) + [DIGITS[n % 10]]
  }

  lemma {:induction false} DecimalIsInjective(a: nat, b: nat)
    requires Decimal(a) == Decimal(b)
    ensures a == b
  {
    var x, y := Decimal(a), Decimal(b);
    assert x[|x| - 1] == DIGITS[a % 10] && y[|y| - 1] == DIGITS[b % 10];
    if a >= 10 && b >= 10 {
      assert x[..|x| - 1] == Decimal(a / 10) && y[..|y| - 1] == Decimal(b / 10);
      DecimalIsInjective(a / 10, b / 10);
    }
  }

  function Power(k: nat): nat {
    if k == 0 then 1 else 10 * Power(k - 1)
  }

  lemma {:induction false} DecimalLength(n: nat, k: nat)
    requires k >= 1 && n < Power(k)
    ensures |Decimal(n)| <= k
  {
    if n >= 10 {
      assert k > 1 by {
        assert Power(1) == 10 * Power(0);
      }
      DecimalLength(n / 10, k - 1);
    }
  }

  /** `original_name[:31 - len(suffix)] + suffix`; a negative bound counts from the end. */
  function Candidate(original: string, counter: nat): string {
    var suffix := "_" + Decimal(counter);
    var k := LIMIT - |suffix|;
    (if k >= 0 then Take(original, k)
     else if |original| + k >= 0 then original[..|original| + k]
     else []) + suffix
  }

  /** The number a text of decimal digits denotes. */
  function Denoted(digits: string): nat
    requires forall d <- digits :: d in DIGITS
  {
    if digits == [] then 0
    else
      var last := digits[|digits| - 1];
      assert last in digits;
      10 * Denoted(digits[..|digits| - 1]) + (last as int - '0' as int)
  }

  /** The digits of a number denote it, and only zero begins with a zero. */
  lemma {:induction false} DecimalDenotes(n: nat)
    ensures (forall d <- Decimal(n) :: d in DIGITS) && Denoted(Decimal(n)) == n
    ensures n > 0 ==> Decimal(n)[0] != '0'
  {
    OneDigit(n % 10);
    if n >= 10 {
      DecimalDenotes(n / 10);
      var front, last := Decimal(n / 10), DIGITS[n % 10];
      var all := front + [last];
      assert all[..|all| - 1] == front && all[|all| - 1] == last;
    }
  }

  lemma OneDigit(k: nat)
    requires k < 10
    ensures DIGITS[k] in DIGITS && DIGITS[k] as int - '0' as int == k && (k > 0 ==> DIGITS[k] != '0')
    ensures Denoted([DIGITS[k]]) == k
  {
    assert [DIGITS[k]][..0] == [];
  }

  /** A candidate is as much of the title as fits in front of an underscore and the counter: the whole title, or so much
      of it that the name has 31 characters. */
  lemma CandidateShape(original: string, counter: nat) returns (n: nat)
    ensures n <= |original| && Candidate(original, counter) == original[..n] + "_" + Decimal(counter)
    ensures |Decimal(counter)| < LIMIT ==> n == |original| || |Candidate(original, counter)| == LIMIT
    ensures |Decimal(counter)| < LIMIT ==> |Candidate(original, counter)| <= LIMIT
    ensures |Decimal(counter)| >= LIMIT ==> n == 0 || n == |original| - (|Decimal(counter)| + 1 - LIMIT)
  {
    hide Decimal;
    var k := LIMIT - 1 - |Decimal(counter)|;
    n := if k >= |original| then |original|
      else if k >= 0 then k
      else if |original| + k >= 0 then |original| + k
      else 0;
    assert original[..|original|] == original;
    assert original[..n] + ("_" + Decimal(counter)) == original[..n] + "_" + Decimal(counter);
  }

  /** The part behind the last underscore tells the counter. */
  lemma CandidatesDiffer(original: string, a: nat, b: nat)
    requires Candidate(original, a) == Candidate(original, b)
    ensures a == b
  {
    var x := Candidate(original, a);
    var da, db := Decimal(a), Decimal(b);
    TailIs(x, a, original);
    TailIs(x, b, original);
    UnderscoreIsBefore(x, db, |da|);
    UnderscoreIsBefore(x, da, |db|);
    DecimalIsInjective(a, b);
  }

  lemma UnderscoreIsBefore(x: string, tail: string, k: nat)
    requires k < |x| && |tail| <= |x| && x[|x| - |tail|..] == tail && '_' !in tail
    requires x[|x| - 1 - k] == '_'
    ensures k >= |tail|
  {
    forall i | |x| - |tail| <= i < |x| ensures x[i] != '_' {
      assert x[i] == tail[i - (|x| - |tail|)];
    }
  }

  lemma TailIs(x: string, a: nat, original: string)
    requires x == Candidate(original, a)
    ensures |x| > |Decimal(a)| && x[|x| - |Decimal(a)|..] == Decimal(a) && x[|x| - 1 - |Decimal(a)|] == '_'
  {
    hide Decimal;
  }

  /** The candidates with counters 1 up to `n`. */
  function Tried(original: string, n: nat): set<string> {
    set c: nat | 1 <= c <= n :: Candidate(original, c)
  }

  lemma {:induction false} TriedAreDistinct(original: string, n: nat)
    ensures |Tried(original, n)| == n
  {
    if n == 0 {
      assert Tried(original, n) == {};
    } else {
      TriedAreDistinct(original, n - 1);
      assert Tried(original, n) == Tried(original, n - 1) + {Candidate(original, n)};
      if Candidate(original, n) in Tried(original, n - 1) {
        var c: nat :| 1 <= c <= n - 1 && Candidate(original, c) == Candidate(original, n);
        CandidatesDiffer(original, c, n);
      }
    }
  }

  lemma CandidateIsShort(original: string, counter: nat)
    requires counter < Power(LIMIT - 1)
    ensures |Candidate(original, counter)| <= LIMIT
  {
    DecimalLength(counter, LIMIT - 1);
    hide Decimal, Power;
  }

  lemma SubsetIsSmaller<T>(a: set<T>, b: set<T>)
    requires a <= b
    ensures |a| <= |b|
  {
    assert b == a + (b - a);
  }

  /** The name a table gets: its own if it is free, else the candidate with the first free counter. */
  ghost predicate Chosen(original: string, used: set<string>, name: string) {
    && name !in used
    && (original !in used ==> name == original)
    && (original in used ==> exists c: nat :: FirstFree(original, used, name, c))
  }

  ghost predicate FirstFree(original: string, used: set<string>, name: string, c: nat) {
    && 1 <= c <= |used| + 1 && name == Candidate(original, c)
    && forall d: nat :: 1 <= d < c ==> Candidate(original, d) in used
  }

  /** The search for one name: it stops after at most one candidate more than there are used names. */
  method UniqueName(original: string, used: set<string>) returns (name: string)
    ensures Chosen(original, used, name)
    ensures |original| <= LIMIT && |used| + 1 < Power(LIMIT - 1) ==> |name| <= LIMIT
  {
    name := original;
    var counter := 1;
    while name in used
      invariant 1 <= counter <= |used| + 2
      invariant name == (if counter == 1 then original else Candidate(original, counter - 1))
      invariant counter > 1 ==> original in used
      invariant forall d: nat :: 1 <= d < counter - 1 ==> Candidate(original, d) in used
      decreases |used| + 2 - counter
    {
      assert Tried(original, counter - 1) <= used;
      TriedAreDistinct(original, counter - 1);
      SubsetIsSmaller(Tried(original, counter - 1), used);
      name := Candidate(original, counter);
      counter := counter + 1;
    }
    if counter > 1 {
      assert FirstFree(original, used, name, counter - 1);
      if |used| + 1 < Power(LIMIT - 1) {
        CandidateIsShort(original, counter - 1);
      }
    }
  }

  function Members(names: seq<string>): set<string> {
    set n | n in names
  }

  /** The names of all sheets: pairwise different, each chosen against the ones before it. */
  method SheetNames(originals: seq<string>) returns (names: seq<string>)
    ensures |names| == |originals|
    ensures forall i, j :: 0 <= i < j < |names| ==> names[i] != names[j]
    ensures forall i :: 0 <= i < |names| ==> Chosen(originals[i], Members(names[..i]), names[i])
    ensures |originals| < Power(LIMIT - 1) && (forall o <- originals :: |o| <= LIMIT)
        ==> forall n <- names :: |n| <= LIMIT
  {
    hide Chosen, Power;
    names := [];
    var used: set<string> := {};
    for i := 0 to |originals|
      invariant |names| == i && used == Members(names) && |used| <= i
      invariant forall i, j :: 0 <= i < j < |names| ==> names[i] != names[j]
      invariant forall k :: 0 <= k < i ==> Chosen(originals[k], Members(names[..k]), names[k])
      invariant |originals| < Power(LIMIT - 1) && (forall o <- originals :: |o| <= LIMIT)
          ==> forall n <- names :: |n| <= LIMIT
    {
      var name := UniqueName(originals[i], used);
      ChosenIsNew(originals[i], used, name);
      assert originals[i] in originals;
      AddName(originals, names, name);
      names := names + [name];
      used := used + {name};
    }
  }

  lemma ChosenIsNew(original: string, used: set<string>, name: string)
    requires Chosen(original, used, name)
    ensures name !in used
  {
  }

  lemma AddName(originals: seq<string>, names: seq<string>, name: string)
    requires |names| < |originals|
    requires forall i, j :: 0 <= i < j < |names| ==> names[i] != names[j]
    requires forall k :: 0 <= k < |names| ==> Chosen(originals[k], Members(names[..k]), names[k])
    requires name !in Members(names) && Chosen(originals[|names|], Members(names), name)
    ensures var r := names + [name];
      && Members(r) == Members(names) + {name}
      && (forall i, j :: 0 <= i < j < |r| ==> r[i] != r[j])
      && (forall k :: 0 <= k < |r| ==> Chosen(originals[k], Members(r[..k]), r[k]))
  {
    hide Chosen;
    var r := names + [name];
    forall k | 0 <= k < |r| ensures Chosen(originals[k], Members(r[..k]), r[k]) {
      assert r[..k] == names[..k];
      assert names[..|names|] == names;
    }
    assert forall i :: 0 <= i < |names| ==> names[i] in Members(names);
  }
}
