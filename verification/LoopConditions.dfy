/** The item of a Loop: its cursor and the conditions that end it. */
module LoopConditions {
  import opened Common
  import Cursor

  datatype Value =
    | Text(text: string) | Number(n: real) | Boolean(b: bool) | Dict(entries: map<string, Value>)
        | List(items: seq<Value>) | Nil

  datatype Operator =
    | Contains | NotContains | StartWith | EndWith | Is | IsNot | Empty | NotEmpty
    | Equal | Unequal | Greater | Less | AtLeast | AtMost | OtherOperator

  datatype Result<+T> = Ok(value: T) | Raised

  // ---------- One condition ----------

  /** Python's `==` takes True for 1 and False for 0, at every depth. */
  function Canonical(v: Value): Value
    decreases v
  {
    match v
    case Boolean(b) => Number(if b then 1.0 else 0.0)
    case List(items) => List(seq(|items|, i requires 0 <= i < |items| => Canonical(items[i])))
    case Dict(entries) => Dict(map k <- entries :: Canonical(entries[k]))
    case _ => v
  }

  predicate Equals(a: Value, b: Value) {
    Canonical(a) == Canonical(b)
  }

  predicate Occurs(x: string, s: string) {
    exists i :: 0 <= i <= |s| && x <= s[i..]
  }

  /** `evaluate_condition`.  A Boolean is an `int`, so it takes the branch of the numbers. */
  function Evaluate(v: Value, op: Operator, value: Value): Result<bool> {
    match v
    case Text(s) =>
      (match op
       case Contains => if value.Text? then Ok(Occurs(value.text, s)) else Raised
       case NotContains => if value.Text? then Ok(!Occurs(value.text, s)) else Raised
       case StartWith => if value.Text? then Ok(value.text <= s) else Raised
       case EndWith => if value.Text? then Ok(EndsWith(s, value.text)) else Raised
       case Is => Ok(Equals(v, value))
       case IsNot => Ok(!Equals(v, value))
       case Empty => Ok(s == "")
       case NotEmpty => Ok(s != "")
       case _ => Raised)
    case Number(n) => Compare(n, op, value)
    case Boolean(b) => Compare(if b then 1.0 else 0.0, op, value)
    case Dict(entries) =>
      (match op
       case Empty => Ok(|entries| == 0)
       case NotEmpty => Ok(|entries| > 0)
       case _ => Raised)
    case List(items) =>
      (match op
       case Contains => Ok(exists x <- items :: Equals(value, x))
       case NotContains => Ok(!exists x <- items :: Equals(value, x))
       case Is => Ok(Equals(v, value))
       case IsNot => Ok(!Equals(v, value))
       case Empty => Ok(items == [])
       case NotEmpty => Ok(items != [])
       case _ => Raised)
    case Nil => Ok(op == Empty)
  }

  function Compare(n: real, op: Operator, value: Value): Result<bool> {
    var other := Canonical(value);
    match op
    case Equal => Ok(other == Number(n))
    case Unequal => Ok(other != Number(n))
    case Greater => if other.Number? then Ok(n > other.n) else Raised
    case Less => if other.Number? then Ok(n < other.n) else Raised
    case AtLeast => if other.Number? then Ok(n >= other.n) else Raised
    case AtMost => if other.Number? then Ok(n <= other.n) else Raised
    case Empty => Ok(false)
    case NotEmpty => Ok(true)
    case _ => Raised
  }

  function Negated(op: Operator): Operator {
    match op
    case Contains => NotContains case NotContains => Contains
    case Is => IsNot case IsNot => Is
    case Empty => NotEmpty case NotEmpty => Empty
    case Equal => Unequal case Unequal => Equal
    case Greater => AtMost case AtMost => Greater
    case Less => AtLeast case AtLeast => Less
    case _ => OtherOperator
  }

  /** An operator and its negation raise together and otherwise answer opposites, exactly unless the variable is
      unset: then every operator but the two about emptiness is false, negated or not. */
  lemma NegationIsOpposite(v: Value, op: Operator, value: Value)
    requires Negated(op) != OtherOperator
    ensures var a, b := Evaluate(v, op, value), Evaluate(v, Negated(op), value);
      && (a.Raised? <==> b.Raised?)
      && (a.Ok? ==> ((b.value == !a.value) <==> v != Nil || op == Empty || op == NotEmpty))
  {
    hide Canonical, Occurs;
  }

  /** A Boolean variable raises on "is" and "is not", which the editor offers for Booleans. */
  lemma BooleansCannotBeCompared(b: bool, op: Operator, value: Value)
    ensures Evaluate(Boolean(b), op, value) == Evaluate(Canonical(Boolean(b)), op, value)
    ensures op == Is || op == IsNot ==> Evaluate(Boolean(b), op, value).Raised?
  {
  }

  // ---------- What the operators mean ----------

  /** The number a value counts as where numbers are compared. */
  function Amount(v: Value): Option<real> {
    match v
    case Number(n) => Some(n)
    case Boolean(b) => Some(if b then 1.0 else 0.0)
    case _ => None
  }

  ghost predicate Yes(v: Value, op: Operator, value: Value) {
    Evaluate(v, op, value) == Ok(true)
  }

  ghost predicate No(v: Value, op: Operator, value: Value) {
    Evaluate(v, op, value) == Ok(false)
  }

  /** As the variable grows, ">" and "at least" stay true once they are, and "<" and "at most" stay false. */
  lemma GrowingVariable(v: Value, w: Value, value: Value)
    requires Amount(v).Some? && Amount(w).Some? && Amount(v).value <= Amount(w).value
    ensures Yes(v, Greater, value) ==> Yes(w, Greater, value)
    ensures Yes(v, AtLeast, value) ==> Yes(w, AtLeast, value)
    ensures Yes(w, Less, value) ==> Yes(v, Less, value)
    ensures Yes(w, AtMost, value) ==> Yes(v, AtMost, value)
  {
    hide Occurs, EndsWith, Equals;
  }

  /** Where they turn: at the compared number itself "at least", "at most" and "=" are true and the others false,
      and any way above or below it the order decides. */
  lemma ComparedAtTheNumber(v: Value, value: Value, way: real)
    requires Amount(v).Some? && Amount(v) == Amount(value) && way > 0.0
    ensures Yes(v, AtLeast, value) && Yes(v, AtMost, value) && Yes(v, Equal, value)
    ensures No(v, Greater, value) && No(v, Less, value) && No(v, Unequal, value)
    ensures var above := Number(Amount(value).value + way);
      && Yes(above, Greater, value) && Yes(above, AtLeast, value) && Yes(above, Unequal, value)
      && No(above, Less, value) && No(above, AtMost, value) && No(above, Equal, value)
    ensures var below := Number(Amount(value).value - way);
      && Yes(below, Less, value) && Yes(below, AtMost, value) && Yes(below, Unequal, value)
      && No(below, Greater, value) && No(below, AtLeast, value) && No(below, Equal, value)
  {
  }

  /** A number is neither more nor less than a value that counts as no number: the order raises, and they differ. */
  lemma ComparedWithNoNumber(v: Value, value: Value)
    requires Amount(v).Some? && Amount(value).None?
    ensures Evaluate(v, Greater, value).Raised? && Evaluate(v, Less, value).Raised?
    ensures Evaluate(v, AtLeast, value).Raised? && Evaluate(v, AtMost, value).Raised?
    ensures No(v, Equal, value) && Yes(v, Unequal, value)
  {
  }

  lemma Prefixes(t: string, s: string)
    ensures t <= s <==> exists rest :: s == t + rest
  {
    if t <= s {
      assert s == t + s[|t|..];
    }
  }

  lemma Suffixes(t: string, s: string)
    ensures EndsWith(s, t) <==> exists rest :: s == rest + t
  {
    if EndsWith(s, t) {
      assert s == s[..|s| - |t|] + t;
    }
    if rest :| s == rest + t {
      assert s[|rest|..] == t;
    }
  }

  /** `s` is `part` between two texts. */
  ghost predicate Between(s: string, before: string, part: string, behind: string) {
    s == before + part + behind
  }

  lemma OccursBetween(t: string, s: string)
    ensures Occurs(t, s) <==> exists a, b :: Between(s, a, t, b)
  {
    if i :| 0 <= i <= |s| && t <= s[i..] {
      FoundAt(t, s, i);
    }
    if a, b :| Between(s, a, t, b) {
      LiesAt(t, s, a, b);
    }
  }

  lemma FoundAt(t: string, s: string, i: nat)
    requires i <= |s| && t <= s[i..]
    ensures Between(s, s[..i], t, s[i + |t|..])
  {
    var rest := s[i..];
    assert rest == t + rest[|t|..];
    assert rest[|t|..] == s[i + |t|..];
    assert s == s[..i] + rest;
  }

  lemma LiesAt(t: string, s: string, a: string, b: string)
    requires Between(s, a, t, b)
    ensures |a| <= |s| && t <= s[|a|..]
  {
    assert s == a + (t + b);
    assert s[|a|..] == t + b;
  }

  /** On texts: a prefix, a suffix, a part. */
  lemma TextOperators(s: string, t: string)
    ensures Yes(Text(s), StartWith, Text(t)) <==> exists rest :: s == t + rest
    ensures Yes(Text(s), EndWith, Text(t)) <==> exists rest :: s == rest + t
    ensures Yes(Text(s), Contains, Text(t)) <==> exists a, b :: Between(s, a, t, b)
    ensures Yes(Text(s), Is, Text(t)) <==> s == t
    ensures Yes(Text(s), Empty, Text(t)) <==> s == ""
  {
    hide EndsWith, Occurs, Between;
    Prefixes(t, s);
    Suffixes(t, s);
    OccursBetween(t, s);
  }

  /** On lists: some item equals the value. */
  lemma ListOperators(items: seq<Value>, value: Value)
    ensures Yes(List(items), Contains, value) <==> exists k :: 0 <= k < |items| && Equals(items[k], value)
    ensures Yes(List(items), Is, value) <==> Equals(List(items), value)
    ensures Yes(List(items), Empty, value) <==> items == []
  {
    hide Canonical;
    if exists x <- items :: Equals(value, x) {
      var x :| x in items && Equals(value, x);
      var k :| 0 <= k < |items| && items[k] == x;
    }
    if k :| 0 <= k < |items| && Equals(items[k], value) {
      assert items[k] in items && Equals(value, items[k]);
    }
  }

  /** Equality, class by class: lists item by item, dictionaries key by key, Booleans as numbers. */
  lemma EqualsByParts(a: Value, b: Value)
    ensures Amount(a).Some? || Amount(b).Some? ==> (Equals(a, b) <==> Amount(a) == Amount(b))
    ensures a.Text? || a.Nil? ==> (Equals(a, b) <==> a == b)
    ensures a.List? ==>
              (Equals(a, b) <==>
                 && b.List? && |a.items| == |b.items|
                 && forall k :: 0 <= k < |a.items| ==> Equals(a.items[k], b.items[k]))
    ensures a.Dict? ==>
              (Equals(a, b) <==>
                 && b.Dict? && a.entries.Keys == b.entries.Keys
                 && forall k <- a.entries :: Equals(a.entries[k], b.entries[k]))
  {
    if a.List? && b.List? {
      EqualLists(a.items, b.items);
    }
    if a.Dict? && b.Dict? {
      EqualDicts(a.entries, b.entries);
    }
  }

  lemma EqualLists(a: seq<Value>, b: seq<Value>)
    ensures Equals(List(a), List(b)) <==> |a| == |b| && forall k :: 0 <= k < |a| ==> Equals(a[k], b[k])
  {
    var x, y := Canonical(List(a)).items, Canonical(List(b)).items;
    assert forall k :: 0 <= k < |a| ==> x[k] == Canonical(a[k]);
    assert forall k :: 0 <= k < |b| ==> y[k] == Canonical(b[k]);
    hide Canonical;
    if |a| == |b| && forall k :: 0 <= k < |a| ==> Equals(a[k], b[k]) {
      assert x == y;
    }
    if x == y {
      forall k | 0 <= k < |a| ensures Equals(a[k], b[k]) {
        assert x[k] == y[k];
      }
    }
  }

  lemma EqualDicts(a: map<string, Value>, b: map<string, Value>)
    ensures Equals(Dict(a), Dict(b)) <==> a.Keys == b.Keys && forall k <- a :: Equals(a[k], b[k])
  {
    var x, y := Canonical(Dict(a)).entries, Canonical(Dict(b)).entries;
    assert x.Keys == a.Keys && y.Keys == b.Keys;
    assert forall k <- a :: x[k] == Canonical(a[k]);
    assert forall k <- b :: y[k] == Canonical(b[k]);
    hide Canonical;
    if a.Keys == b.Keys && forall k <- a :: Equals(a[k], b[k]) {
      assert x == y;
    }
    if x == y {
      forall k <- a ensures k in b && Equals(a[k], b[k]) {
        assert k in x && k in y && x[k] == y[k];
      }
    }
  }

  /** The operators a class of values has; for every other one the evaluation raises. */
  predicate Offered(v: Value, op: Operator) {
    match v
    case Text(_) => op in {Contains, NotContains, StartWith, EndWith, Is, IsNot, Empty, NotEmpty}
    case Number(_) => op in {Equal, Unequal, Greater, Less, AtLeast, AtMost, Empty, NotEmpty}
    case Boolean(_) => op in {Equal, Unequal, Greater, Less, AtLeast, AtMost, Empty, NotEmpty}
    case Dict(_) => op in {Empty, NotEmpty}
    case List(_) => op in {Contains, NotContains, Is, IsNot, Empty, NotEmpty}
    case Nil => true
  }

  /** The operators that need a second value of one class: a text in a text, a number beside a number. */
  predicate Comparable(v: Value, op: Operator, value: Value) {
    && (v.Text? && op in {Contains, NotContains, StartWith, EndWith} ==> value.Text?)
    && (Amount(v).Some? && op in {Greater, Less, AtLeast, AtMost} ==> Amount(value).Some?)
  }

  lemma EvaluationRaisesIff(v: Value, op: Operator, value: Value)
    ensures Evaluate(v, op, value).Raised? <==> !Offered(v, op) || !Comparable(v, op, value)
  {
    hide Occurs, EndsWith;
  }

  /** Emptiness: nothing in a text, a list or a dictionary; a number is never empty, an unset variable always, and it
      meets nothing else. */
  lemma EmptyIff(v: Value, op: Operator, value: Value)
    ensures op != Empty ==> No(Nil, op, value)
    ensures Yes(v, Empty, value) <==> v in [Text(""), List([]), Dict(map[]), Nil]
  {
    if v.Dict? && |v.entries| == 0 {
      assert v.entries == map[];
    }
    hide Occurs, EndsWith;
  }

  // ---------- All conditions ----------

  datatype Mode = Constant | Variable | OtherMode
  datatype Logic = And | Or | OtherLogic

  /** A termination condition with the values its lookups gave. */
  datatype Condition = Condition(complete: bool, variable: Value, op: Operator, mode: Mode, value: Value)

  function Holds(c: Condition): Result<bool> {
    if !c.complete || c.mode == OtherMode then Raised else Evaluate(c.variable, c.op, c.value)
  }

  function AllEvaluated(conditions: seq<Condition>): Result<seq<bool>>
    decreases |conditions|
  {
    if conditions == [] then Ok([])
    else if Holds(conditions[0]).Raised? then Raised
    else
      match AllEvaluated(conditions[1..])
      case Raised => Raised
      case Ok(rest) => Ok([Holds(conditions[0]).value] + rest)
  }

  /** What `end` answers for a cursor, and whether it raises. */
  function EndAnswer(cursor: int, logic: Logic, conditions: seq<Condition>): Result<bool> {
    if cursor == -1 then Ok(true)
    else
      match AllEvaluated(conditions)
      case Raised => Raised
      case Ok(values) =>
        match logic
        case And => Ok(false !in values)
        case Or => Ok(true in values)
        case OtherLogic => Raised
  }

  lemma {:induction false} EvaluatedAt(conditions: seq<Condition>)
    ensures var r := AllEvaluated(conditions);
      && (r.Raised? <==> exists c <- conditions :: Holds(c).Raised?)
      && (r.Ok? ==> forall b :: b in r.value <==> exists c <- conditions :: Holds(c) == Ok(b))
    decreases |conditions|
  {
    if conditions != [] {
      EvaluatedAt(conditions[1..]);
      assert conditions == [conditions[0]] + conditions[1..];
      assert conditions[0] in conditions;
    }
    hide Holds;
  }

  /** A running loop ends before its body exactly if every condition ("and") or some condition ("or") holds, so an
      "and" without conditions always does; and any condition that cannot be evaluated raises, even when the
      others have settled the answer. */
  lemma EndIsExact(cursor: int, logic: Logic, conditions: seq<Condition>)
    requires cursor != -1
    ensures var r := EndAnswer(cursor, logic, conditions);
      && (r.Raised? <==> logic == OtherLogic || exists c <- conditions :: Holds(c).Raised?)
      && (logic == And && r.Ok? ==> (r.value <==> forall c <- conditions :: Holds(c) == Ok(true)))
      && (logic == Or && r.Ok? ==> (r.value <==> exists c <- conditions :: Holds(c) == Ok(true)))
      && (logic == And && conditions == [] ==> r == Ok(true))
  {
    EvaluatedAt(conditions);
    hide Holds, AllEvaluated;
    if EndAnswer(cursor, logic, conditions).Ok? {
      forall c <- conditions ensures Holds(c) == Ok(true) || Holds(c) == Ok(false) {
        var h := Holds(c);
        assert !h.Raised?;
        if h.value {
          assert h == Ok(true);
        } else {
          assert h == Ok(false);
        }
      }
    }
  }

  /** A loop with one complete condition on a number that grows from round to round goes on up to the compared number
      and ends behind it (">") or at it ("at least"). */
  lemma CountingLoopEnds(cursor: int, logic: Logic, n: real, limit: real)
    requires cursor != -1 && logic != OtherLogic
    ensures EndAnswer(cursor, logic, [Condition(true, Number(n), Greater, Constant, Number(limit))]) == Ok(n > limit)
    ensures EndAnswer(cursor, logic, [Condition(true, Number(n), AtLeast, Variable, Number(limit))]) == Ok(n >= limit)
  {
    OneCondition(cursor, logic, Condition(true, Number(n), Greater, Constant, Number(limit)));
    OneCondition(cursor, logic, Condition(true, Number(n), AtLeast, Variable, Number(limit)));
    hide EndAnswer;
  }

  lemma NoCondition()
    ensures AllEvaluated([]) == Ok([])
  {
  }

  lemma OneCondition(cursor: int, logic: Logic, c: Condition)
    requires cursor != -1 && logic != OtherLogic
    ensures EndAnswer(cursor, logic, [c]) == Holds(c)
  {
    assert [c][1..] == [];
    hide Holds;
    NoCondition();
    if Holds(c).Ok? {
      assert [Holds(c).value] + [] == [Holds(c).value];
      assert AllEvaluated([c]) == Ok([Holds(c).value]);
    }
  }

  /** A condition counts exactly if it has its variable and its operator and its value is a constant or a variable;
      otherwise it raises, and so does the end of the loop. */
  lemma IncompleteConditionsRaise(cursor: int, logic: Logic, conditions: seq<Condition>, c: Condition)
    requires cursor != -1 && c in conditions
    ensures (!c.complete || (c.mode != Constant && c.mode != Variable)) ==> EndAnswer(cursor, logic, conditions).Raised?
    ensures c.complete && (c.mode == Constant || c.mode == Variable) ==>
              (Holds(c).Raised? <==> !Offered(c.variable, c.op) || !Comparable(c.variable, c.op, c.value))
  {
    EndIsExact(cursor, logic, conditions);
    EvaluationRaisesIff(c.variable, c.op, c.value);
    hide Evaluate, EndAnswer;
  }

  // ---------- The item ----------

  class LoopItem {
    var idx: int

    constructor ()
      ensures idx == 0
    {
      idx := 0;
    }

    /** `_invoke`; the two places that look at the cancellation flag. */
    method Invoke(maximum: int, atStart: bool, beforeRound: bool)
      modifies this
      ensures idx == Cursor.LoopStep(old(idx), maximum, atStart || (0 < old(idx) < maximum && beforeRound))
    {
      if atStart {
        return;
      }
      if idx >= maximum {
        idx := -1;
        return;
      }
      if idx > 0 && beforeRound {
        return;
      }
      idx := idx + 1;
    }

    /** `end`: every condition is evaluated before the answer is formed, and a positive answer resets the cursor. */
    method End(logic: Logic, conditions: seq<Condition>) returns (r: Result<bool>)
      modifies this
      ensures r == EndAnswer(old(idx), logic, conditions)
      ensures idx == if r == Ok(true) then -1 else old(idx)
    {
      if idx == -1 {
        return Ok(true);
      }
      var values: seq<bool> := [];
      assert conditions[0..] == conditions;
      JoinedNone(AllEvaluated(conditions));
      for i := 0 to |conditions|
        invariant idx == old(idx) != -1
        invariant AllEvaluated(conditions) == Joined(values, AllEvaluated(conditions[i..]))
      {
        assert conditions[i..][0] == conditions[i] && conditions[i..][1..] == conditions[i + 1..];
        var held := Holds(conditions[i]);
        if held.Raised? {
          assert AllEvaluated(conditions[i..]).Raised? && AllEvaluated(conditions).Raised?;
          return Raised;
        }
        JoinedNext(values, held.value, AllEvaluated(conditions[i + 1..]));
        values := values + [held.value];
      }
      assert conditions[|conditions|..] == [] && values + [] == values;
      assert AllEvaluated(conditions) == Ok(values);
      match logic {
        case And => r := Ok(false !in values);
        case Or => r := Ok(true in values);
        case OtherLogic => r := Raised;
      }
      if r == Ok(true) {
        idx := -1;
      }
    }
  }

  function Joined(values: seq<bool>, rest: Result<seq<bool>>): Result<seq<bool>> {
    match rest
    case Raised => Raised
    case Ok(more) => Ok(values + more)
  }

  lemma JoinedNone(rest: Result<seq<bool>>)
    ensures Joined([], rest) == rest
  {
    if rest.Ok? {
      assert [] + rest.value == rest.value;
    }
  }

  lemma JoinedNext(values: seq<bool>, x: bool, rest: Result<seq<bool>>)
    ensures Joined(values, Joined([x], rest)) == Joined(values + [x], rest)
  {
    if rest.Ok? {
      assert values + ([x] + rest.value) == values + [x] + rest.value;
    }
  }
}
