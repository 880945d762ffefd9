/** The contract of the code execution tool: type expressions, the validator and the inferencer. */
module CodeExecTypes {
  import opened Common
  import opened Regex

  datatype Error = Unsupported | Mismatch | BadOutputs | BadValue
  datatype Result<+T> = Ok(value: T) | Err(error: Error)

  // ---------- Values ----------

  /** A Python value; `VOther` stands for every class the contract does not know. */
  datatype Value =
    | VNone | VBool(b: bool) | VNumber(n: real) | VString(s: string)
    | VList(items: seq<Value>) | VTuple(elems: seq<Value>) | VDict(entries: seq<Entry>) | VOther
  datatype Entry = Entry(key: string, value: Value)

  /** `normalize_output_value`: tuples become lists, at every depth. */
  function NormalizeValue(v: Value): Value
    decreases v
  {
    match v
    case VList(items) => VList(NormalizeItems(items))
    case VTuple(elems) => VList(NormalizeItems(elems))
    case VDict(entries) => VDict(NormalizeEntries(entries))
    case _ => v
  }

  function NormalizeItems(items: seq<Value>): (r: seq<Value>)
    ensures |r| == |items|
    decreases items
  {
    if items == [] then [] else [NormalizeValue(items[0])] + NormalizeItems(items[1..])
  }

  function NormalizeEntries(entries: seq<Entry>): (r: seq<Entry>)
    ensures |r| == |entries|
    decreases entries
  {
    if entries == [] then []
    else [Entry(entries[0].key, NormalizeValue(entries[0].value))] + NormalizeEntries(entries[1..])
  }

  lemma {:induction false} NormalizedOnce(v: Value)
    ensures NormalizeValue(NormalizeValue(v)) == NormalizeValue(v)
    decreases v
  {
    match v
    case VList(items) => NormalizedItemsOnce(items);
    case VTuple(elems) => NormalizedItemsOnce(elems);
    case VDict(entries) => NormalizedEntriesOnce(entries);
    case _ =>
  }

  lemma {:induction false} NormalizedItemsOnce(items: seq<Value>)
    ensures NormalizeItems(NormalizeItems(items)) == NormalizeItems(items)
    decreases items
  {
    if items != [] {
      NormalizedOnce(items[0]);
      NormalizedItemsOnce(items[1..]);
    }
  }

  lemma {:induction false} NormalizedEntriesOnce(entries: seq<Entry>)
    ensures NormalizeEntries(NormalizeEntries(entries)) == NormalizeEntries(entries)
    decreases entries
  {
    if entries != [] {
      NormalizedOnce(entries[0].value);
      NormalizedEntriesOnce(entries[1..]);
    }
  }

  /** No tuple at any depth. */
  predicate TupleFree(v: Value)
    decreases v
  {
    match v
    case VList(items) => forall k | 0 <= k < |items| :: TupleFree(items[k])
    case VTuple(_) => false
    case VDict(entries) => forall k | 0 <= k < |entries| :: TupleFree(entries[k].value)
    case _ => true
  }

  /** `b` is `a` with lists for tuples: the same items in the same order, the same keys in the same order, and the same
      scalars. */
  predicate Listed(a: Value, b: Value)
    decreases a
  {
    match a
    case VList(items) =>
      b.VList? && |b.items| == |items| && forall k | 0 <= k < |items| :: Listed(items[k], b.items[k])
    case VTuple(elems) =>
      b.VList? && |b.items| == |elems| && forall k | 0 <= k < |elems| :: Listed(elems[k], b.items[k])
    case VDict(entries) =>
      && b.VDict? && |b.entries| == |entries|
      && forall k | 0 <= k < |entries| ::
           b.entries[k].key == entries[k].key && Listed(entries[k].value, b.entries[k].value)
    case _ => b == a
  }

  lemma {:induction false} NormalizedItemAt(items: seq<Value>, k: nat)
    requires k < |items|
    ensures NormalizeItems(items)[k] == NormalizeValue(items[k])
  {
    if k > 0 {
      NormalizedItemAt(items[1..], k - 1);
    }
  }

  lemma {:induction false} NormalizedEntryAt(entries: seq<Entry>, k: nat)
    requires k < |entries|
    ensures NormalizeEntries(entries)[k] == Entry(entries[k].key, NormalizeValue(entries[k].value))
  {
    if k > 0 {
      NormalizedEntryAt(entries[1..], k - 1);
    }
  }

  /** Normalising puts lists for tuples, at every depth, and changes nothing else. */
  lemma {:induction false} NormalizedIsListed(v: Value)
    ensures Listed(v, NormalizeValue(v)) && TupleFree(NormalizeValue(v))
    decreases v
  {
    match v {
      case VList(items) => NormalizedItemsAreListed(items);
      case VTuple(elems) => NormalizedItemsAreListed(elems);
      case VDict(entries) =>
        forall k | 0 <= k < |entries| ensures NormalizeEntries(entries)[k].key == entries[k].key
            && Listed(entries[k].value, NormalizeEntries(entries)[k].value)
            && TupleFree(NormalizeEntries(entries)[k].value)
        {
          NormalizedEntryAt(entries, k);
          NormalizedIsListed(entries[k].value);
        }
      case _ =>
    }
  }

  lemma {:induction false} NormalizedItemsAreListed(items: seq<Value>)
    ensures var r := NormalizeItems(items);
      forall k | 0 <= k < |items| :: Listed(items[k], r[k]) && TupleFree(r[k])
    decreases items
  {
    forall k | 0 <= k < |items| ensures var r := NormalizeItems(items); Listed(items[k], r[k]) && TupleFree(r[k]) {
      NormalizedItemAt(items, k);
      NormalizedIsListed(items[k]);
    }
  }

  /** A value without tuples, and no other, is what it is normalised to. */
  lemma {:induction false} ListedIsSame(a: Value, b: Value)
    requires Listed(a, b)
    ensures TupleFree(a) <==> b == a
    decreases a
  {
    match a {
      case VList(items) => ListedItemsAreSame(items, b.items);
      case VTuple(elems) =>
      case VDict(entries) =>
        forall k | 0 <= k < |entries|
          ensures b.entries[k].key == entries[k].key
          ensures TupleFree(entries[k].value) <==> b.entries[k].value == entries[k].value
        {
          ListedIsSame(entries[k].value, b.entries[k].value);
        }
        assert (forall k | 0 <= k < |entries| :: b.entries[k] == entries[k]) ==> b.entries == entries;
      case _ =>
    }
  }

  lemma {:induction false} ListedItemsAreSame(items: seq<Value>, r: seq<Value>)
    requires |r| == |items| && forall k | 0 <= k < |items| :: Listed(items[k], r[k])
    ensures (forall k | 0 <= k < |items| :: TupleFree(items[k])) <==> r == items
    decreases items
  {
    forall k | 0 <= k < |items| ensures TupleFree(items[k]) <==> r[k] == items[k] {
      ListedIsSame(items[k], r[k]);
    }
    assert (forall k | 0 <= k < |items| :: r[k] == items[k]) ==> r == items;
  }

  // ---------- Text ----------

  function StripLeft(s: string): (r: string)
    ensures |r| <= |s|
    ensures r == [] || !IsWhite(r[0])
  {
    if s == [] || !IsWhite(s[0]) then s else StripLeft(s[1..])
  }

  function StripRight(s: string): (r: string)
    ensures r <= s
    ensures r == [] || !IsWhite(r[|r| - 1])
    decreases |s|
  {
    if s == [] || !IsWhite(s[|s| - 1]) then s else StripRight(s[..|s| - 1])
  }

  /** `s.strip()`. */
  function Strip(s: string): (r: string)
    ensures |r| <= |s|
    ensures Stripped(r)
  {
    var l := StripLeft(s);
    var r := StripRight(l);
    assert r != [] ==> r[0] == l[0];
    r
  }

  predicate Stripped(s: string) {
    s == [] || (!IsWhite(s[0]) && !IsWhite(s[|s| - 1]))
  }

  lemma StripIsIdentity(s: string)
    requires Stripped(s)
    ensures Strip(s) == s
  {
  }

  predicate Blank(s: string) {
    forall k :: 0 <= k < |s| ==> IsWhite(s[k])
  }

  lemma {:induction false} StripLeftTrims(s: string) returns (left: string)
    ensures Blank(left) && s == left + StripLeft(s)
  {
    if s == [] || !IsWhite(s[0]) {
      left := [];
    } else {
      left := StripLeftTrims(s[1..]);
      left := [s[0]] + left;
    }
  }

  lemma {:induction false} StripRightTrims(s: string) returns (right: string)
    ensures Blank(right) && s == StripRight(s) + right
    decreases |s|
  {
    if s == [] || !IsWhite(s[|s| - 1]) {
      right := [];
    } else {
      right := StripRightTrims(s[..|s| - 1]);
      right := right + [s[|s| - 1]];
    }
  }

  /** Stripping takes blank text off both ends and nothing else. */
  lemma StripTrims(s: string) returns (left: string, right: string)
    ensures Blank(left) && Blank(right) && s == left + Strip(s) + right
  {
    left := StripLeftTrims(s);
    right := StripRightTrims(StripLeft(s));
    assert left + (Strip(s) + right) == left + Strip(s) + right;
  }

  // ---------- Type expressions ----------

  datatype Name = TString | TNumber | TBoolean | TObject | TNull | TAny
  datatype Type = Known(name: Name) | Array(inner: Type) | Unknown(text: string)

  function NameOf(low: string): Option<Name> {
    if low == "string" then Some(TString)
    else if low == "number" then Some(TNumber)
    else if low == "boolean" then Some(TBoolean)
    else if low == "object" then Some(TObject)
    else if low == "null" then Some(TNull)
    else if low == "any" then Some(TAny)
    else None
  }

  function Spelled(n: Name): string {
    match n
    case TString => "String"
    case TNumber => "Number"
    case TBoolean => "Boolean"
    case TObject => "Object"
    case TNull => "Null"
    case TAny => "Any"
  }

  const ARRAY := "array<"

  /** `low.startswith("array<") and low.endswith(">")`. */
  predicate IsArrayText(s: string) {
    |s| > |ARRAY| && Lower(s[..|ARRAY|]) == ARRAY && s[|s| - 1] == '>'
  }

  function Inside(s: string): string
    requires IsArrayText(s)
  {
    Strip(s[|ARRAY|..|s| - 1])
  }

  function Wrapped(inner: string): string {
    "Array<" + inner + ">"
  }

  /** `_normalize_expected_type`. */
  function NormalizeType(s: string): (r: Result<string>)
    ensures r.Ok? ==> |r.value| <= |s| && Stripped(r.value)
    decreases |s|
  {
    var e := Strip(s);
    if NameOf(Lower(e)).Some? then
      NameLength(e);
      Ok(Spelled(NameOf(Lower(e)).value))
    else if IsArrayText(e) then
      if Inside(e) == [] then Err(Unsupported)
      else
        match NormalizeType(Inside(e))
        case Err(x) => Err(x)
        case Ok(inner) => Ok(Wrapped(inner))
    else Ok(e)
  }

  lemma NameLength(e: string)
    requires NameOf(Lower(e)).Some?
    ensures var w := Spelled(NameOf(Lower(e)).value);
      |w| == |e| && Stripped(w)
  {
    assert |Lower(e)| == |e|;
  }

  /** What a type expression denotes. */
  function Parse(s: string): Result<Type>
    decreases |s|
  {
    var e := Strip(s);
    if NameOf(Lower(e)).Some? then Ok(Known(NameOf(Lower(e)).value))
    else if IsArrayText(e) then
      if Inside(e) == [] then Err(Unsupported)
      else
        match Parse(Inside(e))
        case Err(x) => Err(x)
        case Ok(inner) => Ok(Array(inner))
    else Ok(Unknown(e))
  }

  function Print(t: Type): string {
    match t
    case Known(n) => Spelled(n)
    case Array(inner) => Wrapped(Print(inner))
    case Unknown(text) => text
  }

  /** The types expressions denote: unknown names are stripped texts of no other form, not empty inside an array. */
  ghost predicate Denotable(t: Type) {
    match t
    case Known(_) => true
    case Array(inner) => Denotable(inner) && Print(inner) != []
    case Unknown(text) => Stripped(text) && NameOf(Lower(text)) == None && !IsArrayText(text)
  }

  /** Normalising a type expression is parsing and printing it. */
  lemma {:induction false} NormalizeIsParsePrint(s: string)
    ensures NormalizeType(s) == match Parse(s) case Ok(t) => Ok(Print(t)) case Err(x) => Err(x)
    decreases |s|
  {
    var e := Strip(s);
    if NameOf(Lower(e)).None? && IsArrayText(e) && Inside(e) != [] {
      NormalizeIsParsePrint(Inside(e));
    }
  }

  lemma {:induction false} ParseIsDenotable(s: string)
    ensures Parse(s).Ok? ==> Denotable(Parse(s).value) && (Strip(s) != [] ==> Print(Parse(s).value) != [])
    decreases |s|
  {
    var e := Strip(s);
    if NameOf(Lower(e)).None? && IsArrayText(e) && Inside(e) != [] {
      ParseIsDenotable(Inside(e));
      StripIsIdentity(Inside(e));
    }
  }

  lemma {:induction false} PrintIsStripped(t: Type)
    requires Denotable(t)
    ensures Stripped(Print(t))
  {
    match t
    case Known(n) =>
    case Array(inner) =>
      var w := Wrapped(Print(inner));
      assert w[0] == 'A' && w[|w| - 1] == '>';
    case Unknown(text) =>
  }

  lemma WrappedText(inner: string)
    requires Stripped(inner)
    ensures var w := Wrapped(inner);
      && Stripped(w) && IsArrayText(w) && Inside(w) == inner && NameOf(Lower(w)) == None
      && |w| == |inner| + 7
  {
    var w := Wrapped(inner);
    assert w[..|ARRAY|] == "Array<";
    assert Lower("Array<") == ARRAY;
    assert w[|ARRAY|..|w| - 1] == inner;
    StripIsIdentity(inner);
    assert Lower(w)[5] == '<';
  }

  /** Printing a type and parsing it again gives the type back. */
  lemma {:induction false} PrintThenParse(t: Type)
    requires Denotable(t)
    ensures Parse(Print(t)) == Ok(t)
    decreases t
  {
    PrintIsStripped(t);
    StripIsIdentity(Print(t));
    match t
    case Known(n) => KnownNames(n);
    case Array(inner) =>
      PrintIsStripped(inner);
      WrappedText(Print(inner));
      PrintThenParse(inner);
    case Unknown(text) =>
  }

  lemma KnownNames(n: Name)
    ensures NameOf(Lower(Spelled(n))) == Some(n)
  {
    assert Lower("String") == "string" && Lower("Number") == "number" && Lower("Boolean") == "boolean";
    assert Lower("Object") == "object" && Lower("Null") == "null" && Lower("Any") == "any";
  }

  /** Normalising is idempotent. */
  lemma NormalizeTwice(s: string)
    requires NormalizeType(s).Ok?
    ensures NormalizeType(NormalizeType(s).value) == NormalizeType(s)
  {
    NormalizeIsParsePrint(s);
    ParseIsDenotable(s);
    var t := Parse(s).value;
    PrintThenParse(t);
    NormalizeIsParsePrint(Print(t));
    hide NormalizeType, Parse, Print, Denotable;
  }

  // ---------- The validator ----------

  /** `_validate_expected_type`; the text of the message and the path in it are left out. */
  function Validate(s: string, v: Value): Result<()>
    decreases |s|, 1
  {
    match NormalizeType(s)
    case Err(x) => Err(x)
    case Ok(e) =>
      if e == [] || Lower(e) == "any" then Ok(())
      else
        var w := NormalizeValue(v);
        if "Array<" <= e && e[|e| - 1] == '>' then
          if w.VList? then ValidateAll(Strip(e[|ARRAY|..|e| - 1]), w.items) else Err(Mismatch)
        else if e == "String" then Check(w.VString?)
        else if e == "Number" then Check(w.VNumber?)
        else if e == "Boolean" then Check(w.VBool?)
        else if e == "Object" then Check(w.VDict?)
        else if e == "Null" then Check(w.VNone?)
        else Err(Unsupported)
  }

  function Check(valid: bool): Result<()> {
    if valid then Ok(()) else Err(Mismatch)
  }

  function ValidateAll(s: string, items: seq<Value>): Result<()>
    decreases |s|, 2, items
  {
    if items == [] then Ok(())
    else
      match Validate(s, items[0])
      case Err(x) => Err(x)
      case Ok(_) => ValidateAll(s, items[1..])
  }

  /** The value has the type.  Unknown names have no values; the empty name, like Any, has all. */
  predicate Conforms(t: Type, v: Value)
    decreases t
  {
    match t
    case Known(TAny) => true
    case Known(TString) => v.VString?
    case Known(TNumber) => v.VNumber?
    case Known(TBoolean) => v.VBool?
    case Known(TObject) => v.VDict?
    case Known(TNull) => v.VNone?
    case Array(inner) => v.VList? && forall x <- v.items :: Conforms(inner, x)
    case Unknown(text) => text == []
  }

  lemma {:induction false} NormalizedItemsAt(items: seq<Value>, k: nat)
    requires NormalizeItems(items) == items && k < |items|
    ensures NormalizeValue(items[k]) == items[k]
  {
    if k > 0 {
      NormalizedItemsAt(items[1..], k - 1);
    }
  }

  /** The validator accepts exactly the values of the parsed type. */
  lemma {:induction false} ValidateIsConforms(s: string, v: Value)
    ensures Validate(s, v).Ok? <==> Parse(s).Ok? && Conforms(Parse(s).value, NormalizeValue(v))
    decreases |s|, 1
  {
    NormalizeIsParsePrint(s);
    ParseIsDenotable(s);
    NormalizedOnce(v);
    ValidateUnfolds(s, v);
    hide *;
    if Parse(s).Ok? {
      var t, w := Parse(s).value, NormalizeValue(v);
      if t.Array? {
        ArrayIsSplit(t.inner, w);
        NormalizedName(s, t);
        if w.VList? {
          PrintThenParse(t.inner);
          NormalizedList(w);
          ValidateAllIsConforms(Print(t.inner), w.items, t.inner);
        }
      } else {
        PlainIsConforms(t, w);
      }
    }
  }

  lemma NormalizedName(s: string, t: Type)
    requires NormalizeType(s) == Ok(Print(t)) && t.Array?
    ensures |s| >= |Print(t.inner)| + 7
  {
    hide NormalizeType, Lower;
  }

  /** The validator after the type has been normalised. */
  function Against(e: string, w: Value): Result<()> {
    if e == [] || Lower(e) == "any" then Ok(())
    else if "Array<" <= e && e[|e| - 1] == '>' then Check(w.VList?)
    else if e == "String" then Check(w.VString?)
    else if e == "Number" then Check(w.VNumber?)
    else if e == "Boolean" then Check(w.VBool?)
    else if e == "Object" then Check(w.VDict?)
    else if e == "Null" then Check(w.VNone?)
    else Err(Unsupported)
  }

  predicate Lists(e: string) {
    e != [] && Lower(e) != "any" && "Array<" <= e && e[|e| - 1] == '>' && |e| > |ARRAY|
  }

  lemma ValidateUnfolds(s: string, v: Value)
    ensures var n, w := NormalizeType(s), NormalizeValue(v);
      && (n.Err? ==> Validate(s, v).Err?)
      && (n.Ok? && !(Lists(n.value) && w.VList?) ==> Validate(s, v) == Against(n.value, w))
      && (n.Ok? && Lists(n.value) && w.VList? ==>
            Validate(s, v) == ValidateAll(Strip(n.value[|ARRAY|..|n.value| - 1]), w.items))
  {
    hide NormalizeType, NormalizeValue, ValidateAll, Strip, Lower;
    if NormalizeType(s).Ok? {
      var e := NormalizeType(s).value;
      assert "Array<" <= e && e[|e| - 1] == '>' ==> e != "Array<";
    }
  }

  lemma ArrayIsSplit(inner: Type, w: Value)
    requires Denotable(Array(inner))
    ensures Denotable(inner) && Lists(Print(Array(inner)))
    ensures var e := Print(Array(inner)); Strip(e[|ARRAY|..|e| - 1]) == Print(inner)
    ensures !w.VList? ==> Against(Print(Array(inner)), w).Err? && !Conforms(Array(inner), w)
    ensures w.VList? ==> (Conforms(Array(inner), w) <==> forall x <- w.items :: Conforms(inner, x))
  {
    PrintIsStripped(inner);
    ArrayText(Print(inner));
    NotAny(Print(inner));
    hide Strip, Lower, Stripped;
  }

  lemma PlainIsConforms(t: Type, w: Value)
    requires Denotable(t) && !t.Array?
    ensures !Lists(Print(t))
    ensures Against(Print(t), w).Ok? <==> Conforms(t, w)
  {
    match t
    case Known(n) => KnownNames(n);
    case Unknown(text) => UnknownText(text); hide Lower, Stripped, IsArrayText, NameOf;
  }

  lemma NormalizedList(w: Value)
    requires w.VList? && NormalizeValue(w) == w
    ensures NormalizeItems(w.items) == w.items
  {
  }

  lemma ArrayText(p: string)
    requires Stripped(p)
    ensures var e := Wrapped(p);
      "Array<" <= e && e[|e| - 1] == '>' && Strip(e[|ARRAY|..|e| - 1]) == p
  {
    var e := Wrapped(p);
    assert e[|ARRAY|..|e| - 1] == p;
    StripIsIdentity(p);
  }

  lemma NotAny(p: string)
    ensures Lower(Wrapped(p)) != "any"
  {
    assert |Lower(Wrapped(p))| == |p| + 7;
  }

  lemma UnknownText(text: string)
    requires NameOf(Lower(text)) == None && !IsArrayText(text)
    ensures Lower(text) != "any" && text != "String" && text != "Number" && text != "Boolean" && text != "Object"
        && text != "Null"
    ensures "Array<" <= text ==> text[|text| - 1] != '>'
  {
    KnownNames(TString);
    KnownNames(TNumber);
    KnownNames(TBoolean);
    KnownNames(TObject);
    KnownNames(TNull);
    if "Array<" <= text {
      assert text[..|ARRAY|] == "Array<" && Lower("Array<") == ARRAY;
      assert text == "Array<" ==> text[|text| - 1] == '<';
    }
  }

  lemma {:induction false} ValidateAllIsConforms(s: string, items: seq<Value>, t: Type)
    requires Parse(s) == Ok(t) && NormalizeItems(items) == items
    ensures ValidateAll(s, items).Ok? <==> forall x <- items :: Conforms(t, x)
    decreases |s|, 2, items
  {
    hide Validate, Conforms, Parse;
    if items != [] {
      ValidateIsConforms(s, items[0]);
      NormalizedItemsAt(items, 0);
      ValidateAllIsConforms(s, items[1..], t);
      assert items == [items[0]] + items[1..];
    }
  }

  // ---------- The inferencer ----------

  /** The type `infer_actual_type` describes, for a normalised value. */
  function TypeOf(v: Value): Type
    decreases v
  {
    match v
    case VNone => Known(TNull)
    case VBool(_) => Known(TBoolean)
    case VNumber(_) => Known(TNumber)
    case VString(_) => Known(TString)
    case VDict(_) => Known(TObject)
    case VList(items) =>
      if items != [] && forall x <- items :: TypeOf(x) == TypeOf(items[0]) then Array(TypeOf(items[0]))
      else Array(Known(TAny))
    case VTuple(_) => Known(TAny)
    case VOther => Known(TAny)
  }

  /** `infer_actual_type`: the set of the items' inferred names has one member, or it does not. */
  function InferActualType(v: Value): string
    decreases Depth(v)
  {
    var w := NormalizeValue(v);
    match w
    case VNone => "Null"
    case VBool(_) => "Boolean"
    case VNumber(_) => "Number"
    case VString(_) => "String"
    case VDict(_) => "Object"
    case VList(items) =>
      NormalizeKeepsDepth(v);
      ItemsAreShallower(items);
      var inferred := set x | x in items :: InferActualType(x);
      if items != [] && inferred == {InferActualType(items[0])} then Wrapped(InferActualType(items[0]))
      else "Array<Any>"
    case _ => "Any"
  }

  function Depth(v: Value): nat
    decreases v
  {
    match v
    case VList(items) => 1 + DepthAll(items)
    case VTuple(elems) => 1 + DepthAll(elems)
    case _ => 0
  }

  function DepthAll(items: seq<Value>): nat
    decreases items
  {
    if items == [] then 0
    else if Depth(items[0]) > DepthAll(items[1..]) then Depth(items[0]) else DepthAll(items[1..])
  }

  lemma {:induction false} ItemsAreShallower(items: seq<Value>)
    ensures forall x <- items :: Depth(x) <= DepthAll(items)
  {
    if items != [] {
      ItemsAreShallower(items[1..]);
      assert items == [items[0]] + items[1..];
    }
  }

  lemma {:induction false} NormalizeKeepsDepth(v: Value)
    ensures Depth(NormalizeValue(v)) == Depth(v)
    decreases v
  {
    match v
    case VList(items) => NormalizeKeepsDepthAll(items);
    case VTuple(elems) => NormalizeKeepsDepthAll(elems);
    case _ =>
  }

  lemma {:induction false} NormalizeKeepsDepthAll(items: seq<Value>)
    ensures DepthAll(NormalizeItems(items)) == DepthAll(items)
    decreases items
  {
    if items != [] {
      NormalizeKeepsDepth(items[0]);
      NormalizeKeepsDepthAll(items[1..]);
    }
  }

  lemma {:induction false} TypeOfIsDenotable(v: Value)
    ensures Denotable(TypeOf(v)) && Print(TypeOf(v)) != []
    decreases v
  {
    if v.VList? && v.items != [] {
      TypeOfIsDenotable(v.items[0]);
    }
  }

  /** Distinct types have distinct names. */
  lemma PrintIsInjective(a: Type, b: Type)
    requires Denotable(a) && Denotable(b) && Print(a) == Print(b)
    ensures a == b
  {
    PrintThenParse(a);
    PrintThenParse(b);
    hide Parse, Print;
  }

  /** The inferred name is the printed type of the normalised value. */
  lemma {:induction false} InferIsPrintedType(v: Value)
    ensures InferActualType(v) == Print(TypeOf(NormalizeValue(v)))
    decreases Depth(v)
  {
    var w := NormalizeValue(v);
    InferUnfolds(v);
    NormalizedOnce(v);
    NormalizeKeepsDepth(v);
    if w.VList? {
      NormalizedList(w);
      ItemsAreShallower(w.items);
      assert Depth(w) == 1 + DepthAll(w.items);
      hide *;
      forall x | x in w.items ensures InferActualType(x) == Print(TypeOf(x)) {
        var k :| 0 <= k < |w.items| && w.items[k] == x;
        NormalizedItemsAt(w.items, k);
        InferIsPrintedType(x);
      }
      ListName(w.items);
    } else {
      hide InferActualType, NormalizeValue, Depth;
    }
  }

  /** The inferred name of a normalised value in terms of the names of its items. */
  function NameFor(w: Value): string {
    match w
    case VNone => "Null"
    case VBool(_) => "Boolean"
    case VNumber(_) => "Number"
    case VString(_) => "String"
    case VDict(_) => "Object"
    case VList(items) =>
      if items != [] && (set x | x in items :: InferActualType(x)) == {InferActualType(items[0])} then
        Wrapped(InferActualType(items[0]))
      else "Array<Any>"
    case _ => "Any"
  }

  lemma InferUnfolds(v: Value)
    ensures InferActualType(v) == NameFor(NormalizeValue(v))
  {
    hide NormalizeValue;
  }

  lemma ListName(items: seq<Value>)
    requires forall x <- items :: InferActualType(x) == Print(TypeOf(x))
    ensures NameFor(VList(items)) == Print(TypeOf(VList(items)))
  {
    if items != [] {
      SameNamesSameTypes(items);
    }
    hide InferActualType;
  }

  lemma SameNamesSameTypes(items: seq<Value>)
    requires items != [] && forall x <- items :: InferActualType(x) == Print(TypeOf(x))
    ensures (set x | x in items :: InferActualType(x)) == {InferActualType(items[0])}
       <==> forall x <- items :: TypeOf(x) == TypeOf(items[0])
  {
    hide InferActualType, TypeOf, Print;
    var names := set x | x in items :: InferActualType(x);
    assert items[0] in items;
    assert InferActualType(items[0]) in names;
    if names == {InferActualType(items[0])} {
      forall x <- items ensures TypeOf(x) == TypeOf(items[0]) {
        assert InferActualType(x) in names;
        TypeOfIsDenotable(x);
        TypeOfIsDenotable(items[0]);
        PrintIsInjective(TypeOf(x), TypeOf(items[0]));
      }
    }
  }

  lemma {:induction false} ConformsToOwnType(v: Value)
    ensures Conforms(TypeOf(v), v)
    decreases v
  {
    if v.VList? {
      forall x <- v.items ensures Conforms(TypeOf(x), x) {
        ConformsToOwnType(x);
      }
    }
  }

  /** Every value is accepted under the type inferred for it. */
  lemma OwnTypeIsAccepted(v: Value)
    ensures Validate(InferActualType(v), v).Ok?
    ensures Parse(InferActualType(v)) == Ok(TypeOf(NormalizeValue(v)))
  {
    var w := NormalizeValue(v);
    InferIsPrintedType(v);
    TypeOfIsDenotable(w);
    PrintThenParse(TypeOf(w));
    ConformsToOwnType(w);
    ValidateIsConforms(InferActualType(v), v);
    hide Validate, InferActualType, Parse, Print, TypeOf, NormalizeValue, Conforms, Denotable;
  }

  /** A type that names a class at every depth. */
  predicate Exact(t: Type) {
    match t
    case Known(n) => n != TAny
    case Array(inner) => Exact(inner)
    case Unknown(_) => false
  }

  /** No list in the list is empty. */
  predicate Filled(v: Value)
    decreases v
  {
    v.VList? ==> v.items != [] && forall k | 0 <= k < |v.items| :: Filled(v.items[k])
  }

  /** The inferred type is the tightest: a value without empty lists has at most one type that names its class at every
      depth, and then that is the inferred one. */
  lemma {:induction false} InferredIsTightest(t: Type, v: Value)
    requires Exact(t) && Filled(v) && Conforms(t, v)
    ensures TypeOf(v) == t
    decreases t
  {
    if t.Array? {
      forall x <- v.items ensures TypeOf(x) == t.inner {
        var k :| 0 <= k < |v.items| && v.items[k] == x;
        InferredIsTightest(t.inner, x);
      }
    }
  }

  /** So a value is accepted under such a declared type exactly if the type's printed form is the inferred name. */
  lemma ExactTypeIsInferred(declared: string, v: Value)
    requires Parse(declared).Ok? && Exact(Parse(declared).value) && Filled(NormalizeValue(v))
    ensures Validate(declared, v).Ok? <==> NormalizeType(declared) == Ok(InferActualType(v))
  {
    var t, w := Parse(declared).value, NormalizeValue(v);
    ValidateIsConforms(declared, v);
    NormalizeIsParsePrint(declared);
    InferIsPrintedType(v);
    ParseIsDenotable(declared);
    TypeOfIsDenotable(w);
    hide Validate, InferActualType, Parse, Print, TypeOf, NormalizeValue, NormalizeType, Conforms, Denotable, Exact,
      Filled;
    if Conforms(t, w) {
      InferredIsTightest(t, w);
    }
    if Print(t) == Print(TypeOf(w)) {
      PrintIsInjective(t, TypeOf(w));
      ConformsToOwnType(w);
    }
  }

  /** What Any stands for: a class the contract does not know, and for a list that it is empty, that the types of its
      items differ, or that they are all Any. */
  lemma AnyIsInferredFor(v: Value)
    ensures var w := NormalizeValue(v);
      && (InferActualType(v) == "Any" <==> w.VOther?)
      && (InferActualType(v) == "Array<Any>" <==>
            w.VList? && (w.items != [] && InferActualType(w.items[0]) != "Any" ==>
                           exists x <- w.items :: InferActualType(x) != InferActualType(w.items[0])))
  {
    var w := NormalizeValue(v);
    NormalizedIsListed(v);
    InferUnfolds(v);
    hide InferActualType, NormalizeValue, Listed;
    if w.VList? && w.items != [] {
      OneName(w.items);
      WrappedAny(InferActualType(w.items[0]));
    } else {
      WrappedAny("Any");
    }
  }

  lemma WrappedAny(name: string)
    ensures Wrapped(name) == "Array<Any>" <==> name == "Any"
    ensures Wrapped(name) != "Any" && Wrapped(name)[0] == 'A' && |Wrapped(name)| >= 7
  {
    assert Wrapped(name)[6..|name| + 6] == name;
    assert Wrapped("Any") == "Array<Any>";
  }

  lemma OneName(items: seq<Value>)
    requires items != []
    ensures (set x | x in items :: InferActualType(x)) == {InferActualType(items[0])}
       <==> forall x <- items :: InferActualType(x) == InferActualType(items[0])
  {
    hide InferActualType;
    var names := set x | x in items :: InferActualType(x);
    assert items[0] in items && InferActualType(items[0]) in names;
    if names == {InferActualType(items[0])} {
      forall x <- items ensures InferActualType(x) == InferActualType(items[0]) {
        assert InferActualType(x) in names;
      }
    }
  }

  // ---------- The contract ----------

  /** A declared output: its name and its declared type, empty when there is none. */
  datatype Output = Output(name: string, declared: string)

  const SYSTEM_OUTPUTS := {"content", "actual_type", "_ERROR", "_ARTIFACTS", "_ATTACHMENT_CONTENT", "raw_result",
      "_created_time", "_elapsed_time"}

  predicate ValidName(name: string) {
    Strip(name) != [] && name !in SYSTEM_OUTPUTS && '.' !in name
  }

  function Business(outputs: seq<Output>): seq<Output> {
    if outputs == [] then []
    else (if outputs[0].name in SYSTEM_OUTPUTS then [] else [outputs[0]]) + Business(outputs[1..])
  }

  /** `select_business_output`. */
  function SelectBusinessOutput(outputs: seq<Output>): Result<Output> {
    if |outputs| == 1 then
      if ValidName(outputs[0].name) then Ok(outputs[0]) else Err(BadOutputs)
    else if |Business(outputs)| != 1 then Err(BadOutputs)
    else if ValidName(Business(outputs)[0].name) then Ok(Business(outputs)[0])
    else Err(BadOutputs)
  }

  datatype Contract = Contract(output: string, value: Value, actualType: string)

  /** `build_code_exec_contract`, without the rendered content. */
  function BuildContract(outputs: seq<Output>, raw: Value): Result<Contract> {
    match SelectBusinessOutput(outputs)
    case Err(x) => Err(x)
    case Ok(o) =>
      var w := NormalizeValue(raw);
      if w.VOther? then Err(BadValue)
      else
        match Validate(o.declared, w)
        case Err(x) => Err(x)
        case Ok(_) => Ok(Contract(o.name, w, InferActualType(w)))
  }

  /** A contract is built exactly when one output is not a system output and its name is usable, the value is
      of a known class, and the value has the declared type. */
  lemma ContractIsExact(outputs: seq<Output>, raw: Value)
    ensures BuildContract(outputs, raw).Ok? <==>
              && |Business(outputs)| == 1 && ValidName(Business(outputs)[0].name)
              && !NormalizeValue(raw).VOther?
              && Parse(Business(outputs)[0].declared).Ok?
              && Conforms(Parse(Business(outputs)[0].declared).value, NormalizeValue(raw))
  {
    if |outputs| == 1 {
      assert outputs[1..] == [];
    }
    NormalizedOnce(raw);
    if |Business(outputs)| == 1 {
      ValidateIsConforms(Business(outputs)[0].declared, NormalizeValue(raw));
    }
    hide Validate, Parse, Conforms, NormalizeValue, InferActualType;
  }

  /** A built contract can be declared with the type it reports: the same value is accepted again, unchanged. */
  lemma ContractAgain(outputs: seq<Output>, raw: Value)
    requires BuildContract(outputs, raw).Ok?
    ensures var c := BuildContract(outputs, raw).value;
      BuildContract([Output(c.output, c.actualType)], c.value) == Ok(c)
  {
    var w := NormalizeValue(raw);
    NormalizedOnce(raw);
    OwnTypeIsAccepted(w);
    hide Validate, Parse, Conforms, NormalizeValue, InferActualType;
  }

  /** Exactly one output is not a system output. */
  ghost predicate OnlyBusiness(outputs: seq<Output>, k: nat) {
    && k < |outputs| && outputs[k].name !in SYSTEM_OUTPUTS
    && forall j :: 0 <= j < |outputs| && j != k ==> outputs[j].name in SYSTEM_OUTPUTS
  }

  lemma {:induction false} NoBusiness(outputs: seq<Output>)
    ensures Business(outputs) == [] <==> forall j :: 0 <= j < |outputs| ==> outputs[j].name in SYSTEM_OUTPUTS
  {
    if outputs != [] {
      NoBusiness(outputs[1..]);
      assert forall j :: 1 <= j < |outputs| ==> outputs[j] == outputs[1..][j - 1];
    }
  }

  lemma {:induction false} OneBusiness(outputs: seq<Output>) returns (k: nat)
    requires |Business(outputs)| == 1
    ensures OnlyBusiness(outputs, k) && Business(outputs)[0] == outputs[k]
  {
    assert forall j :: 1 <= j < |outputs| ==> outputs[j] == outputs[1..][j - 1];
    if outputs[0].name in SYSTEM_OUTPUTS {
      k := OneBusiness(outputs[1..]);
      k := k + 1;
    } else {
      NoBusiness(outputs[1..]);
      k := 0;
    }
  }

  lemma {:induction false} OnlyBusinessIsIt(outputs: seq<Output>, k: nat)
    requires OnlyBusiness(outputs, k)
    ensures Business(outputs) == [outputs[k]]
  {
    if k > 0 {
      assert forall j :: 1 <= j < |outputs| ==> outputs[j] == outputs[1..][j - 1];
      OnlyBusinessIsIt(outputs[1..], k - 1);
    } else {
      NoBusiness(outputs[1..]);
    }
  }

  /** What a built contract says: it is named after the only output that is no system output, and its value is the raw
      result with lists for tuples, which is the raw result itself exactly if there is no tuple in it. */
  lemma ContractTellsTheResult(outputs: seq<Output>, raw: Value, k: nat)
    requires OnlyBusiness(outputs, k) && BuildContract(outputs, raw).Ok?
    ensures var c := BuildContract(outputs, raw).value;
      && c.output == outputs[k].name && ValidName(c.output)
      && Listed(raw, c.value) && TupleFree(c.value) && (TupleFree(raw) <==> c.value == raw)
      && Parse(c.actualType) == Ok(TypeOf(c.value))
  {
    OnlyBusinessIsIt(outputs, k);
    NormalizedIsListed(raw);
    ListedIsSame(raw, NormalizeValue(raw));
    NormalizedOnce(raw);
    OwnTypeIsAccepted(NormalizeValue(raw));
    hide Validate, InferActualType, Parse, TypeOf, NormalizeValue, Listed, TupleFree;
  }

  /** And there is such an output whenever a contract is built. */
  lemma ContractHasOneOutput(outputs: seq<Output>, raw: Value) returns (k: nat)
    requires BuildContract(outputs, raw).Ok?
    ensures OnlyBusiness(outputs, k)
  {
    ContractIsExact(outputs, raw);
    hide BuildContract;
    k := OneBusiness(outputs);
  }
}
