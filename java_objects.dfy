/**
 * The slice of the Java runtime that the property engine depends on: values,
 * a heap of objects, exceptions, a table describing classes (what reflection
 * would find) and the few java.lang string and integer functions it calls.
 */
module JavaObjects {

  datatype Option<T> = None | Some(value: T)

  /** The exceptions the modelled code raises or lets propagate. */
  datatype Error =
    | NullPointer             // NullPointerException
    | ClassCast               // ClassCastException
    | IndexOutOfBounds        // (Array)IndexOutOfBoundsException
    | StringIndexOutOfBounds  // StringIndexOutOfBoundsException from substring/charAt
    | NumberFormat            // NumberFormatException from Integer.parseInt
    | IllegalArgument         // IllegalArgumentException
    | Unsupported             // UnsupportedOperationException
    | Instantiation           // Class.newInstance failed
    | Invocation              // RuntimeException wrapping a failed reflective call
    | NoAccessor              // RuntimeException: no accessor for a segment
    | NoSetter                // RuntimeException: no set method defined
    | ReadOnlyLength          // RuntimeException from the array length accessor
    | Resolution              // RuntimeException: "Null object returned for expression"
    | EmptyExpression         // RuntimeException: "Empty expression setting value"
    | NullTarget              // RuntimeException: set on a null object
    | HookFailed              // an exception thrown by an overridable hook
    | Dangling                // a reference outside the heap (cannot arise in Java)
    | OutOfFuel               // a loop of the source that has not ended within the given bound

  datatype Result<T> = Ok(value: T) | Err(error: Error) {
    predicate IsFailure() { Err? }
    function PropagateFailure<U>(): Result<U> requires Err? { Err(error) }
    function Extract(): T requires Ok? { value }
  }

  /** A statement that either completes or throws. */
  datatype Outcome = Done | Fails(error: Error)

  type ClassName = string

  const INT_CLASS: ClassName := "int"
  const INTEGER_CLASS: ClassName := "java.lang.Integer"
  const STRING_CLASS: ClassName := "java.lang.String"
  const BOOLEAN_CLASS: ClassName := "java.lang.Boolean"

  /** A Java value: null, a reference into the heap, or a boxed primitive / string. */
  datatype Value = Null | Ref(addr: nat) | IntVal(i: int) | StrVal(s: string) | BoolVal(b: bool)

  /** The objects the engine knows how to navigate. */
  datatype Obj =
    | Bean(cls: ClassName, fields: map<string, Value>)
    | ListObj(cls: ClassName, elems: seq<Value>)
    | MapObj(cls: ClassName, entries: map<string, Value>)
    | ArrayObj(cls: ClassName, elems: seq<Value>)

  /** The object graph: address i holds heap[i]; allocation appends. */
  type Heap = seq<Obj>

  /** How a class is treated by the resolver: List, Map, array or anything else. */
  datatype Kind = PlainKind | ListKind | MapKind | ArrayKind(component: ClassName)

  /** What invoking a method does: the behaviour of the user's bean methods. */
  datatype Body =
    | ReadField(field: string)      // returns this.field
    | WriteField(field: string)     // this.field = arg0
    | ReadElement(field: string)    // returns this.field.get(arg0)
    | WriteElement(field: string)   // this.field.set(arg0, arg1)
    | Fail                          // throws

  datatype Method = Method(name: string, params: seq<ClassName>, ret: ClassName, body: Body)

  datatype FieldDecl = FieldDecl(name: string, fieldType: ClassName)

  /**
   * What reflection reports about a class: its kind, its public methods (in
   * getMethods() order, inherited ones included), its fields (in the order
   * findField visits them: public fields, then declared fields up the
   * superclass chain), its supertypes, and whether newInstance succeeds.
   */
  datatype ClassShape = ClassShape(
    kind: Kind,
    methods: seq<Method>,
    fields: seq<FieldDecl>,
    supers: set<ClassName>,
    constructible: bool)

  type ClassTable = map<ClassName, ClassShape>

  /** A class the table does not describe has no members and cannot be constructed. */
  function ShapeOf(table: ClassTable, c: ClassName): (r: ClassShape)
    ensures c !in table ==> r.methods == [] && r.fields == [] && !r.constructible
  {
    if c in table then table[c] else ClassShape(PlainKind, [], [], {}, false)
  }

  /** Class.isAssignableFrom: `p` is `r` or one of its supertypes. */
  predicate IsAssignableFrom(table: ClassTable, p: ClassName, r: ClassName)
  {
    p == r || p in ShapeOf(table, r).supers
  }

  /** Object.getClass(); null has no class. */
  function ClassOf(h: Heap, v: Value): (r: Result<ClassName>)
    ensures v.Null? ==> r == Err(NullPointer)
    ensures r.Ok? && v.Ref? ==> v.addr < |h| && r.value == h[v.addr].cls
  {
    match v
    case Null => Err(NullPointer)
    case IntVal(_) => Ok(INTEGER_CLASS)
    case StrVal(_) => Ok(STRING_CLASS)
    case BoolVal(_) => Ok(BOOLEAN_CLASS)
    case Ref(a) => if a < |h| then Ok(h[a].cls) else Err(Dangling)
  }

  /** `v instanceof iface`. */
  predicate InstanceOf(table: ClassTable, h: Heap, v: Value, iface: ClassName)
  {
    var c := ClassOf(h, v);
    c.Ok? && IsAssignableFrom(table, iface, c.value)
  }

  /** The object a reference points to. */
  function Deref(h: Heap, v: Value): (r: Result<Obj>)
    ensures r.Ok? <==> v.Ref? && v.addr < |h|
    ensures r.Ok? ==> r.value == h[v.addr]
  {
    match v
    case Null => Err(NullPointer)
    case Ref(a) => if a < |h| then Ok(h[a]) else Err(Dangling)
    case _ => Err(ClassCast)
  }

  /** Class.getMethod(name, params): the first public method with that exact signature. */
  function GetMethod(methods: seq<Method>, name: string, params: seq<ClassName>): (r: Option<Method>)
    ensures r.Some? ==> r.value in methods && r.value.name == name && r.value.params == params
    ensures r.None? ==> forall m :: m in methods ==> !(m.name == name && m.params == params)
  {
    if methods == [] then None
    else if methods[0].name == name && methods[0].params == params then Some(methods[0])
    else GetMethod(methods[1..], name, params)
  }

  /** The field findField returns: the first one with that name in search order. */
  function FindField(fields: seq<FieldDecl>, name: string): (r: Option<FieldDecl>)
    ensures r.Some? ==> r.value in fields && r.value.name == name
    ensures r.None? ==> forall f :: f in fields ==> f.name != name
  {
    if fields == [] then None
    else if fields[0].name == name then Some(fields[0])
    else FindField(fields[1..], name)
  }

  /** Field.get: a bean reads its field; a field never assigned holds null. */
  function FieldGet(h: Heap, f: FieldDecl, target: Value): (r: Result<Value>)
    ensures target.Null? ==> r == Err(NullPointer)
  {
    if target.Null? then Err(NullPointer)
    else
      match Deref(h, target)
      case Ok(Bean(_, fs)) => Ok(if f.name in fs then fs[f.name] else Null)
      case _ => Err(IllegalArgument)
  }

  /** Field.set: a bean's field is replaced; nothing else in the heap changes. */
  function FieldSet(h: Heap, f: FieldDecl, target: Value, v: Value): (r: Result<Heap>)
    ensures target.Null? ==> r == Err(NullPointer)
    ensures r.Ok? ==> |r.value| == |h| && target.Ref? && target.addr < |h|
    ensures r.Ok? ==> forall a :: 0 <= a < |h| && a != target.addr ==> r.value[a] == h[a]
    ensures r.Ok? ==> FieldGet(r.value, f, target) == Ok(v)
  {
    if target.Null? then Err(NullPointer)
    else
      match Deref(h, target)
      case Ok(Bean(c, fs)) => Ok(h[target.addr := Bean(c, fs[f.name := v])])
      case _ => Err(IllegalArgument)
  }

  /**
   * Method.invoke where the result is used (a getter): only reading bodies run;
   * every failure surfaces as one wrapped RuntimeException.
   */
  function Call(h: Heap, m: Method, target: Value, args: seq<Value>): (r: Result<Value>)
    ensures target.Null? ==> r.Err?
    ensures |args| != |m.params| ==> r.Err?
  {
    if target.Null? || |args| != |m.params| then Err(Invocation)
    else
      match (m.body, Deref(h, target))
      case (ReadField(f), Ok(Bean(_, fs))) => Ok(if f in fs then fs[f] else Null)
      case (ReadElement(f), Ok(Bean(_, fs))) =>
        if f in fs && |args| == 1 && args[0].IntVal? then
          match Deref(h, fs[f])
          case Ok(ListObj(_, es)) =>
            if 0 <= args[0].i < |es| then Ok(es[args[0].i]) else Err(Invocation)
          case _ => Err(Invocation)
        else Err(Invocation)
      case _ => Err(Invocation)
  }

  /**
   * Method.invoke where only the effect matters (a setter): writing bodies
   * update the heap, a reading body has no effect.
   */
  function CallMutator(h: Heap, m: Method, target: Value, args: seq<Value>): (r: Result<Heap>)
    ensures target.Null? ==> r.Err?
    ensures |args| != |m.params| ==> r.Err?
    ensures r.Ok? ==> |r.value| == |h|
  {
    if target.Null? || |args| != |m.params| then Err(Invocation)
    else
      match (m.body, Deref(h, target))
      case (WriteField(f), Ok(Bean(c, fs))) =>
        if |args| == 1 then Ok(h[target.addr := Bean(c, fs[f := args[0]])]) else Err(Invocation)
      case (WriteElement(f), Ok(Bean(_, fs))) =>
        if f in fs && |args| == 2 && args[0].IntVal? then
          match Deref(h, fs[f])
          case Ok(ListObj(lc, es)) =>
            if 0 <= args[0].i < |es| then Ok(h[fs[f].addr := ListObj(lc, es[args[0].i := args[1]])])
            else Err(Invocation)
          case _ => Err(Invocation)
        else Err(Invocation)
      case (ReadField(_), Ok(_)) => Ok(h)
      case (ReadElement(_), Ok(_)) => Ok(h)
      case _ => Err(Invocation)
  }

  /** Class.newInstance: allocates an empty bean, list or map when the class allows it. */
  function NewInstance(h: Heap, table: ClassTable, c: ClassName): (r: Result<(Heap, Value)>)
    ensures r.Ok? <==> ShapeOf(table, c).constructible && !ShapeOf(table, c).kind.ArrayKind?
    ensures r.Ok? ==> |r.value.0| == |h| + 1 && r.value.0[..|h|] == h
    ensures r.Ok? ==> r.value.1 == Ref(|h|) && r.value.0[|h|].cls == c
  {
    var shape := ShapeOf(table, c);
    if !shape.constructible then Err(Instantiation)
    else
      match shape.kind
      case PlainKind => Ok((h + [Bean(c, map[])], Ref(|h|)))
      case ListKind => Ok((h + [ListObj(c, [])], Ref(|h|)))
      case MapKind => Ok((h + [MapObj(c, map[])], Ref(|h|)))
      case ArrayKind(_) => Err(Instantiation)
  }

  /**
   * A key of a per-application scope map: the Class object of the class that
   * owns the map (the key every lookup uses) or some other application object.
   */
  datatype ScopeKey = OwnClass | Application(name: string)

  // ---- java.lang.String ----

  predicate StartsWith(s: string, p: string) { |p| <= |s| && s[..|p|] == p }

  predicate EndsWith(s: string, p: string) { |p| <= |s| && s[|s| - |p|..] == p }

  /** A lower-case letter of Latin-1 whose upper case is also in Latin-1: a-z and U+00E0..U+00FE except U+00F7. */
  predicate LatinLower(c: char)
  {
    'a' <= c <= 'z' || ('\U{E0}' <= c <= '\U{FE}' && c != '\U{F7}')
  }

  /**
   * Character.toUpperCase on Latin-1: each lower-case letter moves down by
   * 0x20, y-diaeresis and the micro sign map outside Latin-1, and every other
   * character (sharp s included) stays.
   */
  function ToUpper(c: char): (r: char)
    ensures LatinLower(c) ==> r as int == c as int - 0x20 && !LatinLower(r)
    ensures 'a' <= c <= 'z' ==> 'A' <= r <= 'Z'
    ensures c == '\U{FF}' ==> r == '\U{178}'
    ensures c == '\U{B5}' ==> r == '\U{39C}'
    ensures !LatinLower(c) && c != '\U{FF}' && c != '\U{B5}' ==> r == c
  {
    if LatinLower(c) then (c as int - 0x20) as char
    else if c == '\U{FF}' then '\U{178}'
    else if c == '\U{B5}' then '\U{39C}'
    else c
  }

  /** toUpperCase(s.charAt(0)) + s.substring(1); charAt(0) of "" throws. */
  function Capitalize(s: string): (r: Result<string>)
    ensures r.Ok? <==> |s| > 0
    ensures r.Ok? ==> |r.value| == |s| && r.value[0] == ToUpper(s[0]) && r.value[1..] == s[1..]
  {
    if |s| == 0 then Err(StringIndexOutOfBounds) else Ok([ToUpper(s[0])] + s[1..])
  }

  // ---- Integer.parseInt ----

  const INT_MIN: int := -0x8000_0000
  const INT_MAX: int := 0x7fff_ffff

  /**
   * The first code points of the blocks of ten decimal digits (category Nd)
   * in the Basic Multilingual Plane, in ascending order. Character.digit(c, 10)
   * accepts the decimal digits of every script, and parseInt reads UTF-16 chars
   * one at a time, so a digit outside that plane arrives as two surrogates,
   * neither of which is a digit.
   */
  const DIGIT_ZEROS: seq<int> := [
    0x30, 0x660, 0x6F0, 0x7C0, 0x966, 0x9E6, 0xA66, 0xAE6,
    0xB66, 0xBE6, 0xC66, 0xCE6, 0xD66, 0xDE6, 0xE50, 0xED0,
    0xF20, 0x1040, 0x1090, 0x17E0, 0x1810, 0x1946, 0x19D0, 0x1A80,
    0x1A90, 0x1B50, 0x1BB0, 0x1C40, 0x1C50, 0xA620, 0xA8D0, 0xA900,
    0xA9D0, 0xA9F0, 0xAA50, 0xABF0, 0xFF10
  ]

  /** The block among DIGIT_ZEROS[i..] that holds code point n, or -1. */
  function ZeroFrom(n: int, i: nat): (z: int)
    requires i <= |DIGIT_ZEROS|
    ensures z == -1 || (z <= n < z + 10)
    decreases |DIGIT_ZEROS| - i
  {
    if i == |DIGIT_ZEROS| then -1
    else if DIGIT_ZEROS[i] <= n < DIGIT_ZEROS[i] + 10 then DIGIT_ZEROS[i]
    else ZeroFrom(n, i + 1)
  }

  /** The blocks are listed in ascending order, ten code points apart at least, starting with ASCII. */
  predicate Spaced()
  {
    forall j :: 0 <= j < |DIGIT_ZEROS| - 1 ==> DIGIT_ZEROS[j] + 10 <= DIGIT_ZEROS[j + 1]
  }

  lemma TableSpaced()
    ensures Spaced() && |DIGIT_ZEROS| == 37 && DIGIT_ZEROS[0] == '0' as int
  {
  }

  lemma {:induction false} SpacedBelow(i: nat, k: nat)
    requires Spaced() && i < k < |DIGIT_ZEROS|
    ensures DIGIT_ZEROS[i] + 10 <= DIGIT_ZEROS[k]
    decreases k - i
  {
    if i + 1 < k {
      SpacedBelow(i + 1, k);
    }
  }

  /** A code point in block k is found there by the scan from any earlier block. */
  lemma {:induction false} ZeroFromFinds(n: int, i: nat, k: nat)
    requires i <= k < |DIGIT_ZEROS| && DIGIT_ZEROS[k] <= n < DIGIT_ZEROS[k] + 10
    ensures ZeroFrom(n, i) == DIGIT_ZEROS[k]
    decreases k - i
  {
    TableSpaced();
    if i < k {
      SpacedBelow(i, k);
      ZeroFromFinds(n, i + 1, k);
    }
  }

  /** No block lies below the ASCII digits. */
  lemma {:induction false} ZeroFromAtLeastAscii(n: int, i: nat)
    requires i <= |DIGIT_ZEROS|
    ensures ZeroFrom(n, i) == -1 || ZeroFrom(n, i) >= '0' as int
    decreases |DIGIT_ZEROS| - i
  {
    TableSpaced();
    if i < |DIGIT_ZEROS| {
      if i > 0 {
        SpacedBelow(0, i);
      }
      ZeroFromAtLeastAscii(n, i + 1);
    }
  }

  /** A code point below a block is in none of the blocks from there on. */
  lemma {:induction false} ZeroFromBelow(n: int, i: nat)
    requires i < |DIGIT_ZEROS| && n < DIGIT_ZEROS[i]
    ensures ZeroFrom(n, i) == -1
    decreases |DIGIT_ZEROS| - i
  {
    TableSpaced();
    if i + 1 < |DIGIT_ZEROS| {
      SpacedBelow(i, i + 1);
      ZeroFromBelow(n, i + 1);
    }
  }

  /** The first code point of the digit block holding `c`, or -1. */
  function DecimalZero(c: char): (z: int)
    ensures z == -1 || (z <= c as int < z + 10)
    ensures z == -1 || z >= '0' as int
    ensures '0' <= c <= '9' ==> z == '0' as int
  {
    ZeroFromAtLeastAscii(c as int, 0);
    ZeroFrom(c as int, 0)
  }

  /** Character.isDigit for the decimal digits parseInt accepts. */
  predicate IsDigit(c: char) { DecimalZero(c) != -1 }

  /** Latin letters are not decimal digits. */
  lemma LatinLetterIsNotDigit(c: char)
    requires 'a' <= c <= 'z' || 'A' <= c <= 'Z'
    ensures !IsDigit(c)
  {
    TableSpaced();
    ZeroFromBelow(c as int, 1);
  }

  /** Character.digit(c, 10): the digit's value within its block. */
  function DigitValue(c: char): (d: int)
    requires IsDigit(c)
    ensures 0 <= d <= 9
    ensures '0' <= c <= '9' ==> d == c as int - '0' as int
  {
    c as int - DecimalZero(c)
  }

  predicate AllDigits(s: string) { forall i :: 0 <= i < |s| ==> IsDigit(s[i]) }

  function DigitsValue(s: string): (r: nat)
    requires AllDigits(s)
  {
    if s == [] then 0 else DigitsValue(s[..|s| - 1]) * 10 + DigitValue(s[|s| - 1])
  }

  /** Integer.parseInt(s, 10): optional sign, at least one digit, within the 32-bit range. */
  function ParseInt(s: string): (r: Result<int>)
    ensures r.Ok? ==> INT_MIN <= r.value <= INT_MAX
    ensures r.Err? ==> r.error == NumberFormat
    ensures s == [] ==> r.Err?
    ensures r.Ok? ==> s[0] == '-' || s[0] == '+' || IsDigit(s[0])
  {
    if s == [] then Err(NumberFormat)
    else
      var negative := s[0] == '-';
      var digits := if s[0] == '-' || s[0] == '+' then s[1..] else s;
      if digits == [] || !AllDigits(digits) then Err(NumberFormat)
      else
        var v: int := if negative then -(DigitsValue(digits) as int) else DigitsValue(digits);
        if INT_MIN <= v <= INT_MAX then Ok(v) else Err(NumberFormat)
  }

  /** A string that starts with neither a sign nor a decimal digit of any script is never an index. */
  lemma ParseIntRejectsLetters(s: string)
    requires s != [] && !IsDigit(s[0]) && s[0] != '-' && s[0] != '+'
    ensures ParseInt(s) == Err(NumberFormat)
  {
  }

  /** Digits of other scripts are read like ASCII ones: Arabic-Indic one, fullwidth seven, and a mix. */
  lemma ParseIntReadsOtherScripts()
    ensures ParseInt("\U{661}") == Ok(1)
    ensures ParseInt("\U{FF17}") == Ok(7)
    ensures ParseInt("-\U{967}2") == Ok(-12)
  {
    DigitBlocks();
    ParseIntOneDigit('\U{661}');
    ParseIntOneDigit('\U{FF17}');
    var d := "\U{967}2";
    assert d[..1] == "\U{967}" && d[..1][..0] == [];
    assert DigitsValue(d) == 12;
    assert "-\U{967}2"[1..] == d;
  }

  /** Arabic-Indic one, fullwidth seven and Devanagari one are digits with those values. */
  lemma DigitBlocks()
    ensures IsDigit('\U{661}') && DigitValue('\U{661}') == 1
    ensures IsDigit('\U{FF17}') && DigitValue('\U{FF17}') == 7
    ensures IsDigit('\U{967}') && DigitValue('\U{967}') == 1
  {
    TableSpaced();
    DigitInBlock(0x661, 1, 0x660);
    DigitInBlock(0xFF17, 36, 0xFF10);
    DigitInBlock(0x967, 4, 0x966);
  }

  /** A code point in the block that starts at table entry k takes that block's zero. */
  lemma DigitInBlock(n: int, k: nat, zero: int)
    requires Spaced() && k < |DIGIT_ZEROS| && DIGIT_ZEROS[k] == zero && zero <= n < zero + 10
    ensures ZeroFrom(n, 0) == zero
  {
    ZeroFromFinds(n, 0, k);
  }

  /** A lone digit parses to its value. */
  lemma ParseIntOneDigit(c: char)
    requires IsDigit(c)
    ensures ParseInt([c]) == Ok(DigitValue(c))
  {
    var s := [c];
    assert s[0] != '-' && s[0] != '+' && AllDigits(s);
    assert s[..0] == [];
    assert DigitsValue(s) == DigitValue(c);
  }

  // ---- String.valueOf for the toString methods ----

  function NatText(n: nat): (r: string)
    ensures |r| > 0 && AllDigits(r)
  {
    if n < 10 then [('0' as int + n) as char] else NatText(n / 10) + [('0' as int + n % 10) as char]
  }

  /** The text String.valueOf prints; a reference prints the text its own toString gives. */
  function Render(v: Value, refText: string): string
  {
    match v
    case Null => "null"
    case StrVal(s) => s
    case IntVal(i) => if i < 0 then "-" + NatText(-i) else NatText(i)
    case BoolVal(b) => if b then "true" else "false"
    case Ref(_) => refText
  }

  /** Integer.parseInt inverts the decimal text of an in-range number. */
  lemma {:induction false} DigitsValueOfNatText(n: nat)
    ensures DigitsValue(NatText(n)) == n
  {
    if n >= 10 {
      var t := NatText(n);
      assert t[..|t| - 1] == NatText(n / 10);
      DigitsValueOfNatText(n / 10);
    }
  }

  lemma ParseIntOfNatText(n: nat)
    requires n <= INT_MAX
    ensures ParseInt(NatText(n)) == Ok(n)
  {
    DigitsValueOfNatText(n);
  }
}
