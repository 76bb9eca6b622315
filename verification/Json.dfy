/** JSON values as the key builder receives them, and the ordered documents it prints. */
module Json {
  import opened Resolver

  /**
   * The text of a number, in the parts of its RFC 8259 (section 6) rendering.
   * `display` is the plain decimal that `f64`'s `Display` prints for the same value.
   */
  datatype Number = Number(negative: bool, whole: string, fraction: string, exponent: Exponent, display: Decimal)
  datatype Exponent = NoExponent | Exponent(value: int)
  datatype Decimal = Decimal(negative: bool, whole: string, fraction: string)

  datatype Entry<T> = Entry(key: string, value: T)

  /** An object is a list of entries in whatever order the map iterates. */
  datatype Json =
    | Null
    | Bool(value: bool)
    | Num(number: Number)
    | Str(text: string)
    | Arr(items: seq<Json>)
    | Obj(entries: seq<Entry<Json>>)

  /** What a key text stands for: numbers are their YAML tokens, mappings are in key order. */
  datatype Node =
    | NullNode
    | BoolNode(value: bool)
    | NumberNode(token: string)
    | StringNode(text: string)
    | SequenceNode(items: seq<Node>)
    | MappingNode(entries: seq<Entry<Node>>)

  // ----- numbers -----

  predicate IsUnsignedInteger(s: string) {
    s != "" && AllDigits(s) && (s[0] == '0' ==> |s| == 1)
  }

  predicate ValidNumber(n: Number) {
    && IsUnsignedInteger(n.whole) && AllDigits(n.fraction)
    && IsUnsignedInteger(n.display.whole) && AllDigits(n.display.fraction)
    && (n.exponent.Exponent? ==> -0x8000_0000 <= n.exponent.value < 0x8000_0000)
  }

  function PointText(fraction: string): string {
    if fraction == "" then "" else "." + fraction
  }

  function MantissaText(negative: bool, whole: string, fraction: string): string {
    SignText(negative) + whole + PointText(fraction)
  }

  function DigitText(n: nat): (s: string)
    ensures s != "" && AllDigits(s)
  {
    if n < 10 then ["0123456789"[n]] else DigitText(n / 10) + ["0123456789"[n % 10]]
  }

  /** `{:02}` of a magnitude. */
  function TwoDigits(n: nat): (s: string)
    ensures s != "" && AllDigits(s)
  {
    if n < 10 then "0" + DigitText(n) else DigitText(n)
  }

  /** The digits after the point of a rendering that must have one. */
  function PointDigits(fraction: string): string {
    if fraction == "" then "0" else fraction
  }

  /** The YAML rendering of a number: exponents from 0 to 15 are spelt out, others get a point and a sign. */
  function FormatYamlNumber(n: Number): string {
    match n.exponent
    case NoExponent => MantissaText(n.negative, n.whole, n.fraction)
    case Exponent(e) =>
      if 0 <= e <= 15 then
        MantissaText(n.display.negative, n.display.whole, PointDigits(n.display.fraction))
      else
        MantissaText(n.negative, n.whole, PointDigits(n.fraction)) + ExponentText(e)
  }

  function ExponentText(e: int): string {
    "e" + (if e < 0 then "-" else "+") + TwoDigits(if e < 0 then -e else e)
  }

  /** No rendering of a number, rewritten exponents included, could be taken for a string. */
  lemma NumberResembles(n: Number)
    requires ValidNumber(n)
    ensures ResemblesImplicitScalar(FormatYamlNumber(n))
  {
    match n.exponent
    case NoExponent =>
      PlainDecimalResembles(n.negative, n.whole, n.fraction);
    case Exponent(e) =>
      if 0 <= e <= 15 {
        PlainDecimalResembles(n.display.negative, n.display.whole, PointDigits(n.display.fraction));
      } else {
        ScientificResembles(n.negative, n.whole, PointDigits(n.fraction), e);
      }
  }

  lemma ScientificResembles(negative: bool, whole: string, fraction: string, e: int)
    requires IsUnsignedInteger(whole) && AllDigits(fraction) && fraction != ""
    ensures ResemblesImplicitScalar(MantissaText(negative, whole, fraction) + ExponentText(e))
  {
    ExponentTextShape(e);
    FloatResembles(negative, whole, fraction, ExponentText(e));
    RegroupNumber(negative, whole, fraction, ExponentText(e));
  }

  lemma ExponentTextShape(e: int)
    ensures IsExponentText(ExponentText(e))
  {
    var digits := TwoDigits(if e < 0 then -e else e);
    assert ExponentText(e)[2..] == digits;
  }

  lemma RegroupNumber(negative: bool, whole: string, fraction: string, exponent: string)
    requires fraction != ""
    ensures MantissaText(negative, whole, fraction) + exponent
         == SignText(negative) + (whole + ("." + (fraction + exponent)))
  {
  }

  lemma RegroupDecimal(negative: bool, whole: string, fraction: string)
    ensures fraction == "" ==> MantissaText(negative, whole, fraction) == SignText(negative) + whole
    ensures fraction != "" ==>
      MantissaText(negative, whole, fraction) == SignText(negative) + (whole + ("." + (fraction + "")))
  {
  }

  lemma PlainDecimalResembles(negative: bool, whole: string, fraction: string)
    requires IsUnsignedInteger(whole) && AllDigits(fraction)
    ensures ResemblesImplicitScalar(MantissaText(negative, whole, fraction))
  {
    RegroupDecimal(negative, whole, fraction);
    if fraction == "" {
      IntegerResembles(negative, whole);
    } else {
      FloatResembles(negative, whole, fraction, "");
    }
  }

  // ----- key order -----

  /** `str`'s order: UTF-8 order, which is the lexicographic order of code points. */
  predicate KeyLess(left: string, right: string) {
    right != "" && (left == "" || left[0] < right[0] || (left[0] == right[0] && KeyLess(left[1..], right[1..])))
  }

  lemma {:induction false} KeyLessTrichotomy(left: string, right: string)
    ensures KeyLess(left, right) || KeyLess(right, left) || left == right
    ensures !(KeyLess(left, right) && KeyLess(right, left))
    ensures !KeyLess(left, left)
  {
    if left != "" {
      KeyLessTrichotomy(left[1..], left[1..]);
    }
    if left != "" && right != "" {
      KeyLessTrichotomy(left[1..], right[1..]);
      if left[0] == right[0] && left[1..] == right[1..] {
        assert left == [left[0]] + left[1..] == right;
      }
    }
  }

  lemma {:induction false} KeyLessTransitive(a: string, b: string, c: string)
    requires KeyLess(a, b) && KeyLess(b, c)
    ensures KeyLess(a, c)
  {
    if a != "" && a[0] == b[0] == c[0] {
      KeyLessTransitive(a[1..], b[1..], c[1..]);
    }
  }

  ghost predicate DistinctKeys<T>(entries: seq<Entry<T>>) {
    forall i, j :: 0 <= i < j < |entries| ==> entries[i].key != entries[j].key
  }

  ghost predicate Sorted<T>(entries: seq<Entry<T>>) {
    forall i, j :: 0 <= i < j < |entries| ==> KeyLess(entries[i].key, entries[j].key)
  }

  function Insert<T>(entry: Entry<T>, entries: seq<Entry<T>>): (r: seq<Entry<T>>)
    ensures |r| == |entries| + 1
  {
    if entries == [] then [entry]
    else if KeyLess(entry.key, entries[0].key) then [entry] + entries
    else [entries[0]] + Insert(entry, entries[1..])
  }

  /** The iteration order of the `BTreeMap` that the entries are collected into. */
  function SortByKey<T>(entries: seq<Entry<T>>): (r: seq<Entry<T>>)
    ensures |r| == |entries|
  {
    if entries == [] then [] else Insert(entries[0], SortByKey(entries[1..]))
  }

  // ----- from values to documents -----

  function ToNode(v: Json): Node
    decreases v, 0
  {
    match v
    case Null => NullNode
    case Bool(b) => BoolNode(b)
    case Num(n) => NumberNode(FormatYamlNumber(n))
    case Str(s) => StringNode(s)
    case Arr(items) => SequenceNode(ToNodes(items))
    case Obj(entries) => MappingNode(SortByKey(ToNodeEntries(entries)))
  }

  function ToNodes(items: seq<Json>): (nodes: seq<Node>)
    ensures |nodes| == |items|
    ensures forall k :: 0 <= k < |items| ==> nodes[k] == ToNode(items[k])
    decreases items, 0
  {
    if items == [] then [] else [ToNode(items[0])] + ToNodes(items[1..])
  }

  function ToNodeEntries(entries: seq<Entry<Json>>): (nodes: seq<Entry<Node>>)
    ensures |nodes| == |entries|
    ensures forall k :: 0 <= k < |entries| ==> nodes[k] == Entry(entries[k].key, ToNode(entries[k].value))
    decreases entries, 0
  {
    if entries == [] then [] else
    var entry := entries[0];
    [Entry(entry.key, ToNode(entry.value))] + ToNodeEntries(entries[1..])
  }

  /** Map keys are unique and numbers are rendered by the JSON grammar. */
  ghost predicate Valid(v: Json)
    decreases v
  {
    match v
    case Num(n) => ValidNumber(n)
    case Arr(items) => forall k :: 0 <= k < |items| ==> Valid(items[k])
    case Obj(entries) => DistinctKeys(entries) && forall k :: 0 <= k < |entries| ==> Valid(entries[k].value)
    case _ => true
  }

  /** Documents whose number tokens are not strings. Key order plays no part in reading one back. */
  ghost predicate Printable(node: Node)
    decreases node
  {
    match node
    case NumberNode(token) => IsNumberToken(token)
    case SequenceNode(items) => forall k :: 0 <= k < |items| ==> Printable(items[k])
    case MappingNode(entries) => forall k :: 0 <= k < |entries| ==> Printable(entries[k].value)
    case _ => true
  }

  predicate IsNumberToken(token: string) {
    && ResemblesImplicitScalar(token)
    && token != "" && (token[0] == '-' || '0' <= token[0] <= '9')
    && (token[0] == '-' ==> |token| > 1 && token[1] != ' ')
    && forall k :: 0 <= k < |token| ==> token[k] in "0123456789-+.e"
  }
}
