/** Cache keys: request kwargs, the kwargs that count, and when two requests share a key text. */
module CacheKey {
  import opened Text
  import opened Resolver
  import opened Scalars
  import opened DoubleQuoted
  import opened Json
  import opened Emitter
  import opened Writers
  import opened Parser
  import opened Documents

  const EXCLUDED_KEYS := [
    "metrics", "stream", "stream_options", "mock_response", "timeout", "base_url", "api_base",
    "api_version", "api_key", "azure_ad_token_provider", "drop_params"
  ]

  function DropKeys(entries: seq<Entry<Json>>, excluded: seq<string>): seq<Entry<Json>> {
    if entries == [] then []
    else (if entries[0].key in excluded then [] else [entries[0]]) + DropKeys(entries[1..], excluded)
  }

  /** `filter_cache_parameters`: drops the excluded keys of the outermost object only. */
  function FilterCacheParameters(args: Json): Json {
    match args
    case Obj(entries) => Obj(DropKeys(entries, EXCLUDED_KEYS))
    case _ => args
  }

  function KeyText(args: Json): string {
    DumpText(ToNode(FilterCacheParameters(args)))
  }

  /** `graphrag_cache_yaml`. */
  method GraphragCacheYaml(args: Json) returns (r: Result<string>)
    ensures r == Ok(KeyText(args))
  {
    r := PyYamlDump(FilterCacheParameters(args));
  }

  // ----- equality of kwargs -----

  predicate HasKey<T>(entries: seq<Entry<T>>, key: string) {
    exists k :: 0 <= k < |entries| && entries[k].key == key
  }

  /** Equality of JSON values: objects are equal as maps, numbers when their YAML renderings are. */
  ghost predicate Same(a: Json, b: Json)
    decreases a
  {
    match (a, b)
    case (Null, Null) => true
    case (Bool(x), Bool(y)) => x == y
    case (Num(x), Num(y)) => FormatYamlNumber(x) == FormatYamlNumber(y)
    case (Str(x), Str(y)) => x == y
    case (Arr(x), Arr(y)) => |x| == |y| && forall k :: 0 <= k < |x| ==> Same(x[k], y[k])
    case (Obj(x), Obj(y)) =>
      && (forall key: string :: HasKey(x, key) <==> HasKey(y, key))
      && (forall i, j :: 0 <= i < |x| && 0 <= j < |y| && x[i].key == y[j].key ==> Same(x[i].value, y[j].value))
    case _ => false
  }

  // ----- sorting -----

  lemma {:induction false} InsertSorts<T(!new)>(entry: Entry<T>, entries: seq<Entry<T>>)
    requires Sorted(entries) && !HasKey(entries, entry.key)
    ensures Sorted(Insert(entry, entries))
    ensures forall e :: e in Insert(entry, entries) <==> e == entry || e in entries
  {
    if entries != [] {
      assert entries == [entries[0]] + entries[1..];
      assert HasKey(entries, entries[0].key);
      assert entry.key != entries[0].key;
      KeyLessTrichotomy(entry.key, entries[0].key);
      if KeyLess(entry.key, entries[0].key) {
        forall k | 0 <= k < |entries| ensures KeyLess(entry.key, entries[k].key) {
          if k > 0 { KeyLessTransitive(entry.key, entries[0].key, entries[k].key); }
        }
      } else {
        forall key | HasKey(entries[1..], key) ensures HasKey(entries, key) {
          var k :| 0 <= k < |entries[1..]| && entries[1..][k].key == key;
          assert entries[k + 1].key == key;
        }
        InsertSorts(entry, entries[1..]);
        var more := Insert(entry, entries[1..]);
        forall k | 0 <= k < |more| ensures KeyLess(entries[0].key, more[k].key) {
          var e := more[k];
          assert e in more;
          if e != entry {
            var j :| 0 <= j < |entries[1..]| && entries[1..][j] == e;
            assert KeyLess(entries[0].key, entries[j + 1].key);
          }
        }
      }
    }
  }

  /** Sorting the entries of a map keeps exactly them, in strictly increasing key order. */
  lemma {:induction false} SortSorts<T(!new)>(entries: seq<Entry<T>>)
    requires DistinctKeys(entries)
    ensures Sorted(SortByKey(entries))
    ensures forall e :: e in SortByKey(entries) <==> e in entries
  {
    if entries != [] {
      SortSorts(entries[1..]);
      var sorted := SortByKey(entries[1..]);
      forall k | 0 <= k < |sorted| ensures sorted[k].key != entries[0].key {
        var e := sorted[k];
        assert e in sorted;
        var j :| 0 <= j < |entries[1..]| && entries[1..][j] == e;
        assert entries[j + 1].key == e.key;
      }
      InsertSorts(entries[0], sorted);
      assert entries == [entries[0]] + entries[1..];
    }
  }

  /** A strictly sorted list is determined by its elements. */
  lemma {:induction false} SortedUnique<T(!new)>(s: seq<Entry<T>>, t: seq<Entry<T>>)
    requires Sorted(s) && Sorted(t) && forall e :: e in s <==> e in t
    ensures s == t
  {
    assert s != [] ==> s[0] in s;
    assert t != [] ==> t[0] in t;
    if s != [] && t != [] {
      FirstIsLeast(s, t);
      FirstIsLeast(t, s);
      KeyLessTrichotomy(s[0].key, t[0].key);
      assert s[0] == t[0] by {
        assert s[0] in t;
        var k :| 0 <= k < |t| && t[k] == s[0];
        if k > 0 { assert KeyLess(t[0].key, t[k].key); }
      }
      TailElements(s);
      TailElements(t);
      SortedUnique(s[1..], t[1..]);
      assert s == [s[0]] + s[1..] && t == [t[0]] + t[1..];
    }
  }

  lemma FirstIsLeast<T(!new)>(s: seq<Entry<T>>, t: seq<Entry<T>>)
    requires s != [] && t != [] && Sorted(t) && s[0] in t
    ensures !KeyLess(s[0].key, t[0].key)
  {
    var k :| 0 <= k < |t| && t[k] == s[0];
    KeyLessTrichotomy(t[0].key, t[k].key);
    KeyLessTrichotomy(t[0].key, t[0].key);
  }

  lemma TailElements<T(!new)>(s: seq<Entry<T>>)
    requires s != [] && Sorted(s)
    ensures forall e :: e in s[1..] <==> e in s && e != s[0]
  {
    KeyLessTrichotomy(s[0].key, s[0].key);
    assert s == [s[0]] + s[1..];
    assert forall k :: 1 <= k < |s| ==> KeyLess(s[0].key, s[k].key);
    assert forall e :: e in s[1..] ==> exists k :: 1 <= k < |s| && s[k] == e;
  }

  // ----- documents and values -----

  /** The document of an object holds the document of each entry. */
  lemma DocumentHolds(entries: seq<Entry<Json>>, i: nat)
    requires DistinctKeys(entries) && i < |entries|
    ensures Entry(entries[i].key, ToNode(entries[i].value)) in ToNode(Obj(entries)).entries
    ensures Sorted(ToNode(Obj(entries)).entries)
  {
    var nodes := ToNodeEntries(entries);
    SortSorts(nodes);
    assert nodes[i] in nodes;
  }

  /** Each entry of the document of an object comes from one of its entries. */
  lemma DocumentFrom(entries: seq<Entry<Json>>, e: Entry<Node>) returns (i: nat)
    requires DistinctKeys(entries) && e in ToNode(Obj(entries)).entries
    ensures i < |entries| && e == Entry(entries[i].key, ToNode(entries[i].value))
  {
    var nodes := ToNodeEntries(entries);
    SortSorts(nodes);
    i :| 0 <= i < |nodes| && nodes[i] == e;
  }

  lemma {:induction false} SameObjects(x: seq<Entry<Json>>, y: seq<Entry<Json>>)
    requires Valid(Obj(x)) && Valid(Obj(y)) && Same(Obj(x), Obj(y))
    ensures ToNode(Obj(x)) == ToNode(Obj(y))
    decreases Obj(x), 0
  {
    var s, t := ToNode(Obj(x)).entries, ToNode(Obj(y)).entries;
    forall e | e in s ensures e in t {
      var i := DocumentFrom(x, e);
      assert HasKey(x, x[i].key);
      var j :| 0 <= j < |y| && y[j].key == x[i].key;
      var xi := x[i];
      assert Same(xi.value, y[j].value);
      SameValues(xi.value, y[j].value);
      DocumentHolds(y, j);
    }
    forall e | e in t ensures e in s {
      var j := DocumentFrom(y, e);
      assert HasKey(y, y[j].key);
      var i :| 0 <= i < |x| && x[i].key == y[j].key;
      var xi := x[i];
      assert Same(xi.value, y[j].value);
      SameValues(xi.value, y[j].value);
      DocumentHolds(x, i);
    }
    SortSorts(ToNodeEntries(x));
    SortSorts(ToNodeEntries(y));
    SortedUnique(s, t);
  }

  lemma {:induction false} DifferentObjects(x: seq<Entry<Json>>, y: seq<Entry<Json>>)
    requires Valid(Obj(x)) && Valid(Obj(y)) && ToNode(Obj(x)) == ToNode(Obj(y))
    ensures Same(Obj(x), Obj(y))
    decreases Obj(x), 0
  {
    forall key: string
      ensures HasKey(x, key) <==> HasKey(y, key)
    {
      if HasKey(x, key) {
        var i :| 0 <= i < |x| && x[i].key == key;
        DocumentHolds(x, i);
        var j := DocumentFrom(y, Entry(x[i].key, ToNode(x[i].value)));
      }
      if HasKey(y, key) {
        var j :| 0 <= j < |y| && y[j].key == key;
        DocumentHolds(y, j);
        var i := DocumentFrom(x, Entry(y[j].key, ToNode(y[j].value)));
      }
    }
    forall i, j | 0 <= i < |x| && 0 <= j < |y| && x[i].key == y[j].key
      ensures Same(x[i].value, y[j].value)
    {
      DocumentHolds(x, i);
      var k := DocumentFrom(y, Entry(x[i].key, ToNode(x[i].value)));
      assert k == j;
      var xi := x[i];
      SameValues(xi.value, y[j].value);
    }
  }

  /** Two values are equal exactly when their documents are. */
  lemma {:induction false} SameValues(a: Json, b: Json)
    requires Valid(a) && Valid(b)
    ensures Same(a, b) <==> ToNode(a) == ToNode(b)
    decreases a, 1
  {
    if a.Obj? && b.Obj? {
      if Same(a, b) {
        SameObjects(a.entries, b.entries);
      }
      if ToNode(a) == ToNode(b) {
        DifferentObjects(a.entries, b.entries);
      }
    } else if a.Arr? && b.Arr? {
      SameArrays(a.items, b.items);
    }
  }

  lemma {:induction false} SameArrays(x: seq<Json>, y: seq<Json>)
    requires Valid(Arr(x)) && Valid(Arr(y))
    ensures Same(Arr(x), Arr(y)) <==> ToNodes(x) == ToNodes(y)
    decreases Arr(x), 0
  {
    if |x| == |y| {
      forall k | 0 <= k < |x| ensures Same(x[k], y[k]) <==> ToNode(x[k]) == ToNode(y[k]) {
        SameValues(x[k], y[k]);
      }
      var s, t := ToNodes(x), ToNodes(y);
      assert s == t <==> forall k :: 0 <= k < |s| ==> s[k] == t[k];
      assert forall k :: 0 <= k < |x| ==> (s[k] == t[k] <==> Same(x[k], y[k]));
    }
  }

  // ----- the key theorems -----

  lemma {:induction false} DroppedEntries(entries: seq<Entry<Json>>, excluded: seq<string>)
    ensures forall e :: e in DropKeys(entries, excluded) <==> e in entries && e.key !in excluded
    ensures DistinctKeys(entries) ==> DistinctKeys(DropKeys(entries, excluded))
  {
    if entries != [] {
      DroppedEntries(entries[1..], excluded);
      assert entries == [entries[0]] + entries[1..];
      var more := DropKeys(entries[1..], excluded);
      if DistinctKeys(entries) {
        forall k | 0 <= k < |more| ensures more[k].key != entries[0].key {
          assert more[k] in more && more[k] in entries[1..];
          var j :| 0 <= j < |entries[1..]| && entries[1..][j] == more[k];
          assert entries[j + 1].key != entries[0].key;
        }
      }
    }
  }

  lemma FilterKeepsValid(args: Json)
    requires Valid(args)
    ensures Valid(FilterCacheParameters(args))
  {
    if args.Obj? {
      var kept := DropKeys(args.entries, EXCLUDED_KEYS);
      DroppedEntries(args.entries, EXCLUDED_KEYS);
      forall k | 0 <= k < |kept| ensures Valid(kept[k].value) {
        assert kept[k] in kept && kept[k] in args.entries;
        var j :| 0 <= j < |args.entries| && args.entries[j] == kept[k];
      }
    }
  }

  lemma DigitTextCharacters(s: string)
    requires AllDigits(s)
    ensures forall k :: 0 <= k < |s| ==> s[k] in "0123456789-+.e"
  {
    var table := "0123456789-+.e";
    forall k | 0 <= k < |s| ensures s[k] in table {
      assert table[s[k] as int - '0' as int] == s[k];
    }
  }

  lemma MantissaToken(negative: bool, whole: string, fraction: string, tail: string)
    requires IsUnsignedInteger(whole) && AllDigits(fraction)
    requires forall k :: 0 <= k < |tail| ==> tail[k] in "0123456789-+.e"
    ensures var token := MantissaText(negative, whole, fraction) + tail;
      && token != "" && (token[0] == '-' || '0' <= token[0] <= '9')
      && (token[0] == '-' ==> |token| > 1 && token[1] != ' ')
      && forall k :: 0 <= k < |token| ==> token[k] in "0123456789-+.e"
  {
    DigitTextCharacters(whole);
    DigitTextCharacters(fraction);
    assert SignText(negative) == "-" || SignText(negative) == "";
    var point := ".";
    assert point[0] in "0123456789-+.e" && '-' in "0123456789-+.e";
  }

  lemma NumberTokens(n: Number)
    requires ValidNumber(n)
    ensures IsNumberToken(FormatYamlNumber(n))
  {
    NumberResembles(n);
    match n.exponent
    case NoExponent =>
      MantissaToken(n.negative, n.whole, n.fraction, "");
      assert MantissaText(n.negative, n.whole, n.fraction) + "" == FormatYamlNumber(n);
    case Exponent(e) =>
      if 0 <= e <= 15 {
        var d := n.display;
        MantissaToken(d.negative, d.whole, PointDigits(d.fraction), "");
        assert MantissaText(d.negative, d.whole, PointDigits(d.fraction)) + "" == FormatYamlNumber(n);
      } else {
        DigitTextCharacters(TwoDigits(if e < 0 then -e else e));
        ExponentCharacters(e);
        MantissaToken(n.negative, n.whole, PointDigits(n.fraction), ExponentText(e));
      }
  }

  lemma ExponentCharacters(e: int)
    ensures forall k :: 0 <= k < |ExponentText(e)| ==> ExponentText(e)[k] in "0123456789-+.e"
  {
    var digits := TwoDigits(if e < 0 then -e else e);
    DigitTextCharacters(digits);
    var table := "0123456789-+.e";
    assert table[10] == '-' && table[11] == '+' && table[13] == 'e';
    assert ExponentText(e) == "e" + (if e < 0 then "-" else "+") + digits;
  }

  lemma {:induction false} ValidIsPrintable(v: Json)
    requires Valid(v)
    ensures Printable(ToNode(v))
    decreases v
  {
    match v
    case Num(n) => NumberTokens(n);
    case Arr(items) =>
      forall k | 0 <= k < |items| ensures Printable(ToNode(items[k])) {
        ValidIsPrintable(items[k]);
      }
    case Obj(entries) =>
      var nodes := ToNode(v).entries;
      forall k | 0 <= k < |nodes| ensures Printable(nodes[k].value) {
        assert nodes[k] in nodes;
        var i := DocumentFrom(entries, nodes[k]);
        var entry := entries[i];
        ValidIsPrintable(entry.value);
      }
    case _ =>
  }

  /** A string that is written plain is never the text of a null, a boolean or a number. */
  lemma PlainIsNoOtherScalar(value: string, other: Json, indent: nat, column: nat)
    requires ClassifyStringScalar(value).Plain? && Valid(other) && (other.Null? || other.Bool? || other.Num?)
    ensures value != ScalarText(ToNode(other), indent, column)
  {
    PlainFacts(value);
    if other.Num? {
      NumberResembles(other.number);
    }
  }

  /** The key text is read back to exactly the kwargs that count. */
  lemma KeyTextRoundTrip(args: Json)
    requires Valid(args)
    ensures Parse(KeyText(args), Exact) == Some(ToNode(FilterCacheParameters(args)))
  {
    FilterKeepsValid(args);
    ValidIsPrintable(FilterCacheParameters(args));
    ParseDumpText(ToNode(FilterCacheParameters(args)));
  }

  /** Two requests share a key text exactly when the kwargs that count are equal. */
  lemma KeyTextEquality(a: Json, b: Json)
    requires Valid(a) && Valid(b)
    ensures KeyText(a) == KeyText(b) <==> Same(FilterCacheParameters(a), FilterCacheParameters(b))
  {
    KeyTextRoundTrip(a);
    KeyTextRoundTrip(b);
    FilterKeepsValid(a);
    FilterKeepsValid(b);
    SameValues(FilterCacheParameters(a), FilterCacheParameters(b));
  }

  /** Two kwargs objects are equal as maps outside the excluded keys. */
  ghost predicate SameKwargs(x: seq<Entry<Json>>, y: seq<Entry<Json>>) {
    && (forall key: string :: key !in EXCLUDED_KEYS ==> (HasKey(x, key) <==> HasKey(y, key)))
    && (forall i, j :: 0 <= i < |x| && 0 <= j < |y| && x[i].key == y[j].key && x[i].key !in EXCLUDED_KEYS ==>
          Same(x[i].value, y[j].value))
  }

  lemma KeptKey(entries: seq<Entry<Json>>, key: string)
    ensures HasKey(DropKeys(entries, EXCLUDED_KEYS), key) <==> HasKey(entries, key) && key !in EXCLUDED_KEYS
  {
    var kept := DropKeys(entries, EXCLUDED_KEYS);
    DroppedEntries(entries, EXCLUDED_KEYS);
    if HasKey(kept, key) {
      var k :| 0 <= k < |kept| && kept[k].key == key;
      assert kept[k] in kept && kept[k] in entries;
    }
    if HasKey(entries, key) && key !in EXCLUDED_KEYS {
      var k :| 0 <= k < |entries| && entries[k].key == key;
      assert entries[k] in entries && entries[k] in kept;
    }
  }

  /**
   * For kwargs objects: the key text ignores the order of entries at every depth
   * and the excluded outermost keys, and nothing else.
   */
  lemma KwargsKeyText(x: seq<Entry<Json>>, y: seq<Entry<Json>>)
    requires Valid(Obj(x)) && Valid(Obj(y))
    ensures KeyText(Obj(x)) == KeyText(Obj(y)) <==> SameKwargs(x, y)
  {
    KeyTextEquality(Obj(x), Obj(y));
    if SameKwargs(x, y) {
      SameKept(x, y);
    }
    if Same(Obj(DropKeys(x, EXCLUDED_KEYS)), Obj(DropKeys(y, EXCLUDED_KEYS))) {
      KeptSame(x, y);
    }
  }

  lemma SameKept(x: seq<Entry<Json>>, y: seq<Entry<Json>>)
    requires SameKwargs(x, y)
    ensures Same(Obj(DropKeys(x, EXCLUDED_KEYS)), Obj(DropKeys(y, EXCLUDED_KEYS)))
  {
    var s, t := DropKeys(x, EXCLUDED_KEYS), DropKeys(y, EXCLUDED_KEYS);
    DroppedEntries(x, EXCLUDED_KEYS);
    DroppedEntries(y, EXCLUDED_KEYS);
    forall key: string ensures HasKey(s, key) <==> HasKey(t, key) {
      KeptKey(x, key);
      KeptKey(y, key);
    }
    forall i, j | 0 <= i < |s| && 0 <= j < |t| && s[i].key == t[j].key ensures Same(s[i].value, t[j].value) {
      assert s[i] in s && s[i] in x && t[j] in t && t[j] in y;
    }
  }

  lemma KeptSame(x: seq<Entry<Json>>, y: seq<Entry<Json>>)
    requires Same(Obj(DropKeys(x, EXCLUDED_KEYS)), Obj(DropKeys(y, EXCLUDED_KEYS)))
    ensures SameKwargs(x, y)
  {
    var s, t := DropKeys(x, EXCLUDED_KEYS), DropKeys(y, EXCLUDED_KEYS);
    DroppedEntries(x, EXCLUDED_KEYS);
    DroppedEntries(y, EXCLUDED_KEYS);
    forall key: string | key !in EXCLUDED_KEYS ensures HasKey(x, key) <==> HasKey(y, key) {
      KeptKey(x, key);
      KeptKey(y, key);
    }
    forall i, j | 0 <= i < |x| && 0 <= j < |y| && x[i].key == y[j].key && x[i].key !in EXCLUDED_KEYS
      ensures Same(x[i].value, y[j].value)
    {
      assert x[i] in x && x[i] in s && y[j] in y && y[j] in t;
    }
  }
}
