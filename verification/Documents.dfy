/** When a document is read back from its text: always by the exact reading, and when by YAML's. */
module Documents {
  import opened Text
  import opened Json
  import opened Scalars
  import opened DoubleQuoted
  import opened Emitter
  import opened Parser
  import Folding

  // ----- strings and their places -----

  /** A string of a document and the context that it is formatted in. */
  datatype Place = Place(text: string, context: ScalarContext)

  /** The strings of a node in their places. Simple keys are not wrapped and left out. */
  ghost function Strings(node: Node, indent: nat, continuationIndent: nat): seq<Place>
    decreases node, 2
  {
    match node
    case MappingNode(entries) => EntriesStrings(entries, indent)
    case SequenceNode(items) => ItemsStrings(items, indent)
    case StringNode(s) => [Place(s, ScalarContext(indent, continuationIndent, YAML_WIDTH))]
    case _ => []
  }

  ghost function ItemsStrings(items: seq<Node>, indent: nat): seq<Place>
    decreases items, 0
  {
    if items == [] then [] else Strings(items[0], indent + 2, indent + 2) + ItemsStrings(items[1..], indent)
  }

  ghost function EntriesStrings(entries: seq<Entry<Node>>, indent: nat): seq<Place>
    decreases entries, 0
  {
    if entries == [] then []
    else
      var entry := entries[0];
      EntryStrings(entry.key, entry.value, indent) + EntriesStrings(entries[1..], indent)
  }

  ghost function EntryStrings(key: string, value: Node, indent: nat): seq<Place>
    decreases value, 4
  {
    match ClassifyMappingKey(key)
    case SimpleKey => SimpleValueStrings(value, indent, indent + |SimpleKeyText(key, indent)|)
    case ExplicitKey =>
      [Place(key, ScalarContext(indent + 2, indent + INDENT_WIDTH, YAML_WIDTH))]
        + Strings(value, indent + 2, indent + 2)
  }

  ghost function SimpleValueStrings(value: Node, indent: nat, column: nat): seq<Place>
    decreases value, 3
  {
    match value
    case MappingNode(entries) => EntriesStrings(entries, indent + 2)
    case SequenceNode(items) => ItemsStrings(items, indent)
    case StringNode(s) => [Place(s, ScalarContext(column + 2, indent + 2, YAML_WIDTH))]
    case _ => []
  }

  // ----- when the document is read back -----

  /** The reading gives back every one of these strings. */
  ghost predicate AllKept(places: seq<Place>, reading: Reading) {
    forall p :: p in places ==> ReadBack(p.text, p.context, reading) == p.text
  }

  lemma BothKept(s: seq<Place>, t: seq<Place>, reading: Reading)
    ensures AllKept(s + t, reading) <==> AllKept(s, reading) && AllKept(t, reading)
  {
    forall p ensures p in s + t <==> p in s || p in t {}
  }

  lemma OneKept(p: Place, reading: Reading)
    ensures AllKept([p], reading) <==> ReadBack(p.text, p.context, reading) == p.text
  {
    assert p in [p];
  }

  lemma ScalarKept(node: Node, column: nat, indent: nat, reading: Reading)
    requires IsScalar(node)
    ensures RereadScalar(node, column, indent, reading) == node <==> AllKept(Strings(node, column, indent), reading)
  {
    hide ReadBack;
    if node.StringNode? {
      OneKept(Place(node.text, ScalarContext(column, indent, YAML_WIDTH)), reading);
      if ClassifyStringScalar(node.text).Plain? {
        PlainFacts(node.text);
        PlainIsNoWord(node.text);
      }
    }
  }

  /** What is read is the document exactly when every string in its place is kept. */
  lemma {:induction false} RereadKeeps(node: Node, indent: nat, continuationIndent: nat, reading: Reading)
    ensures Reread(node, indent, continuationIndent, reading) == node
      <==> AllKept(Strings(node, indent, continuationIndent), reading)
    decreases node, 2
  {
    hide AllKept, ReadBack, RereadScalar;
    match node
    case MappingNode(entries) => EntriesKept(entries, indent, reading);
    case SequenceNode(items) => ItemsKept(items, indent, reading);
    case _ => ScalarKept(node, indent, continuationIndent, reading);
  }

  lemma {:induction false} ItemsKept(items: seq<Node>, indent: nat, reading: Reading)
    ensures RereadItems(items, indent, reading) == items <==> AllKept(ItemsStrings(items, indent), reading)
    decreases items, 0
  {
    if items != [] {
      var first, rest := Reread(items[0], indent + 2, indent + 2, reading), RereadItems(items[1..], indent, reading);
      RereadKeeps(items[0], indent + 2, indent + 2, reading);
      ItemsKept(items[1..], indent, reading);
      BothKept(Strings(items[0], indent + 2, indent + 2), ItemsStrings(items[1..], indent), reading);
      SameList(first, rest, items);
    }
  }

  lemma SameList<T>(first: T, rest: seq<T>, s: seq<T>)
    requires s != []
    ensures [first] + rest == s <==> first == s[0] && rest == s[1..]
  {
    assert s == [s[0]] + s[1..];
    if [first] + rest == s {
      assert ([first] + rest)[0] == first && ([first] + rest)[1..] == rest;
    }
  }

  lemma {:induction false} EntriesKept(entries: seq<Entry<Node>>, indent: nat, reading: Reading)
    ensures RereadEntries(entries, indent, reading) == entries <==> AllKept(EntriesStrings(entries, indent), reading)
    decreases entries, 0
  {
    if entries != [] {
      var entry := entries[0];
      var first, rest := RereadEntry(entry.key, entry.value, indent, reading),
        RereadEntries(entries[1..], indent, reading);
      EntryKept(entry.key, entry.value, indent, reading);
      EntriesKept(entries[1..], indent, reading);
      BothKept(EntryStrings(entry.key, entry.value, indent), EntriesStrings(entries[1..], indent), reading);
      SameList(first, rest, entries);
    }
  }

  lemma {:induction false} EntryKept(key: string, value: Node, indent: nat, reading: Reading)
    ensures RereadEntry(key, value, indent, reading) == Entry(key, value)
      <==> AllKept(EntryStrings(key, value, indent), reading)
    decreases value, 4
  {
    hide AllKept, ReadBack, Reread, Strings, RereadSimpleValue, SimpleValueStrings, SimpleKeyText, ClassifyMappingKey;
    if ClassifyMappingKey(key).SimpleKey? {
      SimpleValueKept(value, indent, indent + |SimpleKeyText(key, indent)|, reading);
    } else {
      ExplicitEntryKept(key, value, indent, reading);
    }
  }

  lemma {:induction false} ExplicitEntryKept(key: string, value: Node, indent: nat, reading: Reading)
    requires ClassifyMappingKey(key).ExplicitKey?
    ensures RereadEntry(key, value, indent, reading) == Entry(key, value)
      <==> AllKept(EntryStrings(key, value, indent), reading)
    decreases value, 3
  {
    hide AllKept, ReadBack, Reread, Strings, ClassifyMappingKey;
    var place := Place(key, ScalarContext(indent + 2, indent + INDENT_WIDTH, YAML_WIDTH));
    OneKept(place, reading);
    RereadKeeps(value, indent + 2, indent + 2, reading);
    BothKept([place], Strings(value, indent + 2, indent + 2), reading);
  }

  lemma {:induction false} SimpleValueKept(value: Node, indent: nat, column: nat, reading: Reading)
    ensures RereadSimpleValue(value, indent, column, reading) == value
      <==> AllKept(SimpleValueStrings(value, indent, column), reading)
    decreases value, 3
  {
    hide AllKept, ReadBack, RereadScalar;
    match value
    case MappingNode(entries) => EntriesKept(entries, indent + 2, reading);
    case SequenceNode(items) => ItemsKept(items, indent, reading);
    case _ => ScalarKept(value, column + 2, indent + 2, reading);
  }

  /** The exact reading of the text of a document is that document, for every document. */
  lemma ParseDumpText(node: Node)
    requires Printable(node)
    ensures Parse(DumpText(node), Exact) == Some(node)
  {
    hide Reread, Strings;
    ParseRereads(node, Exact);
    RereadKeeps(node, 0, 2, Exact);
  }

  /** No break that wrapping puts into these strings falls beside a further space. */
  predicate AllWrapAtSingleSpaces(places: seq<Place>) {
    forall p :: p in places && !NeedsDoubleQuotedString(p.text) ==> Folding.WrapsAtSingleSpaces(p.text, p.context)
  }

  /** No guard that a break puts into the double-quoted texts of these strings is parted from its space. */
  predicate AllGuardsHold(places: seq<Place>) {
    forall p :: p in places && NeedsDoubleQuotedString(p.text) ==>
      GuardsHold(p.text, 0, p.context.initialColumn + 1, p.context.continuationIndent, p.context.width)
  }

  /** YAML gives back a string exactly when its breaks do no harm. */
  lemma YamlKeeps(p: Place)
    ensures ReadBack(p.text, p.context, Yaml) == p.text <==>
      if NeedsDoubleQuotedString(p.text) then
        GuardsHold(p.text, 0, p.context.initialColumn + 1, p.context.continuationIndent, p.context.width)
      else Folding.WrapsAtSingleSpaces(p.text, p.context)
  {
    var column, indent, width := p.context.initialColumn + 1, p.context.continuationIndent, p.context.width;
    if NeedsDoubleQuotedString(p.text) {
      DoubleContentGrows(p.text, 0, column, indent, width, Yaml);
      assert p.text[0..] == p.text;
    } else {
      Folding.FoldedContentLoses(p.text, p.context);
    }
  }

  lemma KeptByYaml(places: seq<Place>)
    ensures AllKept(places, Yaml) <==> AllWrapAtSingleSpaces(places) && AllGuardsHold(places)
  {
    hide ReadBack, NeedsDoubleQuotedString, GuardsHold, Folding.WrapsAtSingleSpaces;
    forall p | p in places
      ensures ReadBack(p.text, p.context, Yaml) == p.text <==>
        if NeedsDoubleQuotedString(p.text) then
          GuardsHold(p.text, 0, p.context.initialColumn + 1, p.context.continuationIndent, p.context.width)
        else Folding.WrapsAtSingleSpaces(p.text, p.context)
    {
      YamlKeeps(p);
    }
  }

  /**
   * YAML reads the text of every document as some document, and as itself exactly when no break of its plain
   * and single-quoted strings falls beside a further space and no break of its double-quoted ones parts a
   * guard from its space.
   */
  lemma YamlReadsDocument(node: Node)
    requires Printable(node)
    ensures Parse(DumpText(node), Yaml).Some?
    ensures Parse(DumpText(node), Yaml) == Some(node)
      <==> AllWrapAtSingleSpaces(Strings(node, 0, 2)) && AllGuardsHold(Strings(node, 0, 2))
  {
    hide Reread, Strings, AllKept, AllWrapAtSingleSpaces, AllGuardsHold, Parse;
    ParseRereads(node, Yaml);
    RereadKeeps(node, 0, 2, Yaml);
    KeptByYaml(Strings(node, 0, 2));
  }

  // ----- shallow and deep documents -----

  /** How many collections a node nests. */
  function Levels(node: Node): nat
    decreases node, 2
  {
    match node
    case MappingNode(entries) => 1 + EntriesLevels(entries)
    case SequenceNode(items) => 1 + ItemsLevels(items)
    case _ => 0
  }

  function Most(a: nat, b: nat): nat {
    if a < b then b else a
  }

  function ItemsLevels(items: seq<Node>): nat
    decreases items, 0
  {
    if items == [] then 0 else Most(Levels(items[0]), ItemsLevels(items[1..]))
  }

  function EntriesLevels(entries: seq<Entry<Node>>): nat
    decreases entries, 0
  {
    if entries == [] then 0
    else
      var entry := entries[0];
      Most(Levels(entry.value), EntriesLevels(entries[1..]))
  }

  /** All of these strings continue at `indent` at most, under the limit of the document. */
  predicate AllContinueBy(places: seq<Place>, indent: nat) {
    forall p :: p in places ==> p.context.continuationIndent <= indent && p.context.width == YAML_WIDTH
  }

  /** Every level moves the strings in it by two columns at most. */
  lemma {:induction false} StringsContinueBy(node: Node, indent: nat, continuationIndent: nat)
    ensures AllContinueBy(Strings(node, indent, continuationIndent),
      Most(continuationIndent, indent + 2 * Levels(node)))
    decreases node, 2
  {
    match node
    case MappingNode(entries) => EntriesContinueBy(entries, indent);
    case SequenceNode(items) => ItemsContinueBy(items, indent);
    case _ =>
  }

  lemma {:induction false} ItemsContinueBy(items: seq<Node>, indent: nat)
    ensures AllContinueBy(ItemsStrings(items, indent), indent + 2 + 2 * ItemsLevels(items))
    decreases items, 0
  {
    if items != [] {
      StringsContinueBy(items[0], indent + 2, indent + 2);
      ItemsContinueBy(items[1..], indent);
    }
  }

  lemma {:induction false} EntriesContinueBy(entries: seq<Entry<Node>>, indent: nat)
    ensures AllContinueBy(EntriesStrings(entries, indent), indent + 2 + 2 * EntriesLevels(entries))
    decreases entries, 0
  {
    if entries != [] {
      var entry := entries[0];
      EntryContinuesBy(entry.key, entry.value, indent);
      EntriesContinueBy(entries[1..], indent);
    }
  }

  lemma {:induction false} EntryContinuesBy(key: string, value: Node, indent: nat)
    ensures AllContinueBy(EntryStrings(key, value, indent), indent + 2 + 2 * Levels(value))
    decreases value, 4
  {
    if ClassifyMappingKey(key).SimpleKey? {
      match value
      case MappingNode(entries) => EntriesContinueBy(entries, indent + 2);
      case SequenceNode(items) => ItemsContinueBy(items, indent);
      case _ =>
    } else {
      StringsContinueBy(value, indent + 2, indent + 2);
    }
  }

  /** YAML reads back every document of at most 39 levels whose strings have no two adjacent spaces. */
  lemma YamlReadsShallowDocument(node: Node)
    requires Printable(node) && Levels(node) <= 39
    requires forall p :: p in Strings(node, 0, 2) ==> !HasPair(p.text, ' ', ' ')
    ensures Parse(DumpText(node), Yaml) == Some(node)
  {
    hide Strings, Parse, DumpText, Printable, NeedsDoubleQuotedString, Folding.WrapsAtSingleSpaces, AllGuardsHold;
    var places := Strings(node, 0, 2);
    StringsContinueBy(node, 0, 2);
    ShallowWithin(places, Most(2, 2 * Levels(node)));
    forall p | p in places && !NeedsDoubleQuotedString(p.text) ensures Folding.WrapsAtSingleSpaces(p.text, p.context) {
      Folding.SingleSpacesWrap(p.text, p.context);
    }
    YamlReadsDocument(node);
  }

  lemma ShallowWithin(places: seq<Place>, indent: nat)
    requires AllContinueBy(places, indent) && indent < 80
    ensures AllGuardsHold(places)
  {
    forall p | p in places
      ensures GuardsHold(p.text, 0, p.context.initialColumn + 1, p.context.continuationIndent, p.context.width)
    {
      GuardsHoldWithin(p.text, 0, p.context.initialColumn + 1, p.context.continuationIndent, p.context.width);
    }
  }

  /** `value` inside `n` sequences. */
  function Nested(value: Node, n: nat): Node {
    if n == 0 then value else SequenceNode([Nested(value, n - 1)])
  }

  /** The string "a", a tab, a space and "x". */
  const GUARDED := "a\t x"

  /** The same with a backslash and one more space ahead of the space. */
  const MISREAD := "a\t\\  x"

  lemma GuardedReread(indent: nat)
    requires indent >= 80
    ensures Reread(StringNode(GUARDED), indent, indent, Yaml) == StringNode(MISREAD)
  {
    assert GUARDED[1] == '\t' && !IsPrintable(GUARDED[1]);
    assert NeedsDoubleQuotedString(GUARDED);
    DeepContent(indent + 1, indent, 80);
  }

  lemma {:induction false} NestedReread(n: nat, indent: nat, continuationIndent: nat)
    requires indent + 2 * n >= 80 && (n == 0 ==> continuationIndent == indent)
    ensures Reread(Nested(StringNode(GUARDED), n), indent, continuationIndent, Yaml) == Nested(StringNode(MISREAD), n)
  {
    hide RereadScalar;
    if n == 0 {
      GuardedReread(indent);
    } else {
      var inner := Nested(StringNode(GUARDED), n - 1);
      NestedReread(n - 1, indent + 2, indent + 2);
      assert [inner][1..] == [];
      assert RereadItems([inner], indent, Yaml) == [Reread(inner, indent + 2, indent + 2, Yaml)] + [];
    }
  }

  lemma {:induction false} NestedDiffer(n: nat)
    ensures Nested(StringNode(MISREAD), n) != Nested(StringNode(GUARDED), n)
  {
    if n > 0 {
      NestedDiffer(n - 1);
      assert [Nested(StringNode(MISREAD), n - 1)][0] != [Nested(StringNode(GUARDED), n - 1)][0];
    } else {
      assert |MISREAD| != |GUARDED|;
    }
  }

  /** From 40 levels on there is a document that YAML silently reads as another one. */
  lemma DeepDocumentMisread(n: nat)
    requires n >= 40
    ensures var node, other := Nested(StringNode(GUARDED), n), Nested(StringNode(MISREAD), n);
      && Parse(DumpText(node), Yaml) == Some(other) && other != node
      && Parse(DumpText(node), Exact) == Some(node)
  {
    NestedReread(n, 0, 2);
    NestedPrintable(n);
    ParseRereads(Nested(StringNode(GUARDED), n), Yaml);
    ParseDumpText(Nested(StringNode(GUARDED), n));
    NestedDiffer(n);
  }

  lemma OneItemLevels(node: Node)
    ensures Levels(SequenceNode([node])) == 1 + Levels(node)
  {
    assert [node][1..] == [];
    assert ItemsLevels([node]) == Most(Levels(node), ItemsLevels([]));
  }

  lemma {:induction false} NestedPrintable(n: nat)
    ensures Printable(Nested(StringNode(GUARDED), n)) && Levels(Nested(StringNode(GUARDED), n)) == n
  {
    if n > 0 {
      NestedPrintable(n - 1);
      OneItemLevels(Nested(StringNode(GUARDED), n - 1));
    }
  }
}
