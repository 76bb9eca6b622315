/** The text of a document, as a function of the document alone. */
module Emitter {
  import opened Text
  import opened Json
  import opened Scalars
  import opened DoubleQuoted

  const YAML_WIDTH := Limit(80)
  const INDENT_WIDTH := 2

  function FormatString(value: string, context: ScalarContext): string {
    match ClassifyStringScalar(value)
    case Plain => Wrapped(value, context.initialColumn, context.continuationIndent, context.width)
    case SingleQuoted => QuotedText(value, context)
    case SingleQuotedMultiline => QuotedText(value, context)
    case DoubleQuoted => DoubleText(value, context)
  }

  predicate IsScalar(node: Node) {
    !node.SequenceNode? && !node.MappingNode?
  }

  function ScalarText(node: Node, continuationIndent: nat, column: nat): string
    requires IsScalar(node)
  {
    match node
    case NullNode => "null"
    case BoolNode(b) => if b then "true" else "false"
    case NumberNode(token) => token
    case StringNode(s) => FormatString(s, ScalarContext(column, continuationIndent, YAML_WIDTH))
  }

  function SimpleKeyText(key: string, indent: nat): string {
    FormatString(key, ScalarContext(indent, indent + INDENT_WIDTH, Unlimited))
  }

  function ExplicitKeyText(key: string, indent: nat): string {
    FormatString(key, ScalarContext(indent + 2, indent + INDENT_WIDTH, YAML_WIDTH))
  }

  /** A node whose line has been filled up to column `indent`. */
  function NodeText(node: Node, indent: nat, continuationIndent: nat): string
    decreases node, 2
  {
    if node == MappingNode([]) then "{}\n"
    else if node == SequenceNode([]) then "[]\n"
    else if node.MappingNode? then EntriesText(node.entries, indent)
    else if node.SequenceNode? then ItemsText(node.items, indent)
    else ScalarText(node, continuationIndent, indent) + "\n"
  }

  /** The items of a block sequence at `indent`, the first of them on a line already filled up to it. */
  function ItemsText(items: seq<Node>, indent: nat): string
    decreases items, 0
  {
    if items == [] then ""
    else "- " + NodeText(items[0], indent + 2, indent + 2) + NextItemsText(items[1..], indent)
  }

  function NextItemsText(items: seq<Node>, indent: nat): string
    decreases items, 1
  {
    if items == [] then "" else Spaces(indent) + ItemsText(items, indent)
  }

  /** The entries of a block mapping at `indent`, the first of them on a line already filled up to it. */
  function EntriesText(entries: seq<Entry<Node>>, indent: nat): string
    decreases entries, 0
  {
    if entries == [] then ""
    else
      var entry := entries[0];
      EntryText(entry.key, entry.value, indent) + NextEntriesText(entries[1..], indent)
  }

  function NextEntriesText(entries: seq<Entry<Node>>, indent: nat): string
    decreases entries, 1
  {
    if entries == [] then "" else Spaces(indent) + EntriesText(entries, indent)
  }

  function EntryText(key: string, value: Node, indent: nat): string
    decreases value, 4
  {
    match ClassifyMappingKey(key)
    case SimpleKey =>
      SimpleKeyText(key, indent) + SimpleValueText(value, indent, indent + |SimpleKeyText(key, indent)|)
    case ExplicitKey =>
      "? " + ExplicitKeyText(key, indent) + "\n" + Spaces(indent) + ":" + ExplicitValueText(value, indent)
  }

  /** After a simple key that ends at `column`. A nested sequence stays at the indent of its key. */
  function SimpleValueText(value: Node, indent: nat, column: nat): string
    decreases value, 3
  {
    if value == MappingNode([]) then ": {}\n"
    else if value == SequenceNode([]) then ": []\n"
    else if value.MappingNode? then ":\n" + NextEntriesText(value.entries, indent + 2)
    else if value.SequenceNode? then ":\n" + NextItemsText(value.items, indent)
    else ": " + ScalarText(value, indent + 2, column + 2) + "\n"
  }

  function ExplicitValueText(value: Node, indent: nat): string
    decreases value, 3
  {
    " " + NodeText(value, indent + 2, indent + 2)
  }

  function DumpText(node: Node): string {
    NodeText(node, 0, 2)
  }

  // ----- what is written is printable -----

  lemma PlainIsPrintable(value: string)
    requires !NeedsDoubleQuotedString(value)
    ensures IsEmitted(value)
    ensures '\n' !in value ==> AllPrintable(value) && NoNewline(value)
  {
  }

  lemma FormatStringEmitted(value: string, context: ScalarContext)
    ensures IsEmitted(FormatString(value, context))
  {
    var column, indent, width := context.initialColumn, context.continuationIndent, context.width;
    if NeedsDoubleQuotedString(value) {
      DoubleTailEmitted(value, 0, column + 1, indent, width);
    } else {
      PlainIsPrintable(value);
      QuotedTailEmitted(value, column + 1, indent, width);
      if '\n' !in value {
        WrappedEmitted(value, column, indent, width);
      }
    }
  }

  lemma DoubleTextUnlimited(value: string, column: nat, indent: nat, other: nat, otherIndent: nat)
    ensures var text := DoubleText(value, ScalarContext(column, indent, Unlimited));
      AllPrintable(text) && text == DoubleText(value, ScalarContext(other, otherIndent, Unlimited))
  {
    DoubleTailUnlimited(value, 0, column + 1, indent, other + 1, otherIndent);
    DoubleTailEmitted(value, 0, column + 1, indent, Unlimited);
  }

  lemma QuotedTextUnlimited(value: string, column: nat, indent: nat, other: nat, otherIndent: nat)
    requires NoNewline(value) && IsEmitted(value)
    ensures var text := QuotedText(value, ScalarContext(column, indent, Unlimited));
      AllPrintable(text) && text == QuotedText(value, ScalarContext(other, otherIndent, Unlimited))
  {
    QuotedTailUnlimited(value, column + 1, indent, other + 1, otherIndent);
    QuotedTailEmitted(value, column + 1, indent, Unlimited);
  }

  /** Without a limit a one-line string is one line of text, wherever it starts. */
  lemma FormatStringUnlimited(value: string, column: nat, indent: nat, other: nat, otherIndent: nat)
    requires NoNewline(value)
    ensures var text := FormatString(value, ScalarContext(column, indent, Unlimited));
      AllPrintable(text) && text == FormatString(value, ScalarContext(other, otherIndent, Unlimited))
  {
    if NeedsDoubleQuotedString(value) {
      DoubleTextUnlimited(value, column, indent, other, otherIndent);
    } else {
      PlainIsPrintable(value);
      QuotedTextUnlimited(value, column, indent, other, otherIndent);
      WrappedUnlimited(value, column, indent, Unlimited);
      WrappedUnlimited(value, other, otherIndent, Unlimited);
    }
  }
}
