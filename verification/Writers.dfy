/** The emitter as it runs: methods that push onto one growing buffer. */
module Writers {
  import opened Text
  import opened Json
  import opened Scalars
  import opened DoubleQuoted
  import opened Emitter

  // ----- columns -----

  /** The length of a character in UTF-8, which is what `str::len` counts. */
  function Utf8Length(c: char): nat {
    if c as nat < 0x80 then 1 else if c as nat < 0x800 then 2 else if c as nat < 0x1_0000 then 3 else 4
  }

  /** `current_column`: the byte length of what follows the last line feed. */
  function CurrentColumn(text: string): nat {
    if text == "" then 0
    else
      var last := text[|text| - 1];
      if last == '\n' then 0 else CurrentColumn(text[..|text| - 1]) + Utf8Length(last)
  }

  /** The byte count is the true column, because everything written is printable ASCII. */
  lemma {:induction false} ColumnAdvances(text: string, more: string)
    requires AllPrintable(more)
    ensures CurrentColumn(text + more) == CurrentColumn(text) + |more|
  {
    if more == "" {
      assert text + more == text;
    } else {
      var most := more[..|more| - 1];
      ColumnAdvances(text, most);
      assert (text + more)[..|text + more| - 1] == text + most;
    }
  }

  lemma ColumnEnds(text: string, more: string)
    ensures more != "" && more[|more| - 1] == '\n' ==> CurrentColumn(text + more) == 0
  {
    if more != "" {
      assert (text + more)[|text + more| - 1] == more[|more| - 1];
    }
  }

  lemma Joined(text: string, a: string, b: string, c: string)
    ensures text + a + b == text + (a + b)
    ensures text + a + b + c == text + (a + b + c)
    ensures text + (a + b + c) == text + (a + (b + c))
  {
    assert a + b + c == a + (b + c);
  }

  class Output {
    var text: string

    constructor ()
      ensures text == ""
    {
      text := "";
    }

    method PushStr(s: string)
      modifies this
      ensures text == old(text) + s
    {
      text := text + s;
    }
  }

  // ----- sorting on the way -----

  lemma {:induction false} InsertToNodes(entry: Entry<Json>, entries: seq<Entry<Json>>)
    ensures ToNodeEntries(Insert(entry, entries))
      == Insert(Entry(entry.key, ToNode(entry.value)), ToNodeEntries(entries))
  {
    if entries != [] && !KeyLess(entry.key, entries[0].key) {
      InsertToNodes(entry, entries[1..]);
      assert ToNodeEntries(entries)[1..] == ToNodeEntries(entries[1..]);
      assert Insert(entry, entries)[1..] == Insert(entry, entries[1..]);
    } else {
      assert Insert(entry, entries)[1..] == entries;
    }
  }

  /** Sorting the entries of a map sorts the entries of its document. */
  lemma {:induction false} SortToNodes(entries: seq<Entry<Json>>)
    ensures ToNodeEntries(SortByKey(entries)) == SortByKey(ToNodeEntries(entries))
  {
    if entries != [] {
      SortToNodes(entries[1..]);
      InsertToNodes(entries[0], SortByKey(entries[1..]));
      assert ToNodeEntries(entries)[1..] == ToNodeEntries(entries[1..]);
    }
  }

  // ----- scalars -----

  /** `format_string_with_context`. */
  method FormatStringWithContext(value: string, context: ScalarContext) returns (s: string)
    ensures s == FormatString(value, context)
  {
    match ClassifyStringScalar(value) {
      case Plain =>
        s := WrapScalarWords(value, context, "", "");
        Regroup("", Wrapped(value, context.initialColumn, context.continuationIndent, context.width), "");
      case SingleQuoted =>
        PlainIsPrintable(value);
        s := FormatSingleQuotedScalar(value, context);
      case SingleQuotedMultiline => s := FormatSingleQuotedMultilineScalar(value, context);
      case DoubleQuoted => s := FormatDoubleQuotedScalar(value, context);
    }
  }

  /** `format_scalar`. */
  method FormatScalar(value: Json, continuationIndent: nat, column: nat) returns (r: Result<string>)
    ensures value.Arr? || value.Obj? <==> r.Err?
    ensures !value.Arr? && !value.Obj? ==> r == Ok(ScalarText(ToNode(value), continuationIndent, column))
  {
    match value {
      case Null => r := Ok("null");
      case Bool(b) => r := Ok(if b then "true" else "false");
      case Num(n) => r := Ok(FormatYamlNumber(n));
      case Str(s) =>
        var text := FormatStringWithContext(s, ScalarContext(column, continuationIndent, YAML_WIDTH));
        r := Ok(text);
      case _ => r := Err("nested value reached scalar formatter");
    }
  }

  // ----- blocks -----

  /** A value that starts on a fresh line, as the block writers lay it out. */
  function BlockText(node: Node, indent: nat): string {
    if node == MappingNode([]) then "{}\n"
    else if node == SequenceNode([]) then Spaces(indent) + "[]\n"
    else if node.MappingNode? then NextEntriesText(node.entries, indent)
    else if node.SequenceNode? then NextItemsText(node.items, indent)
    else ScalarText(node, indent + 2, 0) + "\n"
  }

  /** The first entry or item may share a line that is already filled up to `indent`. */
  predicate AtStart(text: string, indent: nat, inline: bool) {
    CurrentColumn(text) == if inline then indent else 0
  }

  function EntriesFrom(entries: seq<Entry<Node>>, indent: nat, inline: bool): string {
    if inline then EntriesText(entries, indent) else NextEntriesText(entries, indent)
  }

  function ItemsFrom(items: seq<Node>, indent: nat, inline: bool): string {
    if inline then ItemsText(items, indent) else NextItemsText(items, indent)
  }

  /** `write_yaml_value`. */
  method WriteYamlValue(value: Json, indent: nat, output: Output)
    requires CurrentColumn(output.text) == 0
    modifies output
    ensures output.text == old(output.text) + BlockText(ToNode(value), indent)
    ensures CurrentColumn(output.text) == 0
    decreases ToNode(value), 3
  {
    if value.Obj? {
      WriteYamlMapping(value.entries, indent, output);
    } else if value.Arr? {
      WriteYamlSequence(value.items, indent, output);
    } else {
      WriteScalarLine("", value, indent, output);
      ScalarBlock(ToNode(value), indent);
    }
  }

  lemma ScalarBlock(node: Node, indent: nat)
    requires IsScalar(node)
    ensures BlockText(node, indent) == "" + (ScalarText(node, indent + 2, 0) + "\n")
  {
  }

  /** A scalar behind `lead`, up to the end of its line. */
  method WriteScalarLine(lead: string, value: Json, indent: nat, output: Output)
    requires !value.Arr? && !value.Obj? && AllPrintable(lead)
    modifies output
    ensures output.text == old(output.text) +
      (lead + (ScalarText(ToNode(value), indent + 2, CurrentColumn(old(output.text)) + |lead|) + "\n"))
    ensures CurrentColumn(output.text) == 0
  {
    ColumnAdvances(output.text, lead);
    output.PushStr(lead);
    var text := FormatScalar(value, indent + 2, CurrentColumn(output.text));
    PushLine(text.value, output);
    Joined(old(output.text), lead, text.value + "\n", "");
  }

  method PushLine(text: string, output: Output)
    modifies output
    ensures output.text == old(output.text) + (text + "\n")
    ensures CurrentColumn(output.text) == 0
  {
    output.PushStr(text);
    output.PushStr("\n");
    ColumnEnds(old(output.text), text + "\n");
    Joined(old(output.text), text, "\n", "");
  }

  /** `write_yaml_mapping`. */
  method WriteYamlMapping(entries: seq<Entry<Json>>, indent: nat, output: Output)
    requires CurrentColumn(output.text) == 0
    modifies output
    ensures output.text == old(output.text) + BlockText(ToNode(Obj(entries)), indent)
    ensures CurrentColumn(output.text) == 0
    decreases ToNode(Obj(entries)), 2
  {
    if entries == [] {
      output.PushStr("{}\n");
      ColumnEnds(old(output.text), "{}\n");
      return;
    }
    WriteYamlMappingEntries(entries, indent, false, output);
  }

  lemma EntriesUnfold(nodes: seq<Entry<Node>>, text: string, indent: nat, inline: bool)
    requires nodes != []
    ensures text + EntriesFrom(nodes, indent, inline)
         == (if inline then text else text + Spaces(indent)) + EntryText(nodes[0].key, nodes[0].value, indent)
            + NextEntriesText(nodes[1..], indent)
  {
    var first := EntryText(nodes[0].key, nodes[0].value, indent);
    var rest := NextEntriesText(nodes[1..], indent);
    assert EntriesText(nodes, indent) == first + rest;
    Joined(text, first, rest, "");
    Joined(text, Spaces(indent), first, rest);
  }

  /** The sorted entries of a map have the documents of its values, in the same order, and no larger ones. */
  lemma SortedNodes(entries: seq<Entry<Json>>, k: nat)
    requires k < |entries|
    ensures var sorted := SortByKey(entries); var nodes := SortByKey(ToNodeEntries(entries));
      && |nodes| == |entries| && nodes[k] == Entry(sorted[k].key, ToNode(sorted[k].value))
      && ToNode(Obj(entries)) == MappingNode(nodes)
    ensures ToNode(SortByKey(entries)[k].value) < ToNode(Obj(entries))
  {
    SortToNodes(entries);
    var node := SortByKey(ToNodeEntries(entries))[k];
    assert node.value < ToNode(Obj(entries));
  }

  /** `write_yaml_mapping_entries`. */
  method WriteYamlMappingEntries(entries: seq<Entry<Json>>, indent: nat, firstInline: bool, output: Output)
    requires entries != [] && AtStart(output.text, indent, firstInline)
    modifies output
    ensures CurrentColumn(output.text) == 0
    ensures output.text == old(output.text) + EntriesFrom(SortByKey(ToNodeEntries(entries)), indent, firstInline)
    decreases ToNode(Obj(entries)), 1
  {
    var sorted := SortByKey(entries);
    ghost var nodes := SortByKey(ToNodeEntries(entries));
    ghost var whole := output.text + EntriesFrom(nodes, indent, firstInline);
    SortedNodes(entries, 0);
    var index := 0;
    assert nodes[0..] == nodes;
    while index < |sorted|
      invariant 0 <= index <= |sorted| == |nodes|
      invariant AtStart(output.text, indent, firstInline && index == 0)
      invariant output.text + EntriesFrom(nodes[index..], indent, firstInline && index == 0) == whole
    {
      SortedNodes(entries, index);
      WriteEntryLine(sorted[index], indent, firstInline && index == 0, output, nodes[index..]);
      assert nodes[index..][1..] == nodes[index + 1..];
      index := index + 1;
    }
    assert nodes[|sorted|..] == [];
  }

  /** The body of the entry loop: the indent, unless the line has it, and the entry. */
  method WriteEntryLine(entry: Entry<Json>, indent: nat, inline: bool, output: Output, ghost nodes: seq<Entry<Node>>)
    requires nodes != [] && nodes[0] == Entry(entry.key, ToNode(entry.value)) && AtStart(output.text, indent, inline)
    modifies output
    ensures CurrentColumn(output.text) == 0
    ensures output.text + NextEntriesText(nodes[1..], indent) == old(output.text) + EntriesFrom(nodes, indent, inline)
    decreases ToNode(entry.value), 8
  {
    EntriesUnfold(nodes, output.text, indent, inline);
    WriteSequencePrefix(indent, inline, output);
    WriteYamlMappingEntry(entry.key, entry.value, indent, output);
  }

  /** `write_yaml_mapping_entry`. */
  method WriteYamlMappingEntry(key: string, value: Json, indent: nat, output: Output)
    requires CurrentColumn(output.text) == indent
    modifies output
    ensures CurrentColumn(output.text) == 0
    ensures output.text == old(output.text) + EntryText(key, ToNode(value), indent)
    decreases ToNode(value), 7
  {
    if ClassifyMappingKey(key).SimpleKey? {
      WriteSimpleEntry(key, value, indent, output);
      SimpleEntry(key, ToNode(value), indent);
    } else {
      WriteExplicitEntry(key, value, indent, output);
      ExplicitEntry(key, ToNode(value), indent);
    }
  }

  method WriteSimpleEntry(key: string, value: Json, indent: nat, output: Output)
    requires ClassifyMappingKey(key).SimpleKey? && CurrentColumn(output.text) == indent
    modifies output
    ensures CurrentColumn(output.text) == 0
    ensures output.text == old(output.text) +
      (SimpleKeyText(key, indent) + SimpleValueText(ToNode(value), indent, indent + |SimpleKeyText(key, indent)|))
    decreases ToNode(value), 6
  {
    WriteSimpleKey(key, indent, output);
    ghost var keyText := SimpleKeyText(key, indent);
    ghost var valueText := SimpleValueText(ToNode(value), indent, indent + |keyText|);
    WriteSimpleMappingValue(value, indent, output);
    assert output.text == old(output.text) + keyText + valueText;
    Joined(old(output.text), keyText, valueText, "");
  }

  method WriteExplicitEntry(key: string, value: Json, indent: nat, output: Output)
    requires ClassifyMappingKey(key).ExplicitKey? && CurrentColumn(output.text) == indent
    modifies output
    ensures CurrentColumn(output.text) == 0
    ensures output.text == old(output.text) + (ExplicitKeyLines(key, indent) + ExplicitValueText(ToNode(value), indent))
    decreases ToNode(value), 6
  {
    WriteExplicitKey(key, indent, output);
    ghost var lines, valueText := ExplicitKeyLines(key, indent), ExplicitValueText(ToNode(value), indent);
    WriteExplicitMappingValue(value, indent, output);
    assert output.text == old(output.text) + lines + valueText;
    Joined(old(output.text), lines, valueText, "");
  }

  /** The key of the simple branch of `write_yaml_mapping_entry`. */
  method WriteSimpleKey(key: string, indent: nat, output: Output)
    requires ClassifyMappingKey(key).SimpleKey? && CurrentColumn(output.text) == indent
    modifies output
    ensures output.text == old(output.text) + SimpleKeyText(key, indent)
    ensures CurrentColumn(output.text) == indent + |SimpleKeyText(key, indent)|
  {
    var context := ScalarContext(CurrentColumn(output.text), indent + INDENT_WIDTH, Unlimited);
    var keyText := FormatStringWithContext(key, context);
    FormatStringUnlimited(key, indent, indent + INDENT_WIDTH, indent, indent + INDENT_WIDTH);
    ColumnAdvances(output.text, keyText);
    output.PushStr(keyText);
  }

  lemma SimpleEntry(key: string, value: Node, indent: nat)
    requires ClassifyMappingKey(key).SimpleKey?
    ensures EntryText(key, value, indent)
         == SimpleKeyText(key, indent) + SimpleValueText(value, indent, indent + |SimpleKeyText(key, indent)|)
  {
  }

  /** An explicit key and the colon on the line under it. */
  function ExplicitKeyLines(key: string, indent: nat): string {
    "? " + ExplicitKeyText(key, indent) + "\n" + Spaces(indent) + ":"
  }

  lemma ExplicitEntry(key: string, value: Node, indent: nat)
    requires ClassifyMappingKey(key).ExplicitKey?
    ensures EntryText(key, value, indent) == ExplicitKeyLines(key, indent) + ExplicitValueText(value, indent)
  {
  }

  /** The explicit branch of `write_yaml_mapping_entry`, up to the colon. */
  method WriteExplicitKey(key: string, indent: nat, output: Output)
    requires CurrentColumn(output.text) == indent
    modifies output
    ensures output.text == old(output.text) + ExplicitKeyLines(key, indent)
    ensures CurrentColumn(output.text) == indent + 1
  {
    ColumnAdvances(output.text, "? ");
    output.PushStr("? ");
    var context := ScalarContext(CurrentColumn(output.text), indent + INDENT_WIDTH, YAML_WIDTH);
    var keyText := FormatStringWithContext(key, context);
    output.PushStr(keyText);
    ColumnEnds(output.text, "\n");
    output.PushStr("\n");
    ColumnAdvances(output.text, Spaces(indent));
    output.PushStr(Spaces(indent));
    ColumnAdvances(output.text, ":");
    output.PushStr(":");
    Joined(old(output.text), "? ", keyText, "\n");
    Joined(old(output.text), "? " + keyText + "\n", Spaces(indent), ":");
  }

  /** `write_simple_mapping_value`. */
  method WriteSimpleMappingValue(value: Json, indent: nat, output: Output)
    modifies output
    ensures CurrentColumn(output.text) == 0
    ensures output.text == old(output.text) + SimpleValueText(ToNode(value), indent, CurrentColumn(old(output.text)))
    decreases ToNode(value), 5
  {
    SimpleValueByKind(value, indent, CurrentColumn(output.text));
    if value == Obj([]) || value == Arr([]) {
      WriteEmpty(": ", value, output);
    } else if value.Obj? || value.Arr? {
      output.PushStr(":\n");
      ColumnEnds(old(output.text), ":\n");
      WriteYamlValue(value, if value.Obj? then indent + 2 else indent, output);
      Joined(old(output.text), ":\n", BlockText(ToNode(value), if value.Obj? then indent + 2 else indent), "");
    } else {
      WriteScalarLine(": ", value, indent, output);
    }
  }

  /** The text behind a simple key, by the kind of its value. */
  lemma SimpleValueByKind(value: Json, indent: nat, column: nat)
    ensures value == Obj([]) || value == Arr([]) ==>
      SimpleValueText(ToNode(value), indent, column) == ": " + EmptyText(value)
    ensures (value.Obj? && value != Obj([])) || (value.Arr? && value != Arr([])) ==>
      SimpleValueText(ToNode(value), indent, column)
        == ":\n" + BlockText(ToNode(value), if value.Obj? then indent + 2 else indent)
    ensures !value.Obj? && !value.Arr? ==>
      SimpleValueText(ToNode(value), indent, column)
        == ": " + (ScalarText(ToNode(value), indent + 2, column + 2) + "\n")
  {
    if value.Obj? && value != Obj([]) {
      SortedNodes(value.entries, 0);
    } else if !value.Obj? && !value.Arr? {
      SimpleScalar(ToNode(value), indent, column);
    }
  }

  lemma SimpleScalar(value: Node, indent: nat, column: nat)
    requires IsScalar(value)
    ensures SimpleValueText(value, indent, column) == ": " + (ScalarText(value, indent + 2, column + 2) + "\n")
  {
    Joined("", ": ", ScalarText(value, indent + 2, column + 2), "\n");
  }

  /** `write_explicit_mapping_value`. */
  method WriteExplicitMappingValue(value: Json, indent: nat, output: Output)
    requires CurrentColumn(output.text) == indent + 1
    modifies output
    ensures CurrentColumn(output.text) == 0
    ensures output.text == old(output.text) + ExplicitValueText(ToNode(value), indent)
    decreases ToNode(value), 5
  {
    ItemNodeText(value, indent + 2);
    if value == Obj([]) || value == Arr([]) {
      WriteEmpty(" ", value, output);
    } else if value.Obj? {
      ColumnAdvances(output.text, " ");
      output.PushStr(" ");
      WriteYamlMappingEntries(value.entries, indent + 2, true, output);
      Joined(old(output.text), " ", NodeText(ToNode(value), indent + 2, indent + 2), "");
    } else if value.Arr? {
      ColumnAdvances(output.text, " ");
      output.PushStr(" ");
      WriteYamlSequenceWithFirst(value.items, indent + 2, true, output);
      Joined(old(output.text), " ", NodeText(ToNode(value), indent + 2, indent + 2), "");
    } else {
      WriteScalarLine(" ", value, indent, output);
    }
  }

  /** `write_yaml_sequence`. */
  method WriteYamlSequence(values: seq<Json>, indent: nat, output: Output)
    requires CurrentColumn(output.text) == 0
    modifies output
    ensures output.text == old(output.text) + BlockText(ToNode(Arr(values)), indent)
    ensures CurrentColumn(output.text) == 0
    decreases ToNode(Arr(values)), 2
  {
    if values == [] {
      output.PushStr(Spaces(indent));
      output.PushStr("[]\n");
      Joined(old(output.text), Spaces(indent), "[]\n", "");
      ColumnEnds(old(output.text) + Spaces(indent), "[]\n");
      return;
    }
    WriteYamlSequenceWithFirst(values, indent, false, output);
  }

  /** `str::trim_start_matches(' ')`. */
  function TrimStart(s: string): string {
    if s != "" && s[0] == ' ' then TrimStart(s[1..]) else s
  }

  lemma {:induction false} TrimIndent(indent: nat, text: string)
    requires text != "" && text[0] != ' '
    ensures TrimStart(Spaces(indent) + text) == text
  {
    if indent == 0 {
      assert Spaces(indent) + text == text;
    } else {
      assert (Spaces(indent) + text)[1..] == Spaces(indent - 1) + text;
      TrimIndent(indent - 1, text);
    }
  }

  lemma ItemsUnfold(nodes: seq<Node>, text: string, indent: nat, inline: bool)
    requires nodes != []
    ensures text + ItemsFrom(nodes, indent, inline)
         == (if inline then text else text + Spaces(indent)) + ("- " + NodeText(nodes[0], indent + 2, indent + 2))
            + NextItemsText(nodes[1..], indent)
  {
    var first := "- " + NodeText(nodes[0], indent + 2, indent + 2);
    var rest := NextItemsText(nodes[1..], indent);
    assert ItemsText(nodes, indent) == first + rest;
    Joined(text, first, rest, "");
    Joined(text, Spaces(indent), first, rest);
  }

  /** `write_yaml_sequence_with_first`. */
  method WriteYamlSequenceWithFirst(values: seq<Json>, indent: nat, firstInline: bool, output: Output)
    requires values != [] && AtStart(output.text, indent, firstInline)
    modifies output
    ensures CurrentColumn(output.text) == 0
    ensures output.text == old(output.text) + ItemsFrom(ToNodes(values), indent, firstInline)
    decreases ToNode(Arr(values)), 1
  {
    ghost var nodes := ToNodes(values);
    ghost var whole := output.text + ItemsFrom(nodes, indent, firstInline);
    var index := 0;
    assert nodes[0..] == nodes;
    while index < |values|
      invariant 0 <= index <= |values|
      invariant AtStart(output.text, indent, firstInline && index == 0)
      invariant output.text + ItemsFrom(nodes[index..], indent, firstInline && index == 0) == whole
    {
      WriteItemLine(values[index], indent, firstInline && index == 0, output, nodes[index..]);
      assert nodes[index..][1..] == nodes[index + 1..];
      index := index + 1;
    }
  }

  method WriteItemLine(value: Json, indent: nat, inline: bool, output: Output, ghost nodes: seq<Node>)
    requires nodes != [] && nodes[0] == ToNode(value) && AtStart(output.text, indent, inline)
    modifies output
    ensures CurrentColumn(output.text) == 0
    ensures output.text + NextItemsText(nodes[1..], indent) == old(output.text) + ItemsFrom(nodes, indent, inline)
    decreases ToNode(value), 5, 1
  {
    ItemsUnfold(nodes, output.text, indent, inline);
    WriteItem(value, indent, inline, output);
  }

  /**
   * The body of the item loop. A nested sequence is written to a buffer of its
   * own and moved up behind the dash; the text is that of writing it in place.
   */
  method WriteItem(value: Json, indent: nat, inline: bool, output: Output)
    requires AtStart(output.text, indent, inline)
    modifies output
    ensures CurrentColumn(output.text) == 0
    ensures output.text == (if inline then old(output.text) else old(output.text) + Spaces(indent))
      + ("- " + NodeText(ToNode(value), indent + 2, indent + 2))
    decreases ToNode(value), 5, 0
  {
    ItemNodeText(value, indent + 2);
    if value == Obj([]) || value == Arr([]) {
      WriteSequencePrefix(indent, inline, output);
      WriteEmpty("- ", value, output);
    } else if value.Obj? {
      WriteYamlSequenceMapping(value.entries, indent, inline, output);
    } else if value.Arr? {
      WriteNestedSequence(value.items, indent, inline, output);
    } else {
      WriteSequencePrefix(indent, inline, output);
      WriteScalarLine("- ", value, indent, output);
    }
  }

  /** An empty collection behind `lead`. */
  method WriteEmpty(lead: string, value: Json, output: Output)
    requires value == Obj([]) || value == Arr([])
    modifies output
    ensures output.text == old(output.text) + (lead + EmptyText(value))
    ensures CurrentColumn(output.text) == 0
  {
    output.PushStr(lead + EmptyText(value));
    ColumnEnds(old(output.text), lead + EmptyText(value));
  }

  function EmptyText(value: Json): string {
    if value.Obj? then "{}\n" else "[]\n"
  }

  /** The text of a node, by the kind of its value. */
  lemma ItemNodeText(value: Json, indent: nat)
    ensures value == Obj([]) || value == Arr([]) ==> NodeText(ToNode(value), indent, indent) == EmptyText(value)
    ensures value.Obj? && value != Obj([]) ==>
      NodeText(ToNode(value), indent, indent) == EntriesText(SortByKey(ToNodeEntries(value.entries)), indent)
    ensures value.Arr? && value != Arr([]) ==>
      NodeText(ToNode(value), indent, indent) == ItemsText(ToNodes(value.items), indent)
    ensures !value.Obj? && !value.Arr? ==>
      NodeText(ToNode(value), indent, indent) == ScalarText(ToNode(value), indent, indent) + "\n"
  {
    if value.Obj? && value != Obj([]) {
      SortedNodes(value.entries, 0);
    }
  }

  method WriteNestedSequence(values: seq<Json>, indent: nat, inline: bool, output: Output)
    requires values != [] && AtStart(output.text, indent, inline)
    modifies output
    ensures CurrentColumn(output.text) == 0
    ensures output.text == (if inline then old(output.text) else old(output.text) + Spaces(indent))
      + ("- " + ItemsText(ToNodes(values), indent + 2))
    decreases ToNode(Arr(values)), 4
  {
    var trimmed := NestedSequence(values, indent + 2);
    WriteSequencePrefix(indent, inline, output);
    ghost var before := output.text;
    output.PushStr("- ");
    output.PushStr(trimmed);
    ColumnEnds(before + "- ", trimmed);
    Joined(before, "- ", trimmed, "");
  }

  /** A sequence written to a buffer of its own, without the blanks of its first line. */
  method NestedSequence(values: seq<Json>, indent: nat) returns (trimmed: string)
    requires values != []
    ensures trimmed == ItemsText(ToNodes(values), indent)
    ensures trimmed != "" && trimmed[|trimmed| - 1] == '\n'
    decreases ToNode(Arr(values)), 3
  {
    var nested := new Output();
    WriteYamlSequence(values, indent, nested);
    SequenceBlock(values, indent);
    NestedText(ToNodes(values), indent, nested.text);
    trimmed := TrimStart(nested.text);
  }

  lemma SequenceBlock(values: seq<Json>, indent: nat)
    requires values != []
    ensures BlockText(ToNode(Arr(values)), indent) == NextItemsText(ToNodes(values), indent)
  {
  }

  /** Trimming the blanks of a sequence written on its own leaves what writing it in place would give. */
  lemma NestedText(nodes: seq<Node>, indent: nat, text: string)
    requires nodes != [] && text == "" + NextItemsText(nodes, indent) && CurrentColumn(text) == 0
    ensures TrimStart(text) == ItemsText(nodes, indent)
    ensures ItemsText(nodes, indent) != "" && ItemsText(nodes, indent)[|ItemsText(nodes, indent)| - 1] == '\n'
  {
    var items := ItemsText(nodes, indent);
    assert items[0] == '-';
    assert text == Spaces(indent) + items;
    TrimIndent(indent, items);
    assert items[|items| - 1] == text[|text| - 1];
  }

  /** `write_sequence_prefix`. */
  method WriteSequencePrefix(indent: nat, inline: bool, output: Output)
    requires AtStart(output.text, indent, inline)
    modifies output
    ensures output.text == if inline then old(output.text) else old(output.text) + Spaces(indent)
    ensures CurrentColumn(output.text) == indent
  {
    if !inline {
      ColumnAdvances(output.text, Spaces(indent));
      output.PushStr(Spaces(indent));
    }
  }

  /** `write_yaml_sequence_mapping`: behind the dash, its loop is the one of the entries with the first inline. */
  method WriteYamlSequenceMapping(entries: seq<Entry<Json>>, indent: nat, firstInline: bool, output: Output)
    requires entries != [] && AtStart(output.text, indent, firstInline)
    modifies output
    ensures CurrentColumn(output.text) == 0
    ensures output.text == (if firstInline then old(output.text) else old(output.text) + Spaces(indent))
      + ("- " + EntriesText(SortByKey(ToNodeEntries(entries)), indent + 2))
    decreases ToNode(Obj(entries)), 2
  {
    WriteSequencePrefix(indent, firstInline, output);
    ghost var before := output.text;
    ghost var text := EntriesFrom(SortByKey(ToNodeEntries(entries)), indent + 2, true);
    ColumnAdvances(before, "- ");
    output.PushStr("- ");
    WriteYamlMappingEntries(entries, indent + 2, true, output);
    assert output.text == before + "- " + text;
    Joined(before, "- ", text, "");
  }

  lemma BlockTextIsDump(node: Node)
    ensures BlockText(node, 0) == DumpText(node)
  {
    assert Spaces(0) == "";
    assert Spaces(0) + "[]\n" == "[]\n";
    if node.MappingNode? {
      assert Spaces(0) + EntriesText(node.entries, 0) == EntriesText(node.entries, 0);
    } else if node.SequenceNode? {
      assert Spaces(0) + ItemsText(node.items, 0) == ItemsText(node.items, 0);
    }
  }

  /** `py_yaml_dump`: never fails, and writes the text of the document of its value. */
  method PyYamlDump(value: Json) returns (r: Result<string>)
    ensures r == Ok(DumpText(ToNode(value)))
  {
    var output := new Output();
    WriteYamlValue(value, 0, output);
    BlockTextIsDump(ToNode(value));
    assert "" + DumpText(ToNode(value)) == DumpText(ToNode(value));
    r := Ok(output.text);
  }
}
