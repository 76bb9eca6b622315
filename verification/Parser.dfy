/**
 * A reader of emitted documents: the inverse of `Emitter.DumpText`, and what a YAML reader makes of them.
 * The exact reading undoes what the writer did; the YAML reading folds the lines of all three styles as sections
 * 6.5 and 7.3 of YAML 1.2.2 have it.
 */
module Parser {
  import opened Text
  import opened Resolver
  import opened Json
  import opened Scalars
  import opened DoubleQuoted
  import opened Emitter
  import Folding
  import Lines

  predicate StartsQuote(text: string) {
    text != "" && (text[0] == '\'' || text[0] == '\"')
  }

  function ReadString(text: string, indent: nat, reading: Reading): (r: Parsed<string>)
    ensures r.Parsed? ==> |r.rest| <= |text|
  {
    if text != "" && text[0] == '\"' then ReadDouble(text[1..], indent, reading)
    else if reading.Yaml? then Folding.FoldString(text, indent)
    else if text != "" && text[0] == '\'' then ReadQuoted(text[1..], indent)
    else ReadPlain(text, indent)
  }

  /** Implicit typing of a plain scalar. */
  function Resolve(s: string): Node {
    if s == "null" then NullNode
    else if s == "true" then BoolNode(true)
    else if s == "false" then BoolNode(false)
    else if ResemblesImplicitScalar(s) then NumberNode(s)
    else StringNode(s)
  }

  function ReadPlainKey(text: string): (r: Parsed<string>)
    ensures r.Parsed? ==> |r.rest| <= |text| && r.rest != "" && r.rest[0] == ':'
  {
    if text == "" || text[0] == '\n' then Failed
    else if text[0] == ':' && |text| > 1 && (text[1] == ' ' || text[1] == '\n') then Parsed("", text)
    else Prepend([text[0]], ReadPlainKey(text[1..]))
  }

  /** A key on one line, with its colon still to be read. */
  function ReadSimpleKey(text: string, indent: nat, reading: Reading): (r: Parsed<string>)
    ensures r.Parsed? ==> |r.rest| <= |text| && r.rest != "" && r.rest[0] == ':'
  {
    if StartsQuote(text) then
      match ReadString(text, indent, reading)
      case Failed => Failed
      case Parsed(key, rest) => if rest != "" && rest[0] == ':' then Parsed(key, rest) else Failed
    else ReadPlainKey(text)
  }

  /** An empty collection or a scalar, up to the end of its line. */
  function ParseLeaf(text: string, indent: nat, reading: Reading): (r: Parsed<Node>)
    ensures r.Parsed? ==> |r.rest| < |text|
  {
    if "{}\n" <= text then Parsed(MappingNode([]), text[3..])
    else if "[]\n" <= text then Parsed(SequenceNode([]), text[3..])
    else
      match ReadString(text, indent, reading)
      case Failed => Failed
      case Parsed(s, rest) =>
        if rest == "" || rest[0] != '\n' then Failed
        else Parsed(if StartsQuote(text) then StringNode(s) else Resolve(s), rest[1..])
  }

  /** A node on a line already read up to column `indent`. */
  function ParseNode(text: string, indent: nat, continuationIndent: nat, reading: Reading): (r: Parsed<Node>)
    ensures r.Parsed? ==> |r.rest| < |text|
    decreases |text|, 4
  {
    if "- " <= text then
      match ParseItems(text, indent, reading)
      case Failed => Failed
      case Parsed(items, rest) => Parsed(SequenceNode(items), rest)
    else if "? " <= text || ReadSimpleKey(text, continuationIndent, reading).Parsed? then
      match ParseEntries(text, indent, reading)
      case Failed => Failed
      case Parsed(entries, rest) => Parsed(MappingNode(entries), rest)
    else ParseLeaf(text, continuationIndent, reading)
  }

  function ParseItems(text: string, indent: nat, reading: Reading): (r: Parsed<seq<Node>>)
    ensures r.Parsed? ==> |r.rest| < |text|
    decreases |text|, 3
  {
    if !("- " <= text) then Failed
    else
      match ParseNode(text[2..], indent + 2, indent + 2, reading)
      case Failed => Failed
      case Parsed(node, rest) =>
        if AtItem(rest, indent) then
          match ParseItems(rest[indent..], indent, reading)
          case Failed => Failed
          case Parsed(nodes, rest') => Parsed([node] + nodes, rest')
        else Parsed([node], rest)
  }

  function ParseEntries(text: string, indent: nat, reading: Reading): (r: Parsed<seq<Entry<Node>>>)
    ensures r.Parsed? ==> |r.rest| < |text|
    decreases |text|, 3
  {
    match ParseEntry(text, indent, reading)
    case Failed => Failed
    case Parsed(entry, rest) =>
      if AtIndent(rest, indent) then
        match ParseEntries(rest[indent..], indent, reading)
        case Failed => Failed
        case Parsed(entries, rest') => Parsed([entry] + entries, rest')
      else Parsed([entry], rest)
  }

  function ParseEntry(text: string, indent: nat, reading: Reading): (r: Parsed<Entry<Node>>)
    ensures r.Parsed? ==> |r.rest| < |text|
    decreases |text|, 2
  {
    if "? " <= text then
      match ReadString(text[2..], indent + INDENT_WIDTH, reading)
      case Failed => Failed
      case Parsed(key, rest) => ParseExplicitValue(key, rest, indent, reading)
    else
      match ReadSimpleKey(text, indent + INDENT_WIDTH, reading)
      case Failed => Failed
      case Parsed(key, rest) =>
        match ParseSimpleValue(rest[1..], indent, reading)
        case Failed => Failed
        case Parsed(value, rest') => Parsed(Entry(key, value), rest')
  }

  /** After an explicit key: a colon on a line of its own, then the value. */
  function ParseExplicitValue(key: string, text: string, indent: nat, reading: Reading): (r: Parsed<Entry<Node>>)
    ensures r.Parsed? ==> |r.rest| < |text|
    decreases |text|, 5
  {
    if text == "" || text[0] != '\n' || !AtIndent(text[1..], indent) then Failed
    else
      var line := text[1 + indent..];
      if !(": " <= line) then Failed
      else
        match ParseNode(line[2..], indent + 2, indent + 2, reading)
        case Failed => Failed
        case Parsed(value, rest) => Parsed(Entry(key, value), rest)
  }

  /** After a simple key and its colon. */
  function ParseSimpleValue(text: string, indent: nat, reading: Reading): (r: Parsed<Node>)
    ensures r.Parsed? ==> |r.rest| < |text|
    decreases |text|, 5
  {
    if text == "" then Failed
    else if text[0] == ' ' then ParseLeaf(text[1..], indent + 2, reading)
    else if text[0] != '\n' then Failed
    else if AtItem(text[1..], indent) then
      match ParseItems(text[1..][indent..], indent, reading)
      case Failed => Failed
      case Parsed(items, rest) => Parsed(SequenceNode(items), rest)
    else if AtIndent(text[1..], indent + 2) then
      match ParseEntries(text[1..][indent + 2..], indent + 2, reading)
      case Failed => Failed
      case Parsed(entries, rest) => Parsed(MappingNode(entries), rest)
    else Failed
  }

  /** Reads a whole key text. */
  function Parse(text: string, reading: Reading): Option<Node> {
    match ParseNode(text, 0, 2, reading)
    case Parsed(node, "") => Some(node)
    case _ => None
  }

  // ----- strings and their places -----

  /** What a reading makes of a string formatted in a context. */
  ghost function ReadBack(value: string, context: ScalarContext, reading: Reading): string {
    if reading.Exact? then value
    else if NeedsDoubleQuotedString(value) then
      DoubleContent(value, 0, context.initialColumn + 1, context.continuationIndent, context.width, Yaml)
    else Folding.FoldedContent(value, context)
  }

  /** What may follow a scalar at the end of its line: no line of blanks, and no line at its continuation indent. */
  predicate EndsString(rest: string, indent: nat) {
    EndsPlain(rest, indent) && Folding.EndsFold(rest, indent)
  }

  lemma QuotedStyle(value: string)
    ensures !(ClassifyStringScalar(value).Plain?) ==> forall context ::
      FormatString(value, context)
        == if NeedsDoubleQuotedString(value) then DoubleText(value, context) else QuotedText(value, context)
    ensures forall context :: ClassifyStringScalar(value).Plain? ==>
      FormatString(value, context) == Wrapped(value, context.initialColumn, context.continuationIndent, context.width)
  {
  }

  lemma OpensWithQuote(quote: char, tail: string, rest: string)
    requires quote == '\"' || quote == '\''
    ensures StartsQuote(Quoted(quote, tail) + rest)
  {
  }

  lemma ReadDoubleText(value: string, context: ScalarContext, rest: string, reading: Reading)
    requires NeedsDoubleQuotedString(value)
    ensures ReadString(DoubleText(value, context) + rest, context.continuationIndent, reading)
      == Parsed(ReadBack(value, context, reading), rest)
  {
    hide DoubleTail, DoubleContent, ReadDouble;
    var column, indent, width := context.initialColumn + 1, context.continuationIndent, context.width;
    ReadDoubleTail(value, 0, column, indent, width, reading, rest);
    DoubleContentGrows(value, 0, column, indent, width, reading);
    assert value[0..] == value;
    BehindQuote('\"', DoubleTail(value, 0, column, indent, width), rest);
  }

  lemma ReadQuotedText(value: string, context: ScalarContext, rest: string)
    requires context.continuationIndent > 0 && (rest == "" || rest[0] != '\'')
    ensures ReadString(QuotedText(value, context) + rest, context.continuationIndent, Exact) == Parsed(value, rest)
  {
    hide QuotedTail;
    var tail := QuotedTail(value, context.initialColumn + 1, context.continuationIndent, context.width);
    ReadQuotedTail(value, context.initialColumn + 1, context.continuationIndent, context.width, rest);
    BehindQuote('\'', tail, rest);
  }

  lemma QuotedStarts(value: string, context: ScalarContext, rest: string)
    ensures StartsQuote(DoubleText(value, context) + rest) && StartsQuote(QuotedText(value, context) + rest)
    ensures (QuotedText(value, context) + rest)[0] == '\''
  {
    OpensWithQuote('\"', DoubleTail(value, 0, context.initialColumn + 1, context.continuationIndent, context.width),
      rest);
    OpensWithQuote('\'', QuotedTail(value, context.initialColumn + 1, context.continuationIndent, context.width), rest);
  }

  /** A string in a quoted style is read whatever follows its closing quote. */
  lemma ReadQuotedString(value: string, context: ScalarContext, rest: string, reading: Reading)
    requires !ClassifyStringScalar(value).Plain? && context.continuationIndent > 0
    requires rest == "" || rest[0] != '\''
    ensures StartsQuote(FormatString(value, context) + rest)
    ensures ReadString(FormatString(value, context) + rest, context.continuationIndent, reading)
      == Parsed(ReadBack(value, context, reading), rest)
  {
    hide DoubleText, QuotedText, Folding.FoldString, Folding.FoldedContent;
    QuotedStyle(value);
    QuotedStarts(value, context, rest);
    if NeedsDoubleQuotedString(value) {
      ReadDoubleText(value, context, rest, reading);
    } else if reading.Exact? {
      ReadQuotedText(value, context, rest);
    } else {
      Folding.FoldQuotedText(value, context, rest);
    }
  }

  /** What plain style guarantees about its string. */
  lemma PlainFacts(value: string)
    requires ClassifyStringScalar(value).Plain?
    ensures NoNewline(value) && AllPrintable(value) && !NeedsDoubleQuotedString(value)
    ensures value != "" && value[0] != ' ' && value[0] !in "[{'\""
    ensures value[0] in "-?:" ==> |value| > 1 && value[1] != ' '
    ensures !HasPair(value, ':', ' ') && value[|value| - 1] != ':'
    ensures !ResemblesImplicitScalar(value)
  {
    PlainIsPrintable(value);
  }

  lemma PlainStarts(value: string, context: ScalarContext, rest: string)
    requires ClassifyStringScalar(value).Plain?
    ensures var text := FormatString(value, context) + rest; text != "" && text[0] == value[0] && !StartsQuote(text)
  {
    PlainFacts(value);
  }

  lemma ReadPlainString(value: string, context: ScalarContext, rest: string, reading: Reading)
    requires ClassifyStringScalar(value).Plain? && EndsString(rest, context.continuationIndent)
    ensures ReadString(FormatString(value, context) + rest, context.continuationIndent, reading)
      == Parsed(ReadBack(value, context, reading), rest)
  {
    hide Folding.FoldString, Folding.FoldedContent, Folding.EndsFold, ReadPlain;
    PlainFacts(value);
    PlainStarts(value, context, rest);
    if reading.Exact? {
      ReadWrapped(value, context.initialColumn, context.continuationIndent, context.width, rest);
    } else {
      Folding.FoldPlainText(value, context, rest);
    }
  }

  /** Every formatted string is read at the end of its line: back to itself by the exact reading, folded by YAML's. */
  lemma ReadFormattedString(value: string, context: ScalarContext, rest: string, reading: Reading)
    requires context.continuationIndent > 0 && EndsString(rest, context.continuationIndent)
    ensures ReadString(FormatString(value, context) + rest, context.continuationIndent, reading)
      == Parsed(ReadBack(value, context, reading), rest)
  {
    hide Folding.EndsFold;
    if ClassifyStringScalar(value).Plain? {
      ReadPlainString(value, context, rest, reading);
    } else {
      ReadQuotedString(value, context, rest, reading);
    }
  }

  /** Without a limit nothing is lost. */
  lemma DoubleUnlimited(value: string, column: nat, indent: nat, reading: Reading)
    ensures DoubleContent(value, 0, column, indent, Unlimited, reading) == value
  {
    hide DoubleContent, GuardsHold;
    GuardsHoldWithin(value, 0, column, indent, Unlimited);
    DoubleContentGrows(value, 0, column, indent, Unlimited, reading);
    assert value[0..] == value;
  }

  lemma ReadBackUnlimited(value: string, column: nat, indent: nat, reading: Reading)
    ensures ReadBack(value, ScalarContext(column, indent, Unlimited), reading) == value
  {
    hide DoubleContent, NeedsDoubleQuotedString, Folding.FoldedContent, Folding.WrapsAtSingleSpaces;
    var context := ScalarContext(column, indent, Unlimited);
    Folding.UnlimitedStandsAlone(value, context);
    Folding.FoldedContentLoses(value, context);
    DoubleUnlimited(value, column + 1, indent, Yaml);
  }

  // ----- keys and plain scalars are told apart -----

  /** No colon and blank side by side, and no colon at the end. */
  predicate KeyLike(key: string) {
    NoNewline(key) && !HasPair(key, ':', ' ') && (key != "" ==> key[|key| - 1] != ':')
  }

  lemma KeyLikeTail(key: string)
    requires KeyLike(key) && key != ""
    ensures KeyLike(key[1..])
    ensures key[0] == ':' ==> |key| > 1 && key[1] != ' ' && key[1] != '\n'
  {
    forall k | 0 <= k < |key[1..]| - 1 ensures !(key[1..][k] == ':' && key[1..][k + 1] == ' ') {
      assert key[k + 1] == key[1..][k] && key[k + 2] == key[1..][k + 1];
    }
  }

  lemma {:induction false} ReadPlainKeyOf(key: string, rest: string)
    requires KeyLike(key)
    requires |rest| > 1 && rest[0] == ':' && (rest[1] == ' ' || rest[1] == '\n')
    ensures ReadPlainKey(key + rest) == Parsed(key, rest)
  {
    if key == "" {
      assert key + rest == rest;
    } else {
      assert (key + rest)[1..] == key[1..] + rest;
      KeyLikeTail(key);
      ReadPlainKeyOf(key[1..], rest);
      assert key == [key[0]] + key[1..];
    }
  }

  /** The first line of a plain scalar holds no key. */
  lemma {:induction false} NoKeyInPlain(value: string, column: nat, indent: nat, width: Width, rest: string)
    requires NoNewline(value) && !HasPair(value, ':', ' ') && (value != "" ==> value[|value| - 1] != ':')
    requires rest != "" && rest[0] == '\n'
    ensures ReadPlainKey(Wrapped(value, column, indent, width) + rest).Failed?
  {
    var text := Wrapped(value, column, indent, width) + rest;
    if value == "" {
      assert text == rest;
    } else if !(value[0] == ' ' && Exceeds(column, width) && |value| > 1) {
      assert text[1..] == Wrapped(value[1..], column + 1, indent, width) + rest;
      forall k | 0 <= k < |value[1..]| - 1 ensures !(value[1..][k] == ':' && value[1..][k + 1] == ' ') {
        assert value[k + 1] == value[1..][k] && value[k + 2] == value[1..][k + 1];
      }
      NoKeyInPlain(value[1..], column + 1, indent, width, rest);
      if value[0] == ':' {
        assert |value| > 1 && !(value[0] == ':' && value[0 + 1] == ' ');
        assert text[1] == value[1];
      }
    }
  }

  lemma SimpleKeyFacts(key: string)
    requires ClassifyMappingKey(key).SimpleKey?
    ensures key != "" && NoNewline(key)
  {
  }

  lemma ReadPlainSimpleKey(key: string, indent: nat, readIndent: nat, rest: string, reading: Reading)
    requires ClassifyStringScalar(key).Plain? && NoNewline(key)
    requires |rest| > 1 && rest[0] == ':' && (rest[1] == ' ' || rest[1] == '\n')
    ensures SimpleKeyText(key, indent) == key
    ensures ReadSimpleKey(key + rest, readIndent, reading) == Parsed(key, rest)
  {
    hide ReadPlainKey, ClassifyStringScalar, Wrapped, ReadString;
    PlainFacts(key);
    QuotedStyle(key);
    WrappedUnlimited(key, indent, indent + INDENT_WIDTH, Unlimited);
    ReadPlainKeyOf(key, rest);
  }

  lemma ReadQuotedSimpleKey(key: string, indent: nat, readIndent: nat, rest: string, reading: Reading)
    requires !ClassifyStringScalar(key).Plain? && NoNewline(key) && readIndent > 0
    requires |rest| > 1 && rest[0] == ':' && (rest[1] == ' ' || rest[1] == '\n')
    ensures StartsQuote(SimpleKeyText(key, indent) + rest)
    ensures ReadSimpleKey(SimpleKeyText(key, indent) + rest, readIndent, reading) == Parsed(key, rest)
  {
    hide ReadPlainKey, ClassifyStringScalar, FormatString, ReadString, ReadBack;
    FormatStringUnlimited(key, indent, indent + INDENT_WIDTH, indent, readIndent);
    ReadBackUnlimited(key, indent, readIndent, reading);
    ReadQuotedString(key, ScalarContext(indent, readIndent, Unlimited), rest, reading);
  }

  lemma SimpleKeyNotEmpty(key: string, indent: nat)
    ensures key != "" ==> SimpleKeyText(key, indent) != ""
  {
  }

  /** A simple key is read back from any continuation indent, and cannot be mistaken for another construct. */
  lemma ReadSimpleKeyOf(key: string, indent: nat, readIndent: nat, rest: string, reading: Reading)
    requires ClassifyMappingKey(key).SimpleKey? && readIndent > 0
    requires |rest| > 1 && rest[0] == ':' && (rest[1] == ' ' || rest[1] == '\n')
    ensures ReadSimpleKey(SimpleKeyText(key, indent) + rest, readIndent, reading) == Parsed(key, rest)
    ensures SimpleKeyText(key, indent) != "" && !Lines.IsWhite(SimpleKeyText(key, indent)[0])
    ensures !("- " <= SimpleKeyText(key, indent) + rest) && !("? " <= SimpleKeyText(key, indent) + rest)
  {
    hide ReadSimpleKey, ClassifyStringScalar, SimpleKeyText;
    SimpleKeyFacts(key);
    SimpleKeyNotEmpty(key, indent);
    if ClassifyStringScalar(key).Plain? {
      PlainFacts(key);
      ReadPlainSimpleKey(key, indent, readIndent, rest, reading);
      assert (key + rest)[0] == key[0];
      assert |key| > 1 ==> (key + rest)[1] == key[1];
    } else {
      ReadQuotedSimpleKey(key, indent, readIndent, rest, reading);
      assert (SimpleKeyText(key, indent) + rest)[0] == SimpleKeyText(key, indent)[0];
    }
  }

  // ----- what follows a block -----

  /** `rest` does not open with a line of blanks. */
  predicate OpensLine(rest: string) {
    rest == "" || (Folding.BlankRun(rest) < |rest| && rest[Folding.BlankRun(rest)] != '\n')
  }

  /** No line of `rest` stands at `indent`. */
  predicate EndsBlock(rest: string, indent: nat) {
    !AtIndent(rest, indent) && OpensLine(rest)
  }

  /** No line of `rest` continues a sequence, or anything deeper, at `indent`. */
  predicate EndsItems(rest: string, indent: nat) {
    !AtItem(rest, indent) && !AtIndent(rest, indent + 1) && OpensLine(rest)
  }

  lemma {:induction false} BlanksOf(blanks: nat, line: string)
    requires line != "" && line[0] != ' '
    ensures Folding.BlankRun(Spaces(blanks) + line) == blanks
  {
    if blanks > 0 {
      assert (Spaces(blanks) + line)[1..] == Spaces(blanks - 1) + line;
      BlanksOf(blanks - 1, line);
    } else {
      assert Spaces(blanks) + line == line;
    }
  }

  lemma IndentedOpensLine(blanks: nat, line: string)
    requires line != "" && !Lines.IsWhite(line[0])
    ensures OpensLine(Spaces(blanks) + line)
  {
    BlanksOf(blanks, line);
    assert (Spaces(blanks) + line)[blanks] == line[0];
  }

  lemma FoldEndsAt(blanks: nat, more: string, indent: nat)
    requires more != "" && !Lines.IsWhite(more[0]) && blanks < indent
    ensures Folding.EndsFold("\n" + (Spaces(blanks) + more), indent)
  {
    hide Lines.Feeds, Lines.Indentation, Lines.WhiteRun;
    var white := Newlines(1) + Spaces(blanks) + "";
    Lines.FeedsOfBreak(1, blanks, "");
    Lines.NoFeeds();
    Lines.LineEndOf(white, more);
    assert white + more == "\n" + (Spaces(blanks) + more);
  }

  lemma FoldEndsText(indent: nat)
    ensures Folding.EndsFold("\n", indent)
  {
    assert "\n"[..1] == "\n" && Lines.WhiteRun("\n") == 1;
    assert "\n"[1..] == "";
  }

  /** The line feed in front of such a rest ends the string before it. */
  lemma LineFeedEnds(rest: string, indent: nat)
    requires EndsBlock(rest, indent)
    ensures EndsString("\n" + rest, indent)
  {
    hide Folding.EndsFold;
    assert ("\n" + rest)[1..] == rest;
    if rest == "" {
      FoldEndsText(indent);
      assert "\n" + rest == "\n";
    } else {
      var blanks := Folding.BlankRun(rest);
      assert rest == Spaces(blanks) + rest[blanks..];
      assert blanks < indent;
      FoldEndsAt(blanks, rest[blanks..], indent);
    }
  }

  // ----- scalars -----

  /** Text of a plain token: one line, no blank, no colon, opening like no other construct. */
  predicate IsToken(token: string) {
    && token != "" && token[0] !in "[{'\"?"
    && (token[0] == '-' ==> |token| > 1)
    && (forall k :: 0 <= k < |token| ==> token[k] != ' ' && token[k] != '\n' && token[k] != ':')
  }

  lemma ReadToken(token: string, indent: nat, after: string, reading: Reading)
    requires IsToken(token) && EndsString(after, indent)
    ensures ReadString(token + after, indent, reading) == Parsed(token, after)
  {
    WrappedUnlimited(token, 0, indent, Unlimited);
    if reading.Exact? {
      ReadWrapped(token, 0, indent, Unlimited, after);
    } else {
      Folding.FoldWrapped(token, 0, indent, Unlimited, after);
      Folding.PlainContentLoses(token, 0, indent, Unlimited);
      Folding.UnlimitedPlain(token, 0, indent, false);
    }
  }

  lemma TokenLeaf(token: string, indent: nat, rest: string, reading: Reading)
    requires IsToken(token) && EndsBlock(rest, indent)
    ensures ParseLeaf(token + "\n" + rest, indent, reading) == Parsed(Resolve(token), rest)
    ensures OpensScalar(token + "\n" + rest, indent, reading)
  {
    hide ReadString;
    var after := "\n" + rest;
    assert after[1..] == rest;
    assert token + "\n" + rest == token + after;
    LineFeedEnds(rest, indent);
    ReadToken(token, indent, after, reading);
    WrappedUnlimited(token, 0, indent, Unlimited);
    NoKeyInPlain(token, 0, indent, Unlimited, after);
  }

  /** `text` is taken neither for an item nor for an entry. */
  predicate OpensScalar(text: string, indent: nat, reading: Reading) {
    !("- " <= text) && !("? " <= text) && ReadSimpleKey(text, indent, reading).Failed?
  }

  /** What a reading makes of a string that is a node: a plain one is typed by what was read. */
  ghost function RereadString(value: string, context: ScalarContext, reading: Reading): Node {
    var read := ReadBack(value, context, reading);
    if ClassifyStringScalar(value).Plain? then Resolve(read) else StringNode(read)
  }

  /** The text of a plain string is taken neither for a collection nor for a key. */
  lemma PlainOpens(value: string, context: ScalarContext, rest: string)
    requires ClassifyStringScalar(value).Plain? && rest != "" && rest[0] == '\n'
    ensures var text := FormatString(value, context) + rest;
      && !StartsQuote(text) && !("- " <= text) && !("? " <= text) && !("{}\n" <= text) && !("[]\n" <= text)
      && ReadPlainKey(text).Failed?
  {
    hide ReadPlainKey, ClassifyStringScalar;
    var text := FormatString(value, context) + rest;
    PlainFacts(value);
    PlainStarts(value, context, rest);
    QuotedStyle(value);
    NoKeyInPlain(value, context.initialColumn, context.continuationIndent, context.width, rest);
    assert |value| > 1 && value[1] != ' ' ==> text[1] == value[1];
  }

  lemma StringLeaf(value: string, column: nat, indent: nat, rest: string, reading: Reading)
    requires indent > 0 && EndsBlock(rest, indent)
    ensures var text := FormatString(value, ScalarContext(column, indent, YAML_WIDTH)) + "\n" + rest;
      && ParseLeaf(text, indent, reading)
        == Parsed(RereadString(value, ScalarContext(column, indent, YAML_WIDTH), reading), rest)
      && OpensScalar(text, indent, reading)
  {
    hide ReadString, ReadBack, FormatString, ClassifyStringScalar, ReadPlainKey;
    var context := ScalarContext(column, indent, YAML_WIDTH);
    var after := "\n" + rest;
    var text := FormatString(value, context) + after;
    assert after[1..] == rest;
    assert FormatString(value, context) + "\n" + rest == text;
    LineFeedEnds(rest, indent);
    ReadFormattedString(value, context, after, reading);
    if ClassifyStringScalar(value).Plain? {
      PlainOpens(value, context, after);
    } else {
      ReadQuotedString(value, context, after, reading);
    }
  }

  lemma PlainIsNoWord(value: string)
    requires !ResemblesImplicitScalar(value)
    ensures Resolve(value) == StringNode(value)
  {
    assert "null" == NULL_WORDS[1] && "true" == BOOLEAN_WORDS[6] && "false" == BOOLEAN_WORDS[9];
  }

  lemma NumberTokenIsToken(token: string)
    requires IsNumberToken(token)
    ensures IsToken(token) && Resolve(token) == NumberNode(token)
  {
    hide ResemblesImplicitScalar;
  }

  /** What a reading makes of a scalar. */
  ghost function RereadScalar(node: Node, column: nat, indent: nat, reading: Reading): Node {
    match node
    case StringNode(s) => RereadString(s, ScalarContext(column, indent, YAML_WIDTH), reading)
    case _ => node
  }

  /** A scalar is read, and is taken for nothing else. */
  lemma ScalarLeaf(node: Node, column: nat, indent: nat, rest: string, reading: Reading)
    requires IsScalar(node) && Printable(node) && indent > 0 && EndsBlock(rest, indent)
    ensures var text := ScalarText(node, indent, column) + "\n" + rest;
      ParseLeaf(text, indent, reading) == Parsed(RereadScalar(node, column, indent, reading), rest)
      && OpensScalar(text, indent, reading)
  {
    hide ParseLeaf, OpensScalar, EndsBlock, RereadString;
    match node
    case StringNode(s) => StringLeaf(s, column, indent, rest, reading);
    case NumberNode(token) =>
      NumberTokenIsToken(token);
      TokenLeaf(token, indent, rest, reading);
    case NullNode => TokenLeaf("null", indent, rest, reading);
    case BoolNode(b) => TokenLeaf(if b then "true" else "false", indent, rest, reading);
  }

  // ----- what is read -----

  /** The document that a reading finds in the text of a node. */
  ghost function Reread(node: Node, indent: nat, continuationIndent: nat, reading: Reading): Node
    decreases node, 2
  {
    match node
    case MappingNode(entries) => MappingNode(RereadEntries(entries, indent, reading))
    case SequenceNode(items) => SequenceNode(RereadItems(items, indent, reading))
    case _ => RereadScalar(node, indent, continuationIndent, reading)
  }

  ghost function RereadItems(items: seq<Node>, indent: nat, reading: Reading): (r: seq<Node>)
    ensures |r| == |items|
    decreases items, 0
  {
    if items == [] then []
    else [Reread(items[0], indent + 2, indent + 2, reading)] + RereadItems(items[1..], indent, reading)
  }

  ghost function RereadEntries(entries: seq<Entry<Node>>, indent: nat, reading: Reading): (r: seq<Entry<Node>>)
    ensures |r| == |entries|
    decreases entries, 0
  {
    if entries == [] then []
    else
      var entry := entries[0];
      [RereadEntry(entry.key, entry.value, indent, reading)] + RereadEntries(entries[1..], indent, reading)
  }

  ghost function RereadEntry(key: string, value: Node, indent: nat, reading: Reading): Entry<Node>
    decreases value, 4
  {
    match ClassifyMappingKey(key)
    case SimpleKey => Entry(key, RereadSimpleValue(value, indent, indent + |SimpleKeyText(key, indent)|, reading))
    case ExplicitKey =>
      Entry(ReadBack(key, ScalarContext(indent + 2, indent + INDENT_WIDTH, YAML_WIDTH), reading),
            Reread(value, indent + 2, indent + 2, reading))
  }

  ghost function RereadSimpleValue(value: Node, indent: nat, column: nat, reading: Reading): Node
    decreases value, 3
  {
    match value
    case MappingNode(entries) => MappingNode(RereadEntries(entries, indent + 2, reading))
    case SequenceNode(items) => SequenceNode(RereadItems(items, indent, reading))
    case _ => RereadScalar(value, column + 2, indent + 2, reading)
  }

  // ----- structure -----

  lemma SimpleEntryText(key: string, value: Node, indent: nat, rest: string)
    requires ClassifyMappingKey(key).SimpleKey?
    ensures EntryText(key, value, indent) + rest == SimpleKeyText(key, indent) +
      (SimpleValueText(value, indent, indent + |SimpleKeyText(key, indent)|) + rest)
  {
  }

  lemma ExplicitEntryText(key: string, value: Node, indent: nat, rest: string)
    requires ClassifyMappingKey(key).ExplicitKey?
    ensures EntryText(key, value, indent) + rest == "? " + (ExplicitKeyText(key, indent) +
      ("\n" + (Spaces(indent) + (": " + (NodeText(value, indent + 2, indent + 2) + rest)))))
  {
    ConcatExplicit(ExplicitKeyText(key, indent), Spaces(indent), NodeText(value, indent + 2, indent + 2), rest);
  }

  lemma ConcatExplicit(key: string, blanks: string, node: string, rest: string)
    ensures "? " + key + "\n" + blanks + ":" + (" " + node) + rest
         == "? " + (key + ("\n" + (blanks + (": " + (node + rest)))))
  {
    var line := ": " + (node + rest);
    assert ":" + (" " + node) + rest == line;
    assert "? " + key + "\n" + blanks + ":" + (" " + node) + rest == "? " + key + "\n" + blanks + line;
  }

  lemma RegroupThree(a: string, b: string, c: string)
    ensures a + b + c == a + (b + c)
  {
  }

  lemma FirstEntryText(entries: seq<Entry<Node>>, indent: nat, rest: string)
    requires entries != []
    ensures EntriesText(entries, indent) + rest
         == EntryText(entries[0].key, entries[0].value, indent) + (NextEntriesText(entries[1..], indent) + rest)
    ensures NextEntriesText(entries, indent) + rest == Spaces(indent) + (EntriesText(entries, indent) + rest)
  {
    RegroupThree(EntryText(entries[0].key, entries[0].value, indent), NextEntriesText(entries[1..], indent), rest);
    RegroupThree(Spaces(indent), EntriesText(entries, indent), rest);
  }

  lemma FirstItemText(items: seq<Node>, indent: nat, rest: string)
    requires items != []
    ensures ItemsText(items, indent) + rest
         == "- " + (NodeText(items[0], indent + 2, indent + 2) + (NextItemsText(items[1..], indent) + rest))
    ensures NextItemsText(items, indent) + rest == Spaces(indent) + (ItemsText(items, indent) + rest)
  {
    var node, next := NodeText(items[0], indent + 2, indent + 2), NextItemsText(items[1..], indent);
    RegroupThree("- " + node, next, rest);
    RegroupThree("- ", node, next + rest);
    RegroupThree(Spaces(indent), ItemsText(items, indent), rest);
  }

  /** An entry opens with a key, and with nothing a sequence item opens with. */
  lemma EntryTextOpens(key: string, value: Node, indent: nat, readIndent: nat, rest: string, reading: Reading)
    requires readIndent > 0
    ensures var text := EntryText(key, value, indent) + rest;
      && text != "" && !Lines.IsWhite(text[0]) && !("- " <= text)
      && ("? " <= text || ReadSimpleKey(text, readIndent, reading).Parsed?)
  {
    if ClassifyMappingKey(key).SimpleKey? {
      SimpleEntryText(key, value, indent, rest);
      ReadSimpleKeyOf(key, indent, readIndent,
        SimpleValueText(value, indent, indent + |SimpleKeyText(key, indent)|) + rest, reading);
    } else {
      ExplicitEntryText(key, value, indent, rest);
    }
  }

  /** What follows an entry at `indent`: another one, or the end. */
  lemma NextEntriesEnd(entries: seq<Entry<Node>>, indent: nat, rest: string)
    requires EndsBlock(rest, indent)
    ensures EndsItems(NextEntriesText(entries, indent) + rest, indent)
    ensures AtIndent(NextEntriesText(entries, indent) + rest, indent) <==> entries != []
    ensures entries != [] ==>
      (NextEntriesText(entries, indent) + rest)[indent..] == EntriesText(entries, indent) + rest
  {
    hide OpensLine;
    if entries == [] {
      assert "" + rest == rest;
    } else {
      var line := EntriesText(entries, indent) + rest;
      FirstEntryText(entries, indent, rest);
      EntryTextOpens(entries[0].key, entries[0].value, indent, 1, NextEntriesText(entries[1..], indent) + rest, Exact);
      LineIndent(line, indent);
      IndentedOpensLine(indent, line);
      NotAnItem(line, indent);
    }
  }

  lemma NotAnItem(line: string, indent: nat)
    requires !("- " <= line)
    ensures !AtItem(Spaces(indent) + line, indent)
  {
    var text := Spaces(indent) + line;
    if |line| > 1 {
      assert text[indent] == line[0] && text[indent + 1] == line[1];
    }
  }

  lemma NextItemsEnd(items: seq<Node>, indent: nat, rest: string)
    requires EndsItems(rest, indent)
    ensures EndsBlock(NextItemsText(items, indent) + rest, indent + 1)
    ensures AtItem(NextItemsText(items, indent) + rest, indent) <==> items != []
    ensures items != [] ==> (NextItemsText(items, indent) + rest)[indent..] == ItemsText(items, indent) + rest
  {
    hide OpensLine;
    if items == [] {
      assert "" + rest == rest;
    } else {
      var line := ItemsText(items, indent) + rest;
      FirstItemText(items, indent, rest);
      LineIndent(line, indent);
      IndentedOpensLine(indent, line);
      var text := Spaces(indent) + line;
      assert text[indent] == line[0] && text[indent + 1] == line[1];
    }
  }

  lemma Deeper(rest: string, indent: nat, deeper: nat)
    requires EndsBlock(rest, indent) && indent <= deeper
    ensures EndsBlock(rest, deeper) && EndsItems(rest, indent)
  {
  }

  lemma ItemsEnd(rest: string, indent: nat)
    requires EndsItems(rest, indent)
    ensures EndsBlock(rest, indent + 1) && EndsBlock(rest, indent + 2)
  {
  }

  lemma EmptyLeaf(node: Node, indent: nat, rest: string, reading: Reading)
    requires node == MappingNode([]) || node == SequenceNode([])
    ensures var text := (if node.MappingNode? then "{}\n" else "[]\n") + rest;
      ParseLeaf(text, indent, reading) == Parsed(node, rest) && OpensScalar(text, indent, reading)
  {
    var brackets := if node.MappingNode? then "{}" else "[]";
    var text := brackets + "\n" + rest;
    assert text == (if node.MappingNode? then "{}\n" else "[]\n") + rest;
    assert text[3..] == rest;
    NoKeyInPlain(brackets, 0, 1, Unlimited, "\n" + rest);
    WrappedUnlimited(brackets, 0, 1, Unlimited);
    assert text == brackets + ("\n" + rest);
  }

  ghost predicate AllPrintableNodes(items: seq<Node>) {
    forall k :: 0 <= k < |items| ==> Printable(items[k])
  }

  ghost predicate AllPrintableEntries(entries: seq<Entry<Node>>) {
    forall k :: 0 <= k < |entries| ==> Printable(entries[k].value)
  }

  lemma {:induction false} ParseNodeText(node: Node, indent: nat, continuationIndent: nat, rest: string,
      reading: Reading)
    requires Printable(node) && 0 < continuationIndent && indent <= continuationIndent && EndsBlock(rest, indent)
    ensures ParseNode(NodeText(node, indent, continuationIndent) + rest, indent, continuationIndent, reading)
      == Parsed(Reread(node, indent, continuationIndent, reading), rest)
    decreases node, 2
  {
    hide ParseLeaf, ParseItems, ParseEntries, EndsBlock, ScalarText;
    Deeper(rest, indent, continuationIndent);
    if node == MappingNode([]) || node == SequenceNode([]) {
      EmptyLeaf(node, continuationIndent, rest, reading);
    } else if node.MappingNode? {
      ParseMappingText(node.entries, indent, continuationIndent, rest, reading);
    } else if node.SequenceNode? {
      ParseItemsText(node.items, indent, rest, reading);
      FirstItemText(node.items, indent, rest);
    } else {
      ScalarLeaf(node, indent, continuationIndent, rest, reading);
    }
  }

  lemma ParseMappingText(entries: seq<Entry<Node>>, indent: nat, continuationIndent: nat, rest: string,
      reading: Reading)
    requires entries != [] && AllPrintableEntries(entries) && EndsBlock(rest, indent) && 0 < continuationIndent
    ensures ParseNode(EntriesText(entries, indent) + rest, indent, continuationIndent, reading)
      == Parsed(MappingNode(RereadEntries(entries, indent, reading)), rest)
    decreases entries, 2
  {
    ParseEntriesText(entries, indent, rest, reading);
    FirstEntryText(entries, indent, rest);
    EntryTextOpens(entries[0].key, entries[0].value, indent, continuationIndent,
      NextEntriesText(entries[1..], indent) + rest, reading);
  }

  // The reader's steps, one case of its definitions each.

  lemma ItemsStep(text: string, indent: nat, node: Node, after: string, reading: Reading)
    requires "- " <= text && ParseNode(text[2..], indent + 2, indent + 2, reading) == Parsed(node, after)
    ensures !AtItem(after, indent) ==> ParseItems(text, indent, reading) == Parsed([node], after)
    ensures AtItem(after, indent) && ParseItems(after[indent..], indent, reading).Parsed? ==>
      var more := ParseItems(after[indent..], indent, reading);
      ParseItems(text, indent, reading) == Parsed([node] + more.value, more.rest)
  {
  }

  lemma EntriesStep(text: string, indent: nat, entry: Entry<Node>, after: string, reading: Reading)
    requires ParseEntry(text, indent, reading) == Parsed(entry, after)
    ensures !AtIndent(after, indent) ==> ParseEntries(text, indent, reading) == Parsed([entry], after)
    ensures AtIndent(after, indent) && ParseEntries(after[indent..], indent, reading).Parsed? ==>
      var more := ParseEntries(after[indent..], indent, reading);
      ParseEntries(text, indent, reading) == Parsed([entry] + more.value, more.rest)
  {
  }

  lemma SimpleEntryStep(text: string, indent: nat, key: string, after: string, value: Node, rest: string,
      reading: Reading)
    requires !("? " <= text) && ReadSimpleKey(text, indent + INDENT_WIDTH, reading) == Parsed(key, after)
    requires after != "" && ParseSimpleValue(after[1..], indent, reading) == Parsed(value, rest)
    ensures ParseEntry(text, indent, reading) == Parsed(Entry(key, value), rest)
  {
  }

  lemma ExplicitEntryStep(text: string, indent: nat, key: string, line: string, value: Node, rest: string,
      reading: Reading)
    requires "? " <= text &&
      ReadString(text[2..], indent + INDENT_WIDTH, reading) == Parsed(key, "\n" + (Spaces(indent) + line))
    requires ": " <= line && ParseNode(line[2..], indent + 2, indent + 2, reading) == Parsed(value, rest)
    ensures ParseEntry(text, indent, reading) == Parsed(Entry(key, value), rest)
  {
    var after := "\n" + (Spaces(indent) + line);
    assert after[1..] == Spaces(indent) + line;
    assert after[1 + indent..] == line;
    LineIndent(line, indent);
  }

  lemma ItemsJoin(text: string, indent: nat, nodes: seq<Node>, after: string, rest: string, reading: Reading)
    requires nodes != [] && "- " <= text &&
      ParseNode(text[2..], indent + 2, indent + 2, reading) == Parsed(nodes[0], after)
    requires
      if |nodes| > 1 then
        AtItem(after, indent) && ParseItems(after[indent..], indent, reading) == Parsed(nodes[1..], rest)
      else after == rest && !AtItem(rest, indent)
    ensures ParseItems(text, indent, reading) == Parsed(nodes, rest)
  {
    ItemsStep(text, indent, nodes[0], after, reading);
    assert nodes == [nodes[0]] + nodes[1..];
    assert |nodes| == 1 ==> nodes == [nodes[0]];
  }

  lemma FirstOfItems(items: seq<Node>, indent: nat, reading: Reading)
    requires items != []
    ensures var r := RereadItems(items, indent, reading);
      r[0] == Reread(items[0], indent + 2, indent + 2, reading) && r[1..] == RereadItems(items[1..], indent, reading)
  {
  }

  lemma {:induction false} ParseItemsText(items: seq<Node>, indent: nat, rest: string, reading: Reading)
    requires items != [] && AllPrintableNodes(items) && EndsItems(rest, indent)
    ensures ParseItems(ItemsText(items, indent) + rest, indent, reading)
      == Parsed(RereadItems(items, indent, reading), rest)
    decreases items, 1
  {
    hide ParseItems, ParseNode, RereadItems, Reread, ItemsText;
    var after := NextItemsText(items[1..], indent) + rest;
    FirstOfItems(items, indent, reading);
    ParseFirstItem(items, indent, rest, reading);
    NextItemsEnd(items[1..], indent, rest);
    if |items| > 1 {
      ParseItemsText(items[1..], indent, rest, reading);
    } else {
      assert NextItemsText(items[1..], indent) == "";
    }
    ItemsJoin(ItemsText(items, indent) + rest, indent, RereadItems(items, indent, reading), after, rest, reading);
  }

  lemma ParseFirstItem(items: seq<Node>, indent: nat, rest: string, reading: Reading)
    requires items != [] && AllPrintableNodes(items) && EndsItems(rest, indent)
    ensures var text := ItemsText(items, indent) + rest;
      && "- " <= text
      && ParseNode(text[2..], indent + 2, indent + 2, reading)
        == Parsed(Reread(items[0], indent + 2, indent + 2, reading), NextItemsText(items[1..], indent) + rest)
    decreases items, 0
  {
    hide ParseNode, Reread, NodeText;
    var after := NextItemsText(items[1..], indent) + rest;
    var node := NodeText(items[0], indent + 2, indent + 2) + after;
    FirstItemText(items, indent, rest);
    NextItemsEnd(items[1..], indent, rest);
    Deeper(after, indent + 1, indent + 2);
    ParseNodeText(items[0], indent + 2, indent + 2, after, reading);
    assert ("- " + node)[2..] == node;
  }

  lemma EntriesJoin(text: string, indent: nat, read: seq<Entry<Node>>, after: string, rest: string, reading: Reading)
    requires read != [] && ParseEntry(text, indent, reading) == Parsed(read[0], after)
    requires
      if |read| > 1 then
        AtIndent(after, indent) && ParseEntries(after[indent..], indent, reading) == Parsed(read[1..], rest)
      else after == rest && !AtIndent(rest, indent)
    ensures ParseEntries(text, indent, reading) == Parsed(read, rest)
  {
    EntriesStep(text, indent, read[0], after, reading);
    assert read == [read[0]] + read[1..];
    assert |read| == 1 ==> read == [read[0]];
  }

  lemma FirstOfEntries(entries: seq<Entry<Node>>, indent: nat, reading: Reading)
    requires entries != []
    ensures var r := RereadEntries(entries, indent, reading);
      && r[0] == RereadEntry(entries[0].key, entries[0].value, indent, reading)
      && r[1..] == RereadEntries(entries[1..], indent, reading)
  {
  }

  lemma {:induction false} ParseEntriesText(entries: seq<Entry<Node>>, indent: nat, rest: string, reading: Reading)
    requires entries != [] && AllPrintableEntries(entries) && EndsBlock(rest, indent)
    ensures ParseEntries(EntriesText(entries, indent) + rest, indent, reading)
      == Parsed(RereadEntries(entries, indent, reading), rest)
    decreases entries, 1
  {
    hide ParseEntries, ParseEntry, RereadEntries, RereadEntry, EntriesText;
    var after := NextEntriesText(entries[1..], indent) + rest;
    FirstOfEntries(entries, indent, reading);
    ParseFirstEntry(entries, indent, rest, reading);
    NextEntriesEnd(entries[1..], indent, rest);
    if |entries| > 1 {
      ParseEntriesText(entries[1..], indent, rest, reading);
    } else {
      assert NextEntriesText(entries[1..], indent) == "";
    }
    EntriesJoin(EntriesText(entries, indent) + rest, indent, RereadEntries(entries, indent, reading), after, rest,
      reading);
  }

  lemma ParseFirstEntry(entries: seq<Entry<Node>>, indent: nat, rest: string, reading: Reading)
    requires entries != [] && AllPrintableEntries(entries) && EndsBlock(rest, indent)
    ensures ParseEntry(EntriesText(entries, indent) + rest, indent, reading)
         == Parsed(RereadEntry(entries[0].key, entries[0].value, indent, reading),
           NextEntriesText(entries[1..], indent) + rest)
    decreases entries, 0
  {
    hide ParseEntry, RereadEntry, EntryText, EntriesText;
    var entry := entries[0];
    FirstEntryText(entries, indent, rest);
    NextEntriesEnd(entries[1..], indent, rest);
    ParseEntryText(entry.key, entry.value, indent, NextEntriesText(entries[1..], indent) + rest, reading);
  }

  lemma ParseEntryText(key: string, value: Node, indent: nat, rest: string, reading: Reading)
    requires Printable(value) && EndsItems(rest, indent)
    ensures ParseEntry(EntryText(key, value, indent) + rest, indent, reading)
      == Parsed(RereadEntry(key, value, indent, reading), rest)
    decreases value, 5
  {
    hide ParseEntry, EntryText, RereadEntry;
    if ClassifyMappingKey(key).SimpleKey? {
      ParseSimpleEntryText(key, value, indent, rest, reading);
    } else {
      ParseExplicitEntryText(key, value, indent, rest, reading);
    }
  }

  lemma SimpleEntryIs(key: string, value: Node, indent: nat, reading: Reading)
    requires ClassifyMappingKey(key).SimpleKey?
    ensures RereadEntry(key, value, indent, reading)
      == Entry(key, RereadSimpleValue(value, indent, indent + |SimpleKeyText(key, indent)|, reading))
  {
  }

  lemma ParseSimpleEntryText(key: string, value: Node, indent: nat, rest: string, reading: Reading)
    requires ClassifyMappingKey(key).SimpleKey? && Printable(value) && EndsItems(rest, indent)
    ensures ParseEntry(EntryText(key, value, indent) + rest, indent, reading)
      == Parsed(RereadEntry(key, value, indent, reading), rest)
    decreases value, 4
  {
    hide *;
    var column := indent + |SimpleKeyText(key, indent)|;
    SimpleEntryIs(key, value, indent, reading);
    ParseSimpleValueText(value, indent, column, rest, reading);
    SimpleEntryReads(key, value, RereadSimpleValue(value, indent, column, reading), indent, rest, reading);
  }

  lemma ParseExplicitEntryText(key: string, value: Node, indent: nat, rest: string, reading: Reading)
    requires ClassifyMappingKey(key).ExplicitKey? && Printable(value) && EndsItems(rest, indent)
    ensures ParseEntry(EntryText(key, value, indent) + rest, indent, reading)
      == Parsed(RereadEntry(key, value, indent, reading), rest)
    decreases value, 4
  {
    hide ParseEntry, ParseNode, EntryText, NodeText, Reread, ReadBack;
    ItemsEnd(rest, indent);
    ParseNodeText(value, indent + 2, indent + 2, rest, reading);
    ExplicitEntryReads(key, value, Reread(value, indent + 2, indent + 2, reading), indent, rest, reading);
  }

  lemma SimpleValueOpens(value: Node, indent: nat, column: nat, rest: string)
    ensures var text := SimpleValueText(value, indent, column) + rest;
      |text| > 1 && text[0] == ':' && (text[1] == ' ' || text[1] == '\n')
  {
  }

  lemma ParseKeyThenValue(text: string, key: string, indent: nat, valueText: string, value: Node, rest: string,
      reading: Reading)
    requires ClassifyMappingKey(key).SimpleKey? && text == SimpleKeyText(key, indent) + valueText
    requires |valueText| > 1 && valueText[0] == ':' && (valueText[1] == ' ' || valueText[1] == '\n')
    requires ParseSimpleValue(valueText[1..], indent, reading) == Parsed(value, rest)
    ensures ParseEntry(text, indent, reading) == Parsed(Entry(key, value), rest)
  {
    ReadSimpleKeyOf(key, indent, indent + INDENT_WIDTH, valueText, reading);
    SimpleEntryStep(text, indent, key, valueText, value, rest, reading);
  }

  /** With a simple key, an entry is read once its value is. */
  lemma SimpleEntryReads(key: string, value: Node, read: Node, indent: nat, rest: string, reading: Reading)
    requires ClassifyMappingKey(key).SimpleKey?
    requires var text := SimpleValueText(value, indent, indent + |SimpleKeyText(key, indent)|);
      text != "" && ParseSimpleValue((text + rest)[1..], indent, reading) == Parsed(read, rest)
    ensures ParseEntry(EntryText(key, value, indent) + rest, indent, reading) == Parsed(Entry(key, read), rest)
  {
    hide EntryText;
    hide SimpleValueText;
    hide ParseEntry;
    hide ParseSimpleValue;
    var column := indent + |SimpleKeyText(key, indent)|;
    var valueText := SimpleValueText(value, indent, column) + rest;
    SimpleValueOpens(value, indent, column, rest);
    SimpleEntryText(key, value, indent, rest);
    ParseKeyThenValue(EntryText(key, value, indent) + rest, key, indent, valueText, read, rest, reading);
  }

  /** With an explicit key too. */
  lemma ExplicitEntryReads(key: string, value: Node, read: Node, indent: nat, rest: string, reading: Reading)
    requires ClassifyMappingKey(key).ExplicitKey?
    requires ParseNode(NodeText(value, indent + 2, indent + 2) + rest, indent + 2, indent + 2, reading)
      == Parsed(read, rest)
    ensures ParseEntry(EntryText(key, value, indent) + rest, indent, reading)
      == Parsed(Entry(ReadBack(key, ScalarContext(indent + 2, indent + INDENT_WIDTH, YAML_WIDTH), reading), read), rest)
  {
    hide ReadBack, EntryText, ParseEntry, ParseNode, NodeText, ReadString;
    var node := NodeText(value, indent + 2, indent + 2) + rest;
    var line := ": " + node;
    ReadExplicitKey(key, indent, line, reading);
    assert line[2..] == node;
    ExplicitEntryText(key, value, indent, rest);
    ExplicitEntryStep(EntryText(key, value, indent) + rest, indent,
      ReadBack(key, ScalarContext(indent + 2, indent + INDENT_WIDTH, YAML_WIDTH), reading), line, read, rest, reading);
  }

  lemma ReadExplicitKey(key: string, indent: nat, line: string, reading: Reading)
    requires ": " <= line
    ensures var after := "\n" + (Spaces(indent) + line);
      ReadString(("? " + (ExplicitKeyText(key, indent) + after))[2..], indent + INDENT_WIDTH, reading)
        == Parsed(ReadBack(key, ScalarContext(indent + 2, indent + INDENT_WIDTH, YAML_WIDTH), reading), after)
  {
    hide ReadBack, ReadString;
    var after := "\n" + (Spaces(indent) + line);
    assert ("? " + (ExplicitKeyText(key, indent) + after))[2..] == ExplicitKeyText(key, indent) + after;
    LineIndent(line, indent);
    IndentedOpensLine(indent, line);
    LineFeedEnds(Spaces(indent) + line, indent + INDENT_WIDTH);
    ReadFormattedString(key, ScalarContext(indent + 2, indent + INDENT_WIDTH, YAML_WIDTH), after, reading);
  }

  lemma SimpleBlockStep(text: string, indent: nat, block: string, reading: Reading)
    requires text == "\n" + block
    ensures AtItem(block, indent) && ParseItems(block[indent..], indent, reading).Parsed? ==>
      var items := ParseItems(block[indent..], indent, reading);
      ParseSimpleValue(text, indent, reading) == Parsed(SequenceNode(items.value), items.rest)
    ensures !AtItem(block, indent) && AtIndent(block, indent + 2)
            && ParseEntries(block[indent + 2..], indent + 2, reading).Parsed? ==>
      var entries := ParseEntries(block[indent + 2..], indent + 2, reading);
      ParseSimpleValue(text, indent, reading) == Parsed(MappingNode(entries.value), entries.rest)
  {
    assert text[1..] == block;
  }

  lemma SimpleMappingText(entries: seq<Entry<Node>>, indent: nat, rest: string, reading: Reading)
    requires entries != [] && AllPrintableEntries(entries) && EndsItems(rest, indent)
    ensures ParseSimpleValue("\n" + (NextEntriesText(entries, indent + 2) + rest), indent, reading)
      == Parsed(MappingNode(RereadEntries(entries, indent + 2, reading)), rest)
    decreases entries, 2
  {
    hide ParseSimpleValue, ParseEntries, RereadEntries;
    var block := NextEntriesText(entries, indent + 2) + rest;
    ItemsEnd(rest, indent);
    NextEntriesEnd(entries, indent + 2, rest);
    ParseEntriesText(entries, indent + 2, rest, reading);
    assert block[indent] == ' ';
    SimpleBlockStep("\n" + block, indent, block, reading);
  }

  lemma SimpleSequenceText(items: seq<Node>, indent: nat, rest: string, reading: Reading)
    requires items != [] && AllPrintableNodes(items) && EndsItems(rest, indent)
    ensures ParseSimpleValue("\n" + (NextItemsText(items, indent) + rest), indent, reading)
      == Parsed(SequenceNode(RereadItems(items, indent, reading)), rest)
    decreases items, 2
  {
    hide ParseSimpleValue, ParseItems, RereadItems;
    var block := NextItemsText(items, indent) + rest;
    NextItemsEnd(items, indent, rest);
    ParseItemsText(items, indent, rest, reading);
    SimpleBlockStep("\n" + block, indent, block, reading);
  }

  lemma SimpleLeafStep(leaf: string, indent: nat, rest: string, reading: Reading)
    ensures ParseSimpleValue((": " + leaf + rest)[1..], indent, reading) == ParseLeaf(leaf + rest, indent + 2, reading)
  {
    var text := (": " + leaf + rest)[1..];
    assert text == " " + (leaf + rest);
    assert text[1..] == leaf + rest;
  }

  lemma SimpleScalarText(value: Node, indent: nat, column: nat, rest: string, reading: Reading)
    requires IsScalar(value) && Printable(value) && EndsBlock(rest, indent + 2)
    ensures ParseSimpleValue((SimpleValueText(value, indent, column) + rest)[1..], indent, reading)
      == Parsed(RereadScalar(value, column + 2, indent + 2, reading), rest)
  {
    hide ParseSimpleValue, ParseLeaf, RereadScalar, SimpleValueText, ScalarText;
    SimpleScalarStep(value, indent, column);
    ScalarLeaf(value, column + 2, indent + 2, rest, reading);
    SimpleLeafStep(ScalarText(value, indent + 2, column + 2) + "\n", indent, rest, reading);
  }

  lemma SimpleScalarStep(value: Node, indent: nat, column: nat)
    requires IsScalar(value)
    ensures SimpleValueText(value, indent, column) == ": " + (ScalarText(value, indent + 2, column + 2) + "\n")
  {
    var scalar := ScalarText(value, indent + 2, column + 2);
    assert ": " + scalar + "\n" == ": " + (scalar + "\n");
  }

  lemma SimpleEmptyText(value: Node, indent: nat, column: nat, rest: string, reading: Reading)
    requires value == MappingNode([]) || value == SequenceNode([])
    ensures ParseSimpleValue((SimpleValueText(value, indent, column) + rest)[1..], indent, reading)
      == Parsed(value, rest)
  {
    EmptyLeaf(value, indent + 2, rest, reading);
    var leaf := if value.MappingNode? then "{}\n" else "[]\n";
    SimpleLeafStep(leaf, indent, rest, reading);
    assert SimpleValueText(value, indent, column) == ": " + leaf;
  }

  lemma BehindColon(block: string, rest: string)
    ensures (":\n" + block + rest)[1..] == "\n" + (block + rest)
  {
  }

  /** The value of a simple key that goes on the lines below. */
  lemma SimpleBlockText(value: Node, indent: nat, column: nat, rest: string)
    requires !IsScalar(value) && value != MappingNode([]) && value != SequenceNode([])
    ensures (SimpleValueText(value, indent, column) + rest)[1..] == "\n" +
      ((if value.MappingNode? then NextEntriesText(value.entries, indent + 2) else NextItemsText(value.items, indent))
        + rest)
  {
    BehindColon(if value.MappingNode? then NextEntriesText(value.entries, indent + 2)
      else NextItemsText(value.items, indent), rest);
  }

  lemma ParseSimpleValueText(value: Node, indent: nat, column: nat, rest: string, reading: Reading)
    requires Printable(value) && EndsItems(rest, indent)
    ensures SimpleValueText(value, indent, column) != ""
    ensures ParseSimpleValue((SimpleValueText(value, indent, column) + rest)[1..], indent, reading)
      == Parsed(RereadSimpleValue(value, indent, column, reading), rest)
    decreases value, 3
  {
    hide ParseSimpleValue;
    ItemsEnd(rest, indent);
    if IsScalar(value) {
      SimpleScalarText(value, indent, column, rest, reading);
    } else if value == MappingNode([]) || value == SequenceNode([]) {
      SimpleEmptyText(value, indent, column, rest, reading);
    } else {
      SimpleBlockText(value, indent, column, rest);
      if value.MappingNode? {
        SimpleMappingText(value.entries, indent, rest, reading);
      } else {
        SimpleSequenceText(value.items, indent, rest, reading);
      }
    }
  }

  /** What a reading finds in the text of a document, at every depth. */
  lemma ParseRereads(node: Node, reading: Reading)
    requires Printable(node)
    ensures Parse(DumpText(node), reading) == Some(Reread(node, 0, 2, reading))
  {
    hide Reread;
    assert EndsBlock("", 0);
    ParseNodeText(node, 0, 2, "", reading);
    assert DumpText(node) + "" == DumpText(node);
  }
}
