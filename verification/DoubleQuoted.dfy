/** The double-quoted scalar style: escapes, escaped line breaks, their exact inverse, and what YAML reads. */
module DoubleQuoted {
  import opened Lines
  import opened Scalars
  import opened Text

  // ----- escapes -----

  /** The letter of a named escape (section 5.7 of YAML 1.2.2). */
  function EscapeLetter(c: char): Option<char> {
    if c == '\0' then Some('0')
    else if c == '\U{07}' then Some('a')
    else if c == '\U{08}' then Some('b')
    else if c == '\t' then Some('t')
    else if c == '\n' then Some('n')
    else if c == '\U{0b}' then Some('v')
    else if c == '\U{0c}' then Some('f')
    else if c == '\r' then Some('r')
    else if c == '\U{1b}' then Some('e')
    else if c == '\"' then Some('\"')
    else if c == '\\' then Some('\\')
    else if c == '\U{85}' then Some('N')
    else if c == '\U{a0}' then Some('_')
    else if c == '\U{2028}' then Some('L')
    else if c == '\U{2029}' then Some('P')
    else None
  }

  predicate NeedsYamlEscape(c: char) {
    EscapeLetter(c).Some? || !IsPrintable(c)
  }

  function HexDigit(n: nat): (c: char)
    requires n < 16
    ensures '0' <= c <= '9' || 'A' <= c <= 'F'
  {
    if n < 10 then '0' + n as char else 'A' + (n - 10) as char
  }

  function HexDigitValue(c: char): nat {
    if '0' <= c <= '9' then c as nat - '0' as nat
    else if 'A' <= c <= 'F' then c as nat - 'A' as nat + 10
    else 0
  }

  /** `{:0widthX}`. */
  function Hex(n: nat, width: nat): (s: string)
    ensures |s| == width
    ensures forall k :: 0 <= k < width ==> '0' <= s[k] <= '9' || 'A' <= s[k] <= 'F'
  {
    if width == 0 then "" else Hex(n / 16, width - 1) + [HexDigit(n % 16)]
  }

  function HexValue(s: string): nat {
    if s == "" then 0 else HexValue(s[..|s| - 1]) * 16 + HexDigitValue(s[|s| - 1])
  }

  function Power16(width: nat): nat {
    if width == 0 then 1 else 16 * Power16(width - 1)
  }

  lemma {:induction false} HexRoundTrip(n: nat, width: nat)
    requires n < Power16(width)
    ensures HexValue(Hex(n, width)) == n
  {
    if width > 0 {
      HexRoundTrip(n / 16, width - 1);
      assert Hex(n, width)[..width - 1] == Hex(n / 16, width - 1);
    }
  }

  function YamlNumericEscape(c: char): string {
    if c as nat <= 0xff then "\\x" + Hex(c as nat, 2)
    else if c as nat <= 0xffff then "\\u" + Hex(c as nat, 4)
    else "\\U" + Hex(c as nat, 8)
  }

  function YamlEscape(c: char): (s: string)
    ensures |s| >= 2 && s[0] == '\\' && AllPrintable(s)
  {
    match EscapeLetter(c)
    case Some(letter) => ['\\', letter]
    case None => YamlNumericEscape(c)
  }

  // ----- writing -----

  /** The blank that opens a continuation line is written escaped. */
  function BlankGuard(next: char): string {
    if next == ' ' then "\\" else ""
  }

  function EscapedBreak(indent: nat, next: char): string {
    "\\\n" + Spaces(indent) + BlankGuard(next)
  }

  function EscapedBreakColumn(indent: nat, next: char): nat {
    indent + |BlankGuard(next)|
  }

  /** Character `i` may have a break beside it: it is neither the first nor the last. */
  predicate Interior(value: string, i: nat) {
    0 < i < |value| - 1
  }

  /**
   * Writes character `i` at `column`; a line may be broken after an escape, or before a space or a
   * just-escaped character.
   */
  function DoubleStep(value: string, i: nat, column: nat, indent: nat, width: Width): (step: Step)
    requires i < |value|
    ensures step.taken == 1
  {
    var c := value[i];
    if NeedsYamlEscape(c) then
      var after := column + |YamlEscape(c)|;
      if Interior(value, i) && Exceeds(after - 1, width) then
        Step(YamlEscape(c) + EscapedBreak(indent, value[i + 1]), 1, EscapedBreakColumn(indent, value[i + 1]))
      else Step(YamlEscape(c), 1, after)
    else if Interior(value, i) && (c == ' ' || NeedsYamlEscape(value[i - 1])) && Exceeds(column, width) then
      Step(EscapedBreak(indent, c) + [c], 1, EscapedBreakColumn(indent, c) + 1)
    else Step([c], 1, column + 1)
  }

  /** Everything after the opening quote from character `i` on, at `column`. */
  function DoubleTail(value: string, i: nat, column: nat, indent: nat, width: Width): (s: string)
    requires i <= |value|
    ensures s != "" && s[0] != '\n'
    decreases |value| - i
  {
    if i == |value| then "\""
    else
      var step := DoubleStep(value, i, column, indent, width);
      step.piece + DoubleTail(value, i + 1, step.column, indent, width)
  }

  function DoubleText(value: string, context: ScalarContext): string {
    Quoted('\"', DoubleTail(value, 0, context.initialColumn + 1, context.continuationIndent, context.width))
  }

  // ----- reading back -----

  function UnescapeLetter(c: char): Option<char> {
    match c
    case '0' => Some('\0')
    case 'a' => Some('\U{07}')
    case 'b' => Some('\U{08}')
    case 't' => Some('\t')
    case 'n' => Some('\n')
    case 'v' => Some('\U{0b}')
    case 'f' => Some('\U{0c}')
    case 'r' => Some('\r')
    case 'e' => Some('\U{1b}')
    case ' ' => Some(' ')
    case '\"' => Some('\"')
    case '\\' => Some('\\')
    case 'N' => Some('\U{85}')
    case '_' => Some('\U{a0}')
    case 'L' => Some('\U{2028}')
    case 'P' => Some('\U{2029}')
    case _ => None
  }

  function HexWidth(c: char): nat {
    if c == 'x' then 2 else if c == 'u' then 4 else if c == 'U' then 8 else 0
  }

  function ScalarValue(n: nat): Option<char> {
    if n < 0xD800 || 0xE000 <= n < 0x11_0000 then Some(n as char) else None
  }

  /** Reads one escape after its backslash. */
  function ReadEscape(text: string): (r: Parsed<string>)
    ensures r.Parsed? ==> |r.rest| < |text|
  {
    if text == "" then Failed
    else if HexWidth(text[0]) > 0 then
      var width := HexWidth(text[0]);
      if |text| <= width then Failed
      else
        match ScalarValue(HexValue(text[1..1 + width]))
        case Some(c) => Parsed([c], text[1 + width..])
        case None => Failed
    else
      match UnescapeLetter(text[0])
      case Some(c) => Parsed([c], text[1..])
      case None => Failed
  }

  /** As the writer can come to write it, or as YAML 1.2.2 has it. */
  datatype Reading = Yaml | Exact

  /** The content of the line end that opens `text`, and the text behind its indentation. */
  function LineEndContent(text: string, indent: nat, escaped: bool): (r: Parsed<string>)
    requires AtLineEnd(text)
    ensures r.Parsed? ==> |r.rest| < |text|
  {
    var fold := FoldAt(text);
    if fold.blanks < indent || fold.next == "" then Failed
    else Parsed(if escaped then Newlines(fold.feeds - 1) else Folded(fold.feeds), fold.next)
  }

  /**
   * Reads a double-quoted scalar after its opening quote. YAML (section 7.3.1) folds a line end, and takes
   * an escaped one for nothing but the empty lines behind it. To the exact reading an escaped line feed with
   * `indent` blanks is nothing, and neither is a backslash followed by one; other line feeds are errors.
   */
  function ReadDouble(text: string, indent: nat, reading: Reading): (r: Parsed<string>)
    ensures r.Parsed? ==> |r.rest| < |text|
    decreases |text|
  {
    if text == "" then Failed
    else if text[0] == '\"' then Parsed("", text[1..])
    else if reading.Yaml? && AtLineEnd(text) then
      match LineEndContent(text, indent, false)
      case Failed => Failed
      case Parsed(s, rest) => Prepend(s, ReadDouble(rest, indent, reading))
    else if text[0] == '\n' then Failed
    else if text[0] != '\\' then Prepend([text[0]], ReadDouble(text[1..], indent, reading))
    else if |text| > 1 && text[1] == '\n' then ReadEscapedBreak(text, indent, reading)
    else if reading.Exact? && |text| > 2 && text[1] == '\\' && text[2] == '\n' then
      if AtIndent(text[3..], indent) then ReadDouble(text[3 + indent..], indent, reading) else Failed
    else
      match ReadEscape(text[1..])
      case Failed => Failed
      case Parsed(s, rest) => Prepend(s, ReadDouble(rest, indent, reading))
  }

  /** Reads on from an escaped line feed. */
  function ReadEscapedBreak(text: string, indent: nat, reading: Reading): (r: Parsed<string>)
    requires |text| > 1 && text[0] == '\\' && text[1] == '\n'
    ensures r.Parsed? ==> |r.rest| < |text|
    decreases |text|, 0
  {
    if reading.Exact? then
      if AtIndent(text[2..], indent) then ReadDouble(text[2 + indent..], indent, reading) else Failed
    else
      FeedEndsLine(text[1..]);
      match LineEndContent(text[1..], indent, true)
      case Failed => Failed
      case Parsed(s, rest) => Prepend(s, ReadDouble(rest, indent, reading))
  }

  lemma ReadLetterOf(c: char, more: string)
    requires EscapeLetter(c).Some?
    ensures ReadEscape([EscapeLetter(c).value] + more) == Parsed([c], more)
  {
    var text := [EscapeLetter(c).value] + more;
    assert text[1..] == more;
  }

  lemma ReadHex(letter: char, hex: string, c: char, more: string)
    requires HexWidth(letter) == |hex| > 0 && ScalarValue(HexValue(hex)) == Some(c)
    ensures ReadEscape([letter] + hex + more) == Parsed([c], more)
  {
    var text := [letter] + hex + more;
    assert text[1..1 + |hex|] == hex;
    assert text[1 + |hex|..] == more;
  }

  lemma CharacterValue(c: char)
    ensures ScalarValue(c as nat) == Some(c)
  {
  }

  function EscapeWidth(c: char): nat {
    if c as nat <= 0xff then 2 else if c as nat <= 0xffff then 4 else 8
  }

  lemma HexOfCharacter(c: char)
    ensures var hex := Hex(c as nat, EscapeWidth(c)); |hex| == EscapeWidth(c) && HexValue(hex) == c as nat
  {
    assert Power16(2) == 0x100 && Power16(4) == 0x1_0000 && Power16(8) == 0x1_0000_0000;
    HexRoundTrip(c as nat, EscapeWidth(c));
  }

  lemma NumericEscape(c: char)
    ensures var letter := if EscapeWidth(c) == 2 then 'x' else if EscapeWidth(c) == 4 then 'u' else 'U';
      YamlNumericEscape(c)[1..] == [letter] + Hex(c as nat, EscapeWidth(c)) && HexWidth(letter) == EscapeWidth(c)
  {
  }

  lemma ReadEscapeOf(c: char, more: string)
    requires NeedsYamlEscape(c)
    ensures ReadEscape(YamlEscape(c)[1..] + more) == Parsed([c], more)
  {
    if EscapeLetter(c).Some? {
      ReadLetterOf(c, more);
      assert YamlEscape(c)[1..] == [EscapeLetter(c).value];
    } else {
      HexOfCharacter(c);
      CharacterValue(c);
      NumericEscape(c);
      ReadHex(YamlEscape(c)[1], Hex(c as nat, EscapeWidth(c)), c, more);
    }
  }

  /** What follows the backslash of an escape opens with no line feed, and is a lone backslash or opens with none. */
  lemma EscapeShape(c: char)
    ensures var e := YamlEscape(c)[1..]; e != "" && e[0] != '\n' && (e[0] == '\\' ==> |e| == 1)
  {
  }

  /** An escape is read as its character, to the exact reading unless a line feed comes right after it. */
  lemma ReadDoubleEscape(c: char, indent: nat, reading: Reading, more: string)
    requires NeedsYamlEscape(c) && more != "" && more[0] != '\n'
    ensures ReadDouble(YamlEscape(c) + more, indent, reading) == Prepend([c], ReadDouble(more, indent, reading))
  {
    ReadEscapeOf(c, more);
    EscapeShape(c);
    ReadEscapedAs(YamlEscape(c), [c], indent, reading, more);
  }

  lemma ReadEscapedAs(escape: string, s: string, indent: nat, reading: Reading, more: string)
    requires |escape| >= 2 && escape[0] == '\\' && escape[1] != '\n' && (escape[1] == '\\' ==> |escape| == 2)
    requires more != "" && more[0] != '\n' && ReadEscape(escape[1..] + more) == Parsed(s, more)
    ensures ReadDouble(escape + more, indent, reading) == Prepend(s, ReadDouble(more, indent, reading))
  {
    hide ReadDouble, ReadEscape;
    var text, after := escape + more, escape[1..] + more;
    assert text[1..] == after && after[0] == escape[1];
    assert |escape| == 2 ==> after[1] == more[0];
    ReadByEscape(text, after, s, more, indent, reading);
  }

  lemma ReadByEscape(text: string, after: string, s: string, rest: string, indent: nat, reading: Reading)
    requires |text| > 1 && text[0] == '\\' && text[1..] == after && after[0] != '\n'
    requires reading.Exact? && |after| > 1 && after[0] == '\\' ==> after[1] != '\n'
    requires ReadEscape(after) == Parsed(s, rest)
    ensures ReadDouble(text, indent, reading) == Prepend(s, ReadDouble(rest, indent, reading))
  {
    hide ReadEscape, AtLineEnd;
    NoLineEnd(text);
    assert text[1] == after[0];
    if |text| > 2 {
      assert text[2] == after[1];
    }
  }

  lemma ReadDoubleBreak(indent: nat, reading: Reading, more: string)
    requires more != "" && !IsWhite(more[0])
    ensures ReadDouble("\\\n" + Spaces(indent) + more, indent, reading) == ReadDouble(more, indent, reading)
  {
    var text := "\\\n" + Spaces(indent) + more;
    assert text[1..] == "\n" + Spaces(indent) + more;
    assert text[2..] == Spaces(indent) + more;
    assert text[2 + indent..] == more;
    NoLineEnd(text);
    FoldOfBreak(indent, more);
    PrependNothing(ReadDouble(more, indent, reading));
    assert Newlines(0) == "";
  }

  lemma ReadDoubledBreak(indent: nat, more: string)
    requires more != ""
    ensures ReadDouble("\\\\\n" + Spaces(indent) + more, indent, Exact) == ReadDouble(more, indent, Exact)
  {
    var text := "\\\\\n" + Spaces(indent) + more;
    assert text[3..] == Spaces(indent) + more;
    assert text[3 + indent..] == more;
  }

  /** An escaped line end after a further backslash is to YAML a backslash and a line end that is not escaped. */
  lemma FoldDoubledBreak(indent: nat, more: string)
    requires more != "" && !IsWhite(more[0])
    ensures ReadDouble("\\\\\n" + Spaces(indent) + more, indent, Yaml) == Prepend("\\ ", ReadDouble(more, indent, Yaml))
  {
    var line := "\n" + Spaces(indent) + more;
    var after := "\\" + line;
    assert after[1..] == line;
    assert ReadEscape(after) == Parsed("\\", line);
    assert ("\\" + after)[1..] == after;
    ReadByEscape("\\" + after, after, "\\", line, indent, Yaml);
    FoldOfBreak(indent, more);
    assert ReadDouble(line, indent, Yaml) == Prepend(" ", ReadDouble(more, indent, Yaml));
    PrependBoth("\\", " ", ReadDouble(more, indent, Yaml));
    assert "\\" + " " == "\\ ";
    assert "\\" + after == "\\\\\n" + Spaces(indent) + more;
  }

  lemma ReadGuardedSpace(indent: nat, reading: Reading, more: string)
    ensures ReadDouble("\\ " + more, indent, reading) == Prepend(" ", ReadDouble(more, indent, reading))
    ensures !AtLineEnd(more) ==>
      ReadDouble(" " + more, indent, reading) == Prepend(" ", ReadDouble(more, indent, reading))
  {
    hide AtLineEnd;
    var after := " " + more;
    assert after[1..] == more;
    assert ReadEscape(after) == Parsed([' '], more);
    ReadByEscape("\\ " + more, after, " ", more, indent, reading);
    BlankBefore(more);
  }

  lemma DoubleTailSteps(value: string, i: nat, column: nat, indent: nat, width: Width, rest: string)
    requires i < |value|
    ensures var step := DoubleStep(value, i, column, indent, width);
      DoubleTail(value, i, column, indent, width) + rest
        == step.piece + (DoubleTail(value, i + 1, step.column, indent, width) + rest)
  {
  }

  /** Only an unbroken space opens the text of a tail with white space. */
  lemma DoubleTailOpens(value: string, i: nat, column: nat, indent: nat, width: Width, rest: string)
    requires i <= |value|
    ensures var text := DoubleTail(value, i, column, indent, width) + rest;
      && text != "" && text[0] != '\n'
      && (i == |value| || value[i] != ' ' ==> !IsWhite(text[0]))
  {
  }

  /** No line of the text ends without an escape in front of its line feed. */
  lemma {:induction false} TailEndsNoLine(value: string, i: nat, column: nat, indent: nat, width: Width, rest: string)
    requires i <= |value|
    ensures !AtLineEnd(DoubleTail(value, i, column, indent, width) + rest)
    decreases |value| - i
  {
    hide AtLineEnd;
    var text := DoubleTail(value, i, column, indent, width) + rest;
    DoubleTailOpens(value, i, column, indent, width, rest);
    if i < |value| && value[i] == ' ' {
      var step := DoubleStep(value, i, column, indent, width);
      DoubleTailSteps(value, i, column, indent, width, rest);
      SpaceStep(value, i, column, indent, width);
      if step.piece == " " {
        TailEndsNoLine(value, i + 1, step.column, indent, width, rest);
        BlankBefore(DoubleTail(value, i + 1, step.column, indent, width) + rest);
      } else {
        assert text[0] == '\\';
        NoLineEnd(text);
      }
    } else {
      NoLineEnd(text);
    }
  }

  lemma SpaceStep(value: string, i: nat, column: nat, indent: nat, width: Width)
    requires i < |value| && value[i] == ' '
    ensures DoubleStep(value, i, column, indent, width).piece
      == if Interior(value, i) && Exceeds(column, width) then BrokenSpace(indent) else " "
  {
  }

  /** An escaped line feed, the indentation, and a guarded space. */
  function BrokenSpace(indent: nat): string {
    "\\\n" + Spaces(indent) + "\\ "
  }

  lemma ReadBrokenSpace(indent: nat, reading: Reading, more: string)
    ensures ReadDouble(BrokenSpace(indent) + more, indent, reading) == Prepend(" ", ReadDouble(more, indent, reading))
  {
    ReadGuardedSpace(indent, reading, more);
    ReadDoubleBreak(indent, reading, "\\ " + more);
    assert BrokenSpace(indent) + more == "\\\n" + Spaces(indent) + ("\\ " + more);
  }

  lemma RegroupGuarded(indent: nat, more: string)
    ensures "\\" + (BrokenSpace(indent) + more) == "\\\\\n" + Spaces(indent) + ("\\ " + more)
  {
    var lead, tail := "\\\n" + Spaces(indent), "\\ " + more;
    assert BrokenSpace(indent) + more == lead + tail;
    assert "\\" + lead == "\\\\\n" + Spaces(indent);
    assert "\\" + (lead + tail) == ("\\" + lead) + tail;
  }

  /** What a guard ahead of a space that is broken again adds to the content: to YAML a backslash and a space. */
  function StrayGuard(reading: Reading): string {
    if reading.Exact? then "" else "\\ "
  }

  lemma ReadGuardedBrokenSpace(indent: nat, reading: Reading, more: string)
    ensures ReadDouble("\\" + (BrokenSpace(indent) + more), indent, reading)
      == Prepend(StrayGuard(reading), ReadDouble(BrokenSpace(indent) + more, indent, reading))
  {
    hide ReadDouble, BrokenSpace;
    var tail := "\\ " + more;
    RegroupGuarded(indent, more);
    ReadBrokenSpace(indent, reading, more);
    ReadGuardedSpace(indent, reading, more);
    if reading.Exact? {
      ReadDoubledBreak(indent, tail);
      PrependNothing(ReadDouble(tail, indent, reading));
    } else {
      FoldDoubledBreak(indent, tail);
    }
  }

  /** A guard written ahead of a space changes nothing, unless the line is broken again before the space. */
  lemma ReadGuarded(value: string, i: nat, column: nat, indent: nat, width: Width, reading: Reading, rest: string)
    requires i < |value| && value[i] == ' '
    ensures var text := DoubleTail(value, i, column, indent, width) + rest;
      var stray := if Interior(value, i) && Exceeds(column, width) then StrayGuard(reading) else "";
      ReadDouble("\\" + text, indent, reading) == Prepend(stray, ReadDouble(text, indent, reading))
  {
    hide ReadDouble, BrokenSpace, AtLineEnd, StrayGuard, DoubleStep;
    var step := DoubleStep(value, i, column, indent, width);
    var more := DoubleTail(value, i + 1, step.column, indent, width) + rest;
    SpaceStep(value, i, column, indent, width);
    DoubleTailSteps(value, i, column, indent, width, rest);
    if Interior(value, i) && Exceeds(column, width) {
      ReadGuardedBrokenSpace(indent, reading, more);
    } else {
      TailEndsNoLine(value, i + 1, step.column, indent, width, rest);
      ReadGuardedSpace(indent, reading, more);
      PrependNothing(ReadDouble(" " + more, indent, reading));
      assert "\\" + (" " + more) == "\\ " + more;
    }
  }

  lemma RegroupBreak(escape: string, indent: nat, next: char, more: string)
    ensures escape + EscapedBreak(indent, next) + more == escape + ("\\\n" + Spaces(indent) + (BlankGuard(next) + more))
  {
    assert "\\\n" + Spaces(indent) + BlankGuard(next) + more == "\\\n" + Spaces(indent) + (BlankGuard(next) + more);
  }

  lemma ReadEscapeThenBreak(c: char, next: char, indent: nat, reading: Reading, more: string)
    requires NeedsYamlEscape(c) && more != "" && (next != ' ' ==> !IsWhite(more[0]))
    ensures ReadDouble(YamlEscape(c) + EscapedBreak(indent, next) + more, indent, reading)
         == Prepend([c], ReadDouble(BlankGuard(next) + more, indent, reading))
  {
    hide ReadDouble, YamlEscape;
    var guarded := BlankGuard(next) + more;
    ReadDoubleEscape(c, indent, reading, "\\\n" + Spaces(indent) + guarded);
    ReadDoubleBreak(indent, reading, guarded);
    RegroupBreak(YamlEscape(c), indent, next, more);
  }

  lemma ReadPlainCharacter(c: char, indent: nat, reading: Reading, more: string)
    requires !NeedsYamlEscape(c) && c != ' '
    ensures ReadDouble([c] + more, indent, reading) == Prepend([c], ReadDouble(more, indent, reading))
  {
    hide AtLineEnd;
    var plain := [c] + more;
    assert plain[1..] == more;
    NoLineEnd(plain);
  }

  lemma ReadBreakThenPlain(c: char, indent: nat, reading: Reading, more: string)
    requires !NeedsYamlEscape(c) && c != ' '
    ensures ReadDouble([c] + more, indent, reading) == Prepend([c], ReadDouble(more, indent, reading))
    ensures ReadDouble(EscapedBreak(indent, c) + [c] + more, indent, reading)
         == Prepend([c], ReadDouble(more, indent, reading))
  {
    hide ReadDouble;
    var plain := [c] + more;
    ReadPlainCharacter(c, indent, reading, more);
    ReadDoubleBreak(indent, reading, plain);
    assert EscapedBreak(indent, c) == "\\\n" + Spaces(indent);
    assert EscapedBreak(indent, c) + [c] + more == "\\\n" + Spaces(indent) + plain;
  }

  // ----- what is read -----

  /**
   * The line is broken after the escape of character `i`, which writes a guard for the space behind it,
   * and again before that space, because continuation lines start at or past the limit.
   */
  predicate GuardBroken(value: string, i: nat, column: nat, indent: nat, width: Width)
    requires i < |value|
  {
    && NeedsYamlEscape(value[i]) && Interior(value, i) && Exceeds(column + |YamlEscape(value[i])| - 1, width)
    && value[i + 1] == ' ' && Interior(value, i + 1) && Exceeds(indent + 1, width)
  }

  /** No guard from character `i` on is parted from its space. */
  predicate GuardsHold(value: string, i: nat, column: nat, indent: nat, width: Width)
    requires i <= |value|
    decreases |value| - i
  {
    i == |value| ||
    (!GuardBroken(value, i, column, indent, width) &&
     GuardsHold(value, i + 1, DoubleStep(value, i, column, indent, width).column, indent, width))
  }

  /** The content that a reading finds in the text from character `i` on. */
  function DoubleContent(value: string, i: nat, column: nat, indent: nat, width: Width, reading: Reading): string
    requires i <= |value|
    decreases |value| - i
  {
    if i == |value| then ""
    else
      var stray := if GuardBroken(value, i, column, indent, width) then StrayGuard(reading) else "";
      [value[i]] + stray
      + DoubleContent(value, i + 1, DoubleStep(value, i, column, indent, width).column, indent, width, reading)
  }

  lemma EscapeStep(value: string, i: nat, column: nat, indent: nat, width: Width)
    requires i < |value| && NeedsYamlEscape(value[i])
    ensures var escape := YamlEscape(value[i]);
      DoubleStep(value, i, column, indent, width)
        == if Interior(value, i) && Exceeds(column + |escape| - 1, width)
           then Step(escape + EscapedBreak(indent, value[i + 1]), 1, EscapedBreakColumn(indent, value[i + 1]))
           else Step(escape, 1, column + |escape|)
  {
  }

  /** An escape is read back, with what the break and the guard behind it add. */
  lemma ReadEscapeStep(value: string, i: nat, column: nat, indent: nat, width: Width, reading: Reading, rest: string)
    requires i < |value| && NeedsYamlEscape(value[i])
    ensures var step := DoubleStep(value, i, column, indent, width);
      var more := DoubleTail(value, i + 1, step.column, indent, width) + rest;
      var stray := if GuardBroken(value, i, column, indent, width) then StrayGuard(reading) else "";
      ReadDouble(step.piece + more, indent, reading) == Prepend([value[i]] + stray, ReadDouble(more, indent, reading))
  {
    hide ReadDouble, YamlEscape, NeedsYamlEscape, StrayGuard, DoubleStep, DoubleTail;
    var c := value[i];
    var step := DoubleStep(value, i, column, indent, width);
    var more := DoubleTail(value, i + 1, step.column, indent, width) + rest;
    EscapeStep(value, i, column, indent, width);
    DoubleTailOpens(value, i + 1, step.column, indent, width, rest);
    assert [c] + "" == [c];
    if !(Interior(value, i) && Exceeds(column + |YamlEscape(c)| - 1, width)) {
      ReadDoubleEscape(c, indent, reading, more);
    } else {
      ReadEscapeThenBreak(c, value[i + 1], indent, reading, more);
      if value[i + 1] == ' ' {
        ReadGuarded(value, i + 1, step.column, indent, width, reading, rest);
        var stray := if GuardBroken(value, i, column, indent, width) then StrayGuard(reading) else "";
        PrependBoth([c], stray, ReadDouble(more, indent, reading));
      } else {
        assert BlankGuard(value[i + 1]) + more == more;
      }
    }
  }

  /** One written character is read back, with what the break and the guard behind it add. */
  lemma ReadDoubleStep(value: string, i: nat, column: nat, indent: nat, width: Width, reading: Reading, rest: string)
    requires i < |value|
    ensures var step := DoubleStep(value, i, column, indent, width);
      var more := DoubleTail(value, i + 1, step.column, indent, width) + rest;
      var stray := if GuardBroken(value, i, column, indent, width) then StrayGuard(reading) else "";
      ReadDouble(step.piece + more, indent, reading) == Prepend([value[i]] + stray, ReadDouble(more, indent, reading))
  {
    hide ReadDouble, StrayGuard, AtLineEnd;
    var c := value[i];
    var step := DoubleStep(value, i, column, indent, width);
    var more := DoubleTail(value, i + 1, step.column, indent, width) + rest;
    assert [c] + "" == [c];
    if NeedsYamlEscape(c) {
      ReadEscapeStep(value, i, column, indent, width, reading, rest);
    } else if c == ' ' {
      SpaceStep(value, i, column, indent, width);
      TailEndsNoLine(value, i + 1, step.column, indent, width, rest);
      ReadGuardedSpace(indent, reading, more);
      ReadBrokenSpace(indent, reading, more);
    } else {
      ReadBreakThenPlain(c, indent, reading, more);
    }
  }

  /** Both readings find some content in every double-quoted text, at any column and indent and whatever follows it. */
  lemma {:induction false} ReadDoubleTail(value: string, i: nat, column: nat, indent: nat, width: Width,
      reading: Reading, rest: string)
    requires i <= |value|
    ensures ReadDouble(DoubleTail(value, i, column, indent, width) + rest, indent, reading)
      == Parsed(DoubleContent(value, i, column, indent, width, reading), rest)
    decreases |value| - i
  {
    if i == |value| {
      assert ("\"" + rest)[1..] == rest;
    } else {
      hide ReadDouble, DoubleStep, GuardBroken;
      var step := DoubleStep(value, i, column, indent, width);
      ReadDoubleTail(value, i + 1, step.column, indent, width, reading, rest);
      ReadDoubleStep(value, i, column, indent, width, reading, rest);
      DoubleTailSteps(value, i, column, indent, width, rest);
    }
  }

  /** That content is the string to the exact reading, to YAML exactly when all guards hold; else YAML finds more. */
  lemma {:induction false} DoubleContentGrows(value: string, i: nat, column: nat, indent: nat, width: Width,
      reading: Reading)
    requires i <= |value|
    ensures var content := DoubleContent(value, i, column, indent, width, reading);
      if reading.Exact? || GuardsHold(value, i, column, indent, width) then content == value[i..]
      else |content| > |value| - i
    decreases |value| - i
  {
    hide DoubleStep, GuardBroken;
    if i < |value| {
      var column' := DoubleStep(value, i, column, indent, width).column;
      DoubleContentGrows(value, i + 1, column', indent, width, reading);
      assert value[i..] == [value[i]] + value[i + 1..];
      assert [value[i]] + "" == [value[i]];
    }
  }

  /**
   * YAML reads every double-quoted text, back to its string exactly when no guard is parted from its space,
   * and as a longer string otherwise.
   */
  lemma YamlReadsDoubleTail(value: string, column: nat, indent: nat, width: Width, rest: string)
    ensures var read := ReadDouble(DoubleTail(value, 0, column, indent, width) + rest, indent, Yaml);
      && read.Parsed? && read.rest == rest
      && (read.value == value <==> GuardsHold(value, 0, column, indent, width))
      && (!GuardsHold(value, 0, column, indent, width) ==> |read.value| > |value|)
  {
    ReadDoubleTail(value, 0, column, indent, width, Yaml, rest);
    DoubleContentGrows(value, 0, column, indent, width, Yaml);
    assert value[0..] == value;
  }

  /** Where continuation lines start left of the limit, all guards hold. */
  lemma {:induction false} GuardsHoldWithin(value: string, i: nat, column: nat, indent: nat, width: Width)
    requires i <= |value| && (width.Limit? ==> indent < width.columns)
    ensures GuardsHold(value, i, column, indent, width)
    decreases |value| - i
  {
    if i < |value| {
      GuardsHoldWithin(value, i + 1, DoubleStep(value, i, column, indent, width).column, indent, width);
    }
  }

  /** The tab and the space behind it stand at the limit twice: on their line and on the next. */
  predicate TwiceAtLimit(column: nat, indent: nat, limit: nat) {
    column + 2 > limit && indent >= limit
  }

  lemma GuardBrokenAgain(column: nat, indent: nat, limit: nat)
    ensures DoubleStep("a\t x", 0, column, indent, Limit(limit)).column == column + 1
    ensures !GuardBroken("a\t x", 0, column, indent, Limit(limit))
    ensures GuardBroken("a\t x", 1, column + 1, indent, Limit(limit)) <==> TwiceAtLimit(column, indent, limit)
    ensures forall c :: !GuardBroken("a\t x", 2, c, indent, Limit(limit))
    ensures forall c :: !GuardBroken("a\t x", 3, c, indent, Limit(limit))
  {
    assert YamlEscape('\t') == "\\t";
  }

  lemma ContentStep(value: string, i: nat, column: nat, indent: nat, width: Width)
    requires i < |value|
    ensures DoubleContent(value, i, column, indent, width, Yaml)
      == [value[i]] + (if GuardBroken(value, i, column, indent, width) then "\\ " else "")
       + DoubleContent(value, i + 1, DoubleStep(value, i, column, indent, width).column, indent, width, Yaml)
  {
  }

  lemma DeepContent(column: nat, indent: nat, limit: nat)
    ensures DoubleContent("a\t x", 0, column, indent, Limit(limit), Yaml)
      == if TwiceAtLimit(column, indent, limit) then "a\t\\  x" else "a\t x"
  {
    hide DoubleContent, DoubleStep, GuardBroken, TwiceAtLimit;
    var value, width := "a\t x", Limit(limit);
    GuardBrokenAgain(column, indent, limit);
    var second := DoubleStep(value, 1, column + 1, indent, width).column;
    var third := DoubleStep(value, 2, second, indent, width).column;
    ContentStep(value, 0, column, indent, width);
    ContentStep(value, 1, column + 1, indent, width);
    ContentStep(value, 2, second, indent, width);
    ContentStep(value, 3, third, indent, width);
    NoContent(value, DoubleStep(value, 3, third, indent, width).column, indent, width);
  }

  lemma NoContent(value: string, column: nat, indent: nat, width: Width)
    ensures DoubleContent(value, |value|, column, indent, width, Yaml) == ""
  {
  }

  /**
   * A guarded space is broken again exactly when it stands at the limit on its own line and on the next. YAML
   * then silently reads another string: the guard as a backslash, and the line end as a space.
   */
  lemma DeepIndentMisread(column: nat, indent: nat, limit: nat, rest: string)
    ensures ReadDouble(DoubleTail("a\t x", 0, column, indent, Limit(limit)) + rest, indent, Yaml)
      == Parsed(if TwiceAtLimit(column, indent, limit) then "a\t\\  x" else "a\t x", rest)
  {
    ReadDoubleTail("a\t x", 0, column, indent, Limit(limit), Yaml, rest);
    DeepContent(column, indent, limit);
  }

  /** YAML reads all double-quoted texts back exactly when continuation lines start left of the limit. */
  lemma YamlReadsDoubleQuoted(indent: nat, limit: nat)
    ensures (forall value: string, column: nat ::
              ReadDouble(DoubleTail(value, 0, column, indent, Limit(limit)), indent, Yaml) == Parsed(value, ""))
        <==> indent < limit
  {
    hide ReadDouble, DoubleTail;
    if indent < limit {
      forall value: string, column: nat
        ensures ReadDouble(DoubleTail(value, 0, column, indent, Limit(limit)), indent, Yaml) == Parsed(value, "")
      {
        GuardsHoldWithin(value, 0, column, indent, Limit(limit));
        YamlReadsDoubleTail(value, column, indent, Limit(limit), "");
        var tail := DoubleTail(value, 0, column, indent, Limit(limit));
        assert tail + "" == tail;
      }
    } else {
      DeepIndentMisread(limit, indent, limit, "");
      var tail := DoubleTail("a\t x", 0, limit, indent, Limit(limit));
      assert tail + "" == tail;
    }
  }

  // ----- facts about the emitted text -----

  lemma DoubleStepEmitted(value: string, i: nat, column: nat, indent: nat, width: Width)
    requires i < |value|
    ensures IsEmitted(DoubleStep(value, i, column, indent, width).piece)
    ensures width.Unlimited? ==> NoNewline(DoubleStep(value, i, column, indent, width).piece)
  {
  }

  lemma {:induction false} DoubleTailEmitted(value: string, i: nat, column: nat, indent: nat, width: Width)
    requires i <= |value|
    ensures IsEmitted(DoubleTail(value, i, column, indent, width))
    ensures width.Unlimited? ==> NoNewline(DoubleTail(value, i, column, indent, width))
    decreases |value| - i
  {
    if i < |value| {
      var step := DoubleStep(value, i, column, indent, width);
      DoubleStepEmitted(value, i, column, indent, width);
      DoubleTailEmitted(value, i + 1, step.column, indent, width);
    }
  }

  /** Without a limit the text does not depend on where it starts. */
  lemma {:induction false} DoubleTailUnlimited(value: string, i: nat, column: nat, indent: nat, other: nat,
      otherIndent: nat)
    requires i <= |value|
    ensures DoubleTail(value, i, column, indent, Unlimited) == DoubleTail(value, i, other, otherIndent, Unlimited)
    decreases |value| - i
  {
    if i < |value| {
      var step := DoubleStep(value, i, column, indent, Unlimited);
      var step' := DoubleStep(value, i, other, otherIndent, Unlimited);
      DoubleTailUnlimited(value, i + 1, step.column, indent, step'.column, otherIndent);
    }
  }

  // ----- the formatting loop -----

  /** `projected_double_quoted_column`: the signed `column + (end - start)`. */
  function ProjectedColumn(column: nat, end: nat, start: nat): nat {
    if end >= start then column + (end - start)
    else if column >= start - end then column - (start - end) else 0
  }

  /** `emitted`, followed by the tail from character `end` on at `column`, is the whole text. */
  ghost predicate Reaches(emitted: string, value: string, end: nat, column: nat, context: ScalarContext) {
    && end <= |value|
    && emitted + DoubleTail(value, end, column, context.continuationIndent, context.width) == DoubleText(value, context)
  }

  lemma ReachStep(emitted: string, value: string, end: nat, column: nat, context: ScalarContext)
    requires end < |value| && Reaches(emitted, value, end, column, context)
    ensures var step := DoubleStep(value, end, column, context.continuationIndent, context.width);
      Reaches(emitted + step.piece, value, end + 1, step.column, context)
  {
    var step := DoubleStep(value, end, column, context.continuationIndent, context.width);
    Regroup(emitted, step.piece, DoubleTail(value, end + 1, step.column, context.continuationIndent, context.width));
  }

  lemma TakeNext(output: string, value: string, start: nat, end: nat)
    requires end < |value| && start <= end + 1
    ensures start == end + 1 ==> output + value[start..end + 1] == output
    ensures start == end ==> output + value[start..end + 1] == output + [value[end]]
    ensures start <= end ==> output + value[start..end + 1] == output + value[start..end] + [value[end]]
  {
  }

  /** Characters `start..end` are decided but not yet written. */
  ghost predicate Pending(value: string, start: nat, end: nat) {
    && start <= end <= |value|
    && (start == end <==> end == 0 || NeedsYamlEscape(value[end - 1]))
  }

  /** `format_double_quoted_scalar`. */
  method FormatDoubleQuotedScalar(value: string, context: ScalarContext) returns (output: string)
    ensures output == DoubleText(value, context)
  {
    hide DoubleStep;
    var column: nat := context.initialColumn;
    output := "\"";
    column := column + 1;
    var start: nat, end: nat := 0, 0;
    assert output + value[start..end] == output;
    while end <= |value|
      invariant end <= |value| + 1
      invariant end <= |value| ==> Pending(value, start, end)
      invariant end <= |value| ==> Reaches(output + value[start..end], value, end, column + (end - start), context)
      invariant end == |value| + 1 ==> output + "\"" == DoubleText(value, context)
      decreases |value| + 1 - end
    {
      if end < |value| {
        ReachStep(output + value[start..end], value, end, column + (end - start), context);
      }
      output, column, start := Visit(output, value, start, end, column, context);
      end := end + 1;
    }
    output := output + "\"";
  }

  /** One turn of the loop: writes the step of character `end`, except what stays pending. */
  method Visit(output: string, value: string, start: nat, end: nat, column: nat, context: ScalarContext)
    returns (output': string, column': nat, start': nat)
    requires Pending(value, start, end)
    ensures end == |value| ==> output' == output + value[start..end]
    ensures end < |value| ==> Pending(value, start', end + 1)
    ensures end < |value| ==>
      var step := DoubleStep(value, end, column + (end - start), context.continuationIndent, context.width);
      && output' + value[start'..end + 1] == output + value[start..end] + step.piece
      && column' + (end + 1 - start') == step.column
  {
    output', column', start' := output, column, start;
    var character := if end < |value| then Some(value[end]) else None;
    if character.None? || NeedsYamlEscape(character.value) {
      output', column', start' := Flush(output', value, start', end, column');
      if character.Some? {
        var escaped := YamlEscape(character.value);
        column' := column' + |escaped|;
        output' := output' + escaped;
        start' := end + 1;
      }
    }
    if end > 0 && end + 1 < |value| && (character == Some(' ') || start' >= end)
       && Exceeds(ProjectedColumn(column', end, start'), context.width) {
      output', column', start' := BreakLine(output', value, start', end, context);
    }
    if end < |value| {
      TakeNext(output', value, start', end);
    }
  }

  /** Writes the pending characters. */
  method Flush(output: string, value: string, start: nat, end: nat, column: nat)
    returns (output': string, column': nat, start': nat)
    requires start <= end <= |value|
    ensures output' == output + value[start..end] && column' == column + (end - start) && start' == end
  {
    output', column', start' := output, column, start;
    if start < end {
      var data := value[start..end];
      column' := column + |data|;
      output' := output + data;
      start' := end;
    }
  }

  /** Writes the pending characters and an escaped break, guarding a space that comes next. */
  method BreakLine(output: string, value: string, start: nat, end: nat, context: ScalarContext)
    returns (output': string, column': nat, start': nat)
    requires end < |value| && start <= |value| - 1
    ensures start' == (if start < end then end else start)
    ensures output' == output + (if start < end then value[start..end] else "")
      + EscapedBreak(context.continuationIndent, value[start'])
    ensures column' == EscapedBreakColumn(context.continuationIndent, value[start'])
  {
    var data := if start < end then value[start..end] else "";
    start' := if start < end then end else start;
    output' := output + data + "\\\n" + Spaces(context.continuationIndent);
    column' := context.continuationIndent;
    if start' < |value| && value[start'] == ' ' {
      output' := output' + "\\";
      column' := column' + 1;
    }
  }
}
