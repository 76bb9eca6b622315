/** The plain and single-quoted scalar styles: choice of style, wrapping, and the exact inverses. */
module Scalars {
  import opened Text
  import opened Resolver

  // ----- choosing a style -----

  datatype ScalarStyle = Plain | SingleQuoted | SingleQuotedMultiline | DoubleQuoted

  datatype MappingKeyStyle = SimpleKey | ExplicitKey

  const SIMPLE_KEY_LIMIT := 128
  const STRING_TAG_LENGTH := 5

  /** Unicode `White_Space`. */
  predicate IsWhitespace(c: char) {
    || '\t' <= c <= '\r' || c == ' ' || c == '\U{0085}' || c == '\U{00a0}' || c == '\U{1680}'
    || '\U{2000}' <= c <= '\U{200a}' || c == '\U{2028}' || c == '\U{2029}' || c == '\U{202f}'
    || c == '\U{205f}' || c == '\U{3000}'
  }

  predicate IsLineBreak(c: char) {
    c == '\n' || c == '\U{0085}' || c == '\U{2028}' || c == '\U{2029}'
  }

  function ClassifyMappingKey(key: string): MappingKeyStyle {
    if key != "" && (forall k | 0 <= k < |key| :: !IsLineBreak(key[k])) && |key| + STRING_TAG_LENGTH < SIMPLE_KEY_LIMIT
    then SimpleKey else ExplicitKey
  }

  predicate NeedsDoubleQuotedString(value: string) {
    || (exists k | 0 <= k < |value| :: value[k] != '\n' && !IsPrintable(value[k]))
    || HasPair(value, '\n', ' ')
    || HasPair(value, ' ', '\n')
  }

  predicate StartsWithYamlIndicator(value: string) {
    && value != ""
    && (|| value[0] in ",[]{}#&*!|>'\"%@`"
        || (value[0] in "-?:" && (|value| == 1 || IsWhitespace(value[1])))
        || value == "---" || value == "..."
        || "--- " <= value || "... " <= value)
  }

  predicate PlainScalarIsAllowed(value: string) {
    && value != ""
    && !IsWhitespace(value[0])
    && !IsWhitespace(value[|value| - 1])
    && !StartsWithYamlIndicator(value)
    && !ResemblesImplicitScalar(value)
    && !HasPair(value, ':', ' ')
    && !HasPair(value, ' ', '#')
    && value[|value| - 1] != ':'
  }

  function ClassifyStringScalar(value: string): ScalarStyle {
    if NeedsDoubleQuotedString(value) then DoubleQuoted
    else if '\n' in value then SingleQuotedMultiline
    else if PlainScalarIsAllowed(value) then Plain
    else SingleQuoted
  }

  // ----- layout -----

  /**
   * The column limit. `usize::MAX` stands for no limit: columns are added with
   * saturation, so none can exceed it; for a finite limit saturation is invisible.
   */
  datatype Width = Unlimited | Limit(columns: nat)

  datatype ScalarContext = ScalarContext(initialColumn: nat, continuationIndent: nat, width: Width)

  predicate Exceeds(column: nat, width: Width) {
    width.Limit? && column > width.columns
  }

  function Break(indent: nat): string {
    "\n" + Spaces(indent)
  }

  /**
   * The words of `value` from `column` on: a space past the limit, unless it is the last character,
   * becomes a break.
   */
  function Wrapped(value: string, column: nat, indent: nat, width: Width): string {
    if value == "" then ""
    else if value[0] == ' ' && Exceeds(column, width) && |value| > 1 then
      Break(indent) + Wrapped(value[1..], indent, indent, width)
    else
      [value[0]] + Wrapped(value[1..], column + 1, indent, width)
  }

  /** The number of line feeds that `s` opens with. */
  function NewlineRun(s: string): (n: nat)
    ensures n <= |s|
    ensures forall k :: 0 <= k < n ==> s[k] == '\n'
    ensures n < |s| ==> s[n] != '\n'
  {
    if s == "" || s[0] != '\n' then 0 else 1 + NewlineRun(s[1..])
  }

  /** One step of a writer: the text it writes, how many characters that stands for, the column after it. */
  datatype Step = Step(piece: string, taken: nat, column: nat)

  function QuotedStep(value: string, column: nat, indent: nat, width: Width): (step: Step)
    requires value != ""
    ensures 0 < step.taken <= |value|
  {
    if value[0] == '\n' then
      var run := NewlineRun(value);
      Step(Newlines(run + 1) + Spaces(indent), run, indent)
    else if value[0] == ' ' && Exceeds(column, width) && |value| > 1 && value[1] != '\n' then
      Step(Break(indent), 1, indent)
    else if value[0] == '\'' then Step("''", 1, column + 2)
    else Step([value[0]], 1, column + 1)
  }

  /** Everything after the opening quote of a single-quoted scalar, one line or many. */
  function QuotedTail(value: string, column: nat, indent: nat, width: Width): (s: string)
    ensures s != ""
    decreases |value|
  {
    if value == "" then "'"
    else
      var step := QuotedStep(value, column, indent, width);
      step.piece + QuotedTail(value[step.taken..], step.column, indent, width)
  }

  /** An opening quote and everything after it. */
  function Quoted(quote: char, tail: string): string {
    [quote] + tail
  }

  function QuotedText(value: string, context: ScalarContext): string {
    Quoted('\'', QuotedTail(value, context.initialColumn + 1, context.continuationIndent, context.width))
  }

  lemma BehindQuote(quote: char, tail: string, rest: string)
    ensures var text := Quoted(quote, tail) + rest; text != "" && text[0] == quote && text[1..] == tail + rest
  {
  }

  // ----- reading back -----

  datatype Parsed<T> = Failed | Parsed(value: T, rest: string)

  function Prepend(s: string, parsed: Parsed<string>): Parsed<string> {
    match parsed
    case Failed => Failed
    case Parsed(value, rest) => Parsed(s + value, rest)
  }

  /** Unfolds a plain scalar: a line feed and exactly `indent` blanks stand for one space. */
  function ReadPlain(text: string, indent: nat): (r: Parsed<string>)
    ensures r.Parsed? ==> |r.rest| <= |text|
    ensures r.Parsed? && text != "" && text[0] != '\n' ==> |r.rest| < |text|
    decreases |text|
  {
    if text == "" then Parsed("", "")
    else if text[0] == '\n' then
      if AtIndent(text[1..], indent) then Prepend(" ", ReadPlain(text[1 + indent..], indent))
      else Parsed("", text)
    else Prepend([text[0]], ReadPlain(text[1..], indent))
  }

  /** Unfolds a single-quoted scalar after its opening quote: n > 1 line feeds stand for n - 1. */
  function ReadQuoted(text: string, indent: nat): (r: Parsed<string>)
    ensures r.Parsed? ==> |r.rest| < |text|
    decreases |text|
  {
    if text == "" then Failed
    else if text[0] == '\'' then
      if |text| > 1 && text[1] == '\'' then Prepend("'", ReadQuoted(text[2..], indent))
      else Parsed("", text[1..])
    else if text[0] == '\n' then
      var run := NewlineRun(text);
      if AtIndent(text[run..], indent) then
        Prepend(if run == 1 then " " else Newlines(run - 1), ReadQuoted(text[run + indent..], indent))
      else Failed
    else Prepend([text[0]], ReadQuoted(text[1..], indent))
  }

  /** What may follow a plain scalar: the end of its line, and no line at its continuation indent. */
  predicate EndsPlain(rest: string, indent: nat) {
    rest != "" && rest[0] == '\n' && !AtIndent(rest[1..], indent)
  }

  /** Plain text is unfolded to the string it was made from, wherever the breaks fell. */
  lemma {:induction false} ReadWrapped(value: string, column: nat, indent: nat, width: Width, rest: string)
    requires NoNewline(value) && EndsPlain(rest, indent)
    ensures ReadPlain(Wrapped(value, column, indent, width) + rest, indent) == Parsed(value, rest)
    decreases |value|
  {
    var text := Wrapped(value, column, indent, width) + rest;
    if value == "" {
      assert text == rest;
    } else if value[0] == ' ' && Exceeds(column, width) && |value| > 1 {
      var more := Wrapped(value[1..], indent, indent, width);
      assert text[1..] == Spaces(indent) + (more + rest);
      assert text[1 + indent..] == more + rest;
      ReadWrapped(value[1..], indent, indent, width, rest);
      assert value == " " + value[1..];
    } else {
      assert text[1..] == Wrapped(value[1..], column + 1, indent, width) + rest;
      ReadWrapped(value[1..], column + 1, indent, width, rest);
      assert value == [value[0]] + value[1..];
    }
  }

  lemma {:induction false} RunLength(s: string, count: nat)
    requires count <= |s| && (forall k :: 0 <= k < count ==> s[k] == '\n')
    requires count < |s| ==> s[count] != '\n'
    ensures NewlineRun(s) == count
  {
    if count > 0 {
      RunLength(s[1..], count - 1);
    }
  }

  /** A run of line feeds with its indentation is read in one step. */
  lemma ReadQuotedBreak(run: nat, indent: nat, more: string)
    requires run > 0 && indent > 0 && more != ""
    ensures ReadQuoted(Newlines(run) + Spaces(indent) + more, indent)
         == Prepend(if run == 1 then " " else Newlines(run - 1), ReadQuoted(more, indent))
  {
    var text := Newlines(run) + Spaces(indent) + more;
    RunLength(text, run);
    assert text[run..] == Spaces(indent) + more;
    assert text[run + indent..] == more;
  }

  lemma ReadQuotedStep(value: string, column: nat, indent: nat, width: Width, more: string)
    requires value != "" && indent > 0 && more != ""
    ensures var step := QuotedStep(value, column, indent, width);
      ReadQuoted(step.piece + more, indent) == Prepend(value[..step.taken], ReadQuoted(more, indent))
  {
    var step := QuotedStep(value, column, indent, width);
    var text := step.piece + more;
    if value[0] == '\n' {
      ReadQuotedBreak(step.taken + 1, indent, more);
      assert value[..step.taken] == Newlines(step.taken);
    } else if step.piece == Break(indent) {
      assert Break(indent) == Newlines(1) + Spaces(indent);
      ReadQuotedBreak(1, indent, more);
      assert value[..1] == " ";
    } else if value[0] == '\'' {
      assert text[2..] == more;
      assert value[..1] == "'";
    } else {
      assert text[1..] == more;
      assert value[..1] == [value[0]];
    }
  }

  lemma QuotedTailStep(value: string, column: nat, indent: nat, width: Width)
    requires value != ""
    ensures var step := QuotedStep(value, column, indent, width);
      QuotedTail(value, column, indent, width)
        == step.piece + QuotedTail(value[step.taken..], step.column, indent, width)
  {
  }

  lemma QuotedTailSteps(value: string, column: nat, indent: nat, width: Width, rest: string)
    requires value != ""
    ensures var step := QuotedStep(value, column, indent, width);
      QuotedTail(value, column, indent, width) + rest
        == step.piece + (QuotedTail(value[step.taken..], step.column, indent, width) + rest)
  {
  }

  lemma PrependNothing(parsed: Parsed<string>)
    ensures Prepend("", parsed) == parsed
  {
    if parsed.Parsed? {
      assert "" + parsed.value == parsed.value;
    }
  }

  lemma PrependBoth(s: string, t: string, parsed: Parsed<string>)
    ensures Prepend(s, Prepend(t, parsed)) == Prepend(s + t, parsed)
  {
    if parsed.Parsed? {
      assert s + (t + parsed.value) == s + t + parsed.value;
    }
  }

  lemma PrependParsed(value: string, taken: nat, rest: string)
    requires taken <= |value|
    ensures Prepend(value[..taken], Parsed(value[taken..], rest)) == Parsed(value, rest)
  {
    assert value == value[..taken] + value[taken..];
  }

  /** Single-quoted text is unfolded to the string it was made from, line feeds, quotes and breaks included. */
  lemma {:induction false} ReadQuotedTail(value: string, column: nat, indent: nat, width: Width, rest: string)
    requires indent > 0 && (rest == "" || rest[0] != '\'')
    ensures ReadQuoted(QuotedTail(value, column, indent, width) + rest, indent) == Parsed(value, rest)
    decreases |value|
  {
    if value == "" {
      assert ("'" + rest)[1..] == rest;
    } else {
      var step := QuotedStep(value, column, indent, width);
      var more := QuotedTail(value[step.taken..], step.column, indent, width);
      ReadQuotedTail(value[step.taken..], step.column, indent, width, rest);
      ReadQuotedStep(value, column, indent, width, more + rest);
      QuotedTailSteps(value, column, indent, width, rest);
      PrependParsed(value, step.taken, rest);
    }
  }

  // ----- facts about the emitted text -----

  /** Without a limit nothing is wrapped. */
  lemma {:induction false} WrappedUnlimited(value: string, column: nat, indent: nat, width: Width)
    requires width.Unlimited? || (forall k :: 0 <= k < |value| ==> value[k] != ' ')
    ensures Wrapped(value, column, indent, width) == value
  {
    if value != "" {
      WrappedUnlimited(value[1..], column + 1, indent, width);
    }
  }

  lemma {:induction false} WrappedEmitted(value: string, column: nat, indent: nat, width: Width)
    requires AllPrintable(value)
    ensures IsEmitted(Wrapped(value, column, indent, width))
  {
    if value != "" {
      WrappedEmitted(value[1..], column + 1, indent, width);
      WrappedEmitted(value[1..], indent, indent, width);
    }
  }

  lemma {:induction false} QuotedTailEmitted(value: string, column: nat, indent: nat, width: Width)
    requires IsEmitted(value)
    ensures IsEmitted(QuotedTail(value, column, indent, width))
    decreases |value|
  {
    if value != "" {
      var step := QuotedStep(value, column, indent, width);
      QuotedTailEmitted(value[step.taken..], step.column, indent, width);
    }
  }

  /** A one-line single-quoted scalar without a limit stays on its line and does not depend on where it starts. */
  lemma {:induction false} QuotedTailUnlimited(value: string, column: nat, indent: nat, other: nat, otherIndent: nat)
    requires NoNewline(value)
    ensures QuotedTail(value, column, indent, Unlimited) == QuotedTail(value, other, otherIndent, Unlimited)
    ensures NoNewline(QuotedTail(value, column, indent, Unlimited))
  {
    if value != "" {
      var step := QuotedStep(value, column, indent, Unlimited);
      var step' := QuotedStep(value, other, otherIndent, Unlimited);
      QuotedTailUnlimited(value[1..], step.column, indent, step'.column, otherIndent);
    }
  }

  // ----- the formatting loops -----

  /** `wrap_scalar_words`. */
  method WrapScalarWords(value: string, context: ScalarContext, prefix: string, suffix: string) returns (output: string)
    ensures output == prefix +
      Wrapped(value, context.initialColumn + |prefix|, context.continuationIndent, context.width) + suffix
  {
    output := prefix;
    var column: nat := context.initialColumn + |prefix|;
    var indent := context.continuationIndent;
    ghost var whole := prefix + Wrapped(value, column, indent, context.width);
    var next := 0;
    while next < |value|
      invariant 0 <= next <= |value|
      invariant output + Wrapped(value[next..], column, indent, context.width) == whole
    {
      var character := value[next];
      ghost var left := value[next..];
      next := next + 1;
      assert left[1..] == value[next..];
      if character == ' ' && Exceeds(column, context.width) && next < |value| {
        output := output + "\n" + Spaces(indent);
        column := indent;
      } else {
        output := output + [character];
        column := column + 1;
      }
    }
    assert output == whole;
    output := output + suffix;
  }

  /** `str::replace('\'', "''")`. */
  function DoubleQuotes(value: string): string {
    if value == "" then ""
    else (if value[0] == '\'' then "''" else [value[0]]) + DoubleQuotes(value[1..])
  }

  /** What follows a line of a single-quoted scalar whose remaining text is `more`. */
  function AfterLine(more: string, indent: nat, width: Width): string {
    if more == "" then "'"
    else
      var run := NewlineRun(more);
      Newlines(run + 1) + Spaces(indent) + QuotedTail(more[run..], indent, indent, width)
  }

  lemma Regroup(a: string, b: string, c: string)
    ensures (a + b) + c == a + (b + c)
    ensures a + "" == a
  {
  }

  lemma WrapDoubledStep(line: string, more: string, column: nat, indent: nat, width: Width)
    requires line != "" && NoNewline(line) && (more == "" || more[0] == '\n')
    ensures var step := QuotedStep(line + more, column, indent, width);
      step.taken == 1 &&
      Wrapped(DoubleQuotes(line), column, indent, width)
        == step.piece + Wrapped(DoubleQuotes(line[1..]), step.column, indent, width)
  {
    var doubled := DoubleQuotes(line);
    if line[0] == '\'' {
      assert doubled[1..] == "'" + DoubleQuotes(line[1..]);
      assert doubled[1..][1..] == DoubleQuotes(line[1..]);
    } else {
      assert doubled[1..] == DoubleQuotes(line[1..]);
      assert |doubled| > 1 <==> |line| > 1;
    }
  }

  /** Doubling quotes and wrapping one line is that line of the quoted text. */
  lemma {:induction false} WrapDoubledLine(line: string, more: string, column: nat, indent: nat, width: Width)
    requires NoNewline(line) && (more == "" || more[0] == '\n')
    ensures QuotedTail(line + more, column, indent, width)
         == Wrapped(DoubleQuotes(line), column, indent, width) + AfterLine(more, indent, width)
    decreases |line|
  {
    if line == "" {
      assert line + more == more;
    } else {
      var step := QuotedStep(line + more, column, indent, width);
      QuotedTailStep(line + more, column, indent, width);
      WrapDoubledStep(line, more, column, indent, width);
      assert (line + more)[1..] == line[1..] + more;
      WrapDoubledLine(line[1..], more, step.column, indent, width);
      Regroup(step.piece, Wrapped(DoubleQuotes(line[1..]), step.column, indent, width), AfterLine(more, indent, width));
    }
  }

  /** `format_single_quoted_scalar`. */
  method FormatSingleQuotedScalar(value: string, context: ScalarContext) returns (output: string)
    requires NoNewline(value)
    ensures output == QuotedText(value, context)
  {
    output := WrapScalarWords(DoubleQuotes(value), context, "'", "'");
    WrapDoubledLine(value, "", context.initialColumn + 1, context.continuationIndent, context.width);
    assert value + "" == value;
  }

  /** What is still to be written when `line` is buffered and `more` is unread. */
  ghost function Remaining(line: string, more: string, firstLine: bool, context: ScalarContext): string {
    if firstLine then
      "'" + QuotedTail(line + more, context.initialColumn + 1, context.continuationIndent, context.width)
    else
      QuotedTail(line + more, context.continuationIndent, context.continuationIndent, context.width)
  }

  /** One wrapped line of a multi-line scalar; only the first carries the opening quote. */
  function LineText(line: string, firstLine: bool, context: ScalarContext): string {
    if firstLine then
      "'" + Wrapped(DoubleQuotes(line), context.initialColumn + 1, context.continuationIndent, context.width)
    else
      Wrapped(DoubleQuotes(line), context.continuationIndent, context.continuationIndent, context.width)
  }

  lemma FlushLine(line: string, more: string, firstLine: bool, context: ScalarContext)
    requires NoNewline(line) && (more == "" || more[0] == '\n')
    ensures Remaining(line, more, firstLine, context)
         == LineText(line, firstLine, context) + AfterLine(more, context.continuationIndent, context.width)
  {
    var indent := context.continuationIndent;
    WrapDoubledLine(line, more, if firstLine then context.initialColumn + 1 else indent, indent, context.width);
  }

  /** Past a run of line feeds the remaining text starts a fresh line. */
  lemma StartLine(more: string, run: nat, context: ScalarContext)
    requires 0 < run <= |more| && (forall k :: 0 <= k < run ==> more[k] == '\n')
    requires run < |more| ==> more[run] != '\n'
    ensures AfterLine(more, context.continuationIndent, context.width)
         == Newlines(run + 1) + Spaces(context.continuationIndent) + Remaining("", more[run..], false, context)
  {
    RunLength(more, run);
    assert "" + more[run..] == more[run..];
  }

  lemma BufferCharacter(line: string, more: string, firstLine: bool, context: ScalarContext)
    requires more != ""
    ensures Remaining(line + [more[0]], more[1..], firstLine, context) == Remaining(line, more, firstLine, context)
  {
    assert line + [more[0]] + more[1..] == line + more;
  }

  /** Writing the buffered line and a run of line feeds leaves a fresh line to be written. */
  lemma BreakLine(output: string, written: string, line: string, more: string, run: nat, firstLine: bool,
      context: ScalarContext)
    requires NoNewline(line) && 0 < run <= |more| && (forall k :: 0 <= k < run ==> more[k] == '\n')
    requires run < |more| ==> more[run] != '\n'
    requires written
      == output + LineText(line, firstLine, context) + (Newlines(run + 1) + Spaces(context.continuationIndent))
    ensures written + Remaining("", more[run..], false, context) == output + Remaining(line, more, firstLine, context)
  {
    var lineText := LineText(line, firstLine, context);
    var group := Newlines(run + 1) + Spaces(context.continuationIndent);
    FlushLine(line, more, firstLine, context);
    StartLine(more, run, context);
    Regroup(output, lineText, group + Remaining("", more[run..], false, context));
    Regroup(output + lineText, group, Remaining("", more[run..], false, context));
  }

  /** `format_single_quoted_multiline_scalar`. */
  method FormatSingleQuotedMultilineScalar(value: string, context: ScalarContext) returns (output: string)
    ensures output == QuotedText(value, context)
  {
    output := "";
    var line := "";
    var firstLine := true;
    var next := 0;
    ghost var whole := QuotedText(value, context);
    assert line + value[next..] == value;
    while next < |value|
      invariant 0 <= next <= |value|
      invariant NoNewline(line)
      invariant output + Remaining(line, value[next..], firstLine, context) == whole
    {
      ghost var more := value[next..];
      if value[next] == '\n' {
        var start := next;
        next := SkipNewlines(value, start);
        assert more[next - start..] == value[next..];
        var wrapped := FormatLine(line, firstLine, "", context);
        ghost var before := output;
        output := WriteOriginalNewlineGroup(output + wrapped, next - start, context.continuationIndent);
        BreakLine(before, output, line, more, next - start, firstLine, context);
        line := "";
        firstLine := false;
      } else {
        BufferCharacter(line, more, firstLine, context);
        assert more[1..] == value[next + 1..];
        line := line + [value[next]];
        next := next + 1;
      }
    }
    FlushLine(line, "", firstLine, context);
    Regroup(output, LineText(line, firstLine, context), "'");
    var wrapped := FormatLine(line, firstLine, "'", context);
    output := output + wrapped;
  }

  /** Consumes the run of line feeds that opens at `start`. */
  method SkipNewlines(value: string, start: nat) returns (next: nat)
    requires start < |value| && value[start] == '\n'
    ensures start < next <= |value| && (forall k :: start <= k < next ==> value[k] == '\n')
    ensures next < |value| ==> value[next] != '\n'
  {
    next := start + 1;
    while next < |value| && value[next] == '\n'
      invariant start < next <= |value|
      invariant forall k :: start <= k < next ==> value[k] == '\n'
    {
      next := next + 1;
    }
  }

  /** `write_original_newline_group`: what is appended is read back as exactly `count` line feeds. */
  method WriteOriginalNewlineGroup(output: string, count: nat, indent: nat) returns (written: string)
    ensures written == output + (Newlines(count + 1) + Spaces(indent))
    ensures count > 0 && indent > 0 ==> forall more :: more != "" ==>
      ReadQuoted(written[|output|..] + more, indent) == Prepend(Newlines(count), ReadQuoted(more, indent))
  {
    written := output + Newlines(count + 1) + Spaces(indent);
    ghost var group := Newlines(count + 1) + Spaces(indent);
    assert written == output + group && written[|output|..] == group;
    if count > 0 && indent > 0 {
      forall more | more != ""
        ensures ReadQuoted(group + more, indent) == Prepend(Newlines(count), ReadQuoted(more, indent))
      {
        ReadQuotedBreak(count + 1, indent, more);
      }
    }
  }

  method FormatLine(line: string, firstLine: bool, suffix: string, context: ScalarContext) returns (output: string)
    ensures output == LineText(line, firstLine, context) + suffix
    ensures suffix == "" ==> output == LineText(line, firstLine, context)
  {
    var lineContext :=
      context.(initialColumn := if firstLine then context.initialColumn else context.continuationIndent);
    output := WrapScalarWords(DoubleQuotes(line), lineContext, if firstLine then "'" else "", suffix);
  }
}
