/** Line folding as YAML 1.2.2 section 6.5 has it, on what the plain and single-quoted styles write. */
module Folding {
  import opened Emitter
  import opened Lines
  import opened Scalars
  import opened Text

  /** Reads a plain scalar, folding its lines: white space around a line break is not content. */
  function FoldPlain(text: string, indent: nat): (r: Parsed<string>)
    ensures r.Parsed? ==> |r.rest| <= |text|
    decreases |text|
  {
    if text == "" then Parsed("", "")
    else if AtLineEnd(text) then
      var fold := FoldAt(text);
      if fold.blanks >= indent && fold.next != "" then Prepend(Folded(fold.feeds), FoldPlain(fold.next, indent))
      else Parsed("", text)
    else Prepend([text[0]], FoldPlain(text[1..], indent))
  }

  /** Reads a single-quoted scalar after its opening quote, folding its lines. */
  function FoldQuoted(text: string, indent: nat): (r: Parsed<string>)
    ensures r.Parsed? ==> |r.rest| < |text|
    decreases |text|
  {
    if text == "" then Failed
    else if text[0] == '\'' then
      if |text| > 1 && text[1] == '\'' then Prepend("'", FoldQuoted(text[2..], indent)) else Parsed("", text[1..])
    else if AtLineEnd(text) then
      var fold := FoldAt(text);
      if fold.blanks < indent || fold.next == "" then Failed
      else Prepend(Folded(fold.feeds), FoldQuoted(fold.next, indent))
    else Prepend([text[0]], FoldQuoted(text[1..], indent))
  }

  // ----- white space in front of other text -----

  lemma {:induction false} FoldPlainBlanks(white: string, more: string, indent: nat)
    requires AllWhite(white) && Feeds(white) == 0 && more != "" && !IsWhite(more[0])
    ensures FoldPlain(white + more, indent) == Prepend(white, FoldPlain(more, indent))
  {
    if white == "" {
      assert white + more == more;
      PrependNothing(FoldPlain(more, indent));
    } else {
      LineEndOf(white, more);
      NoFeedsBehind(white);
      assert (white + more)[1..] == white[1..] + more;
      FoldPlainBlanks(white[1..], more, indent);
      PrependBoth([white[0]], white[1..], FoldPlain(more, indent));
      assert white == [white[0]] + white[1..];
    }
  }

  lemma {:induction false} FoldQuotedBlanks(white: string, more: string, indent: nat)
    requires AllWhite(white) && Feeds(white) == 0 && more != "" && !IsWhite(more[0])
    ensures FoldQuoted(white + more, indent) == Prepend(white, FoldQuoted(more, indent))
  {
    if white == "" {
      assert white + more == more;
      PrependNothing(FoldQuoted(more, indent));
    } else {
      LineEndOf(white, more);
      NoFeedsBehind(white);
      assert (white + more)[1..] == white[1..] + more;
      FoldQuotedBlanks(white[1..], more, indent);
      PrependBoth([white[0]], white[1..], FoldQuoted(more, indent));
      assert white == [white[0]] + white[1..];
    }
  }

  /** White space that ends a line folds, and other white space is content. */
  lemma FoldWhite(white: string, more: string, indent: nat)
    requires AllWhite(white) && more != "" && !IsWhite(more[0]) && (Feeds(white) > 0 ==> Indentation(white) >= indent)
    ensures var content := if Feeds(white) > 0 then Folded(Feeds(white)) else white;
      && FoldPlain(white + more, indent) == Prepend(content, FoldPlain(more, indent))
      && FoldQuoted(white + more, indent) == Prepend(content, FoldQuoted(more, indent))
  {
    LineEndOf(white, more);
    if Feeds(white) == 0 {
      FoldPlainBlanks(white, more, indent);
      FoldQuotedBlanks(white, more, indent);
    }
  }

  lemma FoldPlainCharacter(c: char, more: string, indent: nat)
    requires !IsWhite(c)
    ensures FoldPlain([c] + more, indent) == Prepend([c], FoldPlain(more, indent))
  {
    assert ([c] + more)[1..] == more;
    assert WhiteRun([c] + more) == 0;
  }

  // ----- runs of blanks -----

  /** The number of blanks that `s` opens with. */
  function BlankRun(s: string): (n: nat)
    ensures n <= |s| && s[..n] == Spaces(n)
    ensures forall k :: 0 <= k < n ==> s[k] == ' '
    ensures n < |s| ==> s[n] != ' '
  {
    if s == "" || s[0] != ' ' then 0
    else
      var n := 1 + BlankRun(s[1..]);
      assert s[..n] == [s[0]] + s[1..][..n - 1];
      n
  }

  /** How a run of blanks was written, and the column behind it. */
  datatype Run = Run(white: string, column: nat)

  ghost predicate RunWritten(run: Run, blanks: nat, indent: nat) {
    && AllWhite(run.white) && Feeds(run.white) <= blanks
    && (if Feeds(run.white) > 0 then Indentation(run.white) >= indent else run.white == Spaces(blanks))
  }

  /**
   * The content that a written run of blanks folds to: all of it without a break, less unless the break
   * replaced one blank.
   */
  function RunContent(white: string): string {
    if Feeds(white) > 0 then Folded(Feeds(white)) else white
  }

  lemma RunFolds(run: Run, blanks: nat, indent: nat)
    requires RunWritten(run, blanks, indent)
    ensures var content := RunContent(run.white);
      if Feeds(run.white) == 0 || blanks == 1 then content == Spaces(blanks) else |content| < blanks
  {
    if Feeds(run.white) == 1 && blanks == 1 {
      assert Folded(1) == Spaces(1);
    }
  }

  lemma BreakRun(run: Run, blanks: nat, indent: nat)
    requires blanks > 0 && RunWritten(run, blanks - 1, indent)
    ensures RunWritten(Run(Break(indent) + run.white, run.column), blanks, indent)
    ensures Feeds(Break(indent) + run.white) > 0
  {
    FeedsOfBreak(1, indent, run.white);
    assert Break(indent) + run.white == Newlines(1) + Spaces(indent) + run.white;
  }

  lemma BlankThenRun(run: Run, blanks: nat, indent: nat)
    requires blanks > 0 && RunWritten(run, blanks - 1, indent)
    ensures RunWritten(Run(" " + run.white, run.column), blanks, indent)
    ensures Feeds(" " + run.white) == Feeds(run.white)
  {
    assert (" " + run.white)[1..] == run.white;
  }

  // ----- plain scalars -----

  /** No break of `Wrapped` falls on a space that has a space before or after it. */
  predicate BreaksStandAlone(value: string, column: nat, indent: nat, width: Width, spaceBefore: bool) {
    if value == "" then true
    else if value[0] == ' ' && Exceeds(column, width) && |value| > 1 then
      !spaceBefore && value[1] != ' ' && BreaksStandAlone(value[1..], indent, indent, width, true)
    else BreaksStandAlone(value[1..], column + 1, indent, width, value[0] == ' ')
  }

  /** A run of blanks with text behind it, as `Wrapped` writes it. */
  ghost function PlainRun(value: string, column: nat, indent: nat, width: Width): Run {
    if value == "" || value[0] != ' ' then Run("", column)
    else if Exceeds(column, width) && |value| > 1 then
      var run := PlainRun(value[1..], indent, indent, width);
      run.(white := Break(indent) + run.white)
    else
      var run := PlainRun(value[1..], column + 1, indent, width);
      run.(white := " " + run.white)
  }

  lemma BlankRunStep(value: string)
    requires value != "" && value[0] == ' '
    ensures BlankRun(value) == 1 + BlankRun(value[1..])
    ensures value[BlankRun(value)..] == value[1..][BlankRun(value[1..])..]
    ensures |value| > 1 ==> (BlankRun(value) == 1 <==> value[1] != ' ')
  {
  }

  lemma {:induction false} WrapRun(value: string, column: nat, indent: nat, width: Width)
    ensures RunWritten(PlainRun(value, column, indent, width), BlankRun(value), indent)
    ensures Wrapped(value, column, indent, width) == PlainRun(value, column, indent, width).white
      + Wrapped(value[BlankRun(value)..], PlainRun(value, column, indent, width).column, indent, width)
  {
    if value == "" || value[0] != ' ' {
      assert value[0..] == value && Spaces(0) == "";
    } else {
      var breaks := Exceeds(column, width) && |value| > 1;
      var column' := if breaks then indent else column + 1;
      var next := PlainRun(value[1..], column', indent, width);
      var more := Wrapped(value[BlankRun(value)..], next.column, indent, width);
      BlankRunStep(value);
      WrapRun(value[1..], column', indent, width);
      if breaks {
        BreakRun(next, BlankRun(value), indent);
        Regroup(Break(indent), next.white, more);
      } else {
        BlankThenRun(next, BlankRun(value), indent);
        Regroup(" ", next.white, more);
      }
    }
  }

  /** One step into a run of blanks. */
  lemma RunStep(value: string, column: nat, indent: nat, width: Width)
    requires value != "" && value[0] == ' '
    ensures var breaks := Exceeds(column, width) && |value| > 1;
      var next := PlainRun(value[1..], if breaks then indent else column + 1, indent, width);
      var run := PlainRun(value, column, indent, width);
      && run.column == next.column && Feeds(next.white) <= BlankRun(value[1..])
      && (breaks ==> Feeds(run.white) > 0)
      && (!breaks ==> Feeds(run.white) == Feeds(next.white))
  {
    var breaks := Exceeds(column, width) && |value| > 1;
    var column' := if breaks then indent else column + 1;
    var next := PlainRun(value[1..], column', indent, width);
    WrapRun(value[1..], column', indent, width);
    if breaks {
      BreakRun(next, BlankRun(value[1..]) + 1, indent);
    } else {
      BlankThenRun(next, BlankRun(value[1..]) + 1, indent);
    }
  }

  /** The breaks within a run of blanks stand alone exactly when there are none or the run is one blank. */
  lemma {:induction false} RunStandsAlone(value: string, column: nat, indent: nat, width: Width, spaceBefore: bool)
    requires BlankRun(value) < |value|
    ensures var run, n := PlainRun(value, column, indent, width), BlankRun(value);
      BreaksStandAlone(value, column, indent, width, spaceBefore) <==>
        && (Feeds(run.white) == 0 || (n == 1 && !spaceBefore))
        && BreaksStandAlone(value[n..], run.column, indent, width, false)
  {
    hide *;
    if value[0] != ' ' {
      NoRun(value, column, indent, width, spaceBefore);
    } else {
      var breaks := Exceeds(column, width) && |value| > 1;
      BlankRunStep(value);
      RunStep(value, column, indent, width);
      BlankStandsAlone(value, column, indent, width, spaceBefore);
      RunStandsAlone(value[1..], if breaks then indent else column + 1, indent, width, true);
    }
  }

  lemma NoRun(value: string, column: nat, indent: nat, width: Width, spaceBefore: bool)
    requires value != "" && value[0] != ' '
    ensures BlankRun(value) == 0 && value[0..] == value
    ensures PlainRun(value, column, indent, width) == Run("", column) && Feeds("") == 0
    ensures BreaksStandAlone(value, column, indent, width, spaceBefore)
         == BreaksStandAlone(value, column, indent, width, false)
  {
  }

  lemma BlankStandsAlone(value: string, column: nat, indent: nat, width: Width, spaceBefore: bool)
    requires |value| > 1 && value[0] == ' '
    ensures BreaksStandAlone(value, column, indent, width, spaceBefore) <==>
      if Exceeds(column, width) then
        !spaceBefore && value[1] != ' ' && BreaksStandAlone(value[1..], indent, indent, width, true)
      else BreaksStandAlone(value[1..], column + 1, indent, width, true)
  {
  }

  /** What follows a plain scalar: a line end behind which no text stands at `indent`. */
  predicate EndsFold(rest: string, indent: nat) {
    && rest != "" && rest[0] == '\n' && AtLineEnd(rest)
    && (FoldAt(rest).blanks < indent || FoldAt(rest).next == "")
  }

  lemma WrappedOpens(value: string, column: nat, indent: nat, width: Width, rest: string)
    requires value != "" && value[0] != ' '
    ensures Wrapped(value, column, indent, width) + rest
      == [value[0]] + (Wrapped(value[1..], column + 1, indent, width) + rest)
  {
  }

  /** The content that folding finds in wrapped plain text. */
  ghost function PlainContent(value: string, column: nat, indent: nat, width: Width): string
    decreases |value|
  {
    if value == "" then ""
    else if value[0] != ' ' then [value[0]] + PlainContent(value[1..], column + 1, indent, width)
    else
      var run := PlainRun(value, column, indent, width);
      RunContent(run.white) + PlainContent(value[BlankRun(value)..], run.column, indent, width)
  }

  lemma FoldRunStep(value: string, column: nat, indent: nat, width: Width, rest: string)
    requires NoNewline(value) && BlankRun(value) < |value|
    ensures var run, n := PlainRun(value, column, indent, width), BlankRun(value);
      FoldPlain(Wrapped(value, column, indent, width) + rest, indent)
        == Prepend(RunContent(run.white), FoldPlain(Wrapped(value[n..], run.column, indent, width) + rest, indent))
  {
    hide PlainRun, FoldPlain;
    var run, n := PlainRun(value, column, indent, width), BlankRun(value);
    var more := Wrapped(value[n..], run.column, indent, width);
    WrapRun(value, column, indent, width);
    Regroup(run.white, more, rest);
    assert (more + rest)[0] == value[n];
    FoldWhite(run.white, more + rest, indent);
  }

  lemma FoldCharacterStep(value: string, column: nat, indent: nat, width: Width, rest: string)
    requires value != "" && !IsWhite(value[0])
    ensures FoldPlain(Wrapped(value, column, indent, width) + rest, indent)
      == Prepend([value[0]], FoldPlain(Wrapped(value[1..], column + 1, indent, width) + rest, indent))
  {
    hide FoldPlain;
    WrappedOpens(value, column, indent, width, rest);
    FoldPlainCharacter(value[0], Wrapped(value[1..], column + 1, indent, width) + rest, indent);
  }

  /** Folding finds the same content wherever the string was wrapped and whatever follows it. */
  lemma {:induction false} FoldWrapped(value: string, column: nat, indent: nat, width: Width, rest: string)
    requires NoNewline(value) && (value != "" ==> value[|value| - 1] != ' ')
    requires EndsFold(rest, indent)
    ensures FoldPlain(Wrapped(value, column, indent, width) + rest, indent)
      == Parsed(PlainContent(value, column, indent, width), rest)
    decreases |value|
  {
    hide PlainRun, RunContent;
    if value == "" {
      assert Wrapped(value, column, indent, width) + rest == rest;
    } else if value[0] != ' ' {
      FoldWrapped(value[1..], column + 1, indent, width, rest);
      FoldCharacterStep(value, column, indent, width, rest);
    } else {
      var run, n := PlainRun(value, column, indent, width), BlankRun(value);
      assert n < |value| by { assert value[..n] == Spaces(n); }
      FoldWrapped(value[n..], run.column, indent, width, rest);
      FoldRunStep(value, column, indent, width, rest);
    }
  }

  /** `content` is `value` when `exact`, and shorter otherwise. */
  predicate Loses(content: string, value: string, exact: bool) {
    if exact then content == value else |content| < |value|
  }

  lemma LosesBoth(piece: string, n: nat, exact: bool, content: string, value: string, exactBehind: bool)
    requires n <= |value| && Loses(content, value[n..], exactBehind) && Loses(piece, value[..n], exact)
    ensures Loses(piece + content, value, exact && exactBehind)
  {
    assert value == value[..n] + value[n..];
  }

  /** That content is the string exactly when every break stands alone; otherwise characters are lost. */
  lemma {:induction false} PlainContentLoses(value: string, column: nat, indent: nat, width: Width)
    requires value != "" ==> value[|value| - 1] != ' '
    ensures Loses(PlainContent(value, column, indent, width), value,
                  BreaksStandAlone(value, column, indent, width, false))
    decreases |value|
  {
    if value == "" {
    } else if value[0] != ' ' {
      PlainContentLoses(value[1..], column + 1, indent, width);
      assert value[..1] == [value[0]];
      LosesBoth([value[0]], 1, true, PlainContent(value[1..], column + 1, indent, width), value,
                BreaksStandAlone(value[1..], column + 1, indent, width, false));
    } else {
      var run, n := PlainRun(value, column, indent, width), BlankRun(value);
      assert n < |value| by { assert value[..n] == Spaces(n); }
      PlainContentLoses(value[n..], run.column, indent, width);
      WrapRun(value, column, indent, width);
      RunStandsAlone(value, column, indent, width, false);
      RunFolds(run, n, indent);
      LosesBoth(RunContent(run.white), n, Feeds(run.white) == 0 || n == 1,
                PlainContent(value[n..], run.column, indent, width), value,
                BreaksStandAlone(value[n..], run.column, indent, width, false));
    }
  }

  // ----- single-quoted scalars -----

  /** The strings that are never double-quoted have no line feed beside a space. */
  predicate FeedsApart(value: string) {
    !HasPair(value, '\n', ' ') && !HasPair(value, ' ', '\n')
  }

  lemma TailHasNoPair(value: string, first: char, second: char, n: nat)
    requires !HasPair(value, first, second) && n <= |value|
    ensures !HasPair(value[n..], first, second)
  {
    var tail := value[n..];
    forall k | 0 <= k < |tail| - 1 ensures !(tail[k] == first && tail[k + 1] == second) {
      assert tail[k] == value[n + k] && tail[k + 1] == value[n + k + 1];
    }
  }

  lemma TailFeedsApart(value: string, n: nat)
    requires FeedsApart(value) && n <= |value|
    ensures FeedsApart(value[n..])
    ensures 0 < n < |value| && IsWhite(value[n - 1]) && value[n - 1] != value[n] ==> !IsWhite(value[n])
  {
    TailHasNoPair(value, '\n', ' ', n);
    TailHasNoPair(value, ' ', '\n', n);
  }

  /** A space of a single-quoted scalar becomes a break. */
  predicate QuotedBreak(value: string, column: nat, width: Width)
    requires value != ""
  {
    value[0] == ' ' && Exceeds(column, width) && |value| > 1 && value[1] != '\n'
  }

  /** No break of `QuotedTail` falls on a space that has a space before or after it. */
  predicate QuotedBreaksStandAlone(value: string, column: nat, indent: nat, width: Width, spaceBefore: bool)
    decreases |value|
  {
    if value == "" then true
    else
      var step := QuotedStep(value, column, indent, width);
      && (QuotedBreak(value, column, width) ==> !spaceBefore && value[1] != ' ')
      && QuotedBreaksStandAlone(value[step.taken..], step.column, indent, width, value[0] == ' ')
  }

  /** A run of blanks as `QuotedTail` writes it. */
  ghost function QuotedRun(value: string, column: nat, indent: nat, width: Width): Run {
    if value == "" || value[0] != ' ' then Run("", column)
    else
      var step := QuotedStep(value, column, indent, width);
      var run := QuotedRun(value[1..], step.column, indent, width);
      run.(white := step.piece + run.white)
  }

  lemma BlankStep(value: string, column: nat, indent: nat, width: Width)
    requires value != "" && value[0] == ' '
    ensures var step := QuotedStep(value, column, indent, width);
      step.taken == 1 && step.piece == if QuotedBreak(value, column, width) then Break(indent) else " "
  {
  }

  lemma {:induction false} QuoteRun(value: string, column: nat, indent: nat, width: Width)
    ensures RunWritten(QuotedRun(value, column, indent, width), BlankRun(value), indent)
    ensures QuotedTail(value, column, indent, width) == QuotedRun(value, column, indent, width).white
      + QuotedTail(value[BlankRun(value)..], QuotedRun(value, column, indent, width).column, indent, width)
  {
    hide Feeds, Indentation, Exceeds;
    if value == "" || value[0] != ' ' {
      assert value[0..] == value && Spaces(0) == "";
    } else {
      var step := QuotedStep(value, column, indent, width);
      var next := QuotedRun(value[1..], step.column, indent, width);
      BlankRunStep(value);
      BlankStep(value, column, indent, width);
      QuoteRun(value[1..], step.column, indent, width);
      QuotedTailStep(value, column, indent, width);
      Regroup(step.piece, next.white, QuotedTail(value[BlankRun(value)..], next.column, indent, width));
      if QuotedBreak(value, column, width) {
        BreakRun(next, BlankRun(value), indent);
      } else {
        BlankThenRun(next, BlankRun(value), indent);
      }
    }
  }

  lemma {:induction false} QuotedRunStandsAlone(value: string, column: nat, indent: nat, width: Width,
      spaceBefore: bool)
    ensures var run, n := QuotedRun(value, column, indent, width), BlankRun(value);
      n > 0 ==>
        (QuotedBreaksStandAlone(value, column, indent, width, spaceBefore) <==>
          && (Feeds(run.white) == 0 || (n == 1 && !spaceBefore))
          && QuotedBreaksStandAlone(value[n..], run.column, indent, width, true))
  {
    if value != "" && value[0] == ' ' {
      var step := QuotedStep(value, column, indent, width);
      var next := QuotedRun(value[1..], step.column, indent, width);
      BlankRunStep(value);
      BlankStep(value, column, indent, width);
      QuoteRun(value[1..], step.column, indent, width);
      QuotedRunStandsAlone(value[1..], step.column, indent, width, true);
      if QuotedBreak(value, column, width) {
        BreakRun(next, BlankRun(value), indent);
      } else {
        BlankThenRun(next, BlankRun(value), indent);
      }
      if BlankRun(value) == 1 {
        assert value[1..][0..] == value[1..];
      }
    }
  }

  /** What stands before a character other than a space is of no matter. */
  lemma SpaceBeforeOther(value: string, column: nat, indent: nat, width: Width)
    requires value == "" || value[0] != ' '
    ensures QuotedBreaksStandAlone(value, column, indent, width, true)
         == QuotedBreaksStandAlone(value, column, indent, width, false)
  {
  }

  /** The text of a single-quoted tail opens with no white space when its value does not. */
  lemma TailOpens(value: string, column: nat, indent: nat, width: Width)
    requires value == "" || !IsWhite(value[0])
    ensures var tail := QuotedTail(value, column, indent, width); tail != "" && !IsWhite(tail[0])
  {
  }

  lemma FoldQuotedCharacter(value: string, column: nat, indent: nat, width: Width, more: string)
    requires value != "" && !IsWhite(value[0])
    ensures var step := QuotedStep(value, column, indent, width);
      && step.taken == 1
      && FoldQuoted(step.piece + more, indent) == Prepend(value[..1], FoldQuoted(more, indent))
  {
    var step := QuotedStep(value, column, indent, width);
    assert value[..1] == [value[0]];
    if value[0] == '\'' {
      assert ("''" + more)[2..] == more;
    } else {
      assert ([value[0]] + more)[1..] == more;
      assert WhiteRun([value[0]] + more) == 0;
    }
  }

  lemma FoldQuotedFeeds(value: string, column: nat, indent: nat, width: Width, more: string)
    requires value != "" && value[0] == '\n' && more != "" && !IsWhite(more[0])
    ensures var step := QuotedStep(value, column, indent, width);
      FoldQuoted(step.piece + more, indent) == Prepend(value[..step.taken], FoldQuoted(more, indent))
  {
    hide Feeds, Indentation, FoldQuoted, FoldPlain;
    var run := NewlineRun(value);
    var white := Newlines(run + 1) + Spaces(indent);
    FeedsOfBreak(run + 1, indent, "");
    NoFeeds();
    assert white + "" == white;
    FoldWhite(white, more, indent);
    assert value[..run] == Newlines(run) == Folded(run + 1);
  }

  /** The content that folding finds in single-quoted text. */
  ghost function QuotedContent(value: string, column: nat, indent: nat, width: Width): string
    decreases |value|
  {
    if value == "" then ""
    else if value[0] != ' ' then
      var step := QuotedStep(value, column, indent, width);
      value[..step.taken] + QuotedContent(value[step.taken..], step.column, indent, width)
    else
      var run := QuotedRun(value, column, indent, width);
      RunContent(run.white) + QuotedContent(value[BlankRun(value)..], run.column, indent, width)
  }

  /** Folding finds the same content whatever follows the closing quote. */
  lemma {:induction false} FoldQuotedTail(value: string, column: nat, indent: nat, width: Width, rest: string)
    requires FeedsApart(value) && (rest == "" || rest[0] != '\'')
    ensures FoldQuoted(QuotedTail(value, column, indent, width) + rest, indent)
      == Parsed(QuotedContent(value, column, indent, width), rest)
    decreases |value|
  {
    if value == "" {
      assert ("'" + rest)[1..] == rest;
    } else if value[0] == ' ' {
      FoldQuotedRun(value, column, indent, width, rest);
    } else {
      var step := QuotedStep(value, column, indent, width);
      var more := QuotedTail(value[step.taken..], step.column, indent, width) + rest;
      TailFeedsApart(value, step.taken);
      FoldQuotedTail(value[step.taken..], step.column, indent, width, rest);
      QuotedTailSteps(value, column, indent, width, rest);
      if value[0] == '\n' {
        assert value[step.taken - 1] == '\n';
        TailOpens(value[step.taken..], step.column, indent, width);
        FoldQuotedFeeds(value, column, indent, width, more);
      } else {
        FoldQuotedCharacter(value, column, indent, width, more);
      }
    }
  }

  lemma {:induction false} FoldQuotedRun(value: string, column: nat, indent: nat, width: Width, rest: string)
    requires FeedsApart(value) && (rest == "" || rest[0] != '\'') && value != "" && value[0] == ' '
    ensures FoldQuoted(QuotedTail(value, column, indent, width) + rest, indent)
      == Parsed(QuotedContent(value, column, indent, width), rest)
    decreases |value|, 0
  {
    var run, n := QuotedRun(value, column, indent, width), BlankRun(value);
    var more := QuotedTail(value[n..], run.column, indent, width);
    assert value[n - 1] == ' ' by { assert value[..n] == Spaces(n); }
    TailFeedsApart(value, n);
    FoldQuotedTail(value[n..], run.column, indent, width, rest);
    QuoteRun(value, column, indent, width);
    TailOpens(value[n..], run.column, indent, width);
    Regroup(run.white, more, rest);
    FoldWhite(run.white, more + rest, indent);
  }

  /** That content is the string exactly when every break stands alone; otherwise characters are lost. */
  lemma {:induction false} QuotedContentLoses(value: string, column: nat, indent: nat, width: Width)
    ensures Loses(QuotedContent(value, column, indent, width), value,
                  QuotedBreaksStandAlone(value, column, indent, width, false))
    decreases |value|
  {
    if value == "" {
    } else if value[0] != ' ' {
      var step := QuotedStep(value, column, indent, width);
      QuotedContentLoses(value[step.taken..], step.column, indent, width);
      LosesBoth(value[..step.taken], step.taken, true, QuotedContent(value[step.taken..], step.column, indent, width),
                value, QuotedBreaksStandAlone(value[step.taken..], step.column, indent, width, false));
    } else {
      var run, n := QuotedRun(value, column, indent, width), BlankRun(value);
      QuotedContentLoses(value[n..], run.column, indent, width);
      QuoteRun(value, column, indent, width);
      QuotedRunStandsAlone(value, column, indent, width, false);
      SpaceBeforeOther(value[n..], run.column, indent, width);
      RunFolds(run, n, indent);
      LosesBoth(RunContent(run.white), n, Feeds(run.white) == 0 || n == 1,
                QuotedContent(value[n..], run.column, indent, width), value,
                QuotedBreaksStandAlone(value[n..], run.column, indent, width, false));
    }
  }

  // ----- strings -----

  /** Reads a plain or single-quoted scalar by folding. */
  function FoldString(text: string, indent: nat): Parsed<string> {
    if text != "" && text[0] == '\'' then FoldQuoted(text[1..], indent) else FoldPlain(text, indent)
  }

  /** The breaks that wrapping puts into a string of plain or single-quoted style stand alone. */
  predicate WrapsAtSingleSpaces(value: string, context: ScalarContext) {
    var column, indent, width := context.initialColumn, context.continuationIndent, context.width;
    if ClassifyStringScalar(value).Plain? then BreaksStandAlone(value, column, indent, width, false)
    else QuotedBreaksStandAlone(value, column + 1, indent, width, false)
  }

  /** What folding makes of a string of plain or single-quoted style. */
  ghost function FoldedContent(value: string, context: ScalarContext): string {
    var column, indent, width := context.initialColumn, context.continuationIndent, context.width;
    if ClassifyStringScalar(value).Plain? then PlainContent(value, column, indent, width)
    else QuotedContent(value, column + 1, indent, width)
  }

  lemma FoldedContentLoses(value: string, context: ScalarContext)
    ensures Loses(FoldedContent(value, context), value, WrapsAtSingleSpaces(value, context))
  {
    if ClassifyStringScalar(value).Plain? {
      PlainContentLoses(value, context.initialColumn, context.continuationIndent, context.width);
    } else {
      QuotedContentLoses(value, context.initialColumn + 1, context.continuationIndent, context.width);
    }
  }

  lemma FoldQuotedText(value: string, context: ScalarContext, rest: string)
    requires !NeedsDoubleQuotedString(value) && !ClassifyStringScalar(value).Plain? && (rest == "" || rest[0] != '\'')
    ensures FoldString(FormatString(value, context) + rest, context.continuationIndent)
      == Parsed(FoldedContent(value, context), rest)
  {
    hide QuotedTail, FoldQuoted, QuotedContent;
    var tail := QuotedTail(value, context.initialColumn + 1, context.continuationIndent, context.width);
    FoldQuotedTail(value, context.initialColumn + 1, context.continuationIndent, context.width, rest);
    BehindQuote('\'', tail, rest);
    assert FormatString(value, context) == QuotedText(value, context);
  }

  lemma FoldPlainText(value: string, context: ScalarContext, rest: string)
    requires ClassifyStringScalar(value).Plain? && EndsFold(rest, context.continuationIndent)
    ensures FoldString(FormatString(value, context) + rest, context.continuationIndent)
      == Parsed(FoldedContent(value, context), rest)
  {
    PlainIsPrintable(value);
    FoldWrapped(value, context.initialColumn, context.continuationIndent, context.width, rest);
    assert (FormatString(value, context) + rest)[0] == value[0];
  }

  /**
   * A string that is not double-quoted is folded back as YAML folds it exactly when no
   * break falls beside a further space; otherwise YAML reads a shorter string.
   */
  lemma FoldFormattedString(value: string, context: ScalarContext, rest: string)
    requires !NeedsDoubleQuotedString(value) && EndsFold(rest, context.continuationIndent)
    ensures var read := FoldString(FormatString(value, context) + rest, context.continuationIndent);
      && (read == Parsed(value, rest) <==> WrapsAtSingleSpaces(value, context))
      && (!WrapsAtSingleSpaces(value, context) ==> read.Parsed? && read.rest == rest && |read.value| < |value|)
  {
    FoldedContentLoses(value, context);
    if ClassifyStringScalar(value).Plain? {
      FoldPlainText(value, context, rest);
    } else {
      FoldQuotedText(value, context, rest);
    }
  }

  lemma {:induction false} SingleSpacesStandAlone(value: string, column: nat, indent: nat, width: Width)
    requires !HasPair(value, ' ', ' ')
    ensures BreaksStandAlone(value, column, indent, width, false)
    ensures value != "" && value[0] != ' ' ==> BreaksStandAlone(value, column, indent, width, true)
  {
    if value != "" {
      TailHasNoPair(value, ' ', ' ', 1);
      assert value[0] == ' ' && |value| > 1 ==> value[1] != ' ';
      SingleSpacesStandAlone(value[1..], column + 1, indent, width);
      SingleSpacesStandAlone(value[1..], indent, indent, width);
    }
  }

  lemma {:induction false} SingleSpacesStandAloneQuoted(value: string, column: nat, indent: nat, width: Width)
    requires !HasPair(value, ' ', ' ')
    ensures QuotedBreaksStandAlone(value, column, indent, width, false)
    ensures value != "" && value[0] != ' ' ==> QuotedBreaksStandAlone(value, column, indent, width, true)
    decreases |value|
  {
    if value != "" {
      var step := QuotedStep(value, column, indent, width);
      TailHasNoPair(value, ' ', ' ', step.taken);
      assert value[0] == ' ' && |value| > 1 ==> value[1] != ' ';
      SingleSpacesStandAloneQuoted(value[step.taken..], step.column, indent, width);
    }
  }

  /** Without two adjacent spaces the breaks stand alone wherever they fall. */
  lemma SingleSpacesWrap(value: string, context: ScalarContext)
    requires !HasPair(value, ' ', ' ')
    ensures WrapsAtSingleSpaces(value, context)
  {
    SingleSpacesStandAlone(value, context.initialColumn, context.continuationIndent, context.width);
    SingleSpacesStandAloneQuoted(value, context.initialColumn + 1, context.continuationIndent, context.width);
  }

  lemma {:induction false} UnlimitedPlain(value: string, column: nat, indent: nat, spaceBefore: bool)
    ensures BreaksStandAlone(value, column, indent, Unlimited, spaceBefore)
  {
    if value != "" {
      UnlimitedPlain(value[1..], column + 1, indent, value[0] == ' ');
    }
  }

  lemma {:induction false} UnlimitedQuoted(value: string, column: nat, indent: nat, spaceBefore: bool)
    ensures QuotedBreaksStandAlone(value, column, indent, Unlimited, spaceBefore)
    decreases |value|
  {
    if value != "" {
      var step := QuotedStep(value, column, indent, Unlimited);
      UnlimitedQuoted(value[step.taken..], step.column, indent, value[0] == ' ');
    }
  }

  /** Without a limit there are no breaks. */
  lemma UnlimitedStandsAlone(value: string, context: ScalarContext)
    requires context.width.Unlimited?
    ensures WrapsAtSingleSpaces(value, context)
  {
    UnlimitedPlain(value, context.initialColumn, context.continuationIndent, false);
    UnlimitedQuoted(value, context.initialColumn + 1, context.continuationIndent, false);
  }

  /** A pair of spaces between two words folds back exactly when both stand within the limit. */
  lemma TwoSpaces(column: nat, indent: nat, limit: nat, rest: string)
    requires EndsFold(rest, indent)
    ensures FoldPlain(Wrapped("a  b", column, indent, Limit(limit)) + rest, indent) == Parsed("a  b", rest)
      <==> column + 2 <= limit
  {
    var width := Limit(limit);
    FoldWrapped("a  b", column, indent, width, rest);
    PlainContentLoses("a  b", column, indent, width);
    assert "a  b"[1..] == "  b" && "  b"[1..] == " b" && " b"[1..] == "b" && "b"[1..] == "";
    assert forall c, before :: BreaksStandAlone("b", c, indent, width, before);
    assert BreaksStandAlone(" b", column + 2, indent, width, true) <==> column + 2 <= limit;
    assert BreaksStandAlone("  b", column + 1, indent, width, false) <==> column + 2 <= limit;
  }
}
