/** Line ends and what they fold to, as section 6.5 of YAML 1.2.2 has it. The writers emit no tabs. */
module Lines {
  import opened Text

  predicate IsWhite(c: char) {
    c == ' ' || c == '\n'
  }

  predicate AllWhite(s: string) {
    forall k :: 0 <= k < |s| ==> IsWhite(s[k])
  }

  /** The number of blanks and line feeds that `s` opens with. */
  function WhiteRun(s: string): (n: nat)
    ensures n <= |s| && AllWhite(s[..n])
    ensures n < |s| ==> !IsWhite(s[n])
  {
    if s == "" || !IsWhite(s[0]) then 0
    else
      var n := 1 + WhiteRun(s[1..]);
      assert s[..n] == [s[0]] + s[1..][..n - 1];
      n
  }

  /** The line feeds of `white`. */
  function Feeds(white: string): (n: nat)
    ensures n <= |white|
  {
    if white == "" then 0 else (if white[0] == '\n' then 1 else 0) + Feeds(white[1..])
  }

  /** The blanks behind the last line feed of `white`. */
  function Indentation(white: string): (n: nat)
    ensures n <= |white|
  {
    if Feeds(white) == 0 then |white| else Indentation(white[1..])
  }

  /** `text` is at white space that ends a line. */
  predicate AtLineEnd(text: string) {
    Feeds(text[..WhiteRun(text)]) > 0
  }

  /**
   * A line end with the empty lines behind it: its line feeds, the indentation of the next line, and
   * the rest of that.
   */
  datatype Fold = Fold(feeds: nat, blanks: nat, next: string)

  function FoldAt(text: string): (fold: Fold)
    requires AtLineEnd(text)
    ensures |fold.next| < |text| && fold.feeds > 0
  {
    var white := text[..WhiteRun(text)];
    Fold(Feeds(white), Indentation(white), text[WhiteRun(text)..])
  }

  /** One line feed folds to a space, more of them lose one. */
  function Folded(feeds: nat): (s: string)
    requires feeds > 0
    ensures |s| == if feeds == 1 then 1 else feeds - 1
  {
    if feeds == 1 then " " else Newlines(feeds - 1)
  }

  lemma FeedEndsLine(text: string)
    requires text != "" && text[0] == '\n'
    ensures AtLineEnd(text)
  {
    var white := text[..WhiteRun(text)];
    assert white[0] == '\n';
  }

  lemma NoLineEnd(text: string)
    requires text != "" && !IsWhite(text[0])
    ensures !AtLineEnd(text)
  {
    assert WhiteRun(text) == 0;
  }

  /** A blank in front of text ends a line exactly when the text does. */
  lemma BlankBefore(text: string)
    ensures AtLineEnd(" " + text) <==> AtLineEnd(text)
  {
    var both := " " + text;
    assert both[1..] == text;
    var white := both[..WhiteRun(both)];
    assert white[1..] == text[..WhiteRun(text)];
  }

  // ----- white space in front of other text -----

  lemma {:induction false} RunOfWhite(white: string, more: string)
    requires AllWhite(white) && more != "" && !IsWhite(more[0])
    ensures WhiteRun(white + more) == |white|
  {
    if white != "" {
      assert (white + more)[1..] == white[1..] + more;
      RunOfWhite(white[1..], more);
    } else {
      assert white + more == more;
    }
  }

  lemma LineEndOf(white: string, more: string)
    requires AllWhite(white) && more != "" && !IsWhite(more[0])
    ensures AtLineEnd(white + more) <==> Feeds(white) > 0
    ensures Feeds(white) > 0 ==> FoldAt(white + more) == Fold(Feeds(white), Indentation(white), more)
  {
    RunOfWhite(white, more);
    assert (white + more)[..|white|] == white && (white + more)[|white|..] == more;
  }

  lemma {:induction false} FeedsOfBoth(s: string, t: string)
    ensures Feeds(s + t) == Feeds(s) + Feeds(t)
  {
    if s != "" {
      assert (s + t)[1..] == s[1..] + t;
      FeedsOfBoth(s[1..], t);
    } else {
      assert s + t == t;
    }
  }

  lemma {:induction false} FeedsOfBlanks(n: nat)
    ensures Feeds(Spaces(n)) == 0 && Indentation(Spaces(n)) == n
  {
    if n > 0 {
      assert Spaces(n)[1..] == Spaces(n - 1);
      FeedsOfBlanks(n - 1);
    }
  }

  /** `feeds` line feeds and the white space behind them. */
  lemma {:induction false} FeedsThen(feeds: nat, white: string)
    requires feeds > 0
    ensures Feeds(Newlines(feeds) + white) == feeds + Feeds(white)
    ensures Indentation(Newlines(feeds) + white) == Indentation(white)
  {
    var both := Newlines(feeds) + white;
    assert both[0] == '\n';
    if feeds > 1 {
      assert both[1..] == Newlines(feeds - 1) + white;
      FeedsThen(feeds - 1, white);
    } else {
      assert both[1..] == white;
    }
  }

  lemma NoFeeds()
    ensures Feeds("") == 0 && Indentation("") == 0
  {
  }

  /** Indentation goes on with blanks, unless a further line is begun. */
  lemma {:induction false} IndentationOfBoth(blanks: nat, white: string)
    ensures Feeds(Spaces(blanks) + white) == Feeds(white)
    ensures Indentation(Spaces(blanks) + white) == if Feeds(white) > 0 then Indentation(white) else blanks + |white|
  {
    var both := Spaces(blanks) + white;
    if blanks > 0 {
      assert both[1..] == Spaces(blanks - 1) + white;
      IndentationOfBoth(blanks - 1, white);
    } else {
      assert both == white;
    }
  }

  /** A break, its indentation and the white space behind it. */
  lemma FeedsOfBreak(feeds: nat, indent: nat, white: string)
    requires feeds > 0 && AllWhite(white)
    ensures var both := Newlines(feeds) + Spaces(indent) + white;
      && AllWhite(both) && Feeds(both) == feeds + Feeds(white)
      && Indentation(both) == if Feeds(white) > 0 then Indentation(white) else indent + |white|
  {
    hide Feeds, Indentation;
    IndentationOfBoth(indent, white);
    FeedsThen(feeds, Spaces(indent) + white);
    assert Newlines(feeds) + Spaces(indent) + white == Newlines(feeds) + (Spaces(indent) + white);
  }

  lemma NoFeedsBehind(white: string)
    requires white != "" && Feeds(white) == 0
    ensures Feeds(white[1..]) == 0 && white[0] != '\n'
  {
  }

  /** A line feed and the indentation of the line behind it. */
  lemma FoldOfBreak(indent: nat, more: string)
    requires more != "" && !IsWhite(more[0])
    ensures var text := "\n" + Spaces(indent) + more;
      AtLineEnd(text) && FoldAt(text) == Fold(1, indent, more)
  {
    hide Feeds, Indentation, WhiteRun;
    var white := Newlines(1) + Spaces(indent) + "";
    FeedsOfBreak(1, indent, "");
    NoFeeds();
    LineEndOf(white, more);
    assert white == "\n" + Spaces(indent);
  }
}
