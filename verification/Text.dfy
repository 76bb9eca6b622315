/** Optional values, results, and the text helpers shared by the YAML emitter and its decoder. */
module Text {

  datatype Option<+T> = None | Some(value: T)

  datatype Result<+T> = Ok(value: T) | Err(message: string)

  /** `" ".repeat(count)`. */
  function Spaces(count: nat): (s: string)
    ensures |s| == count
    ensures forall k :: 0 <= k < count ==> s[k] == ' '
  {
    seq(count, _ => ' ')
  }

  /** `"\n".repeat(count)`. */
  function Newlines(count: nat): (s: string)
    ensures |s| == count
    ensures forall k :: 0 <= k < count ==> s[k] == '\n'
  {
    seq(count, _ => '\n')
  }

  /** The characters that are emitted without escaping: `' '..='~'`. */
  predicate IsPrintable(c: char) {
    ' ' <= c <= '~'
  }

  predicate AllPrintable(s: string) {
    forall k :: 0 <= k < |s| ==> IsPrintable(s[k])
  }

  /** Printable ASCII plus line feeds: everything the emitter writes. */
  predicate IsEmitted(s: string) {
    forall k :: 0 <= k < |s| ==> IsPrintable(s[k]) || s[k] == '\n'
  }

  predicate NoNewline(s: string) {
    forall k :: 0 <= k < |s| ==> s[k] != '\n'
  }

  /** Some two neighbouring characters of `s` are `first` then `second`. */
  predicate HasPair(s: string, first: char, second: char) {
    exists k :: 0 <= k < |s| - 1 && s[k] == first && s[k + 1] == second
  }

  /** `text` opens with the `indent` blanks of a line that has more on it. */
  predicate AtIndent(text: string, indent: nat) {
    |text| > indent && forall k :: 0 <= k < indent ==> text[k] == ' '
  }

  /** `text` is a line of a block sequence written at `indent`. */
  predicate AtItem(text: string, indent: nat) {
    AtIndent(text, indent) && |text| > indent + 1 && text[indent] == '-' && text[indent + 1] == ' '
  }

  /** A line whose first non-blank stands at `indent` is a line of `indent`, and of nothing deeper. */
  lemma LineIndent(line: string, indent: nat)
    requires line != "" && line[0] != ' '
    ensures AtIndent(Spaces(indent) + line, indent)
    ensures (Spaces(indent) + line)[indent..] == line
    ensures forall deep: nat :: deep > indent ==> !AtIndent(Spaces(indent) + line, deep)
  {
    var text := Spaces(indent) + line;
    assert text[indent..] == line;
    assert text[indent] == line[0];
  }
}
