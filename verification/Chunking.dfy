/** Overlapping token windows over a text. */
module Chunking {
  import opened Text

  const USIZE_MAX: nat := 0xFFFF_FFFF_FFFF_FFFF

  function SaturatingAdd(a: nat, b: nat): nat {
    if a + b > USIZE_MAX then USIZE_MAX else a + b
  }

  function SaturatingSub(a: nat, b: nat): nat {
    if a < b then 0 else a - b
  }

  function Min(a: nat, b: nat): nat {
    if a < b then a else b
  }

  /** What the caller provides: a tokenizer and its reverse, either of which may fail. */
  datatype Tokenizer<!T> = Tokenizer(encode: string -> Result<seq<T>>, decode: seq<T> -> Result<string>)

  datatype TokenChunk = TokenChunk(text: string, startToken: nat, endToken: nat)

  // ----- windows -----

  /** A list of `length` tokens under windows of `size` that overlap by `overlap`. */
  datatype Plan = Plan(length: nat, size: nat, overlap: nat)

  function Start(p: Plan, k: nat): nat
    requires p.overlap < p.size
  {
    k * (p.size - p.overlap)
  }

  function End(p: Plan, k: nat): nat
    requires p.overlap < p.size
  {
    Min(Start(p, k) + p.size, p.length)
  }

  /** None, one, or one more than the rest divided by the stride, rounded up. */
  function Count(p: Plan): nat
    requires p.overlap < p.size
  {
    if p.length == 0 then 0
    else if p.length <= p.size then 1
    else 1 + (p.length - p.size + (p.size - p.overlap) - 1) / (p.size - p.overlap)
  }

  lemma Monotone(a: nat, b: nat, d: nat)
    requires a <= b
    ensures a * d <= b * d
  {
  }

  lemma Ceiling(n: nat, d: nat, k: nat)
    requires d > 0
    ensures k < (n + d - 1) / d <==> k * d < n
  {
    var q := (n + d - 1) / d;
    assert q * d <= n + d - 1 < q * d + d;
    if k < q {
      Monotone(k + 1, q, d);
      assert (k + 1) * d == k * d + d;
    } else {
      Monotone(q, k, d);
    }
  }

  /** A window is followed by another exactly when it stops short of the end. */
  lemma NotLast(p: Plan, k: nat)
    requires p.overlap < p.size && k < Count(p)
    ensures k + 1 < Count(p) <==> Start(p, k) + p.size < p.length
  {
    if p.length > p.size {
      Ceiling(p.length - p.size, p.size - p.overlap, k);
    } else {
      assert k == 0;
    }
  }

  /** Every window starts inside the list, and never after the end of the one before. */
  lemma WindowInside(p: Plan, k: nat)
    requires p.overlap < p.size && k < Count(p)
    ensures Start(p, k) < End(p, k) <= p.length
    ensures k > 0 ==> Start(p, k) + p.overlap == End(p, k - 1) < End(p, k)
    ensures k + 1 < Count(p) ==> End(p, k) == Start(p, k) + p.size
    ensures k + 1 == Count(p) ==> End(p, k) == p.length
  {
    NotLast(p, k);
    if k > 0 {
      NotLast(p, k - 1);
      assert Start(p, k) == Start(p, k - 1) + (p.size - p.overlap);
    }
  }

  function Window<T>(tokens: seq<T>, p: Plan, k: nat): (w: seq<T>)
    requires p.overlap < p.size && p.length == |tokens| && k < Count(p)
  {
    WindowInside(p, k);
    tokens[Start(p, k)..End(p, k)]
  }

  /** All windows are full but possibly the last, which is longer than the overlap unless it is the only one. */
  lemma WindowLength<T>(tokens: seq<T>, p: Plan, k: nat)
    requires p.overlap < p.size && p.length == |tokens| && k < Count(p)
    ensures k + 1 < Count(p) ==> |Window(tokens, p, k)| == p.size
    ensures 0 < |Window(tokens, p, k)| <= p.size
    ensures k > 0 ==> |Window(tokens, p, k)| > p.overlap
  {
    WindowInside(p, k);
  }

  lemma SliceEnds<T>(s: seq<T>, a: nat, b: nat, n: nat)
    requires a + n <= b <= |s|
    ensures s[a..b][b - a - n..] == s[b - n..b] && s[a..b][..n] == s[a..a + n]
  {
  }

  /** Neighbouring windows share exactly the overlap. */
  lemma SharedTokens<T>(tokens: seq<T>, p: Plan, k: nat)
    requires p.overlap < p.size && p.length == |tokens| && k + 1 < Count(p)
    ensures p.overlap <= |Window(tokens, p, k)| && p.overlap <= |Window(tokens, p, k + 1)|
    ensures Window(tokens, p, k)[|Window(tokens, p, k)| - p.overlap..] == Window(tokens, p, k + 1)[..p.overlap]
    ensures Start(p, k + 1) == End(p, k) - p.overlap
  {
    WindowInside(p, k);
    WindowInside(p, k + 1);
    SliceEnds(tokens, Start(p, k), End(p, k), p.overlap);
    SliceEnds(tokens, Start(p, k + 1), End(p, k + 1), p.overlap);
  }

  /** Every token is in a window. */
  lemma Covered(p: Plan, i: nat) returns (k: nat)
    requires p.overlap < p.size && i < p.length
    ensures k < Count(p) && Start(p, k) <= i < End(p, k)
  {
    k := 0;
    WindowInside(p, 0);
    while End(p, k) <= i
      invariant k < Count(p) && Start(p, k) <= i
      decreases Count(p) - k
    {
      WindowInside(p, k);
      WindowInside(p, k + 1);
      k := k + 1;
    }
  }

  /** The first `n` windows, each after the first without its overlap. */
  function Joined<T>(tokens: seq<T>, p: Plan, n: nat): seq<T>
    requires p.overlap < p.size && p.length == |tokens| && n <= Count(p)
  {
    if n == 0 then []
    else if n == 1 then Window(tokens, p, 0)
    else
      WindowLength(tokens, p, n - 1);
      Joined(tokens, p, n - 1) + Window(tokens, p, n - 1)[p.overlap..]
  }

  lemma Extends<T>(s: seq<T>, a: nat, n: nat, b: nat)
    requires a + n <= b <= |s|
    ensures s[..a + n] + s[a..b][n..] == s[..b]
  {
  }

  lemma {:induction false} JoinedIsPrefix<T>(tokens: seq<T>, p: Plan, n: nat)
    requires p.overlap < p.size && p.length == |tokens| && 0 < n <= Count(p)
    ensures Joined(tokens, p, n) == tokens[..End(p, n - 1)]
  {
    WindowInside(p, n - 1);
    if n > 1 {
      JoinedIsPrefix(tokens, p, n - 1);
      Extends(tokens, Start(p, n - 1), p.overlap, End(p, n - 1));
    }
  }

  /** Dropping the overlaps and joining gives the tokens back. */
  lemma Rebuilt<T>(tokens: seq<T>, p: Plan)
    requires p.overlap < p.size && p.length == |tokens|
    ensures Joined(tokens, p, Count(p)) == tokens
  {
    if tokens != [] {
      JoinedIsPrefix(tokens, p, Count(p));
      WindowInside(p, Count(p) - 1);
    }
  }

  // ----- chunks -----

  ghost predicate IsChunk<T>(chunk: TokenChunk, tokens: seq<T>, p: Plan, k: nat, tokenizer: Tokenizer<T>)
    requires p.overlap < p.size && p.length == |tokens| && k < Count(p)
  {
    && tokenizer.decode(Window(tokens, p, k)) == Ok(chunk.text)
    && chunk.startToken == Start(p, k) && chunk.endToken + 1 == End(p, k)
  }

  /** The window at `k` is the first that is not decoded, for the reason `message`. */
  ghost predicate FirstFailure<T>(tokens: seq<T>, p: Plan, k: nat, tokenizer: Tokenizer<T>, message: string)
    requires p.overlap < p.size && p.length == |tokens| && k < Count(p)
  {
    && tokenizer.decode(Window(tokens, p, k)) == Err(message)
    && forall j :: 0 <= j < k ==> tokenizer.decode(Window(tokens, p, j)).Ok?
  }

  /** What the loop needs to know of a window. */
  lemma WindowStep<T>(tokens: seq<T>, p: Plan, k: nat)
    requires p.overlap < p.size && p.length == |tokens| && k < Count(p)
    ensures Start(p, k) < End(p, k) <= |tokens| && Window(tokens, p, k) == tokens[Start(p, k)..End(p, k)]
    ensures End(p, k) == |tokens| <==> k + 1 == Count(p)
    ensures k + 1 < Count(p) ==>
      Start(p, k + 1) == Start(p, k) + (p.size - p.overlap) && End(p, k + 1) == Min(Start(p, k + 1) + p.size, |tokens|)
  {
    WindowInside(p, k);
    NotLast(p, k);
    if k + 1 < Count(p) {
      WindowInside(p, k + 1);
    }
  }

  lemma FirstWindow(p: Plan)
    requires p.overlap < p.size
    ensures Count(p) > 0 <==> p.length > 0
    ensures Start(p, 0) == 0 && End(p, 0) == Min(p.size, p.length)
  {
  }

  lemma FailsFirst<T>(chunks: seq<TokenChunk>, tokens: seq<T>, p: Plan, tokenizer: Tokenizer<T>, message: string)
    requires p.overlap < p.size && p.length == |tokens| && |chunks| < Count(p)
    requires forall j :: 0 <= j < |chunks| ==> IsChunk(chunks[j], tokens, p, j, tokenizer)
    requires tokenizer.decode(Window(tokens, p, |chunks|)) == Err(message)
    ensures FirstFailure(tokens, p, |chunks|, tokenizer, message)
  {
    forall j | 0 <= j < |chunks| ensures tokenizer.decode(Window(tokens, p, j)).Ok? {
      assert IsChunk(chunks[j], tokens, p, j, tokenizer);
    }
  }

  /** `split_text_on_tokens_with_spans`. */
  method SplitTextOnTokensWithSpans<T>(text: string, size: nat, overlap: nat, tokenizer: Tokenizer<T>)
    returns (r: Result<seq<TokenChunk>>)
    requires size <= USIZE_MAX && (tokenizer.encode(text).Ok? ==> |tokenizer.encode(text).value| <= USIZE_MAX)
    ensures overlap >= size ==> r.Err?
    ensures overlap < size && tokenizer.encode(text).Err? ==> r == Err(tokenizer.encode(text).message)
    ensures overlap < size && tokenizer.encode(text).Ok? ==>
      var tokens := tokenizer.encode(text).value;
      var p := Plan(|tokens|, size, overlap);
      if r.Ok? then
        |r.value| == Count(p) && forall k :: 0 <= k < Count(p) ==> IsChunk(r.value[k], tokens, p, k, tokenizer)
      else exists k: nat :: k < Count(p) && FirstFailure(tokens, p, k, tokenizer, r.message)
  {
    if overlap >= size {
      return Err("overlap must be smaller than size");
    }
    var encoded := tokenizer.encode(text);
    if encoded.Err? {
      return Err(encoded.message);
    }
    var tokens := encoded.value;
    hide Start, End, Count, Window, FirstFailure;
    ghost var p := Plan(|tokens|, size, overlap);
    FirstWindow(p);
    var result: seq<TokenChunk> := [];
    var start := 0;
    var current := Min(SaturatingAdd(start, size), |tokens|);
    while start < |tokens|
      invariant tokens == [] ==> |result| == 0
      invariant tokens != [] ==>
        start < |tokens| && |result| < Count(p) && start == Start(p, |result|) && current == End(p, |result|)
      invariant |result| <= Count(p)
      invariant forall k :: 0 <= k < |result| ==> IsChunk(result[k], tokens, p, k, tokenizer)
      decreases |tokens| - start
    {
      ghost var k := |result|;
      WindowStep(tokens, p, k);
      var decoded := tokenizer.decode(tokens[start..current]);
      if decoded.Err? {
        FailsFirst(result, tokens, p, tokenizer, decoded.message);
        return Err(decoded.message);
      }
      result := result + [TokenChunk(decoded.value, start, SaturatingSub(current, 1))];
      if current == |tokens| {
        break;
      }
      WindowStep(tokens, p, k + 1);
      start := SaturatingAdd(start, SaturatingSub(size, overlap));
      current := Min(SaturatingAdd(start, size), |tokens|);
    }
    r := Ok(result);
  }

  datatype TextChunk = TextChunk(original: string, text: string, index: nat, startToken: nat, endToken: nat,
      tokenCount: nat)

  function Transformed(transform: Option<string -> string>, text: string): string {
    match transform case None => text case Some(f) => f(text)
  }

  /** `create_chunk_results`. */
  method CreateChunkResults<T>(chunks: seq<TokenChunk>, transform: Option<string -> string>, tokenizer: Tokenizer<T>)
    returns (r: Result<seq<TextChunk>>)
    ensures r.Err? <==> exists k :: 0 <= k < |chunks| && tokenizer.encode(Transformed(transform, chunks[k].text)).Err?
    ensures r.Err? ==> exists k ::
      && 0 <= k < |chunks| && tokenizer.encode(Transformed(transform, chunks[k].text)) == Err(r.message)
      && forall j :: 0 <= j < k ==> tokenizer.encode(Transformed(transform, chunks[j].text)).Ok?
    ensures r.Ok? ==> |r.value| == |chunks|
    ensures r.Ok? ==> forall k :: 0 <= k < |chunks| ==>
      var text := Transformed(transform, chunks[k].text);
      tokenizer.encode(text).Ok? && r.value[k] ==
        TextChunk(chunks[k].text, text, k, chunks[k].startToken, chunks[k].endToken, |tokenizer.encode(text).value|)
  {
    var results: seq<TextChunk> := [];
    for index := 0 to |chunks|
      invariant |results| == index
      invariant forall k :: 0 <= k < index ==>
        var text := Transformed(transform, chunks[k].text);
        tokenizer.encode(text).Ok? && results[k] ==
          TextChunk(chunks[k].text, text, k, chunks[k].startToken, chunks[k].endToken, |tokenizer.encode(text).value|)
    {
      var chunk := chunks[index];
      var text := Transformed(transform, chunk.text);
      var tokens := tokenizer.encode(text);
      if tokens.Err? {
        return Err(tokens.message);
      }
      results := results + [TextChunk(chunk.text, text, index, chunk.startToken, chunk.endToken, |tokens.value|)];
    }
    r := Ok(results);
  }
}
