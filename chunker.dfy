/**
 * The chunker of `chunker.py`: a file's text is cut into overlapping,
 * line-aligned chunks of at most `MaxChunkSize` characters (a single long line
 * or a carried-over overlap can exceed it), invalid chunks are dropped, and
 * every chunk is named by a truncated hash of its path, start line and
 * content.  Also the per-file filtering of `chunk_codebase` and the file-hash
 * snapshot of `get_file_hashes`, over a given listing of files.
 */
module Chunker {
  import opened Wrappers
  import opened Text
  import opened Paths
  import opened Classifier

  /** Character budget of one chunk. */
  const MaxChunkSize: nat := 2000

  /** Declared next to the budget, but the chunker never reads it: overlap is counted in lines. */
  const OverlapSize: nat := 200

  /** Number of trailing lines of a closed chunk that the next chunk starts with. */
  const OverlapLines: nat := 3

  /** Length of a chunk id: the first 12 hex digits of the MD5 digest. */
  const IdLength: nat := 12

  predicate IsHexDigit(c: char)
  {
    ('0' <= c <= '9') || ('a' <= c <= 'f')
  }

  predicate IsHexDigest(s: string)
  {
    |s| == 32 && forall k :: 0 <= k < |s| ==> IsHexDigit(s[k])
  }

  /**
   * `hashlib.md5(s.encode()).hexdigest()`: a deterministic function from text to
   * 32 lower-case hex digits.  Which function it is does not matter to the
   * bookkeeping, so every such function is allowed.
   */
  type HexDigest = s: string | IsHexDigest(s) witness "00000000000000000000000000000000"
  type Md5 = string -> HexDigest

  /** `CodeChunk`; its `id` is `chunkHash`. */
  datatype CodeChunk = CodeChunk(filePath: string, startLine: nat, endLine: nat, content: string, chunkHash: string)
  {
    function Id(): string { chunkHash }
  }

  /** `hash_content`: the first 12 hex digits of the MD5 digest. */
  function HashContent(md5: Md5, content: string): (h: string)
    ensures |h| == IdLength
  {
    md5(content)[..IdLength]
  }

  /** A chunk id is made of lower-case hex digits. */
  lemma HashContentIsHex(md5: Md5, content: string)
    ensures forall k :: 0 <= k < |HashContent(md5, content)| ==> IsHexDigit(HashContent(md5, content)[k])
  {
    var d := md5(content);
    assert forall k :: 0 <= k < IdLength ==> HashContent(md5, content)[k] == d[k];
  }

  /** The id of a chunk: `hash_content(f"{path}:{start_line}:{content}")`. */
  function ChunkId(md5: Md5, path: string, startLine: nat, content: string): (id: string)
    ensures |id| == IdLength
  {
    HashContent(md5, path + ":" + NatToString(startLine) + ":" + content)
  }

  // ---------------------------------------------------------------------
  // is_valid_chunk
  // ---------------------------------------------------------------------

  /**
   * `is_valid_chunk`: the stripped content is non-empty, at least 10
   * characters long, and at least 30% of it is alphanumeric or whitespace.
   * The ratio test is written in integers here; `ValidChunkAsRatio` shows it
   * is the test `count / length >= 0.3`.
   */
  predicate IsValidChunk(content: string)
  {
    var stripped := Strip(content);
    stripped != [] && |stripped| >= 10 && 10 * CountAlnumOrSpace(stripped) >= 3 * |stripped|
  }

  /** For a non-empty text, `count / length >= 0.3` iff `10 * count >= 3 * length`. */
  lemma RatioInIntegers(count: nat, length: nat)
    requires length > 0
    ensures Ratio(count, length) >= 0.3 <==> 10 * count >= 3 * length
  {
    RatioTimesLength(count, length);
    hide Ratio;
    var r := Ratio(count, length);
    if r >= 0.3 {
      ScaleBy(r, 0.3, length as real);
    } else {
      ScaleByStrictly(0.3, r, length as real);
    }
  }

  /** `count / length` as Python's true division computes it, on exact reals. */
  function Ratio(count: nat, length: nat): real
    requires length > 0
  {
    (count as real) / (length as real)
  }

  lemma RatioTimesLength(count: nat, length: nat)
    requires length > 0
    ensures Ratio(count, length) * (length as real) == count as real
  {
  }

  /** Multiplying both sides of `x >= y` by a positive `n` keeps the order. */
  lemma ScaleBy(x: real, y: real, n: real)
    requires x >= y && n > 0.0
    ensures x * n >= y * n
  {
    assert x * n - y * n == (x - y) * n;
  }

  /** Multiplying both sides of `x > y` by a positive `n` keeps the strict order. */
  lemma ScaleByStrictly(x: real, y: real, n: real)
    requires x > y && n > 0.0
    ensures x * n > y * n
  {
    assert x * n - y * n == (x - y) * n;
  }

  /** A chunk is valid iff its stripped text is non-empty, has 10+ characters, and a ratio of at least 0.3 of alphanumeric or whitespace characters. */
  lemma ValidChunkAsRatio(content: string)
    ensures IsValidChunk(content) <==>
      var stripped := Strip(content);
      stripped != [] && |stripped| >= 10 && Ratio(CountAlnumOrSpace(stripped), |stripped|) >= 0.3
  {
    var stripped := Strip(content);
    if |stripped| >= 10 {
      RatioInIntegers(CountAlnumOrSpace(stripped), |stripped|);
    }
  }

  // ---------------------------------------------------------------------
  // Spans: the line ranges the chunking loop closes, before validation
  // ---------------------------------------------------------------------

  /** A chunk's line range, 1-based and inclusive. */
  datatype Span = Span(start: nat, end: nat)

  /** `sum(len(l) + 1 for l in ls)`: the characters `ls` take, one newline each. */
  function Cost(ls: seq<string>): nat
  {
    if |ls| == 0 then 0 else Cost(ls[..|ls| - 1]) + |ls[|ls| - 1]| + 1
  }

  /**
   * The spans the loop of `chunk_file` closes from the state in which lines
   * `start..i-1` are accumulated and line `i` is next: the accumulation is
   * closed when line `i` would push it over the budget, and the next one then
   * keeps the last 3 lines when the closed one had more than 3
   * (`max(1, i - len(overlap_lines))`; the `max` never applies).
   */
  function SpansFrom(lines: seq<string>, start: nat, i: nat): (spans: seq<Span>)
    requires 1 <= start <= i <= |lines| + 1
    ensures spans != [] ==> spans[0].start == start && spans[0].end + 1 >= i
    decreases |lines| + 1 - i
  {
    if i == |lines| + 1 then
      if start < i then [Span(start, i - 1)] else []
    else if Closes(lines, start, i) then
      [Span(start, i - 1)] + SpansFrom(lines, Restart(start, i), i + 1)
    else
      SpansFrom(lines, start, i + 1)
  }

  /** Every span left to close lies within the file and starts no earlier than `start`. */
  lemma {:induction false} SpansFromBounds(lines: seq<string>, start: nat, i: nat)
    requires 1 <= start <= i <= |lines| + 1
    ensures forall k :: 0 <= k < |SpansFrom(lines, start, i)| ==>
      start <= SpansFrom(lines, start, i)[k].start <= SpansFrom(lines, start, i)[k].end <= |lines|
    decreases |lines| + 1 - i
  {
    if i <= |lines| {
      var spans := SpansFrom(lines, start, i);
      SpansFromStep(lines, start, i);
      if Closes(lines, start, i) {
        var next := Restart(start, i);
        SpansFromBounds(lines, next, i + 1);
        var rest := SpansFrom(lines, next, i + 1);
        forall k | 0 < k < |spans|
          ensures start <= spans[k].start <= spans[k].end <= |lines|
        {
          assert spans[k] == rest[k - 1];
        }
      } else {
        SpansFromBounds(lines, start, i + 1);
      }
    }
  }

  /** Line `i` closes the accumulation of lines `start..i-1`: it is non-empty and `i` would push it over the budget. */
  predicate Closes(lines: seq<string>, start: nat, i: nat)
    requires 1 <= start <= i <= |lines|
  {
    start < i && WindowCost(lines, start, i) + |lines[i - 1]| + 1 > MaxChunkSize
  }

  /** The cost of lines `start..i-1`, summed line by line as the loop's `current_size` is. */
  function WindowCost(lines: seq<string>, start: nat, i: nat): nat
    requires 1 <= start <= i <= |lines| + 1
    decreases i - start
  {
    if start == i then 0 else WindowCost(lines, start, i - 1) + |lines[i - 2]| + 1
  }

  /** `WindowCost` is the cost of the window's lines. */
  lemma {:induction false} CostOfWindow(lines: seq<string>, start: nat, i: nat)
    requires 1 <= start <= i <= |lines| + 1
    ensures Cost(Window(lines, start, i)) == WindowCost(lines, start, i)
    decreases i - start
  {
    if start < i {
      CostOfWindow(lines, start, i - 1);
      CostSnoc(Window(lines, start, i - 1), lines[i - 2]);
    }
  }

  lemma {:induction false} WindowCostMono(lines: seq<string>, start: nat, i: nat, j: nat)
    requires 1 <= start <= i <= j <= |lines| + 1
    ensures WindowCost(lines, start, i) <= WindowCost(lines, start, j)
    decreases j - i
  {
    if i < j {
      WindowCostMono(lines, start, i, j - 1);
    }
  }

  /** Lines `start..i-1` (1-based), built up line by line as the loop accumulates them. */
  function Window(lines: seq<string>, start: nat, i: nat): (w: seq<string>)
    requires 1 <= start <= i <= |lines| + 1
    ensures |w| == i - start
    decreases i - start
  {
    if start == i then [] else Window(lines, start, i - 1) + [lines[i - 2]]
  }

  /** A window is the slice `lines[start - 1:i - 1]`. */
  lemma {:induction false} WindowIsSlice(lines: seq<string>, start: nat, i: nat)
    requires 1 <= start <= i <= |lines| + 1
    ensures Window(lines, start, i) == lines[start - 1..i - 1]
    decreases i - start
  {
    if start < i {
      WindowIsSlice(lines, start, i - 1);
      assert lines[start - 1..i - 1] == lines[start - 1..i - 2] + [lines[i - 2]];
    }
  }

  /**
   * Where the accumulation restarts after lines `start..i-1` were closed:
   * `max(1, i - len(overlap_lines))`, the overlap being the last 3 lines
   * when more than 3 were closed and nothing otherwise.
   */
  function Restart(start: nat, i: nat): (next: nat)
    requires 1 <= start < i
    ensures start < next <= i
  {
    var kept := if i - start > OverlapLines then OverlapLines else 0;
    Max(1, i - kept)
  }

  function Max(a: int, b: int): int
  {
    if a >= b then a else b
  }

  /** All spans of a file's lines. */
  function Spans(lines: seq<string>): seq<Span>
  {
    SpansFrom(lines, 1, 1)
  }

  /** Where the chunk after `a` starts: 2 lines before `a`'s end when `a` has more than 3 lines, else right after it. */
  function NextStart(a: Span): int
  {
    if a.end - a.start + 1 > OverlapLines then a.end - (OverlapLines - 1) else a.end + 1
  }

  /** `b` is the span the chunker closes right after `a`. */
  predicate Follows(a: Span, b: Span)
  {
    b.start == NextStart(a) && a.end < b.end
  }

  /** Each span follows the one before it. */
  predicate Chained(spans: seq<Span>)
    decreases |spans|
  {
    |spans| <= 1 || (Follows(spans[0], spans[1]) && Chained(spans[1..]))
  }

  /** In a chained sequence, span `k + 1` follows span `k`. */
  lemma {:induction false} ChainedAt(spans: seq<Span>, k: nat)
    requires Chained(spans) && k + 1 < |spans|
    ensures Follows(spans[k], spans[k + 1])
  {
    if k > 0 {
      ChainedAt(spans[1..], k - 1);
    }
  }

  /**
   * From any reachable loop state, the spans left to close start at `start`,
   * end at the last line, and each follows the previous by the overlap rule.
   */
  lemma {:induction false} SpansFromChained(lines: seq<string>, start: nat, i: nat)
    requires 1 <= start <= i <= |lines| + 1
    requires start < i || i <= |lines|
    ensures SpansFrom(lines, start, i) != []
    ensures SpansFrom(lines, start, i)[|SpansFrom(lines, start, i)| - 1].end == |lines|
    ensures Chained(SpansFrom(lines, start, i))
    decreases |lines| + 1 - i
  {
    if i == |lines| + 1 {
    } else if Closes(lines, start, i) {
      var next := Restart(start, i);
      SpansFromChained(lines, next, i + 1);
      var rest := SpansFrom(lines, next, i + 1);
      var closed := Span(start, i - 1);
      assert NextStart(closed) == next;
      ChainedCons(closed, rest);
      var all := [closed] + rest;
      SpansFromStep(lines, start, i);
      assert SpansFrom(lines, start, i) == all;
      assert all[|all| - 1] == rest[|rest| - 1];
    } else {
      SpansFromChained(lines, start, i + 1);
      SpansFromStep(lines, start, i);
    }
  }

  lemma ChainedCons(a: Span, rest: seq<Span>)
    requires rest != [] && Chained(rest) && Follows(a, rest[0])
    ensures Chained([a] + rest)
  {
    var spans := [a] + rest;
    assert spans[1..] == rest;
  }

  /** The spans of a non-empty file start at line 1, end at its last line, and are chained. */
  lemma SpansShape(lines: seq<string>)
    requires |lines| >= 1
    ensures Spans(lines) != []
    ensures Spans(lines)[0].start == 1
    ensures Spans(lines)[|Spans(lines)| - 1].end == |lines|
    ensures forall k :: 0 <= k < |Spans(lines)| ==> 1 <= Spans(lines)[k].start <= Spans(lines)[k].end <= |lines|
    ensures Chained(Spans(lines))
  {
    SpansFromChained(lines, 1, 1);
    SpansFromBounds(lines, 1, 1);
  }

  /** Chained spans are strictly increasing in both start and end, and leave no gap between neighbours. */
  lemma {:induction false} ChainedOrdered(spans: seq<Span>, j: nat, k: nat)
    requires Chained(spans)
    requires forall m :: 0 <= m < |spans| ==> spans[m].start <= spans[m].end
    requires j < k < |spans|
    ensures spans[j].start < spans[k].start && spans[j].end < spans[k].end
    ensures k == j + 1 ==> spans[k].start <= spans[j].end + 1
    decreases k - j
  {
    ChainedAt(spans, k - 1);
    if j < k - 1 {
      ChainedOrdered(spans, j, k - 1);
    }
  }

  /** Every line of a non-empty file lies in some span: consecutive spans overlap or touch. */
  lemma SpansCover(lines: seq<string>, line: nat)
    requires 1 <= line <= |lines|
    ensures exists k :: 0 <= k < |Spans(lines)| && Spans(lines)[k].start <= line <= Spans(lines)[k].end
  {
    var spans := Spans(lines);
    SpansShape(lines);
    var k := 0;
    while spans[k].end < line
      invariant 0 <= k < |spans|
      invariant spans[k].start <= line
      decreases |spans| - k
    {
      ChainedOrdered(spans, k, k + 1);
      k := k + 1;
    }
  }

  lemma {:induction false} CostAppend(a: seq<string>, b: seq<string>)
    ensures Cost(a + b) == Cost(a) + Cost(b)
    decreases |b|
  {
    if |b| > 0 {
      CostAppend(a, b[..|b| - 1]);
      assert (a + b)[..|a + b| - 1] == a + b[..|b| - 1];
    } else {
      assert a + b == a;
    }
  }

  /** The characters of `n` lines plus one newline each: one more than the text they were split from. */
  lemma {:induction false} CostOfJoin(ls: seq<string>, sep: char)
    requires |ls| >= 1
    ensures Cost(ls) == |Join(ls, sep)| + 1
  {
    if |ls| == 1 {
      assert ls[..0] == [];
    } else {
      CostOfJoin(ls[1..], sep);
      CostAppend([ls[0]], ls[1..]);
      assert [ls[0]] + ls[1..] == ls;
      assert [ls[0]][..0] == [];
    }
  }

  lemma {:induction false} SpansFromUnderBudget(lines: seq<string>, i: nat)
    requires 1 <= i <= |lines| + 1 && |lines| >= 1
    requires WindowCost(lines, 1, |lines| + 1) <= MaxChunkSize
    ensures SpansFrom(lines, 1, i) == [Span(1, |lines|)]
    decreases |lines| + 1 - i
  {
    if i <= |lines| {
      WindowCostMono(lines, 1, i + 1, |lines| + 1);
      assert !Closes(lines, 1, i);
      SpansFromUnderBudget(lines, i + 1);
      SpansFromStep(lines, 1, i);
    }
  }

  /** A text of fewer than 2000 characters is a single span covering all its lines. */
  lemma SmallTextOneSpan(text: string)
    requires |text| + 1 <= MaxChunkSize
    ensures Spans(Split(text, '\n')) == [Span(1, |Split(text, '\n')|)]
  {
    hide Split, Join, SpansFrom, Window, WindowCost, Cost;
    var lines := Split(text, '\n');
    CostOfJoin(lines, '\n');
    JoinSplit(text, '\n');
    CostOfWindow(lines, 1, |lines| + 1);
    WindowIsSlice(lines, 1, |lines| + 1);
    assert lines[0..|lines|] == lines;
    SpansFromUnderBudget(lines, 1);
  }

  // ---------------------------------------------------------------------
  // From spans to chunks
  // ---------------------------------------------------------------------

  /** The text of a span: `"\n".join` of its lines. */
  function SpanContent(lines: seq<string>, sp: Span): string
    requires 1 <= sp.start <= sp.end <= |lines|
  {
    Join(Window(lines, sp.start, sp.end + 1), '\n')
  }

  function ChunkOf(md5: Md5, path: string, lines: seq<string>, sp: Span): CodeChunk
    requires 1 <= sp.start <= sp.end <= |lines|
  {
    var content := SpanContent(lines, sp);
    CodeChunk(path, sp.start, sp.end, content, ChunkId(md5, path, sp.start, content))
  }

  /** `c` is the chunk of its own line range of `lines`: its text and id are those of that range. */
  predicate IsChunkOfRange(md5: Md5, path: string, lines: seq<string>, c: CodeChunk)
  {
    1 <= c.startLine <= c.endLine <= |lines| && c == ChunkOf(md5, path, lines, Span(c.startLine, c.endLine))
  }

  /** The chunks of the valid spans, in order; invalid spans are dropped. */
  function Emit(md5: Md5, path: string, lines: seq<string>, spans: seq<Span>): (cs: seq<CodeChunk>)
    ensures |cs| <= |spans|
  {
    if |spans| == 0 then []
    else
      Emitted(md5, path, lines, spans[0]) + Emit(md5, path, lines, spans[1..])
  }

  /** Every emitted chunk is valid and is the chunk of its own line range. */
  lemma {:induction false} EmitChunks(md5: Md5, path: string, lines: seq<string>, spans: seq<Span>)
    ensures forall k :: 0 <= k < |Emit(md5, path, lines, spans)| ==>
      IsChunkOfRange(md5, path, lines, Emit(md5, path, lines, spans)[k])
      && IsValidChunk(Emit(md5, path, lines, spans)[k].content)
  {
    hide IsValidChunk, SpanContent, ChunkId;
    if |spans| > 0 {
      EmitChunks(md5, path, lines, spans[1..]);
      var cs := Emit(md5, path, lines, spans);
      var rest := Emit(md5, path, lines, spans[1..]);
      if Emitted(md5, path, lines, spans[0]) != [] {
        var head := ChunkOf(md5, path, lines, spans[0]);
        assert cs == [head] + rest;
        assert Span(head.startLine, head.endLine) == spans[0];
        forall k | 0 < k < |cs|
          ensures IsChunkOfRange(md5, path, lines, cs[k]) && IsValidChunk(cs[k].content)
        {
          assert cs[k] == rest[k - 1];
        }
      } else {
        assert cs == rest;
      }
    }
  }

  /** Emitted chunks start no earlier than the spans they come from. */
  lemma {:induction false} EmitStartsFrom(md5: Md5, path: string, lines: seq<string>, spans: seq<Span>, lo: nat)
    requires forall k :: 0 <= k < |spans| ==> lo <= spans[k].start
    ensures forall k :: 0 <= k < |Emit(md5, path, lines, spans)| ==> lo <= Emit(md5, path, lines, spans)[k].startLine
  {
    hide IsValidChunk, SpanContent, ChunkId;
    if |spans| > 0 {
      EmitStartsFrom(md5, path, lines, spans[1..], lo);
      var cs := Emit(md5, path, lines, spans);
      var rest := Emit(md5, path, lines, spans[1..]);
      if Emitted(md5, path, lines, spans[0]) != [] {
        assert cs == [ChunkOf(md5, path, lines, spans[0])] + rest;
        forall k | 0 < k < |cs|
          ensures lo <= cs[k].startLine
        {
          assert cs[k] == rest[k - 1];
        }
      } else {
        assert cs == rest;
      }
    }
  }

  /** Every valid span is emitted: the chunks are exactly those of the valid spans. */
  lemma {:induction false} EmitKeepsValid(md5: Md5, path: string, lines: seq<string>, spans: seq<Span>, j: nat)
    requires j < |spans| && 1 <= spans[j].start <= spans[j].end <= |lines|
    requires IsValidChunk(SpanContent(lines, spans[j]))
    ensures ChunkOf(md5, path, lines, spans[j]) in Emit(md5, path, lines, spans)
  {
    hide IsValidChunk, SpanContent, ChunkId;
    if j > 0 {
      EmitKeepsValid(md5, path, lines, spans[1..], j - 1);
      assert spans[1..][j - 1] == spans[j];
    }
  }

  /** The chunks of a file's lines. */
  function FileChunks(md5: Md5, path: string, lines: seq<string>): seq<CodeChunk>
  {
    Emit(md5, path, lines, Spans(lines))
  }

  /** What `chunk_file` returns for the text `read_text` gave (None when it raised). */
  function ChunksOfText(md5: Md5, path: string, text: Option<string>): seq<CodeChunk>
  {
    if text.None? || Strip(text.value) == [] then [] else FileChunks(md5, path, Split(text.value, '\n'))
  }

  /** Each chunk emitted from spans of increasing start lines starts after the one before it. */
  lemma {:induction false} EmitSorted(md5: Md5, path: string, lines: seq<string>, spans: seq<Span>)
    requires forall j, k :: 0 <= j < k < |spans| ==> spans[j].start < spans[k].start
    ensures forall k :: 0 < k < |Emit(md5, path, lines, spans)| ==>
      Emit(md5, path, lines, spans)[k - 1].startLine < Emit(md5, path, lines, spans)[k].startLine
  {
    hide IsValidChunk, SpanContent, ChunkId;
    if |spans| > 0 {
      var cs := Emit(md5, path, lines, spans);
      var rest := Emit(md5, path, lines, spans[1..]);
      EmitSorted(md5, path, lines, spans[1..]);
      EmitStartsFrom(md5, path, lines, spans[1..], spans[0].start + 1);
      if Emitted(md5, path, lines, spans[0]) != [] {
        var head := ChunkOf(md5, path, lines, spans[0]);
        assert cs == [head] + rest;
        forall k | 0 < k < |cs|
          ensures cs[k - 1].startLine < cs[k].startLine
        {
          assert cs[k] == rest[k - 1];
          if k > 1 {
            assert cs[k - 1] == rest[k - 2];
          }
        }
      } else {
        assert cs == rest;
      }
    }
  }

  /** Start lines that increase from each chunk to the next increase between any two chunks. */
  lemma {:induction false} IncreasingStarts(cs: seq<CodeChunk>)
    requires forall k :: 0 < k < |cs| ==> cs[k - 1].startLine < cs[k].startLine
    ensures forall j, k :: 0 <= j < k < |cs| ==> cs[j].startLine < cs[k].startLine
  {
    if |cs| > 1 {
      var init := cs[..|cs| - 1];
      IncreasingStarts(init);
      forall j, k | 0 <= j < k < |cs|
        ensures cs[j].startLine < cs[k].startLine
      {
        if k < |cs| - 1 {
          assert cs[j] == init[j] && cs[k] == init[k];
        } else if j < k - 1 {
          assert cs[j] == init[j] && cs[k - 1] == init[k - 1];
        }
      }
    }
  }

  /**
   * Every chunk of a file is valid, lies within the file's lines, holds
   * exactly the lines of its range joined by newlines, carries the id of its
   * path, start line and content, and the chunks come in strictly increasing
   * order of start line.
   */
  lemma FileChunksFacts(md5: Md5, path: string, lines: seq<string>)
    requires |lines| >= 1
    ensures forall c :: c in FileChunks(md5, path, lines) ==>
      && IsValidChunk(c.content)
      && c.filePath == path
      && 1 <= c.startLine <= c.endLine <= |lines|
      && c.content == Join(lines[c.startLine - 1..c.endLine], '\n')
      && c.Id() == ChunkId(md5, path, c.startLine, c.content)
    ensures forall j, k :: 0 <= j < k < |FileChunks(md5, path, lines)| ==>
      FileChunks(md5, path, lines)[j].startLine < FileChunks(md5, path, lines)[k].startLine
  {
    hide IsValidChunk, ChunkId;
    var spans := Spans(lines);
    SpansShape(lines);
    forall j, k | 0 <= j < k < |spans|
      ensures spans[j].start < spans[k].start
    {
      ChainedOrdered(spans, j, k);
    }
    EmitSorted(md5, path, lines, spans);
    IncreasingStarts(FileChunks(md5, path, lines));
    EmitChunks(md5, path, lines, spans);
    forall c | c in FileChunks(md5, path, lines)
      ensures c.content == Join(lines[c.startLine - 1..c.endLine], '\n')
    {
      WindowIsSlice(lines, c.startLine, c.endLine + 1);
    }
  }

  // ---------------------------------------------------------------------
  // chunk_file
  // ---------------------------------------------------------------------

  /**
   * `chunk_file`: `text` is what `read_text(errors="ignore")` returned (None
   * when it raised).  Blank text gives no chunks; otherwise the chunks are
   * those of the valid spans of the text's lines.
   */
  method ChunkFile(md5: Md5, path: string, text: Option<string>) returns (chunks: seq<CodeChunk>)
    ensures chunks == ChunksOfText(md5, path, text)
  {
    if text.None? {
      return [];
    }
    var content := text.value;
    if Strip(content) == [] {
      return [];
    }
    chunks := ChunkLines(md5, path, Split(content, '\n'));
  }

  /** The chunking loop of `chunk_file` over the lines of a non-blank text. */
  method ChunkLines(md5: Md5, path: string, lines: seq<string>) returns (chunks: seq<CodeChunk>)
    ensures chunks == FileChunks(md5, path, lines)
  {
    hide FileChunks, Emitted, IsValidChunk, ChunkId, SpanContent;
    chunks := [];
    var current: seq<string> := [];
    var currentSize := 0;
    var start := 1;
    LoopStart(md5, path, lines);
    for i := 1 to |lines| + 1
      invariant LoopState(md5, path, lines, chunks, current, currentSize, start, i)
    {
      var line := lines[i - 1];
      var lineSize := |line| + 1;
      if currentSize + lineSize > MaxChunkSize && current != [] {
        var emitted := EmitSpan(md5, path, lines, current, start, i - 1);
        var overlap := if |current| > OverlapLines then current[|current| - OverlapLines..] else [];
        LoopClose(md5, path, lines, chunks, current, currentSize, start, i, emitted, overlap);
        chunks := chunks + emitted;
        current := overlap;
        currentSize := Cost(overlap);
        start := Max(1, i - |overlap|);
      } else {
        LoopExtend(md5, path, lines, chunks, current, currentSize, start, i);
      }
      current := current + [line];
      currentSize := currentSize + lineSize;
    }
    if current != [] {
      LoopFinish(md5, path, lines, chunks, current, currentSize, start);
      var emitted := EmitSpan(md5, path, lines, current, start, |lines|);
      chunks := chunks + emitted;
    }
  }

  /**
   * The state of the chunking loop before line `i`: `current` holds lines
   * `start..i-1` and `currentSize` their cost, and the chunks emitted so far
   * followed by those of the spans still to close are all the file's chunks.
   */
  ghost predicate LoopState(md5: Md5, path: string, lines: seq<string>, chunks: seq<CodeChunk>,
    current: seq<string>, currentSize: int, start: int, i: int)
  {
    && 1 <= start <= i <= |lines| + 1
    && (start < i || i == 1)
    && current == Window(lines, start, i)
    && currentSize == WindowCost(lines, start, i)
    && chunks + Emit(md5, path, lines, SpansFrom(lines, start, i)) == FileChunks(md5, path, lines)
  }

  /** The state just before line `i` is appended: appending it gives the loop state before line `i + 1`. */
  ghost predicate ReadyToAppend(md5: Md5, path: string, lines: seq<string>, chunks: seq<CodeChunk>,
    current: seq<string>, currentSize: int, start: int, i: int)
  {
    && 1 <= i <= |lines|
    && LoopState(md5, path, lines, chunks, current + [lines[i - 1]], currentSize + (|lines[i - 1]| + 1), start, i + 1)
  }

  lemma LoopStart(md5: Md5, path: string, lines: seq<string>)
    ensures LoopState(md5, path, lines, [], [], 0, 1, 1)
  {
  }

  /** Closing the accumulation before line `i` and carrying the overlap into the next one keeps the loop state. */
  lemma LoopClose(md5: Md5, path: string, lines: seq<string>, chunks: seq<CodeChunk>,
    current: seq<string>, currentSize: int, start: int, i: int, emitted: seq<CodeChunk>, overlap: seq<string>)
    requires LoopState(md5, path, lines, chunks, current, currentSize, start, i) && i <= |lines|
    requires currentSize + |lines[i - 1]| + 1 > MaxChunkSize && current != []
    requires emitted == Emitted(md5, path, lines, Span(start, i - 1))
    requires overlap == if |current| > OverlapLines then current[|current| - OverlapLines..] else []
    ensures ReadyToAppend(md5, path, lines, chunks + emitted, overlap, Cost(overlap), Max(1, i - |overlap|), i)
  {
    assert Closes(lines, start, i);
    CloseStep(md5, path, lines, chunks, start, i);
    OverlapStep(lines, start, i, current, overlap);
    CostOfWindow(lines, Restart(start, i), i);
  }

  /** Adding line `i` to an accumulation it does not overflow keeps the loop state. */
  lemma LoopExtend(md5: Md5, path: string, lines: seq<string>, chunks: seq<CodeChunk>,
    current: seq<string>, currentSize: int, start: int, i: int)
    requires LoopState(md5, path, lines, chunks, current, currentSize, start, i) && i <= |lines|
    requires !(currentSize + |lines[i - 1]| + 1 > MaxChunkSize && current != [])
    ensures ReadyToAppend(md5, path, lines, chunks, current, currentSize, start, i)
  {
    assert !Closes(lines, start, i);
    SpansFromStep(lines, start, i);
  }

  /** After the last line, the remaining accumulation is the last span. */
  lemma LoopFinish(md5: Md5, path: string, lines: seq<string>, chunks: seq<CodeChunk>,
    current: seq<string>, currentSize: int, start: int)
    requires LoopState(md5, path, lines, chunks, current, currentSize, start, |lines| + 1)
    requires current != []
    ensures start <= |lines|
    ensures chunks + Emitted(md5, path, lines, Span(start, |lines|)) == FileChunks(md5, path, lines)
  {
    EmitCons(md5, path, lines, Span(start, |lines|), []);
  }

  /** Joins the accumulated lines `start..end` and yields their chunk when it is valid. */
  method EmitSpan(md5: Md5, path: string, lines: seq<string>, current: seq<string>, start: nat, end: nat)
    returns (emitted: seq<CodeChunk>)
    requires 1 <= start <= end <= |lines| && current == Window(lines, start, end + 1)
    ensures emitted == Emitted(md5, path, lines, Span(start, end))
  {
    var chunkContent := Join(current, '\n');
    if IsValidChunk(chunkContent) {
      emitted := [CodeChunk(path, start, end, chunkContent, ChunkId(md5, path, start, chunkContent))];
    } else {
      emitted := [];
    }
  }

  /** The chunk a span of the file contributes: its chunk when valid, nothing otherwise. */
  function Emitted(md5: Md5, path: string, lines: seq<string>, sp: Span): seq<CodeChunk>
  {
    if 1 <= sp.start <= sp.end <= |lines| && IsValidChunk(SpanContent(lines, sp)) then [ChunkOf(md5, path, lines, sp)] else []
  }

  /** Closing lines `start..i-1` emits their chunk (if valid) and restarts at `Restart(start, i)`. */
  lemma CloseStep(md5: Md5, path: string, lines: seq<string>, chunks: seq<CodeChunk>, start: nat, i: nat)
    requires 1 <= start < i <= |lines|
    requires Closes(lines, start, i)
    requires chunks + Emit(md5, path, lines, SpansFrom(lines, start, i)) == FileChunks(md5, path, lines)
    ensures chunks + Emitted(md5, path, lines, Span(start, i - 1))
      + Emit(md5, path, lines, SpansFrom(lines, Restart(start, i), i + 1)) == FileChunks(md5, path, lines)
  {
    hide IsValidChunk, SpanContent, ChunkId, Closes;
    var rest := SpansFrom(lines, Restart(start, i), i + 1);
    SpansFromStep(lines, start, i);
    EmitCons(md5, path, lines, Span(start, i - 1), rest);
  }

  /** The overlap the loop keeps is exactly the lines from `Restart(start, i)` up to `i - 1`. */
  lemma OverlapStep(lines: seq<string>, start: nat, i: nat, current: seq<string>, overlap: seq<string>)
    requires 1 <= start < i <= |lines|
    requires current == Window(lines, start, i)
    requires overlap == if |current| > OverlapLines then current[|current| - OverlapLines..] else []
    ensures Max(1, i - |overlap|) == Restart(start, i)
    ensures overlap == Window(lines, Restart(start, i), i)
  {
    if i - start > OverlapLines {
      WindowIsSlice(lines, start, i);
      WindowIsSlice(lines, i - OverlapLines, i);
      SliceTail(lines, start - 1, i - 1, OverlapLines);
    }
  }

  /** One step of the chunking loop, as `SpansFrom` takes it. */
  lemma SpansFromStep(lines: seq<string>, start: nat, i: nat)
    requires 1 <= start <= i <= |lines|
    ensures SpansFrom(lines, start, i) ==
      if Closes(lines, start, i) then [Span(start, i - 1)] + SpansFrom(lines, Restart(start, i), i + 1)
      else SpansFrom(lines, start, i + 1)
  {
  }

  lemma EmitCons(md5: Md5, path: string, lines: seq<string>, sp: Span, rest: seq<Span>)
    ensures Emit(md5, path, lines, [sp] + rest) == Emitted(md5, path, lines, sp) + Emit(md5, path, lines, rest)
  {
    assert ([sp] + rest)[0] == sp;
    assert ([sp] + rest)[1..] == rest;
  }

  lemma SliceTail<T>(xs: seq<T>, a: nat, b: nat, n: nat)
    requires a <= b <= |xs| && n <= b - a
    ensures xs[a..b][b - a - n..] == xs[b - n..b]
  {
  }

  lemma CostSnoc(ls: seq<string>, line: string)
    ensures Cost(ls + [line]) == Cost(ls) + |line| + 1
  {
    assert (ls + [line])[..|ls|] == ls;
  }

  // ---------------------------------------------------------------------
  // chunk_codebase and get_file_hashes over a listing
  // ---------------------------------------------------------------------

  /** A listed file passes both filters: its path is indexable and `is_valid_file` accepts it. */
  predicate Eligible(f: SourceFile)
  {
    ShouldIndexFile(f.path) && IsValidFile(f.snapshot) == Accepted
  }

  /** The chunks `chunk_codebase` yields for the first `n` files of a listing, file after file. */
  function CodebaseChunks(md5: Md5, files: seq<SourceFile>, n: nat): seq<CodeChunk>
    requires n <= |files|
  {
    if n == 0 then []
    else
      CodebaseChunks(md5, files, n - 1)
        + (if Eligible(files[n - 1]) then ChunksOfText(md5, files[n - 1].path, files[n - 1].snapshot.text) else [])
  }

  /** The relative paths `chunk_codebase` records under `reason` for the first `n` files, in listing order. */
  function SkippedAs(files: seq<SourceFile>, n: nat, reason: SkipReason): seq<string>
    requires n <= |files|
  {
    if n == 0 then []
    else
      SkippedAs(files, n - 1, reason)
        + (if ShouldIndexFile(files[n - 1].path) && IsValidFile(files[n - 1].snapshot) == Rejected(reason)
           then [files[n - 1].rel] else [])
  }

  /**
   * `chunk_codebase` over a listing (`git ls-files`, or the walk that prunes
   * `should_skip_dir` directories and keeps `should_index_file` files): each
   * indexable file is validated, a rejected one is recorded under its reason,
   * an accepted one is chunked.
   */
  method ChunkCodebase(md5: Md5, files: seq<SourceFile>, skipped: SkippedFiles)
    returns (chunks: seq<CodeChunk>)
    modifies skipped
    ensures chunks == CodebaseChunks(md5, files, |files|)
    ensures forall r :: skipped.Of(r) == old(skipped.Of(r)) + SkippedAs(files, |files|, r)
  {
    hide ShouldIndexFile, IsValidFile, ChunksOfText;
    CodebaseStart(md5, files);
    hide CodebaseChunks, SkippedAs;
    chunks := [];
    for i := 0 to |files|
      invariant chunks == CodebaseChunks(md5, files, i)
      invariant skipped.Of(Large) == old(skipped.Of(Large)) + SkippedAs(files, i, Large)
      invariant skipped.Of(Binary) == old(skipped.Of(Binary)) + SkippedAs(files, i, Binary)
      invariant skipped.Of(Minified) == old(skipped.Of(Minified)) + SkippedAs(files, i, Minified)
      invariant skipped.Of(Empty) == old(skipped.Of(Empty)) + SkippedAs(files, i, Empty)
      invariant skipped.Of(Encoding) == old(skipped.Of(Encoding)) + SkippedAs(files, i, Encoding)
      invariant skipped.Of(Error) == old(skipped.Of(Error)) + SkippedAs(files, i, Error)
    {
      var f := files[i];
      CodebaseStep(md5, files, i);
      if !ShouldIndexFile(f.path) {
        SkippedUnchanged(files, i);
        continue;
      }
      var validity := IsValidFile(f.snapshot);
      if validity.Rejected? {
        SkippedGrows(files, i, validity.reason);
        ghost var before := old(skipped.Of(validity.reason));
        skipped.Record(validity.reason, f.rel);
        AppendAssoc(before, SkippedAs(files, i, validity.reason), [f.rel]);
        continue;
      }
      SkippedUnchanged(files, i);
      var fileChunks := ChunkFile(md5, f.path, f.snapshot.text);
      chunks := chunks + fileChunks;
    }
  }

  lemma CodebaseStart(md5: Md5, files: seq<SourceFile>)
    ensures CodebaseChunks(md5, files, 0) == []
    ensures forall r :: SkippedAs(files, 0, r) == []
  {
  }

  /** Taking one more file of the listing adds its chunks when it is eligible, and nothing otherwise. */
  lemma CodebaseStep(md5: Md5, files: seq<SourceFile>, i: nat)
    requires i < |files|
    ensures CodebaseChunks(md5, files, i + 1) == CodebaseChunks(md5, files, i)
      + (if Eligible(files[i]) then ChunksOfText(md5, files[i].path, files[i].snapshot.text) else [])
  {
  }

  /** A file that is not recorded as skipped leaves every reason's list as it was. */
  lemma SkippedUnchanged(files: seq<SourceFile>, i: nat)
    requires i < |files|
    requires !ShouldIndexFile(files[i].path) || IsValidFile(files[i].snapshot) == Accepted
    ensures forall r :: SkippedAs(files, i + 1, r) == SkippedAs(files, i, r)
  {
  }

  /** A file rejected for `reason` is appended to that reason's list and to no other. */
  lemma SkippedGrows(files: seq<SourceFile>, i: nat, reason: SkipReason)
    requires i < |files|
    requires ShouldIndexFile(files[i].path) && IsValidFile(files[i].snapshot) == Rejected(reason)
    ensures SkippedAs(files, i + 1, reason) == SkippedAs(files, i, reason) + [files[i].rel]
    ensures forall r :: r != reason ==> SkippedAs(files, i + 1, r) == SkippedAs(files, i, r)
  {
  }

  lemma AppendAssoc<T>(a: seq<T>, b: seq<T>, c: seq<T>)
    ensures a + b + c == a + (b + c)
  {
  }

  /** Every indexable file among the first `n` is either chunked or recorded under exactly one reason, and none is recorded as undecodable. */
  lemma {:induction false} SkipAccounting(files: seq<SourceFile>, n: nat)
    requires n <= |files|
    ensures |SkippedAs(files, n, Large)| + |SkippedAs(files, n, Binary)|
      + |SkippedAs(files, n, Minified)| + |SkippedAs(files, n, Empty)|
      + |SkippedAs(files, n, Encoding)| + |SkippedAs(files, n, Error)|
      + |AcceptedRels(files, n)| == |IndexableRels(files, n)|
    ensures SkippedAs(files, n, Encoding) == []
  {
    hide ShouldIndexFile;
    if n > 0 {
      SkipAccounting(files, n - 1);
      var v := IsValidFile(files[n - 1].snapshot);
      if v.Rejected? {
        assert v.reason in {Large, Binary, Minified, Empty, Error};
      }
    }
  }

  /**
   * `chunk_codebase` with a fresh `SkippedFiles`: afterwards `total()` is the
   * number of indexable files of the listing that were not chunked.
   */
  method CountSkipped(md5: Md5, files: seq<SourceFile>) returns (total: nat)
    ensures total + |AcceptedRels(files, |files|)| == |IndexableRels(files, |files|)|
  {
    var skipped := new SkippedFiles();
    var chunks := ChunkCodebase(md5, files, skipped);
    SkipAccounting(files, |files|);
    total := skipped.Total();
  }

  /** The relative paths of the first `n` files that `chunk_codebase` chunks. */
  function AcceptedRels(files: seq<SourceFile>, n: nat): seq<string>
    requires n <= |files|
  {
    if n == 0 then []
    else AcceptedRels(files, n - 1) + (if Eligible(files[n - 1]) then [files[n - 1].rel] else [])
  }

  /** The relative paths of the first `n` files that `should_index_file` lets through. */
  function IndexableRels(files: seq<SourceFile>, n: nat): seq<string>
    requires n <= |files|
  {
    if n == 0 then []
    else
      IndexableRels(files, n - 1)
        + (if ShouldIndexFile(files[n - 1].path) then [files[n - 1].rel] else [])
  }

  /** `hash_file`: the full MD5 digest of the text, or "" when reading raised. */
  function HashFile(md5: Md5, snapshot: FileSnapshot): string
  {
    match snapshot.text
    case Some(text) => md5(text)
    case None => ""
  }

  /** The manifest `get_file_hashes` builds from the first `n` files of a listing: relative path to whole-file hash. */
  function HashSnapshot(md5: Md5, files: seq<SourceFile>, n: nat): map<string, string>
    requires n <= |files|
  {
    if n == 0 then map[]
    else
      var f := files[n - 1];
      var before := HashSnapshot(md5, files, n - 1);
      if Eligible(f) then before[f.rel := HashFile(md5, f.snapshot)] else before
  }

  /** A listing names each file once. */
  predicate DistinctRels(files: seq<SourceFile>)
  {
    forall j, k :: 0 <= j < k < |files| ==> files[j].rel != files[k].rel
  }

  /** The manifest holds exactly the eligible files, each with the hash of its own text. */
  lemma {:induction false} HashSnapshotContents(md5: Md5, files: seq<SourceFile>, n: nat)
    requires n <= |files| && DistinctRels(files)
    ensures forall k :: 0 <= k < n && Eligible(files[k]) ==>
      files[k].rel in HashSnapshot(md5, files, n)
      && HashSnapshot(md5, files, n)[files[k].rel] == HashFile(md5, files[k].snapshot)
    ensures forall rel :: rel in HashSnapshot(md5, files, n) ==>
      exists k :: 0 <= k < n && files[k].rel == rel && Eligible(files[k])
  {
    hide Eligible;
    if n > 0 {
      HashSnapshotContents(md5, files, n - 1);
      var f := files[n - 1];
      var before := HashSnapshot(md5, files, n - 1);
      var after := HashSnapshot(md5, files, n);
      assert after == if Eligible(f) then before[f.rel := HashFile(md5, f.snapshot)] else before;
      forall k | 0 <= k < n && Eligible(files[k])
        ensures files[k].rel in after && after[files[k].rel] == HashFile(md5, files[k].snapshot)
      {
        if k < n - 1 {
          assert files[k].rel != f.rel;
        }
      }
      forall rel | rel in after
        ensures exists k :: 0 <= k < n && files[k].rel == rel && Eligible(files[k])
      {
        if rel in before {
          var k :| 0 <= k < n - 1 && files[k].rel == rel && Eligible(files[k]);
        } else {
          assert files[n - 1].rel == rel;
        }
      }
    }
  }

  /**
   * `get_file_hashes` over a listing: the files that pass `should_index_file`
   * and `is_valid_file`, each mapped to the hash of its text.
   */
  method GetFileHashes(md5: Md5, files: seq<SourceFile>) returns (hashes: map<string, string>)
    ensures hashes == HashSnapshot(md5, files, |files|)
  {
    hide ShouldIndexFile, IsValidFile;
    hashes := map[];
    for i := 0 to |files|
      invariant hashes == HashSnapshot(md5, files, i)
    {
      var f := files[i];
      if !ShouldIndexFile(f.path) {
        continue;
      }
      var validity := IsValidFile(f.snapshot);
      if validity.Rejected? {
        continue;
      }
      hashes := hashes[f.rel := HashFile(md5, f.snapshot)];
    }
  }
}
