/**
 * The text logic of the command line (`cli.py`): how `read` turns a location
 * such as `src/auth.py:30-80` into a file and a line range and which
 * numbered lines it prints, how `index` chooses between a full and an
 * incremental run, and how `exact` cuts its output to a number of lines.
 */
module Cli {
  import opened Wrappers
  import opened Text
  import opened Store

  function Max(a: int, b: int): int
  {
    if a >= b then a else b
  }

  // ---------------------------------------------------------------------
  // read: parsing the location
  // ---------------------------------------------------------------------

  /** What `read` makes of its location argument: a file and a line range, or the "Invalid line range" error exit. */
  datatype Parsed =
    | Read(file: string, start: int, end: int)
    | InvalidRange(linePart: string)

  /** `context // 2`: the floor of half the context, also for a negative context. */
  function Half(context: int): (h: int)
    ensures 2 * h <= context < 2 * h + 2
  {
    context / 2
  }

  /**
   * The location parser of `read`. The location is split at its last `:`;
   * a line part holding `-` is split at its first `-` into a start and an
   * end, both of which must be integers; an integer line part is a centre
   * line with `context // 2` lines on either side (the start not below 1);
   * any other line part means the `:` belonged to the file name.
   */
  function ParseLocation(location: string, context: int): (r: Parsed)
    ensures r.Read? ==> |r.file| <= |location| && r.file == location[..|r.file|]
    ensures r.InvalidRange? ==>
      '-' in r.linePart && ':' !in r.linePart && |r.linePart| < |location|
      && location[|location| - |r.linePart|..] == r.linePart
      && location[|location| - |r.linePart| - 1] == ':'
  {
    match LastIndexOf(location, ':')
    case None => Read(location, 1, context)
    case Some(i) =>
      LastIndexOfFacts(location, ':');
      ParseLinePart(location, location[..i], location[i + 1..], context)
  }

  /** The line part after the last `:` of the location, the file part before it. */
  function ParseLinePart(location: string, filePart: string, linePart: string, context: int): (r: Parsed)
    ensures r.Read? ==> r.file == filePart || r.file == location
    ensures r.InvalidRange? ==> r.linePart == linePart && '-' in linePart
  {
    match FirstIndexOf(linePart, '-')
    case Some(j) =>
      var startLine := ParseInt(linePart[..j]);
      var endLine := ParseInt(linePart[j + 1..]);
      if startLine.Some? && endLine.Some? then Read(filePart, startLine.value, endLine.value)
      else InvalidRange(linePart)
    case None =>
      match ParseInt(linePart)
      case Some(center) => Read(filePart, Max(1, center - Half(context)), center + Half(context))
      case None => Read(location, 1, context)
  }

  /** With no `:` after the one added, the location splits there into the file and the line part. */
  lemma ParseAtAddedColon(file: string, linePart: string, context: int)
    requires ':' !in linePart
    ensures ParseLocation(file + ":" + linePart, context) == ParseLinePart(file + ":" + linePart, file, linePart, context)
  {
    var location := file + ":" + linePart;
    assert location == file + [':'] + linePart;
    LastIndexOfAfter(file, ':', linePart);
    assert location[|file| + 1..] == linePart;
    assert location[..|file|] == file;
  }

  /** The last occurrence of `c` in `s + [c] + t` is the one added, when `t` holds no `c`. */
  lemma {:induction false} LastIndexOfAfter(s: string, c: char, t: string)
    requires c !in t
    ensures LastIndexOf(s + [c] + t, c) == Some(|s|)
  {
    if |t| > 0 {
      var u := t[..|t| - 1];
      LastIndexOfAfter(s, c, u);
      assert (s + [c] + t)[..|s + [c] + t| - 1] == s + [c] + u;
    }
  }

  /** The first occurrence of `c` in `s + [c] + t` is the one added, when `s` holds no `c`. */
  lemma {:induction false} FirstIndexOfBefore(s: string, c: char, t: string)
    requires c !in s
    ensures FirstIndexOf(s + [c] + t, c) == Some(|s|)
  {
    if |s| > 0 {
      FirstIndexOfBefore(s[1..], c, t);
      assert (s + [c] + t)[1..] == s[1..] + [c] + t;
    }
  }

  /** A decimal rendering holds neither `:` nor `-`. */
  lemma DigitsHoldNoPunctuation(s: string)
    requires AllDigits(s)
    ensures ':' !in s && '-' !in s
  {
  }

  /** A location without `:` is the whole file name, with the range `1..context`. */
  lemma ParseWholeFile(location: string, context: int)
    requires ':' !in location
    ensures ParseLocation(location, context) == Read(location, 1, context)
  {
    LastIndexOfFacts(location, ':');
  }

  /** The line part `A-B` is the range from `A` to `B`. */
  lemma RangeLinePart(location: string, file: string, a: nat, b: nat, context: int)
    ensures ParseLinePart(location, file, NatToString(a) + "-" + NatToString(b), context) == Read(file, a, b)
  {
    var sa, sb := NatToString(a), NatToString(b);
    var linePart := sa + "-" + sb;
    DigitsHoldNoPunctuation(sa);
    assert linePart == sa + ['-'] + sb;
    FirstIndexOfBefore(sa, '-', sb);
    ParseNatToString(a);
    ParseNatToString(b);
    assert linePart[..|sa|] == sa && linePart[|sa| + 1..] == sb;
  }

  /** `file:A-B` reads lines `A` to `B` of `file`, whatever `:` the file name itself holds. */
  lemma ParseRangeRoundTrip(file: string, a: nat, b: nat, context: int)
    ensures ParseLocation(file + ":" + NatToString(a) + "-" + NatToString(b), context) == Read(file, a, b)
  {
    var linePart := NatToString(a) + "-" + NatToString(b);
    NoColonInRange(a, b);
    ParseAtAddedColon(file, linePart, context);
    RangeLinePart(file + ":" + linePart, file, a, b, context);
    assert file + ":" + NatToString(a) + "-" + NatToString(b) == file + ":" + linePart;
  }

  lemma NoColonInRange(a: nat, b: nat)
    ensures ':' !in NatToString(a) + "-" + NatToString(b)
  {
    DigitsHoldNoPunctuation(NatToString(a));
    DigitsHoldNoPunctuation(NatToString(b));
  }

  /** `file:N` reads `context // 2` lines on either side of line `N`, never starting before line 1. */
  lemma ParseCenteredRoundTrip(file: string, n: nat, context: int)
    ensures ParseLocation(file + ":" + NatToString(n), context)
      == Read(file, Max(1, n - Half(context)), n + Half(context))
  {
    var sn := NatToString(n);
    DigitsHoldNoPunctuation(sn);
    ParseAtAddedColon(file, sn, context);
    hide ParseLocation;
    FirstIndexOfFacts(sn, '-');
    ParseNatToString(n);
  }

  /**
   * A line part that is neither a range nor an integer (the rest of a
   * Windows path such as `C:\src\app.py`) makes the whole location the file,
   * with the range `1..context`.
   */
  lemma ParseColonInFileName(file: string, rest: string, context: int)
    requires ':' !in rest && '-' !in rest && ParseInt(rest).None?
    ensures ParseLocation(file + ":" + rest, context) == Read(file + ":" + rest, 1, context)
  {
    ParseAtAddedColon(file, rest, context);
    hide ParseLocation;
    FirstIndexOfFacts(rest, '-');
  }

  /**
   * A line part `A-B` (split at its first `-`) one of whose sides is not an
   * integer is the "Invalid line range" error, reported with the line part.
   */
  lemma ParseInvalidRange(file: string, a: string, b: string, context: int)
    requires ':' !in a && ':' !in b && '-' !in a
    requires ParseInt(a).None? || ParseInt(b).None?
    ensures ParseLocation(file + ":" + a + "-" + b, context) == InvalidRange(a + "-" + b)
  {
    hide ParseLocation, ParseLinePart, ParseInt;
    var linePart := a + "-" + b;
    NoColonAroundDash(a, b);
    ParseAtAddedColon(file, linePart, context);
    InvalidLinePart(file + ":" + linePart, file, a, b, context);
    assert file + ":" + a + "-" + b == file + ":" + linePart;
  }

  lemma NoColonAroundDash(a: string, b: string)
    requires ':' !in a && ':' !in b
    ensures ':' !in a + "-" + b
  {
  }

  /** The line part `A-B` with a side that is not an integer is an invalid range. */
  lemma InvalidLinePart(location: string, file: string, a: string, b: string, context: int)
    requires '-' !in a
    requires ParseInt(a).None? || ParseInt(b).None?
    ensures ParseLinePart(location, file, a + "-" + b, context) == InvalidRange(a + "-" + b)
  {
    var linePart := a + "-" + b;
    assert linePart == a + ['-'] + b;
    FirstIndexOfBefore(a, '-', b);
    assert linePart[..|a|] == a && linePart[|a| + 1..] == b;
  }

  // ---------------------------------------------------------------------
  // read: clamping and printing
  // ---------------------------------------------------------------------

  /** The characters `rstrip("\n\r")` removes from each printed line. */
  const LineEnds: set<char> := {'\n', '\r'}

  /** `f"{n:6}"`: the number right-aligned in a field of six, wider when it has more digits. */
  function PadNumber(n: nat): (s: string)
    ensures |s| == Max(6, |NatToString(n)|)
  {
    var digits := NatToString(n);
    seq(Max(0, 6 - |digits|), _ => ' ') + digits
  }

  /** `f"{line_num:6}\t{line_content}"`. */
  function Numbered(n: nat, content: string): string
  {
    PadNumber(n) + "\t" + content
  }

  /** `strip()` of spaces followed by a run without whitespace is that run. */
  lemma StripPadded(pad: string, word: string)
    requires forall k :: 0 <= k < |pad| ==> pad[k] == ' '
    requires |word| > 0 && forall k :: 0 <= k < |word| ==> !IsSpace(word[k])
    ensures Strip(pad + word) == word
  {
    var s := pad + word;
    SkippedAreSpaces(s, 0);
    var a := SkipSpaceFrom(s, 0);
    assert !IsSpace(s[|pad|]);
    assert a == |pad|;
    assert SkipSpaceBack(s, a, |s|) == |s|;
    assert s[|pad|..] == word;
  }

  /** A printed line gives back its number (the field before the tab, stripped) and its content (all after the tab). */
  lemma NumberedRoundTrip(n: nat, content: string)
    ensures FirstIndexOf(Numbered(n, content), '\t').Some?
    ensures var w := FirstIndexOf(Numbered(n, content), '\t').value;
      ParseInt(Strip(Numbered(n, content)[..w])) == Some(n)
      && Numbered(n, content)[w + 1..] == content
  {
    var digits := NatToString(n);
    var pad := seq(Max(0, 6 - |digits|), _ => ' ');
    assert PadNumber(n) == pad + digits;
    assert forall k :: 0 <= k < |digits| ==> IsDigit(digits[k]);
    assert '\t' !in PadNumber(n);
    var s := Numbered(n, content);
    assert s == PadNumber(n) + ['\t'] + content;
    FirstIndexOfBefore(PadNumber(n), '\t', content);
    assert s[..|PadNumber(n)|] == pad + digits;
    assert s[|PadNumber(n)| + 1..] == content;
    assert forall k :: 0 <= k < |digits| ==> IsDigit(digits[k]);
    StripPadded(pad, digits);
    ParseNatToString(n);
  }

  /**
   * The printing part of `read`: the range is clamped to the file (start at
   * least 1, end at most the number of lines) and exactly the lines from
   * start to end are printed, each with its 1-based number and without its
   * line ending; nothing is printed when the start is past the end.
   */
  method ReadLines(lines: seq<string>, start: int, end: int) returns (first: int, last: int, printed: seq<string>)
    ensures first == Max(1, start) && last == (if end <= |lines| then end else |lines|)
    ensures 1 <= first && last <= |lines|
    ensures |printed| == Max(0, last - first + 1)
    ensures forall k :: 0 <= k < |printed| ==>
      printed[k] == Numbered(first + k, RStrip(lines[first + k - 1], LineEnds))
  {
    first := Max(1, start);
    last := if end <= |lines| then end else |lines|;
    printed := [];
    var i := first - 1;
    while i < last
      invariant first - 1 <= i <= Max(first - 1, last)
      invariant |printed| == i - (first - 1)
      invariant forall k :: 0 <= k < |printed| ==>
        printed[k] == Numbered(first + k, RStrip(lines[first + k - 1], LineEnds))
    {
      printed := printed + [Numbered(i + 1, RStrip(lines[i], LineEnds))];
      i := i + 1;
    }
  }

  /** A location without a line reads the first `context` lines of the file (all of them when it has fewer), numbered from 1. */
  method ReadHead(location: string, context: int, lines: seq<string>) returns (printed: seq<string>)
    requires ':' !in location
    ensures |printed| == Max(0, if context <= |lines| then context else |lines|)
    ensures forall k :: 0 <= k < |printed| ==> printed[k] == Numbered(k + 1, RStrip(lines[k], LineEnds))
  {
    ParseWholeFile(location, context);
    var p := ParseLocation(location, context);
    var first, last;
    first, last, printed := ReadLines(lines, p.start, p.end);
  }

  // ---------------------------------------------------------------------
  // exact: the line limit
  // ---------------------------------------------------------------------

  /**
   * The output of `exact` under `--limit`: with a limit (`if limit:`, so
   * neither absent nor 0) the output is stripped, split into lines, cut to
   * `lines[:limit]` and joined again; a negative limit drops lines from the
   * end, as the slice does.
   */
  function LimitOutput(output: string, limit: Option<int>): (r: string)
    ensures limit.None? || limit == Some(0) ==> r == output
  {
    if limit.None? || limit.value == 0 then output
    else Join(PrefixSlice(Split(Strip(output), '\n'), limit.value), '\n')
  }

  /** Joining a non-empty prefix of the pieces gives a prefix of the joined text. */
  lemma {:induction false} JoinPrefix(parts: seq<string>, m: nat, sep: char)
    requires 1 <= m <= |parts|
    ensures |Join(parts[..m], sep)| <= |Join(parts, sep)|
    ensures Join(parts[..m], sep) == Join(parts, sep)[..|Join(parts[..m], sep)|]
  {
    if m < |parts| {
      if m == 1 {
        assert Join(parts[..1], sep) == parts[0];
        assert Join(parts, sep) == parts[0] + [sep] + Join(parts[1..], sep);
      } else {
        JoinPrefix(parts[1..], m - 1, sep);
        assert parts[..m][1..] == parts[1..][..m - 1];
        assert Join(parts[..m], sep) == parts[0] + [sep] + Join(parts[1..][..m - 1], sep);
        assert Join(parts, sep) == parts[0] + [sep] + Join(parts[1..], sep);
      }
    } else {
      assert parts[..m] == parts;
    }
  }

  /**
   * With a positive limit `n`, the output holds exactly the first `n` lines
   * of the stripped output (all of them when there are fewer), and is a
   * prefix of the stripped output.
   */
  lemma LimitKeepsFirstLines(output: string, n: int)
    requires n > 0
    ensures var lines := Split(Strip(output), '\n');
      Split(LimitOutput(output, Some(n)), '\n') == lines[..if n < |lines| then n else |lines|]
    ensures |LimitOutput(output, Some(n))| <= |Strip(output)|
    ensures LimitOutput(output, Some(n)) == Strip(output)[..|LimitOutput(output, Some(n))|]
  {
    var lines := Split(Strip(output), '\n');
    var m := if n < |lines| then n else |lines|;
    var kept := PrefixSlice(lines, n);
    assert kept == lines[..m];
    SplitPiecesFree(Strip(output), '\n');
    SplitJoin(kept, '\n');
    JoinPrefix(lines, m, '\n');
    JoinSplit(Strip(output), '\n');
  }

  /**
   * With a negative limit `n`, the last `-n` lines of the stripped output are
   * dropped and the rest kept as a prefix of it; nothing is left when it has
   * no more lines than that.
   */
  lemma LimitDropsLastLines(output: string, n: int)
    requires n < 0
    ensures var lines := Split(Strip(output), '\n');
      if |lines| + n > 0 then
        Split(LimitOutput(output, Some(n)), '\n') == lines[..|lines| + n]
        && |LimitOutput(output, Some(n))| <= |Strip(output)|
        && LimitOutput(output, Some(n)) == Strip(output)[..|LimitOutput(output, Some(n))|]
      else LimitOutput(output, Some(n)) == ""
  {
    var lines := Split(Strip(output), '\n');
    if |lines| + n > 0 {
      var m := |lines| + n;
      assert LimitOutput(output, Some(n)) == Join(lines[..m], '\n');
      hide LimitOutput, Split, Join, Strip;
      SplitPiecesFree(Strip(output), '\n');
      SplitJoin(lines[..m], '\n');
      JoinPrefix(lines, m, '\n');
      JoinSplit(Strip(output), '\n');
    }
  }

  /** When the stripped output has no more lines than the limit, the limit only strips it. */
  lemma LimitAboveLineCount(output: string, n: int)
    requires n > 0 && |Split(Strip(output), '\n')| <= n
    ensures LimitOutput(output, Some(n)) == Strip(output)
  {
    JoinSplit(Strip(output), '\n');
  }

  // ---------------------------------------------------------------------
  // index: full or incremental
  // ---------------------------------------------------------------------

  /** What `index` does: a full reindex, nothing (the index is up to date), or an incremental update with the numbers of added, modified and deleted files. */
  datatype IndexMode =
    | FullReindex(forced: bool)
    | UpToDate
    | Incremental(added: nat, modified: nat, deleted: nat)

  /**
   * The decision of `index`: a full reindex when forced, when there is no
   * index or when the manifest is empty (or missing); otherwise the changes
   * between the manifest and the current hashes decide.
   */
  function IndexModeOf(force: bool, hasExisting: bool, manifest: map<string, string>, current: map<string, string>): (m: IndexMode)
    ensures m.FullReindex? ==> m.forced == force
  {
    if force || !hasExisting || manifest == map[] then FullReindex(force)
    else
      var added, modified, deleted := |Added(manifest, current)|, |Modified(manifest, current)|, |Deleted(manifest, current)|;
      if added + modified + deleted == 0 then UpToDate
      else Incremental(added, modified, deleted)
  }

  /**
   * `index` reindexes in full exactly when forced, without an index or
   * without a manifest; it reports "up to date" (and never runs the
   * incremental update) exactly when the manifest equals the current
   * hashes; and it runs the incremental update only when some file changed.
   */
  lemma IndexModeCases(force: bool, hasExisting: bool, manifest: map<string, string>, current: map<string, string>)
    ensures IndexModeOf(force, hasExisting, manifest, current).FullReindex?
      <==> force || !hasExisting || manifest == map[]
    ensures IndexModeOf(force, hasExisting, manifest, current).UpToDate?
      <==> !force && hasExisting && manifest != map[] && manifest == current
    ensures IndexModeOf(force, hasExisting, manifest, current).Incremental?
      <==> !force && hasExisting && manifest != map[] && manifest != current
  {
    NoChangesIffIdentical(manifest, current);
  }
}
