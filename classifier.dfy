/**
 * The file classifier of `chunker.py`: which paths are eligible for indexing
 * (extension allow-list, lock-file deny-list, skipped directories), the
 * size/binary/minified checks on a file's bytes, and the per-reason report of
 * skipped files.
 */
module Classifier {
  import opened Wrappers
  import opened Text
  import opened Paths

  /** File extensions that are indexed. */
  const CodeExtensions: set<string> := {
    ".py", ".js", ".ts", ".tsx", ".jsx",
    ".go", ".rs", ".java", ".kt",
    ".c", ".cpp", ".h", ".hpp",
    ".rb", ".php", ".swift",
    ".md", ".txt", ".yaml", ".yml", ".json"
  }

  /** Directory names that are never descended into. */
  const SkipDirs: set<string> := {
    "node_modules", ".git", "__pycache__", ".venv", "venv", "myenv", "env",
    "dist", "build", ".next", ".nuxt", "target",
    ".idea", ".vscode", "vendor", ".cache",
    "data", "research_data", "research_data2"
  }

  /** Lock files that are never indexed although their extension is. */
  const SkipFiles: set<string> := {
    "package-lock.json", "yarn.lock", "pnpm-lock.yaml",
    "poetry.lock", "Pipfile.lock", "composer.lock"
  }

  /** Files larger than this many bytes are skipped as "large" (512 KiB). */
  const MaxFileSize: nat := 512 * 1024

  /** A line longer than this among the first lines marks a file as minified. */
  const MaxLineLength: nat := 2000

  /** Number of leading bytes read for the binary and minified checks. */
  const SampleSize: nat := 8192

  /** Number of leading lines of the sample looked at by the minified check. */
  const LinesChecked: nat := 10

  newtype byte = x: int | 0 <= x < 256

  /** The six reasons (the six lists of `SkippedFiles`) a file can be skipped for. */
  datatype SkipReason = Large | Binary | Minified | Empty | Encoding | Error

  /** The outcome of `is_valid_file`: `(True, None)` or `(False, reason)`. */
  datatype Validity = Accepted | Rejected(reason: SkipReason)

  /** What the file system reports for one file. */
  datatype FileSnapshot = FileSnapshot(
    size: Option<nat>,          // `stat().st_size`, None when `stat` raises
    bytes: Option<seq<byte>>,   // the content read in binary mode, None when `open`/`read` raises
    text: Option<string>)       // `read_text(encoding="utf-8", errors="ignore")`, None when it raises

  /**
   * One file of a listing: its path as the listing yields it (the project root
   * joined with the relative path), its path relative to the project root
   * (`relative_to`), and what the file system holds for it.
   */
  datatype SourceFile = SourceFile(path: string, rel: string, snapshot: FileSnapshot)

  // ---------------------------------------------------------------------
  // Path rules
  // ---------------------------------------------------------------------

  /** `should_index_file`: not a lock file, and the lower-cased suffix is a code extension. */
  predicate ShouldIndexFile(path: string)
  {
    Name(path) !in SkipFiles && Lower(Suffix(path)) in CodeExtensions
  }

  /** `should_skip_dir`: a skipped directory name, or any dot-directory. */
  predicate ShouldSkipDir(dirName: string)
  {
    dirName in SkipDirs || (|dirName| > 0 && dirName[0] == '.')
  }

  /** Lock files are never indexed, whatever their extension. */
  lemma LockFilesNeverIndexed(path: string)
    requires Name(path) in SkipFiles
    ensures !ShouldIndexFile(path)
  {
  }

  /** A file without a suffix (a dot-file such as `.env`, or `Makefile`) is never indexed. */
  lemma NoSuffixNeverIndexed(path: string)
    requires Suffix(path) == ""
    ensures !ShouldIndexFile(path)
  {
    assert Lower("") == "";
  }

  // ---------------------------------------------------------------------
  // Decoding the sample
  // ---------------------------------------------------------------------

  predicate IsContinuation(b: byte)
  {
    0x80 <= b <= 0xBF
  }

  /** Length of the well-formed UTF-8 sequence at the head of `bs`, or 0 when it is ill-formed or cut short. */
  function Utf8SequenceLength(bs: seq<byte>): (n: nat)
    requires |bs| > 0
    ensures n <= 4 && n <= |bs|
  {
    var b0 := bs[0];
    if b0 <= 0x7F then 1
    else if 0xC2 <= b0 <= 0xDF then
      if |bs| >= 2 && IsContinuation(bs[1]) then 2 else 0
    else if 0xE0 <= b0 <= 0xEF then
      var lo: byte := if b0 == 0xE0 then 0xA0 else 0x80;
      var hi: byte := if b0 == 0xED then 0x9F else 0xBF;
      if |bs| >= 3 && lo <= bs[1] <= hi && IsContinuation(bs[2]) then 3 else 0
    else if 0xF0 <= b0 <= 0xF4 then
      var lo: byte := if b0 == 0xF0 then 0x90 else 0x80;
      var hi: byte := if b0 == 0xF4 then 0x8F else 0xBF;
      if |bs| >= 4 && lo <= bs[1] <= hi && IsContinuation(bs[2]) && IsContinuation(bs[3]) then 4 else 0
    else 0
  }

  /** The character encoded by the well-formed sequence at the head of `bs`. */
  function Utf8CodePoint(bs: seq<byte>): char
    requires |bs| > 0 && Utf8SequenceLength(bs) > 0
  {
    var n := Utf8SequenceLength(bs);
    if n == 1 then bs[0] as int as char
    else if n == 2 then ((bs[0] as int - 0xC0) * 0x40 + (bs[1] as int - 0x80)) as char
    else if n == 3 then
      ((bs[0] as int - 0xE0) * 0x1000 + (bs[1] as int - 0x80) * 0x40 + (bs[2] as int - 0x80)) as char
    else
      ((bs[0] as int - 0xF0) * 0x40000 + (bs[1] as int - 0x80) * 0x1000
        + (bs[2] as int - 0x80) * 0x40 + (bs[3] as int - 0x80)) as char
  }

  /** `bs.decode('utf-8')`, None where it raises UnicodeDecodeError. */
  function DecodeUtf8(bs: seq<byte>): (r: Option<string>)
    ensures r.Some? ==> |r.value| <= |bs|
    decreases |bs|
  {
    if |bs| == 0 then Some("")
    else
      var n := Utf8SequenceLength(bs);
      if n == 0 then None
      else
        match DecodeUtf8(bs[n..])
        case None => None
        case Some(rest) => Some([Utf8CodePoint(bs)] + rest)
  }

  /** `bs.decode('latin-1')`: one character per byte; it never fails. */
  function DecodeLatin1(bs: seq<byte>): (s: string)
    ensures |s| == |bs|
    ensures forall k :: 0 <= k < |bs| ==> s[k] == bs[k] as int as char
  {
    if |bs| == 0 then [] else DecodeLatin1(bs[..|bs| - 1]) + [bs[|bs| - 1] as int as char]
  }

  /** The decoded sample of `is_valid_file`: UTF-8, falling back to Latin-1. */
  function DecodeSample(sample: seq<byte>): (s: string)
    ensures |s| <= |sample|
  {
    match DecodeUtf8(sample)
    case Some(s) => s
    case None => DecodeLatin1(sample)
  }

  // ---------------------------------------------------------------------
  // is_valid_file
  // ---------------------------------------------------------------------

  /** The first `SampleSize` bytes, as `f.read(8192)` returns them. */
  function Sample(bytes: seq<byte>): (s: seq<byte>)
    ensures |s| <= SampleSize
    ensures |bytes| <= SampleSize ==> s == bytes
    ensures |bytes| > SampleSize ==> |s| == SampleSize
    ensures s == bytes[..|s|]
  {
    if |bytes| <= SampleSize then bytes else bytes[..SampleSize]
  }

  /** `b'\x00' in sample`, scanned from the end. */
  predicate HasNul(bs: seq<byte>)
  {
    |bs| > 0 && (bs[|bs| - 1] == 0 || HasNul(bs[..|bs| - 1]))
  }

  lemma {:induction false} HasNulIffZeroIn(bs: seq<byte>)
    ensures HasNul(bs) <==> 0 in bs
  {
    if |bs| > 0 {
      HasNulIffZeroIn(bs[..|bs| - 1]);
      assert bs == bs[..|bs| - 1] + [bs[|bs| - 1]];
    }
  }

  /** Some line of `lines` is longer than `MaxLineLength`. */
  predicate HasLongLine(lines: seq<string>)
  {
    |lines| > 0 && (|lines[|lines| - 1]| > MaxLineLength || HasLongLine(lines[..|lines| - 1]))
  }

  lemma {:induction false} HasLongLineIff(lines: seq<string>)
    ensures HasLongLine(lines) <==> exists k :: 0 <= k < |lines| && |lines[k]| > MaxLineLength
  {
    if |lines| > 0 {
      var init := lines[..|lines| - 1];
      HasLongLineIff(init);
      if HasLongLine(init) {
        var k :| 0 <= k < |init| && |init[k]| > MaxLineLength;
        assert lines[k] == init[k];
      }
      if k :| 0 <= k < |lines| && |lines[k]| > MaxLineLength {
        if k < |init| {
          assert init[k] == lines[k];
        }
      }
    }
  }

  /** True when one of the first `LinesChecked` lines of the decoded sample is longer than `MaxLineLength`. */
  predicate LooksMinified(sample: seq<byte>)
  {
    HasLongLine(PrefixSlice(Split(DecodeSample(sample), '\n'), LinesChecked))
  }

  /** `is_valid_file`: the checks in their order, the first failing one naming the reason. */
  function IsValidFile(f: FileSnapshot): (v: Validity)
    ensures v != Rejected(Encoding)
  {
    if f.size.None? then Rejected(Error)
    else if f.size.value == 0 then Rejected(Empty)
    else if f.size.value > MaxFileSize then Rejected(Large)
    else if f.bytes.None? then Rejected(Error)
    else
      var sample := Sample(f.bytes.value);
      if HasNul(sample) then Rejected(Binary)
      else if LooksMinified(sample) then Rejected(Minified)
      else Accepted
  }

  /** A file is accepted exactly when it is readable, non-empty, at most 512 KiB, and its sample is neither binary nor minified. */
  lemma IsValidFileAccepted(f: FileSnapshot)
    ensures IsValidFile(f) == Accepted <==>
      && f.size.Some? && 0 < f.size.value <= MaxFileSize
      && f.bytes.Some? && 0 !in Sample(f.bytes.value) && !LooksMinified(Sample(f.bytes.value))
  {
    hide Sample, LooksMinified;
    if f.bytes.Some? {
      HasNulIffZeroIn(Sample(f.bytes.value));
    }
  }

  /** A sample short enough to hold no line over the limit is never rejected as minified. */
  lemma ShortSampleNotMinified(sample: seq<byte>)
    requires |sample| <= MaxLineLength
    ensures !LooksMinified(sample)
  {
    var text := DecodeSample(sample);
    var lines := Split(text, '\n');
    var checked := PrefixSlice(lines, LinesChecked);
    forall k | 0 <= k < |checked|
      ensures |checked[k]| <= MaxLineLength
    {
      assert checked[k] == lines[k];
      JoinSplit(text, '\n');
      JoinedPieceLength(lines, '\n', k);
    }
    HasLongLineIff(checked);
  }

  lemma {:induction false} JoinedPieceLength(parts: seq<string>, sep: char, k: nat)
    requires k < |parts|
    ensures |parts[k]| <= |Join(parts, sep)|
  {
    if |parts| > 1 && k > 0 {
      JoinedPieceLength(parts[1..], sep, k - 1);
    }
  }

  /**
   * A file holding a NUL byte within its first 8192 bytes is rejected as
   * binary, unless it was already rejected as unreadable, empty or large.
   */
  lemma BinaryRejected(f: FileSnapshot)
    requires f.size.Some? && 0 < f.size.value <= MaxFileSize && f.bytes.Some?
    ensures IsValidFile(f) == Rejected(Binary) <==> 0 in Sample(f.bytes.value)
  {
    HasNulIffZeroIn(Sample(f.bytes.value));
  }

  // ---------------------------------------------------------------------
  // SkippedFiles
  // ---------------------------------------------------------------------

  /** The per-reason lists of skipped files' relative paths. */
  class SkippedFiles {
    var large: seq<string>
    var binary: seq<string>
    var minified: seq<string>
    var empty: seq<string>
    var encoding: seq<string>
    var error: seq<string>

    constructor ()
      ensures forall r :: Of(r) == []
    {
      large, binary, minified, empty, encoding, error := [], [], [], [], [], [];
    }

    /** The list that `getattr(skipped, reason)` names. */
    function Of(reason: SkipReason): seq<string>
      reads this
    {
      match reason
      case Large => large
      case Binary => binary
      case Minified => minified
      case Empty => empty
      case Encoding => encoding
      case Error => error
    }

    /** `total()`: the number of files skipped, whatever the reason. */
    function Total(): (n: nat)
      reads this
      ensures n == |Of(Large)| + |Of(Binary)| + |Of(Minified)| + |Of(Empty)| + |Of(Encoding)| + |Of(Error)|
    {
      |large| + |binary| + |minified| + |empty| + |encoding| + |error|
    }

    /** `getattr(skipped, reason).append(rel)`. */
    method Record(reason: SkipReason, rel: string)
      modifies this
      ensures Of(reason) == old(Of(reason)) + [rel]
      ensures forall r :: r != reason ==> Of(r) == old(Of(r))
      ensures Total() == old(Total()) + 1
    {
      match reason
      case Large => large := large + [rel];
      case Binary => binary := binary + [rel];
      case Minified => minified := minified + [rel];
      case Empty => empty := empty + [rel];
      case Encoding => encoding := encoding + [rel];
      case Error => error := error + [rel];
    }
  }
}
