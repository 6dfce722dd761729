/**
 * POSIX paths as `pathlib.PurePosixPath` sees them: a path is its list of
 * components (the pieces between `/`, with empty and `.` pieces dropped)
 * plus whether it is absolute.  `str(path)` renders that normal form again.
 */
module Paths {
  import opened Text
  import opened Wrappers

  /** True for the pieces `Path` keeps as components. */
  predicate IsComponent(piece: string)
  {
    piece != "" && piece != "." && '/' !in piece
  }

  /** The pieces that are components, in order. */
  function KeepComponents(pieces: seq<string>): (cs: seq<string>)
    ensures |cs| <= |pieces|
  {
    if |pieces| == 0 then []
    else if IsComponent(pieces[0]) then [pieces[0]] + KeepComponents(pieces[1..])
    else KeepComponents(pieces[1..])
  }

  /** What `KeepComponents` keeps are components, and it keeps every component piece. */
  lemma {:induction false} KeepComponentsFacts(pieces: seq<string>)
    ensures forall k :: 0 <= k < |KeepComponents(pieces)| ==> IsComponent(KeepComponents(pieces)[k])
    ensures forall k :: 0 <= k < |pieces| && IsComponent(pieces[k]) ==> pieces[k] in KeepComponents(pieces)
    ensures forall c :: c in KeepComponents(pieces) ==> c in pieces
  {
    if |pieces| > 0 {
      KeepComponentsFacts(pieces[1..]);
      var rest := KeepComponents(pieces[1..]);
      if IsComponent(pieces[0]) {
        var cs := [pieces[0]] + rest;
        assert KeepComponents(pieces) == cs;
        forall k | 0 < k < |cs|
          ensures IsComponent(cs[k])
        {
          assert cs[k] == rest[k - 1];
        }
      }
      forall k | 0 < k < |pieces| && IsComponent(pieces[k])
        ensures pieces[k] in KeepComponents(pieces)
      {
        assert pieces[k] == pieces[1..][k - 1];
      }
    }
  }

  lemma {:induction false} KeepComponentsAppend(a: seq<string>, b: seq<string>)
    ensures KeepComponents(a + b) == KeepComponents(a) + KeepComponents(b)
  {
    if |a| > 0 {
      KeepComponentsAppend(a[1..], b);
      assert (a + b)[1..] == a[1..] + b;
    } else {
      assert a + b == b;
    }
  }

  lemma {:induction false} KeepComponentsOfComponents(cs: seq<string>)
    requires forall k :: 0 <= k < |cs| ==> IsComponent(cs[k])
    ensures KeepComponents(cs) == cs
  {
    if |cs| > 0 {
      KeepComponentsOfComponents(cs[1..]);
      assert cs == [cs[0]] + cs[1..];
    }
  }

  /** `Path(path).parts`, without the root part `/` of an absolute path. */
  function Components(path: string): seq<string>
  {
    KeepComponents(Split(path, '/'))
  }

  /** Every part of a path is a component: non-empty, not `.`, and free of `/`. */
  lemma ComponentsAreComponents(path: string)
    ensures forall k :: 0 <= k < |Components(path)| ==> IsComponent(Components(path)[k])
  {
    KeepComponentsFacts(Split(path, '/'));
  }

  predicate IsAbsolute(path: string)
  {
    |path| > 0 && path[0] == '/'
  }

  /** `str(p)` for a path with the given anchor and components. */
  function Render(absolute: bool, cs: seq<string>): string
  {
    if absolute then "/" + Join(cs, '/')
    else if cs == [] then "."
    else Join(cs, '/')
  }

  /** A relative path already in the form `str(Path(...))` gives it. */
  predicate IsNormalRelative(rel: string)
  {
    !IsAbsolute(rel) && Components(rel) != [] && Render(false, Components(rel)) == rel
  }

  /** `Path(path).name`: the last component, or "" when there is none. */
  function Name(path: string): string
  {
    var cs := Components(path);
    if cs == [] then "" else cs[|cs| - 1]
  }

  /** The name of a path is one of its components, or "" when it has none. */
  lemma NameIsComponent(path: string)
    ensures Name(path) == "" || IsComponent(Name(path))
  {
    ComponentsAreComponents(path);
  }

  /** `Path(path).suffix`: from the last `.` of the name, when that dot is neither its first nor its last character. */
  function Suffix(path: string): (suffix: string)
    ensures suffix == "" || (suffix[0] == '.' && 2 <= |suffix| < |Name(path)| && suffix == Name(path)[|Name(path)| - |suffix|..])
  {
    var name := Name(path);
    match LastIndexOf(name, '.')
    case Some(i) => if 0 < i < |name| - 1 then name[i..] else ""
    case None => ""
  }

  /** `base / rel`, rendered with `str`. */
  function JoinPath(base: string, rel: string): string
  {
    if IsAbsolute(rel) then Render(true, Components(rel))
    else Render(IsAbsolute(base), Components(base) + Components(rel))
  }

  /** `str(Path(path).relative_to(base))`, or None where `relative_to` raises ValueError. */
  function RelativeTo(path: string, base: string): (r: Option<string>)
    ensures r.Some? ==> |Components(base)| <= |Components(path)|
  {
    var pc := Components(path);
    var bc := Components(base);
    if IsAbsolute(path) == IsAbsolute(base) && |bc| <= |pc| && pc[..|bc|] == bc then
      Some(Render(false, pc[|bc|..]))
    else None
  }

  lemma {:induction false} SplitAround(a: string, sep: char, b: string)
    ensures Split(a + [sep] + b, sep) == Split(a, sep) + Split(b, sep)
  {
    var s := a + [sep] + b;
    var sb := Split(b, sep);
    if |a| == 0 {
      assert s[1..] == b;
    } else {
      assert s[0] == a[0];
      assert s[1..] == a[1..] + [sep] + b;
      SplitAround(a[1..], sep, b);
      var ra := Split(a[1..], sep);
      var rest := Split(s[1..], sep);
      assert rest == ra + sb;
      if a[0] == sep {
        assert Split(s, sep) == [""] + rest;
        assert Split(a, sep) == [""] + ra;
        AppendAssocText([""], ra, sb);
      } else {
        assert Split(s, sep) == [[a[0]] + rest[0]] + rest[1..];
        assert Split(a, sep) == [[a[0]] + ra[0]] + ra[1..];
        assert rest[0] == ra[0];
        assert rest[1..] == ra[1..] + sb;
        AppendAssocText([[a[0]] + ra[0]], ra[1..], sb);
      }
    }
  }

  lemma AppendAssocText(x: seq<string>, y: seq<string>, z: seq<string>)
    ensures x + y + z == x + (y + z)
  {
  }

  /** Reading the components of a rendered path gives back the components. */
  lemma ComponentsOfRender(absolute: bool, cs: seq<string>)
    requires forall k :: 0 <= k < |cs| ==> IsComponent(cs[k])
    ensures Components(Render(absolute, cs)) == cs
    ensures IsAbsolute(Render(absolute, cs)) == absolute
  {
    if cs == [] {
      assert Split("/", '/') == [""] + Split("", '/');
      assert Split("", '/') == [""];
      var dot := ".";
      assert dot[1..] == "" && dot[0] == '.';
      assert Split(dot, '/') == [[dot[0]] + Split("", '/')[0]] + Split("", '/')[1..];
      assert [dot[0]] + Split("", '/')[0] == dot;
    } else {
      SplitJoin(cs, '/');
      KeepComponentsOfComponents(cs);
      if absolute {
        var j := Join(cs, '/');
        assert "/" + j == "" + ['/'] + j;
        SplitAround("", '/', j);
        KeepComponentsAppend([""], Split(j, '/'));
      } else {
        assert Join(cs, '/') == cs[0] || Join(cs, '/') == cs[0] + ['/'] + Join(cs[1..], '/');
      }
    }
  }

  /**
   * The path a chunk records for a file (`project / rel`) is made relative to
   * the project again by `relative_to`: the round trip gives back `rel`.
   */
  lemma RelativeToJoinPath(base: string, rel: string)
    requires IsNormalRelative(rel)
    ensures RelativeTo(JoinPath(base, rel), base) == Some(rel)
  {
    var bc := Components(base);
    var rc := Components(rel);
    var full := bc + rc;
    ComponentsAreComponents(base);
    ComponentsAreComponents(rel);
    ComponentsOfRender(IsAbsolute(base), full);
    assert full[..|bc|] == bc;
    assert full[|bc|..] == rc;
  }

  /** The components of `base / rel`, for a relative `rel`, are those of `base` followed by those of `rel`. */
  lemma ComponentsOfJoinPath(base: string, rel: string)
    requires !IsAbsolute(rel)
    ensures Components(JoinPath(base, rel)) == Components(base) + Components(rel)
    ensures IsAbsolute(JoinPath(base, rel)) == IsAbsolute(base)
  {
    ComponentsAreComponents(base);
    ComponentsAreComponents(rel);
    ComponentsOfRender(IsAbsolute(base), Components(base) + Components(rel));
  }

  /** The name of `base / rel` is the name of `rel`. */
  lemma NameOfJoinPath(base: string, rel: string)
    requires IsNormalRelative(rel)
    ensures Name(JoinPath(base, rel)) == Name(rel)
    ensures Suffix(JoinPath(base, rel)) == Suffix(rel)
  {
    var bc := Components(base);
    var rc := Components(rel);
    ComponentsAreComponents(base);
    ComponentsAreComponents(rel);
    ComponentsOfRender(IsAbsolute(base), bc + rc);
    assert Components(JoinPath(base, rel)) == bc + rc;
    assert (bc + rc)[|bc + rc| - 1] == rc[|rc| - 1];
  }
}
