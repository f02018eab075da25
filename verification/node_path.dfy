/** The parts of Node's POSIX `path` module that the plugin relies on:
    `basename` (with and without a suffix), `extname` and `join`, written out
    as string functions over `/`-separated paths. */
module NodePath {
  import opened Wrappers

  const SEP: char := '/'

  /** The path with every trailing separator removed. */
  function TrimTrailingSeparators(path: string): (r: string)
    ensures r <= path
    ensures r == [] || r[|r| - 1] != SEP
    ensures forall i | |r| <= i < |path| :: path[i] == SEP
    decreases |path|
  {
    if |path| > 0 && path[|path| - 1] == SEP then TrimTrailingSeparators(path[..|path| - 1]) else path
  }

  /** The text after the last separator of `s`. */
  function LastSegment(s: string): (r: string)
    ensures SEP !in r
    ensures |r| <= |s| && r == s[|s| - |r|..]
    ensures |r| < |s| ==> s[|s| - |r| - 1] == SEP
    decreases |s|
  {
    if |s| == 0 || s[|s| - 1] == SEP then [] else LastSegment(s[..|s| - 1]) + [s[|s| - 1]]
  }

  /** `path.basename(p)`: the last segment once trailing separators are gone. */
  function Basename(path: string): (r: string)
    ensures SEP !in r
    ensures |r| <= |path|
  {
    LastSegment(TrimTrailingSeparators(path))
  }

  /** Index of the last occurrence of `c` in `s`, if any. */
  function LastIndexOf(s: string, c: char): (r: Option<nat>)
    ensures r.None? <==> c !in s
    ensures r.Some? ==> r.value < |s| && s[r.value] == c && c !in s[r.value + 1..]
    decreases |s|
  {
    if |s| == 0 then None
    else if s[|s| - 1] == c then Some(|s| - 1)
    else LastIndexOf(s[..|s| - 1], c)
  }

  /** `path.extname(p)`: the extension of the basename. */
  function Extname(path: string): (r: string)
    ensures r != [] ==> |r| < |Basename(path)| && r == Basename(path)[|Basename(path)| - |r|..]
    ensures r != [] ==> r[0] == '.' && '.' !in r[1..]
    ensures r == [] <==> var b := Basename(path); '.' !in b || (b[0] == '.' && '.' !in b[1..]) || b == ".."
  {
    ExtensionOf(Basename(path))
  }

  /** The extension of a file name: from its last '.' to its end, except
      that a name with no '.', one whose only '.' is its first character,
      and the name ".." have none. */
  function ExtensionOf(name: string): (r: string)
    ensures r != [] ==> |r| < |name| && r == name[|name| - |r|..]
    ensures r != [] ==> r[0] == '.' && '.' !in r[1..]
    ensures r == [] <==> '.' !in name || (name[0] == '.' && '.' !in name[1..]) || name == ".."
  {
    match LastIndexOf(name, '.')
    case None => ""
    case Some(dot) =>
      if dot == 0 || name == ".." then ""
      else
        assert name[1..][dot - 1] == '.';
        name[dot..]
  }

  /** `suffix` is a non-empty ending of `name` shorter than `name`. */
  predicate IsProperSuffix(suffix: string, name: string) {
    0 < |suffix| < |name| && name[|name| - |suffix|..] == suffix
  }

  /** `path.basename(p, suffix)`: the basename with `suffix` removed when it is
      a proper suffix of it; Node returns "" when a non-empty suffix is the
      whole path. */
  function BasenameWithoutSuffix(path: string, suffix: string): (r: string)
    ensures r <= Basename(path)
    ensures suffix != path && IsProperSuffix(suffix, Basename(path)) ==> r + suffix == Basename(path)
    ensures suffix != path && !IsProperSuffix(suffix, Basename(path)) ==> r == Basename(path)
    ensures suffix == [] ==> r == Basename(path)
    ensures suffix != [] && suffix == path ==> r == []
  {
    if suffix != [] && suffix == path then "" else StripSuffix(Basename(path), suffix)
  }

  /** `name` without `suffix` when that is a proper suffix of it. */
  function StripSuffix(name: string, suffix: string): (r: string)
    ensures r <= name
    ensures IsProperSuffix(suffix, name) ==> r + suffix == name
    ensures !IsProperSuffix(suffix, name) ==> r == name
  {
    if IsProperSuffix(suffix, name) then name[..|name| - |suffix|] else name
  }

  /** Index of the first occurrence of `c` in `s`, if any. */
  function IndexOf(s: string, c: char): (r: Option<nat>)
    ensures r.None? <==> c !in s
    ensures r.Some? ==> r.value < |s| && s[r.value] == c && c !in s[..r.value]
    decreases |s|
  {
    if |s| == 0 then None
    else if s[0] == c then Some(0)
    else match IndexOf(s[1..], c)
      case None => None
      case Some(i) => Some(i + 1)
  }

  /** The `/`-separated fields of `s`, empty ones included. */
  function Split(s: string): (r: seq<string>)
    ensures |r| >= 1
    ensures forall i | 0 <= i < |r| :: SEP !in r[i]
    decreases |s|
  {
    match IndexOf(s, SEP)
    case None => [s]
    case Some(i) => [s[..i]] + Split(s[i + 1..])
  }

  /** One step of Node's `normalizeString`: skip empty and "." segments, let
      ".." drop the previous real segment, or keep it when the path may go
      above its root. */
  function NormalizeStep(acc: seq<string>, segment: string, allowAboveRoot: bool): (r: seq<string>)
    ensures forall x | x in r :: x in acc || x == segment || x == ".."
  {
    if segment == "" || segment == "." then acc
    else if segment == ".." then
      if |acc| > 0 && acc[|acc| - 1] != ".." then acc[..|acc| - 1]
      else if allowAboveRoot then acc + [".."]
      else acc
    else acc + [segment]
  }

  function NormalizeSegments(segments: seq<string>, allowAboveRoot: bool): (r: seq<string>)
    ensures forall i | 0 <= i < |r| :: r[i] != "" && r[i] != "."
    ensures forall x | x in r :: x in segments || x == ".."
    decreases |segments|
  {
    if segments == [] then []
    else NormalizeStep(NormalizeSegments(segments[..|segments| - 1], allowAboveRoot), segments[|segments| - 1], allowAboveRoot)
  }

  /** The segments joined with single separators. */
  function JoinWithSeparator(segments: seq<string>): string
    decreases |segments|
  {
    if |segments| == 0 then ""
    else if |segments| == 1 then segments[0]
    else segments[0] + [SEP] + JoinWithSeparator(segments[1..])
  }

  /** `path.normalize(p)`. */
  function Normalize(path: string): (r: string)
    ensures r != []
  {
    if path == [] then "."
    else
      var isAbsolute := path[0] == SEP;
      Assemble(isAbsolute, path[|path| - 1] == SEP, NormalizeSegments(Split(path), !isAbsolute))
  }

  /** The normalized path from its resolved segments: the root and the
      trailing separator are put back, and an empty relative path is ".". */
  function Assemble(isAbsolute: bool, trailingSeparator: bool, segments: seq<string>): (r: string)
    ensures r != []
  {
    var body := JoinWithSeparator(segments);
    if body == [] then (if isAbsolute then "/" else if trailingSeparator then "./" else ".")
    else (if isAbsolute then "/" else "") + body + (if trailingSeparator then "/" else "")
  }

  function NonEmpty(parts: seq<string>): (r: seq<string>)
    ensures forall i | 0 <= i < |r| :: r[i] != []
    decreases |parts|
  {
    if parts == [] then []
    else if parts[0] == [] then NonEmpty(parts[1..])
    else [parts[0]] + NonEmpty(parts[1..])
  }

  /** `path.join(...parts)`: the non-empty parts joined and normalized, or "."
      when there are none. */
  function Join(parts: seq<string>): (r: string)
    ensures r != []
  {
    var present := NonEmpty(parts);
    if present == [] then "." else Normalize(JoinWithSeparator(present))
  }

  // ---------------------------------------------------------------------
  // Lemmas

  /** The basename of `dir/name` is `name`, whatever the directory. */
  lemma {:induction false} BasenameOfChild(dir: string, name: string)
    requires name != [] && SEP !in name
    ensures Basename(dir + [SEP] + name) == name
  {
    var p := dir + [SEP] + name;
    assert p[|p| - 1] == name[|name| - 1];
    assert TrimTrailingSeparators(p) == p;
    LastSegmentAfterSeparator(dir, name);
  }

  lemma {:induction false} LastSegmentAfterSeparator(dir: string, name: string)
    requires SEP !in name
    ensures LastSegment(dir + [SEP] + name) == name
    decreases |name|
  {
    var p := dir + [SEP] + name;
    if name == [] {
      assert p[|p| - 1] == SEP;
    } else {
      var init := name[..|name| - 1];
      assert p[..|p| - 1] == dir + [SEP] + init;
      assert p[|p| - 1] == name[|name| - 1];
      LastSegmentAfterSeparator(dir, init);
      assert init + [name[|name| - 1]] == name;
    }
  }

  /** Splitting at a separator splits the two sides independently. */
  lemma {:induction false} SplitAtSeparator(a: string, b: string)
    ensures Split(a + [SEP] + b) == Split(a) + Split(b)
    decreases |a|
  {
    match IndexOf(a, SEP)
    case None =>
      SplitFirstField(a, b);
      SplitWithoutSeparator(a);
    case Some(i) =>
      var tail := a[i + 1..];
      calc {
        Split(a + [SEP] + b);
        { assert a + [SEP] + b == a + ([SEP] + b); }
        Split(a + ([SEP] + b));
        { SplitPastFirstSeparator(a, [SEP] + b, i); }
        [a[..i]] + Split(tail + ([SEP] + b));
        { assert tail + ([SEP] + b) == tail + [SEP] + b; }
        [a[..i]] + Split(tail + [SEP] + b);
        { SplitAtSeparator(tail, b); }
        [a[..i]] + (Split(tail) + Split(b));
        { SplitPastFirstSeparator(a, [], i); assert a + [] == a && tail + [] == tail; }
        Split(a) + Split(b);
      }
  }

  /** A separator-free `a` is the first field of `a/b`. */
  lemma SplitFirstField(a: string, b: string)
    requires SEP !in a
    ensures Split(a + [SEP] + b) == [a] + Split(b)
  {
    var p := a + [SEP] + b;
    IndexOfBeyond(a, SEP, b);
    assert p[..|a|] == a && p[|a| + 1..] == b;
  }

  /** Text appended after the first separator of `a` stays in the later fields. */
  lemma SplitPastFirstSeparator(a: string, rest: string, i: nat)
    requires IndexOf(a, SEP) == Some(i)
    ensures Split(a + rest) == [a[..i]] + Split(a[i + 1..] + rest)
  {
    var p := a + rest;
    IndexOfWithin(a, SEP, rest);
    assert p[..i] == a[..i];
    assert p[i + 1..] == a[i + 1..] + rest;
  }

  /** The first `c` of `a + [c] + b` is the one after `a` when `a` has none. */
  lemma IndexOfBeyond(a: string, c: char, b: string)
    requires c !in a
    ensures IndexOf(a + [c] + b, c) == Some(|a|)
  {
    var p := a + [c] + b;
    assert p[|a|] == c;
    assert p[..|a|] == a;
  }

  /** Appending text after a string does not move its first `c`. */
  lemma IndexOfWithin(a: string, c: char, rest: string)
    requires c in a
    ensures IndexOf(a + rest, c) == IndexOf(a, c)
  {
    var i := IndexOf(a, c).value;
    var p := a + rest;
    assert p[i] == c && p[..i] == a[..i];
  }

  /** A path without separators is a single field. */
  lemma SplitWithoutSeparator(s: string)
    requires SEP !in s
    ensures Split(s) == [s]
  {
  }

  /** A leading "." segment is dropped by normalization. */
  lemma {:induction false} NormalizeDropsLeadingDot(segments: seq<string>, allowAboveRoot: bool)
    ensures NormalizeSegments(["."] + segments, allowAboveRoot) == NormalizeSegments(segments, allowAboveRoot)
    decreases |segments|
  {
    if segments != [] {
      var init := segments[..|segments| - 1];
      var withDot := ["."] + segments;
      assert withDot[..|withDot| - 1] == ["."] + init;
      assert withDot[|withDot| - 1] == segments[|segments| - 1];
      NormalizeDropsLeadingDot(init, allowAboveRoot);
    } else {
      assert NormalizeSegments(["."], allowAboveRoot) == NormalizeStep([], ".", allowAboveRoot);
    }
  }

  /** Normalizing "./x" gives the same path as normalizing x, for a relative x. */
  lemma NormalizeCurrentDirectoryPrefix(x: string)
    requires x != [] && x[0] != SEP
    ensures Normalize(['.', SEP] + x) == Normalize(x)
  {
    var p := ['.', SEP] + x;
    assert p == ['.'] + [SEP] + x;
    assert p[0] != SEP && p[|p| - 1] == x[|x| - 1];
    assert Split(p) == ["."] + Split(x) by {
      SplitAtSeparator(['.'], x);
      SplitWithoutSeparator(['.']);
    }
    NormalizeDropsLeadingDot(Split(x), true);
  }

  /** Normalizing keeps a relative path relative. */
  lemma NormalizeKeepsRelative(p: string)
    requires p != [] && p[0] != SEP
    ensures Normalize(p)[0] != SEP
  {
    var segments := NormalizeSegments(Split(p), true);
    if segments != [] {
      var first := segments[0];
      assert first in segments;
      assert SEP !in first by {
        if first != ".." {
          var i :| 0 <= i < |Split(p)| && Split(p)[i] == first;
        }
      }
      assert first[0] in first;
      JoinWithSeparatorStartsWithFirst(segments);
    }
  }

  /** With an absolute `h`, `join('', h, b)` is absolute while
      `join('.', h, b)` is relative. */
  lemma JoinAbsoluteAfterDotOrEmpty(h: string, b: string)
    requires h != [] && h[0] == SEP
    ensures Join(["", h, b])[0] == SEP
    ensures Join([".", h, b])[0] != SEP
  {
    var rest := NonEmpty([h, b]);
    assert [".", h, b][1..] == [h, b];
    assert ["", h, b][1..] == [h, b];
    assert [h, b][1..] == [b];
    assert rest == [h] + NonEmpty([b]);
    assert NonEmpty([".", h, b]) == ["."] + rest;
    assert NonEmpty(["", h, b]) == rest;
    JoinWithSeparatorStartsWithFirst(rest);
    JoinWithSeparatorStartsWithFirst(["."] + rest);
    NormalizeKeepsRelative(JoinWithSeparator(["."] + rest));
  }

  lemma {:induction false} JoinWithSeparatorStartsWithFirst(segments: seq<string>)
    requires |segments| > 0 && segments[0] != []
    ensures JoinWithSeparator(segments) != [] && JoinWithSeparator(segments)[0] == segments[0][0]
  {
  }

  /** `join('.', h, b)` and `join('', h, b)` agree when `h` is relative and
      `b` is a plain file name. */
  lemma JoinCurrentDirectoryOrEmpty(h: string, b: string)
    requires h == [] || h[0] != SEP
    requires SEP !in b
    ensures Join([".", h, b]) == Join(["", h, b])
  {
    var rest := NonEmpty([h, b]);
    assert [".", h, b][1..] == [h, b];
    assert ["", h, b][1..] == [h, b];
    assert NonEmpty([".", h, b]) == ["."] + rest;
    assert NonEmpty(["", h, b]) == rest;
    if rest == [] {
      SplitWithoutSeparator(".");
      assert NormalizeSegments(["."], true) == NormalizeStep([], ".", true);
    } else {
      assert rest[0] == h || rest[0] == b by {
        assert [h, b][1..] == [b];
        assert [b][1..] == [];
        if h == [] {
          assert rest == NonEmpty([b]);
          assert b != [];
          assert NonEmpty([b]) == [b] + NonEmpty([]);
        }
      }
      assert rest[0] != [] && rest[0][0] != SEP by {
        if rest[0] == b { assert b[0] in b; }
      }
      var x := JoinWithSeparator(rest);
      JoinWithSeparatorStartsWithFirst(rest);
      assert (["."] + rest)[1..] == rest;
      assert JoinWithSeparator(["."] + rest) == ['.', SEP] + x;
      NormalizeCurrentDirectoryPrefix(x);
    }
  }

  /** The last '.' of `stem + ext` is the first character of `ext` when `ext`
      holds no other. */
  lemma LastDotStartsExtension(stem: string, ext: string)
    requires |ext| > 0 && ext[0] == '.' && '.' !in ext[1..]
    ensures LastIndexOf(stem + ext, '.') == Some(|stem|)
  {
    var name := stem + ext;
    var dot := LastIndexOf(name, '.');
    assert name[|stem|] == '.';
    assert name[|stem| + 1..] == ext[1..];
  }

  /** The extension of a path whose basename is `stem + ext`, for a
      non-empty stem and an extension holding the name's only last dot. */
  lemma ExtnameOfName(path: string, stem: string, ext: string)
    requires Basename(path) == stem + ext
    requires stem != [] && |ext| > 0 && ext[0] == '.' && '.' !in ext[1..]
    requires stem + ext != ".."
    ensures Extname(path) == ext
  {
    LastDotStartsExtension(stem, ext);
    assert (stem + ext)[|stem|..] == ext;
  }

  /** `basename(p, extname(p))` followed by the extension is the basename. */
  lemma WithoutExtensionThenExtension(path: string)
    ensures BasenameWithoutSuffix(path, Extname(path)) + Extname(path) == Basename(path)
  {
    var ext := Extname(path);
    var name := Basename(path);
    if ext == [] {
      assert BasenameWithoutSuffix(path, ext) == name;
    } else {
      assert |ext| < |name| <= |path|;
      assert IsProperSuffix(ext, name);
    }
  }

  /** A prefix of a name without separators has none. */
  lemma NoSeparatorInPrefix(r: string, name: string)
    requires r <= name && SEP !in name
    ensures SEP !in r
  {
    forall i | 0 <= i < |r| ensures r[i] != SEP {
      assert r[i] == name[i];
    }
  }

  /** A name made of two parts without separators has none. */
  lemma NoSeparatorInConcat(a: string, b: string)
    requires SEP !in a && SEP !in b
    ensures SEP !in a + b
  {
    forall i | 0 <= i < |a + b| ensures (a + b)[i] != SEP {
      if i < |a| { assert (a + b)[i] == a[i]; } else { assert (a + b)[i] == b[i - |a|]; }
    }
  }
}
