/**
 * The part of `pathlib.PurePosixPath` the download path relies on: parsing a
 * string into a root flag and components, the `/` operator, `.name` and
 * `str()`.  pathlib splits on '/', drops empty and "." components and keeps
 * ".." as an ordinary component; it never sanitises.
 */
module Paths {

  /** A parsed path: whether it starts at the root, and its components. */
  datatype Path = Path(absolute: bool, parts: seq<string>)

  /** What pathlib keeps as a component after parsing. */
  predicate IsComponent(s: string) {
    s != "" && s != "." && '/' !in s
  }

  /** Every component of `p` is one pathlib would keep. */
  predicate Canonical(p: Path) {
    forall i :: 0 <= i < |p.parts| ==> IsComponent(p.parts[i])
  }

  /** `s.split("/")`. */
  function Split(s: string): (segments: seq<string>)
    ensures |segments| >= 1
    ensures forall i :: 0 <= i < |segments| ==> '/' !in segments[i]
    decreases |s|
  {
    if s == [] then [""]
    else
      var init := Split(s[..|s| - 1]);
      var c := s[|s| - 1];
      if c == '/' then init + [""]
      else
        assert '/' !in init[|init| - 1];
        init[..|init| - 1] + [init[|init| - 1] + [c]]
  }

  /** `"/".join(segments)`, the inverse of `Split`. */
  function Unsplit(segments: seq<string>): string
    requires |segments| >= 1
    decreases |segments|
  {
    if |segments| == 1 then segments[0]
    else Unsplit(segments[..|segments| - 1]) + "/" + segments[|segments| - 1]
  }

  /** The segments pathlib keeps: empty and "." segments are dropped. */
  function Components(segments: seq<string>): (parts: seq<string>)
    requires forall i :: 0 <= i < |segments| ==> '/' !in segments[i]
    ensures |parts| <= |segments|
    ensures forall i :: 0 <= i < |parts| ==> IsComponent(parts[i])
    decreases |segments|
  {
    if segments == [] then []
    else
      var rest := Components(segments[1..]);
      if segments[0] == "" || segments[0] == "." then rest else [segments[0]] + rest
  }

  /** `PurePosixPath(s)`. */
  function ParsePath(s: string): (p: Path)
    ensures Canonical(p)
    ensures p.absolute <==> |s| > 0 && s[0] == '/'
  {
    Path(|s| > 0 && s[0] == '/', Components(Split(s)))
  }

  /** `path.name`: the last component, or "" for a root or empty path. */
  function Name(p: Path): (name: string)
    ensures Canonical(p) && name != "" ==> IsComponent(name)
    ensures Canonical(p) ==> (name != "" <==> p.parts != [])
  {
    if p.parts == [] then "" else p.parts[|p.parts| - 1]
  }

  /**
   * `base / s`: an absolute right-hand side replaces the base; otherwise the
   * base's components are kept and those of `s` follow them.
   */
  function Join(base: Path, s: string): (r: Path)
    ensures r.absolute <==> base.absolute || (|s| > 0 && s[0] == '/')
    ensures !(|s| > 0 && s[0] == '/') ==> r == Path(base.absolute, base.parts + ParsePath(s).parts)
    ensures Canonical(base) ==> Canonical(r)
  {
    var q := ParsePath(s);
    if q.absolute then q else Path(base.absolute, base.parts + q.parts)
  }

  /**
   * `str(p)`: the components joined by '/', after a leading '/' for an
   * absolute path; "/" for the root and "." for the empty relative path.
   */
  function PathText(p: Path): (text: string)
    ensures p.absolute || Canonical(p) ==> |text| > 0
    ensures Canonical(p) ==> (text[0] == '/' <==> p.absolute)
    ensures p.parts != [] ==> p.parts[0] <= (if p.absolute then text[1..] else text)
  {
    if p.parts == [] then (if p.absolute then "/" else ".")
    else
      UnsplitStartsWithFirst(p.parts);
      if p.absolute then "/" + Unsplit(p.parts)
      else Unsplit(p.parts)
  }

  // ---------------------------------------------------------------------
  // Split and Unsplit are inverse to each other

  lemma {:induction false} UnsplitLast(segments: seq<string>, c: char)
    requires |segments| >= 1
    ensures Unsplit(segments[..|segments| - 1] + [segments[|segments| - 1] + [c]]) == Unsplit(segments) + [c]
  {
    var n := |segments|;
    var t := segments[..n - 1] + [segments[n - 1] + [c]];
    if n > 1 {
      assert t[..n - 1] == segments[..n - 1];
    }
  }

  /** Joining the segments of a split string gives it back. */
  lemma {:induction false} SplitThenUnsplit(s: string)
    ensures Unsplit(Split(s)) == s
    decreases |s|
  {
    if s != [] {
      var s', c := s[..|s| - 1], s[|s| - 1];
      assert s == s' + [c];
      SplitThenUnsplit(s');
      var init := Split(s');
      if c == '/' {
        assert Split(s) == init + [""];
        assert (init + [""])[..|init|] == init;
        assert Unsplit(init + [""]) == Unsplit(init) + "/" + "";
      } else {
        assert Split(s) == init[..|init| - 1] + [init[|init| - 1] + [c]];
        UnsplitLast(init, c);
      }
    }
  }

  /** Extending a string by slash-free text extends its last segment. */
  lemma {:induction false} SplitExtend(a: string, b: string)
    requires '/' !in b
    ensures var sa := Split(a); Split(a + b) == sa[..|sa| - 1] + [sa[|sa| - 1] + b]
    decreases |b|
  {
    var sa := Split(a);
    if b == [] {
      assert a + b == a;
      assert sa[|sa| - 1] + b == sa[|sa| - 1];
      assert sa[..|sa| - 1] + [sa[|sa| - 1]] == sa;
    } else {
      var b' := b[..|b| - 1];
      var c := b[|b| - 1];
      assert b == b' + [c];
      SplitExtend(a, b');
      assert (a + b)[..|a + b| - 1] == a + b';
      var t := Split(a + b');
      assert t[..|t| - 1] == sa[..|sa| - 1];
      assert t[|t| - 1] + [c] == sa[|sa| - 1] + b;
    }
  }

  /** Splitting a string made of slash-free segments gives the segments back. */
  lemma {:induction false} UnsplitThenSplit(segments: seq<string>)
    requires |segments| >= 1
    requires forall i :: 0 <= i < |segments| ==> '/' !in segments[i]
    ensures Split(Unsplit(segments)) == segments
    decreases |segments|
  {
    var n := |segments|;
    if n == 1 {
      SplitExtend("", segments[0]);
      assert "" + segments[0] == segments[0];
    } else {
      var init, last := segments[..n - 1], segments[n - 1];
      UnsplitThenSplit(init);
      var a := Unsplit(init) + "/";
      assert Unsplit(segments) == a + last;
      assert Split(a) == init + [""] by {
        assert a[..|a| - 1] == Unsplit(init);
        assert a[|a| - 1] == '/';
      }
      SplitExtend(a, last);
      assert (init + [""])[..n - 1] == init;
      assert (init + [""])[n - 1] + last == last;
      assert init + [last] == segments;
    }
  }

  /** Dropping empty and "." segments works segment by segment: it distributes over concatenation. */
  lemma {:induction false} ComponentsAppend(a: seq<string>, b: seq<string>)
    requires forall i :: 0 <= i < |a| ==> '/' !in a[i]
    requires forall i :: 0 <= i < |b| ==> '/' !in b[i]
    ensures Components(a + b) == Components(a) + Components(b)
    decreases |a|
  {
    if a == [] {
      assert a + b == b;
    } else {
      var a' := a[1..];
      assert (a + b)[0] == a[0];
      assert (a + b)[1..] == a' + b;
      ComponentsAppend(a', b);
    }
  }

  /** A single segment is kept exactly when it is a component. */
  lemma ComponentsSingleton(s: string)
    requires '/' !in s
    ensures Components([s]) == (if IsComponent(s) then [s] else [])
  {
    assert [s][1..] == [];
  }

  lemma {:induction false} ComponentsOfComponents(parts: seq<string>)
    requires forall i :: 0 <= i < |parts| ==> IsComponent(parts[i])
    ensures forall i :: 0 <= i < |parts| ==> '/' !in parts[i]
    ensures Components(parts) == parts
    decreases |parts|
  {
    if parts != [] {
      ComponentsOfComponents(parts[1..]);
    }
  }

  lemma {:induction false} UnsplitStartsWithFirst(segments: seq<string>)
    requires |segments| >= 1
    ensures segments[0] <= Unsplit(segments)
    decreases |segments|
  {
    if |segments| > 1 {
      UnsplitStartsWithFirst(segments[..|segments| - 1]);
    }
  }

  lemma {:induction false} UnsplitCons(x: string, segments: seq<string>)
    requires |segments| >= 1
    ensures Unsplit([x] + segments) == x + "/" + Unsplit(segments)
    decreases |segments|
  {
    var n := |segments|;
    if n > 1 {
      UnsplitCons(x, segments[..n - 1]);
      assert ([x] + segments)[..n] == [x] + segments[..n - 1];
    }
  }

  /** Parsing the text of a canonical path gives the path back. */
  lemma {:induction false} PathTextRoundTrip(p: Path)
    requires Canonical(p)
    ensures ParsePath(PathText(p)) == p
  {
    if p.parts == [] {
      if p.absolute {
        assert Split("/") == [""] + [""] by { assert "/"[..0] == ""; }
      } else {
        SplitExtend("", ".");
        assert "" + "." == ".";
      }
    } else if p.absolute {
      var segments := [""] + p.parts;
      UnsplitCons("", p.parts);
      assert "" + "/" + Unsplit(p.parts) == "/" + Unsplit(p.parts);
      UnsplitThenSplit(segments);
      assert segments[1..] == p.parts;
      ComponentsOfComponents(p.parts);
    } else {
      UnsplitThenSplit(p.parts);
      ComponentsOfComponents(p.parts);
      UnsplitStartsWithFirst(p.parts);
      assert Unsplit(p.parts)[0] == p.parts[0][0];
    }
  }

  // ---------------------------------------------------------------------
  // The `/` operator

  /** A single component joined to a base becomes the base's new last component. */
  lemma {:induction false} JoinComponent(base: Path, name: string)
    requires IsComponent(name)
    ensures Join(base, name) == Path(base.absolute, base.parts + [name])
    ensures Name(Join(base, name)) == name
  {
    SplitExtend("", name);
    assert "" + name == name;
    assert Split(name) == [name];
    ComponentsSingleton(name);
  }

  /** `..` is kept as an ordinary component: `../x` parses to the two components `..` and `x`. */
  lemma ParentThenComponent(x: string)
    requires IsComponent(x)
    ensures ParsePath("../" + x) == Path(false, ["..", x])
  {
    var segments := ["..", x];
    assert segments[..1] == [".."];
    assert Unsplit(segments) == "../" + x;
    UnsplitThenSplit(segments);
    assert ["..", x][1..] == [x];
    ComponentsSingleton(x);
  }

  /** An absolute right-hand side discards the base entirely. */
  lemma AbsoluteJoinEscapesBase(base: Path, s: string)
    requires |s| > 0 && s[0] == '/'
    ensures Join(base, s) == ParsePath(s)
    ensures Join(base, s).absolute
  {
  }
}
