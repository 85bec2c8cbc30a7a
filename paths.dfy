/**
 * The parts of `pathlib.PurePosixPath` the browser relies on, over
 * '/'-separated strings: `name`, `suffix`, `stem`, `parent`, `parts`,
 * joining with `/` and `relative_to` as a component-prefix test.
 */
module Paths {
  import opened Text

  /** Index of the last `c` in `s`, or -1 (`str.rfind`). */
  function RFind(s: string, c: char): (r: int)
    ensures -1 <= r < |s|
    ensures r >= 0 ==> s[r] == c && c !in s[r + 1..]
    ensures r == -1 ==> c !in s
  {
    if s == [] then -1
    else if s[|s| - 1] == c then |s| - 1
    else
      var t := s[..|s| - 1];
      var k := RFind(t, c);
      assert s == t + [s[|s| - 1]];
      if k >= 0 then
        assert s[k + 1..] == t[k + 1..] + [s[|s| - 1]];
        k
      else k
  }

  /** Non-empty components other than "." (pathlib drops those). */
  function Components(p: string): (parts: seq<string>)
    ensures forall i :: 0 <= i < |parts| ==> parts[i] != "" && parts[i] != "." && '/' !in parts[i]
  {
    DropEmpty(Split(p, '/'))
  }

  function DropEmpty(xs: seq<string>): (r: seq<string>)
    requires forall i :: 0 <= i < |xs| ==> '/' !in xs[i]
    ensures forall i :: 0 <= i < |r| ==> r[i] != "" && r[i] != "." && '/' !in r[i]
    ensures |r| <= |xs|
  {
    if xs == [] then []
    else if xs[0] == "" || xs[0] == "." then DropEmpty(xs[1..])
    else [xs[0]] + DropEmpty(xs[1..])
  }

  lemma {:induction false} DropEmptyConcat(xs: seq<string>, ys: seq<string>)
    requires forall i :: 0 <= i < |xs| ==> '/' !in xs[i]
    requires forall i :: 0 <= i < |ys| ==> '/' !in ys[i]
    ensures DropEmpty(xs + ys) == DropEmpty(xs) + DropEmpty(ys)
  {
    if xs != [] {
      assert (xs + ys)[1..] == xs[1..] + ys;
      DropEmptyConcat(xs[1..], ys);
    } else {
      assert xs + ys == ys;
    }
  }

  /** The components of `a/b` are those of `a` followed by those of `b`. */
  lemma ComponentsConcat(a: string, b: string)
    ensures Components(a + "/" + b) == Components(a) + Components(b)
  {
    Text.SplitConcat(a, b, '/');
    DropEmptyConcat(Split(a, '/'), Split(b, '/'));
  }

  /** A plain name is its own single component. */
  lemma ComponentsOfName(name: string)
    requires name != "" && name != "." && '/' !in name
    ensures Components(name) == [name]
  {
    assert FindChar(name, '/') == -1;
  }

  predicate IsAbsolute(p: string) { StartsWith(p, "/") }

  /** `Path(p).name`: the last component, "" for the root or the empty path. */
  function Name(p: string): (r: string)
    ensures '/' !in r
  {
    var cs := Components(p);
    if cs == [] then "" else cs[|cs| - 1]
  }

  /** `Path(name).suffix`: from the last dot, unless that dot is first or last. */
  function Suffix(name: string): (r: string)
    ensures r == "" || (r[0] == '.' && |r| >= 2)
  {
    var i := RFind(name, '.');
    if 0 < i < |name| - 1 then name[i..] else ""
  }

  /** `Path(name).stem`: the name without its suffix. */
  function Stem(name: string): (r: string)
  {
    var i := RFind(name, '.');
    if 0 < i < |name| - 1 then name[..i] else name
  }

  lemma StemSuffix(name: string)
    ensures Stem(name) + Suffix(name) == name
  {
  }

  /** `Path(dir) / name` for a single component name. */
  function JoinPath(dir: string, name: string): string
  {
    if dir == "" then name
    else if dir[|dir| - 1] == '/' then dir + name
    else dir + "/" + name
  }

  /** `Path(p).parent` written back as a string. */
  function Parent(p: string): string
  {
    var cs := Components(p);
    var lead := if IsAbsolute(p) then "/" else "";
    if cs == [] then (if IsAbsolute(p) then "/" else ".")
    else if |cs| == 1 then (if IsAbsolute(p) then "/" else ".")
    else lead + Text.Join(cs[..|cs| - 1], "/")
  }

  /** `path.relative_to(parent)` succeeds: same anchor and a component prefix. */
  predicate IsUnder(path: string, parent: string)
  {
    IsAbsolute(path) == IsAbsolute(parent)
    && var a, b := Components(path), Components(parent);
    |b| <= |a| && a[..|b|] == b
  }

  /** The components `relative_to` leaves, when `IsUnder` holds. */
  function RelativeParts(path: string, parent: string): (r: seq<string>)
    requires IsUnder(path, parent)
    ensures Components(parent) + r == Components(path)
  {
    Components(path)[|Components(parent)|..]
  }

  /** Path equality as pathlib compares paths: same anchor and components. */
  predicate SamePath(a: string, b: string)
  {
    IsAbsolute(a) == IsAbsolute(b) && Components(a) == Components(b)
  }

  lemma UnderReflexive(p: string)
    ensures IsUnder(p, p)
  {
  }

  lemma {:induction false} UnderTransitive(a: string, b: string, c: string)
    requires IsUnder(a, b) && IsUnder(b, c)
    ensures IsUnder(a, c)
  {
    var ca, cb, cc := Components(a), Components(b), Components(c);
    assert ca[..|cc|] == cb[..|cc|];
  }

  lemma UnderBothWaysIsSame(a: string, b: string)
    requires IsUnder(a, b) && IsUnder(b, a)
    ensures SamePath(a, b)
  {
  }

  /** `str(Path(p))`: the components joined by '/', "/" for the root and "." for the empty path. */
  function Normalize(p: string): (r: string)
    ensures r != []
  {
    var cs := Components(p);
    if IsAbsolute(p) then "/" + Text.Join(cs, "/")
    else if cs == [] then "."
    else Text.Join(cs, "/")
  }

  /** `str(Path(dir) / name)` for a single component `name`. */
  function Slash(dir: string, name: string): string
  {
    var base := Normalize(dir);
    if base == "." then name
    else if base == "/" then "/" + name
    else base + "/" + name
  }

  /** Plain-name components come back unchanged from `'/'.join`. */
  lemma {:induction false} ComponentsOfJoin(cs: seq<string>)
    requires forall i :: 0 <= i < |cs| ==> cs[i] != "" && cs[i] != "." && '/' !in cs[i]
    ensures Components(Text.Join(cs, "/")) == cs
    ensures cs != [] ==> !IsAbsolute(Text.Join(cs, "/"))
  {
    if cs == [] {
      assert Split("", '/') == [""];
    } else if |cs| == 1 {
      ComponentsOfName(cs[0]);
    } else {
      var rest := Text.Join(cs[1..], "/");
      assert Text.Join(cs, "/") == cs[0] + "/" + rest;
      ComponentsOfJoin(cs[1..]);
      ConsComponents(cs[0], rest, cs[1..]);
      assert [cs[0]] + cs[1..] == cs;
    }
  }

  /** A plain name in front of `rest` adds itself as the first component. */
  lemma ConsComponents(a: string, rest: string, t: seq<string>)
    requires a != "" && a != "." && '/' !in a
    requires Components(rest) == t
    ensures Components(a + "/" + rest) == [a] + t
    ensures !IsAbsolute(a + "/" + rest)
  {
    assert (a + "/" + rest)[0] == a[0];
    ComponentsOfName(a);
    ComponentsConcat(a, rest);
  }

  /** "", "/" and "." have no components. */
  lemma NoComponents()
    ensures Components("") == [] && Components("/") == [] && Components(".") == []
  {
    assert Split("", '/') == [""];
    assert Split("/", '/') == ["", ""];
    assert Split(".", '/') == ["."];
  }

  /** `str(Path(p))` names the same path as `p`. */
  lemma NormalizeSame(p: string)
    ensures SamePath(Normalize(p), p)
  {
    var cs := Components(p);
    var j := Text.Join(cs, "/");
    ComponentsOfJoin(cs);
    NoComponents();
    if IsAbsolute(p) {
      ComponentsConcat("", j);
      assert "/" + j == "" + "/" + j;
    }
  }

  /** `Path(dir) / name` adds `name` as one more component and keeps the anchor. */
  lemma SlashParts(dir: string, name: string)
    requires name != "" && name != "." && '/' !in name
    ensures Components(Slash(dir, name)) == Components(dir) + [name]
    ensures IsAbsolute(Slash(dir, name)) == IsAbsolute(dir)
  {
    var base := Normalize(dir);
    NormalizeSame(dir);
    ComponentsOfName(name);
    NoComponents();
    if base == "/" {
      assert Slash(dir, name) == "" + "/" + name;
      ComponentsConcat("", name);
    } else if base != "." {
      ComponentsConcat(base, name);
    }
  }

  /** `(Path(dir) / name).name` is `name`. */
  lemma SlashName(dir: string, name: string)
    requires name != "" && name != "." && '/' !in name
    ensures Name(Slash(dir, name)) == name
  {
    SlashParts(dir, name);
  }
}
