/** The part of Python's `pathlib` (POSIX flavour) that the scoring code and
    the audio-file record rely on: a path is an optional root plus a list of
    components, as `pathlib` stores it after parsing. */
module Paths {
  import opened Numbers

  datatype Path = Path(rooted: bool, parts: seq<string>)

  /** A component as `pathlib` keeps it after parsing: never empty, never
      ".", never holding the separator. */
  predicate ValidPart(s: string)
  {
    s != "" && s != "." && '/' !in s
  }

  predicate WellFormed(p: Path)
  {
    forall i :: 0 <= i < |p.parts| ==> ValidPart(p.parts[i])
  }

  type PurePath = p: Path | WellFormed(p) witness Path(false, [])

  type AbsolutePath = p: Path | WellFormed(p) && p.rooted witness Path(true, [])

  /** The components joined by "/". */
  function Join(parts: seq<string>): string
    decreases |parts|
  {
    if |parts| == 0 then ""
    else if |parts| == 1 then parts[0]
    else Join(parts[..|parts| - 1]) + "/" + parts[|parts| - 1]
  }

  /** `str(p)`: "/" then the components for a rooted path, "." for the
      empty relative path. */
  function ToString(p: Path): (r: string)
    ensures WellFormed(p) ==> |r| > 0 && (r[0] == '/' <==> p.rooted)
  {
    JoinFirst(p.parts);
    if p.rooted then "/" + Join(p.parts)
    else if p.parts == [] then "."
    else Join(p.parts)
  }

  /** `p.absolute()`: a rooted path is returned as it is, a relative one is
      appended to the working directory `cwd`. */
  function Absolute(p: PurePath, cwd: AbsolutePath): (r: AbsolutePath)
    ensures p.rooted ==> r == p
    ensures !p.rooted ==> r.parts == cwd.parts + p.parts
  {
    if p.rooted then p else Path(true, cwd.parts + p.parts)
  }

  /** `p.name`: the final component, or "" when there is none. */
  function Name(p: Path): (r: string)
    ensures WellFormed(p) ==> (r == "" <==> p.parts == [])
    ensures p.parts != [] ==> r == p.parts[|p.parts| - 1]
  {
    if p.parts == [] then "" else p.parts[|p.parts| - 1]
  }

  /** `s.rfind(c)`: the last index holding `c`, or -1. */
  function LastIndexOf(s: string, c: char): (r: int)
    ensures -1 <= r < |s|
    ensures r >= 0 ==> s[r] == c
    ensures forall j :: r < j < |s| ==> s[j] != c
    decreases |s|
  {
    if |s| == 0 then -1
    else if s[|s| - 1] == c then |s| - 1
    else LastIndexOf(s[..|s| - 1], c)
  }

  /** Whether `pathlib` treats the last dot of `name` as starting a suffix:
      it must be neither the first nor the last character. */
  predicate HasSuffix(name: string)
  {
    0 < LastIndexOf(name, '.') < |name| - 1
  }

  /** `PurePath.suffix` applied to a final component: from the last dot on,
      unless that dot is the first or the last character. */
  function Suffix(name: string): (r: string)
    ensures r == "" <==> !HasSuffix(name)
    ensures r != "" ==> |r| >= 2 && r[0] == '.' && '.' !in r[1..]
    ensures r != "" ==> |r| < |name| && name[|name| - |r|..] == r
  {
    var i := LastIndexOf(name, '.');
    if 0 < i < |name| - 1 then name[i..] else ""
  }

  /** `PurePath.stem` applied to a final component: the name without its
      suffix. */
  function Stem(name: string): (r: string)
    ensures r + Suffix(name) == name
    ensures HasSuffix(name) ==> r != "" && r[0] == name[0]
  {
    var i := LastIndexOf(name, '.');
    if 0 < i < |name| - 1 then name[..i] else name
  }

  /** The argument check of `with_suffix`: no separator, and either empty or
      a dot followed by at least one character. */
  predicate ValidSuffix(suffix: string)
  {
    '/' !in suffix && (suffix == "" || (suffix[0] == '.' && suffix != "."))
  }

  /** `p.with_suffix(suffix)`: the final component's suffix is replaced by
      (or, when it has none, extended with) `suffix`. Raises ValueError for
      an invalid suffix and for a path without a final component. */
  function WithSuffix(p: Path, suffix: string): (r: Result<Path>)
    ensures !ValidSuffix(suffix) || p.parts == [] <==> r.Err?
    ensures r.Err? ==> r.error.ValueError?
    ensures r.Ok? ==> r.value.rooted == p.rooted && |r.value.parts| == |p.parts|
    ensures r.Ok? ==> r.value.parts[..|p.parts| - 1] == p.parts[..|p.parts| - 1]
    ensures r.Ok? ==> Name(r.value) == Stem(Name(p)) + suffix
  {
    if !ValidSuffix(suffix) then Err(ValueError("Invalid suffix"))
    else if p.parts == [] then Err(ValueError("path has an empty name"))
    else
      var n := |p.parts|;
      Ok(Path(p.rooted, p.parts[..n - 1] + [Stem(Name(p)) + suffix]))
  }

  /** The last index of a character is the unique index holding it that no
      later occurrence follows. */
  lemma LastIndexOfUnique(s: string, c: char, k: int)
    requires 0 <= k < |s| && s[k] == c
    requires forall j :: k < j < |s| ==> s[j] != c
    ensures LastIndexOf(s, c) == k
  {
  }

  /** A character that is neither the separator nor in any component does
      not occur in the joined path. */
  lemma {:induction false} JoinAvoids(parts: seq<string>, c: char)
    ensures c != '/' && (forall i :: 0 <= i < |parts| ==> c !in parts[i]) ==> c !in Join(parts)
    decreases |parts|
  {
    if |parts| > 1 {
      JoinAvoids(parts[..|parts| - 1], c);
    }
  }

  /** Joining at least two components puts a separator after the first
      ones; joining at least one non-empty component gives a non-empty
      text. */
  lemma JoinShape(parts: seq<string>)
    requires forall i :: 0 <= i < |parts| ==> ValidPart(parts[i])
    ensures parts != [] ==> Join(parts) != ""
    ensures |parts| >= 2 ==> '/' in Join(parts)
  {
    if |parts| >= 2 {
      var s := Join(parts);
      var k := |Join(parts[..|parts| - 1])|;
      assert s[k] == '/';
    }
  }

  /** Different component lists join to different texts: a joined path
      determines its components. */
  lemma {:induction false} JoinInjective(a: seq<string>, b: seq<string>)
    requires forall i :: 0 <= i < |a| ==> ValidPart(a[i])
    requires forall i :: 0 <= i < |b| ==> ValidPart(b[i])
    requires Join(a) == Join(b)
    ensures a == b
    decreases |a|
  {
    JoinShape(a);
    JoinShape(b);
    if |a| == 1 && |b| == 1 {
    } else if |a| >= 2 && |b| >= 2 {
      var s := Join(a);
      var a', b' := a[..|a| - 1], b[..|b| - 1];
      var la, lb := a[|a| - 1], b[|b| - 1];
      var ka, kb := |Join(a')|, |Join(b')|;
      assert s == Join(a') + "/" + la;
      assert s == Join(b') + "/" + lb;
      LastSeparator(Join(a'), la, s);
      LastSeparator(Join(b'), lb, s);
      assert ka == kb;
      assert Join(a') == s[..ka] == Join(b');
      assert la == s[ka + 1..] == lb;
      JoinInjective(a', b');
      assert a == a' + [la] && b == b' + [lb];
    } else if |a| == 1 {
      assert '/' !in Join(a);
    } else if |b| == 1 {
      assert '/' !in Join(b);
    }
  }

  /** A joined path begins with its first component. */
  lemma {:induction false} JoinFirst(parts: seq<string>)
    ensures (forall i :: 0 <= i < |parts| ==> ValidPart(parts[i])) && parts != [] ==>
      |Join(parts)| > 0 && Join(parts)[0] == parts[0][0]
    decreases |parts|
  {
    if |parts| > 1 && forall i :: 0 <= i < |parts| ==> ValidPart(parts[i]) {
      var init := parts[..|parts| - 1];
      JoinFirst(init);
      assert init[0] == parts[0];
      assert ValidPart(init[0]);
    }
  }

  /** Distinct paths print differently: the text of a path determines
      whether it is rooted and its components. */
  lemma ToStringInjective(p: PurePath, q: PurePath)
    requires ToString(p) == ToString(q)
    ensures p == q
  {
    if p.rooted {
      assert ToString(p)[1..] == Join(p.parts) && ToString(q)[1..] == Join(q.parts);
      JoinInjective(p.parts, q.parts);
    } else if p.parts == [] {
      if q.parts != [] {
        JoinShape(q.parts);
      }
    } else if q.parts == [] {
      JoinShape(p.parts);
    } else {
      JoinInjective(p.parts, q.parts);
    }
  }

  /** The separator placed before a last component is the last separator. */
  lemma LastSeparator(init: string, last: string, s: string)
    requires '/' !in last && s == init + "/" + last
    ensures LastIndexOf(s, '/') == |init|
  {
    LastIndexOfUnique(s, '/', |init|);
  }
}
