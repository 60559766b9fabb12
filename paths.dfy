/** The parts of Go's path/filepath the workspace code uses, on '/'-separated
    paths. IsAbs and Ext are exact; Base and Dir follow Go's handling of
    trailing separators; Join glues two operands with one separator and does not
    run filepath.Clean, so it agrees with Go whenever the joined path is already
    clean (no empty, "." or ".." segments). Clean and CleanJoin are Go's Clean and
    its full Join, and CleanJoinOfNames shows the two Joins agree on such names. */
module Paths {
  import opened Text

  const Separator: char := '/'

  /** filepath.IsAbs on a Unix host. */
  predicate IsAbs(p: string)
  {
    |p| > 0 && p[0] == Separator
  }

  /** filepath.Join(a, b) for clean operands; empty operands are dropped. */
  function Join(a: string, b: string): (r: string)
    ensures IsAbs(a) ==> IsAbs(r)
    ensures a == "" ==> r == b
    ensures b == "" ==> r == a
  {
    if a == "" then b
    else if b == "" then a
    else if a[|a| - 1] == Separator then a + b
    else a + [Separator] + b
  }

  /** filepath.Clean on '/'-separated paths: empty and "." elements are dropped,
      a ".." removes the element before it (and is dropped at the root, or kept
      when a relative path has nothing left to remove), and the empty result is ".". */
  function Clean(p: string): (r: string)
    ensures r != ""
    ensures IsAbs(p) ==> IsAbs(r)
  {
    var body := JoinWith(CleanElements([], Split(p, Separator), IsAbs(p)), Separator);
    if IsAbs(p) then [Separator] + body
    else if body == "" then "."
    else body
  }

  /** The element loop of Clean: kept holds the elements so far, rest the ones to go. */
  function CleanElements(kept: seq<string>, rest: seq<string>, rooted: bool): seq<string>
    decreases |rest|
  {
    if rest == [] then kept
    else if rest[0] == "" || rest[0] == "." then CleanElements(kept, rest[1..], rooted)
    else if rest[0] == ".." then
      if kept != [] && kept[|kept| - 1] != ".." then CleanElements(kept[..|kept| - 1], rest[1..], rooted)
      else if rooted then CleanElements(kept, rest[1..], rooted)
      else CleanElements(kept + [".."], rest[1..], rooted)
    else CleanElements(kept + [rest[0]], rest[1..], rooted)
  }

  /** filepath.Join as Go computes it: from the first non-empty operand on, the
      operands joined by the separator and then cleaned; "" when both are empty. */
  function CleanJoin(a: string, b: string): string
  {
    if a == "" then (if b == "" then "" else Clean(b))
    else Clean(a + [Separator] + b)
  }

  /** For two names Clean keeps, Go's Join is the plain concatenation Join models. */
  lemma CleanJoinOfNames(dir: string, name: string)
    requires CleanName(dir) && CleanName(name)
    ensures CleanJoin(dir, name) == Join(dir, name) == dir + [Separator] + name
  {
    var p := dir + [Separator] + name;
    SplitConcat(dir, name, Separator);
    SplitPlain(name, Separator);
    assert Split(p, Separator) == [dir, name];
    CleanTwo(dir, name);
    JoinWithCons(dir, [name], Separator);
    assert [dir] + [name] == [dir, name];
  }

  /** The element loop keeps two names it has nothing to drop from. */
  lemma CleanTwo(dir: string, name: string)
    requires CleanName(dir) && CleanName(name)
    ensures CleanElements([], [dir, name], false) == [dir, name]
  {
    assert [dir, name][1..] == [name] && [name][1..] == [];
    assert [] + [dir] == [dir] && [dir] + [name] == [dir, name];
    assert CleanElements([], [dir, name], false) == CleanElements([dir], [name], false);
    assert CleanElements([dir], [name], false) == CleanElements([dir, name], [], false);
  }

  /** Joining "." to a name Clean keeps gives the name alone. */
  lemma CleanDropsDot(dir: string)
    requires CleanName(dir)
    ensures CleanJoin(dir, ".") == dir
  {
    var p := dir + [Separator] + ".";
    SplitConcat(dir, ".", Separator);
    SplitPlain(".", Separator);
    assert Split(p, Separator) == [dir, "."];
    assert [dir, "."][1..] == ["."] && ["."][1..] == [] && [] + [dir] == [dir];
    assert CleanElements([], [dir, "."], false) == CleanElements([dir], ["."], false);
    assert CleanElements([dir], ["."], false) == CleanElements([dir], [], false);
  }

  /** filepath.Dir as Go computes it: the path up to its last separator, cleaned,
      so "." when there is no separator. */
  function CleanDir(p: string): (d: string)
    ensures d != ""
    ensures IsAbs(p) ==> IsAbs(d)
  {
    Clean(p[..LastSlash(p) + 1])
  }

  /** The element loop keeps names Clean keeps and drops the empty element after them. */
  lemma {:induction false} CleanKeeps(kept: seq<string>, parts: seq<string>, rooted: bool)
    requires forall i :: 0 <= i < |parts| ==> CleanName(parts[i])
    ensures CleanElements(kept, parts + [""], rooted) == kept + parts
    decreases |parts|
  {
    if parts == [] {
      assert [""][1..] == [];
    } else {
      assert (parts + [""])[0] == parts[0];
      assert (parts + [""])[1..] == parts[1..] + [""];
      CleanKeeps(kept + [parts[0]], parts[1..], rooted);
      assert kept + [parts[0]] + parts[1..] == kept + parts;
    }
  }

  /** On a relative path of names Clean keeps, Go's Dir is the model's Dir: the
      names before the last one. */
  lemma CleanDirOfNames(parts: seq<string>, name: string)
    requires |parts| >= 1 && CleanName(name)
    requires forall i :: 0 <= i < |parts| ==> CleanName(parts[i])
    ensures CleanDir(JoinWith(parts + [name], Separator)) == JoinWith(parts, Separator)
    ensures Dir(JoinWith(parts + [name], Separator)) == JoinWith(parts, Separator)
  {
    var d := JoinWith(parts, Separator);
    var p := JoinWith(parts + [name], Separator);
    JoinWithSnoc(parts, name, Separator);
    JoinedEnds(parts);
    LastSlashBefore(d, name);
    assert p[..|d| + 1] == d + [Separator];
    CleanOfNames(parts);
    DirOf(p, |d|);
    assert p[..|d|] == d;
  }

  /** A join of names Clean keeps neither starts nor ends with the separator. */
  lemma JoinedEnds(parts: seq<string>)
    requires |parts| >= 1
    requires forall i :: 0 <= i < |parts| ==> CleanName(parts[i])
    ensures var d := JoinWith(parts, Separator); |d| > 0 && d[0] != Separator && d[|d| - 1] != Separator
  {
    JoinWithEnds(parts, Separator);
    assert parts[0][0] in parts[0];
    var last := parts[|parts| - 1];
    assert last[|last| - 1] in last;
  }

  /** The separator in front of a plain name is the last one. */
  lemma LastSlashBefore(d: string, name: string)
    requires PlainName(name)
    ensures LastSlash(d + [Separator] + name) == |d|
  {
    var p := d + [Separator] + name;
    LastSlashSuffix(p, |d|);
  }

  /** Clean keeps a relative join of names it keeps and drops a trailing separator. */
  lemma CleanOfNames(parts: seq<string>)
    requires |parts| >= 1
    requires forall i :: 0 <= i < |parts| ==> CleanName(parts[i])
    ensures Clean(JoinWith(parts, Separator) + [Separator]) == JoinWith(parts, Separator)
  {
    var d := JoinWith(parts, Separator);
    JoinWithSnoc(parts, "", Separator);
    assert d + [Separator] == JoinWith(parts + [""], Separator);
    SplitJoin(parts + [""], Separator);
    CleanKeeps([], parts, false);
    assert [] + parts == parts;
    JoinedEnds(parts);
    assert (d + [Separator])[0] == d[0];
  }

  /** A ".." element takes the directory before it away: Go's Dir of
      dir/../sub/file is sub. */
  lemma CleanDirParent(dir: string, sub: string, file: string)
    requires CleanName(dir) && CleanName(sub) && CleanName(file)
    ensures CleanDir(dir + [Separator] + ".." + [Separator] + sub + [Separator] + file) == sub
  {
    var q := dir + [Separator] + ".." + [Separator] + sub + [Separator];
    var p := q + file;
    assert p == dir + [Separator] + ".." + [Separator] + sub + [Separator] + file;
    LastSlashSuffix(p, |q| - 1);
    assert p[..|q|] == q;
    CleanParentElements(dir, sub);
  }

  /** The cleaning of dir/../sub/: the element loop keeps sub alone. */
  lemma CleanParentElements(dir: string, sub: string)
    requires CleanName(dir) && CleanName(sub)
    ensures Clean(dir + [Separator] + ".." + [Separator] + sub + [Separator]) == sub
  {
    var q := dir + [Separator] + ".." + [Separator] + sub + [Separator];
    SplitParent(dir, sub);
    var e := [dir, "..", sub, ""];
    assert e[1..] == ["..", sub, ""] && e[1..][1..] == [sub, ""] && e[1..][1..][1..] == [""];
    assert CleanElements([], e, false) == CleanElements([dir], ["..", sub, ""], false);
    assert CleanElements([dir], ["..", sub, ""], false) == CleanElements([], [sub, ""], false);
    assert CleanElements([], [sub, ""], false) == CleanElements([sub], [""], false);
    assert CleanElements([sub], [""], false) == CleanElements([sub], [], false);
    assert q[0] == dir[0];
  }

  /** dir/../sub/ splits into dir, "..", sub and the empty last element. */
  lemma SplitParent(dir: string, sub: string)
    requires CleanName(dir) && CleanName(sub)
    ensures Split(dir + [Separator] + ".." + [Separator] + sub + [Separator], Separator) == [dir, "..", sub, ""]
  {
    var t2 := sub + [Separator] + "";
    var t1 := ".." + [Separator] + t2;
    assert dir + [Separator] + ".." + [Separator] + sub + [Separator] == dir + [Separator] + t1;
    SplitConcat(dir, t1, Separator);
    SplitConcat("..", t2, Separator);
    SplitConcat(sub, "", Separator);
    assert Split("", Separator) == [""];
  }

  /** The index of the last separator in p, or -1 if there is none. */
  function LastSlash(p: string): (i: int)
    ensures -1 <= i < |p|
    ensures i >= 0 ==> p[i] == Separator
    ensures forall j :: i < j < |p| ==> p[j] != Separator
  {
    if p == [] then -1
    else if p[|p| - 1] == Separator then |p| - 1
    else LastSlash(p[..|p| - 1])
  }

  /** p without the separators at its end. */
  function TrimTrailingSlashes(p: string): (q: string)
    ensures q <= p
    ensures q == "" || q[|q| - 1] != Separator
    ensures forall i :: |q| <= i < |p| ==> p[i] == Separator
  {
    if p != [] && p[|p| - 1] == Separator then TrimTrailingSlashes(p[..|p| - 1]) else p
  }

  /** A last path element Base can return unchanged: not empty and free of separators. */
  predicate PlainName(s: string)
  {
    s != "" && Separator !in s
  }

  /** A last element Join keeps as it is: not "." or "..", which Clean would remove. */
  predicate CleanName(s: string)
  {
    PlainName(s) && s != "." && s != ".."
  }

  /** filepath.Base: the last element after trailing separators are removed;
      "." for the empty path and "/" for a path of separators only. */
  function Base(p: string): (r: string)
    ensures r != ""
    ensures r == "/" || PlainName(r)
  {
    if p == "" then "."
    else
      var q := TrimTrailingSlashes(p);
      if q == "" then "/" else q[LastSlash(q) + 1..]
  }

  /** filepath.Dir: everything before the last element, without trailing
      separators; "." when there is no separator and "/" for the root. */
  function Dir(p: string): (d: string)
    ensures d != ""
    ensures LastSlash(p) < 0 ==> d == "."
    ensures LastSlash(p) >= 0 ==> d == "/" || (d <= p && d[|d| - 1] != Separator)
  {
    var i := LastSlash(p);
    if i < 0 then "."
    else
      var d := TrimTrailingSlashes(p[..i + 1]);
      assert d <= p[..i + 1] <= p;
      if d == "" then "/" else d
  }

  /** filepath.Ext: the suffix from the last '.' of the last element, or "" when
      that element has no '.'. */
  function Ext(p: string): (e: string)
    ensures |e| <= |p|
    ensures e != "" ==> e[0] == '.'
    ensures Separator !in e
    ensures e != "" ==> '.' !in e[1..]
  {
    if p == [] || p[|p| - 1] == Separator then ""
    else if p[|p| - 1] == '.' then "."
    else
      var e := Ext(p[..|p| - 1]);
      if e == "" then "" else e + [p[|p| - 1]]
  }

  /** The extension is a suffix of the path. */
  lemma {:induction false} ExtIsSuffix(p: string)
    ensures |Ext(p)| <= |p| && Ext(p) == p[|p| - |Ext(p)|..]
  {
    if p != [] && p[|p| - 1] != Separator && p[|p| - 1] != '.' {
      var q := p[..|p| - 1];
      ExtIsSuffix(q);
      if Ext(q) != "" {
        assert p[|p| - |Ext(p)|..] == q[|q| - |Ext(q)|..] + [p[|p| - 1]];
      }
    }
  }

  /** strings.TrimSuffix. */
  function TrimSuffix(s: string, suffix: string): (r: string)
    ensures |suffix| <= |s| && s[|s| - |suffix|..] == suffix ==> r + suffix == s
    ensures !(|suffix| <= |s| && s[|s| - |suffix|..] == suffix) ==> r == s
  {
    if |suffix| <= |s| && s[|s| - |suffix|..] == suffix then s[..|s| - |suffix|] else s
  }

  /** The extension of stem + "." + ext is "." + ext, whatever the stem, when ext
      holds neither a '.' nor a separator. */
  lemma {:induction false} ExtOfAppended(stem: string, ext: string)
    requires '.' !in ext && Separator !in ext
    ensures Ext(stem + "." + ext) == "." + ext
  {
    var p := stem + "." + ext;
    if ext != [] {
      var ext' := ext[..|ext| - 1];
      assert p[..|p| - 1] == stem + "." + ext';
      ExtOfAppended(stem, ext');
      assert ext == ext' + [ext[|ext| - 1]];
    }
  }

  /** A plain name is its own base. */
  lemma BaseOfPlain(name: string)
    requires PlainName(name)
    ensures Base(name) == name
  {
    assert TrimTrailingSlashes(name) == name;
    LastSlashOfPlain(name);
  }

  lemma {:induction false} LastSlashOfPlain(name: string)
    requires Separator !in name
    ensures LastSlash(name) == -1
  {
    if name != [] {
      assert name[..|name| - 1] <= name;
      LastSlashOfPlain(name[..|name| - 1]);
    }
  }

  /** Joining a directory and a plain name, the name is the base of the result. */
  lemma BaseOfJoin(dir: string, name: string)
    requires PlainName(name)
    ensures Base(Join(dir, name)) == name
  {
    var p := Join(dir, name);
    if dir == "" {
      BaseOfPlain(name);
    } else {
      var k := |p| - |name|;
      assert p[k..] == name && p[k - 1] == Separator;
      LastSlashSuffix(p, k - 1);
      assert TrimTrailingSlashes(p) == p;
    }
  }

  /** When p[i] is the separator and none follows it, i is the last separator. */
  lemma {:induction false} LastSlashSuffix(p: string, i: int)
    requires 0 <= i < |p| && p[i] == Separator
    requires forall j :: i < j < |p| ==> p[j] != Separator
    ensures LastSlash(p) == i
  {
    if i < |p| - 1 {
      LastSlashSuffix(p[..|p| - 1], i);
    }
  }

  /** Dir and Base split a path that has a directory, no trailing separator and no
      doubled separator before its last element: joining them gives it back. */
  lemma DirBaseJoin(p: string)
    requires 0 <= LastSlash(p) < |p| - 1
    requires LastSlash(p) == 0 || p[LastSlash(p) - 1] != Separator
    ensures Join(Dir(p), Base(p)) == p
  {
    var i := LastSlash(p);
    DirOf(p, i);
    BaseAfter(p, i);
    JoinAround(p, i);
  }

  lemma JoinAround(p: string, i: int)
    requires 0 <= i < |p| - 1 && p[i] == Separator
    requires i == 0 || p[i - 1] != Separator
    ensures Join(if i == 0 then "/" else p[..i], p[i + 1..]) == p
  {
    assert p == p[..i] + [Separator] + p[i + 1..];
  }

  lemma BaseAfter(p: string, i: int)
    requires i == LastSlash(p) && 0 <= i < |p| - 1
    ensures Base(p) == p[i + 1..]
  {
    assert TrimTrailingSlashes(p) == p;
  }

  lemma DirOf(p: string, i: int)
    requires i == LastSlash(p) && 0 <= i
    requires i == 0 || p[i - 1] != Separator
    ensures Dir(p) == if i == 0 then "/" else p[..i]
  {
    var d := p[..i + 1];
    DirAt(p, i);
    TrimOne(d);
    assert d[..|d| - 1] == p[..i];
    TrimNone(p[..i]);
  }

  /** Dir trims the path up to and including its last separator. */
  lemma DirAt(p: string, i: int)
    requires i == LastSlash(p) && 0 <= i
    ensures Dir(p) == if TrimTrailingSlashes(p[..i + 1]) == "" then "/" else TrimTrailingSlashes(p[..i + 1])
  {
  }

  /** One trailing separator less trims to the same path. */
  lemma TrimOne(d: string)
    requires d != [] && d[|d| - 1] == Separator
    ensures TrimTrailingSlashes(d) == TrimTrailingSlashes(d[..|d| - 1])
  {
  }

  /** A path that does not end in a separator is left as it is. */
  lemma TrimNone(q: string)
    requires q == [] || q[|q| - 1] != Separator
    ensures TrimTrailingSlashes(q) == q
  {
  }

  /** Joining a plain directory and a plain name, the directory is the Dir of the result. */
  lemma DirOfJoin(dir: string, name: string)
    requires PlainName(dir) && PlainName(name)
    ensures Dir(Join(dir, name)) == dir
  {
    var p := Join(dir, name);
    assert p == dir + [Separator] + name;
    LastSlashSuffix(p, |dir|);
    DirOf(p, |dir|);
    assert p[..|dir|] == dir;
  }
}
