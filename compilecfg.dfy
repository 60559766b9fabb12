/** compilecfg/compile.go: the NetLinx compiler .cfg text GenerateCFG builds from
    an APW's referenced files. The output is written line by line; each line
    below is one run of WriteString calls up to and including its "\n". */
module CompileCfg {
  import opened Text
  import opened Paths
  import opened Sorting
  import opened Apw

  /** The separator NetLinx Studio writes in paths. */
  const Backslash: char := '\\'

  /** toWindows: strings.Join(strings.Split(x, "/"), "\"). */
  function ToWindows(x: string): (r: string)
    ensures |r| == |x| && Separator !in r
    ensures forall i :: 0 <= i < |x| ==> r[i] == (if x[i] == Separator then Backslash else x[i])
  {
    JoinSplitReplaces(x, Separator, Backslash);
    JoinWith(Split(x, Separator), Backslash)
  }

  /** toLinux: strings.Join(strings.Split(x, "\"), "/"). */
  function ToLinux(x: string): (r: string)
    ensures |r| == |x| && Backslash !in r
    ensures forall i :: 0 <= i < |x| ==> r[i] == (if x[i] == Backslash then Separator else x[i])
  {
    JoinSplitReplaces(x, Backslash, Separator);
    JoinWith(Split(x, Backslash), Separator)
  }

  /** Going through the Linux form first changes nothing once both separators
      end up as '\'. */
  lemma WindowsOfLinux(x: string)
    ensures ToWindows(ToLinux(x)) == ToWindows(x)
  {
    var a := ToWindows(ToLinux(x));
    var b := ToWindows(x);
    assert forall i :: 0 <= i < |x| ==> a[i] == b[i];
  }

  /** The extensions GenerateCFG looks at. */
  predicate IsNetlinxSource(x: string)
  {
    Ext(x) == ".axs" || Ext(x) == ".axi"
  }

  /** The three kinds of key GenerateCFG keeps: a module, a source, an include. */
  predicate IsModuleRef(refs: map<string, string>, x: string)
  {
    x in refs && IsNetlinxSource(x) && refs[x] == "Module"
  }

  predicate IsSourceRef(refs: map<string, string>, x: string)
  {
    x in refs && IsNetlinxSource(x) && (refs[x] == "Source" || refs[x] == "MasterSrc")
  }

  predicate IsIncludeRef(refs: map<string, string>, x: string)
  {
    x in refs && IsNetlinxSource(x) && refs[x] == "Include"
  }

  /** The directory of an include file, in Windows form: filepath.Dir, which
      cleans, of its Linux form. */
  function IncludeDir(x: string): (d: string)
    ensures Separator !in d
  {
    ToWindows(CleanDir(ToLinux(x)))
  }

  /** An include stored relative to a sibling folder, dir/..\sub\file as NetLinx
      Studio writes it, lies in sub: the ".." takes dir away. */
  lemma IncludeDirOfParent(dir: string, sub: string, file: string)
    requires CleanName(dir) && CleanName(sub) && CleanName(file)
    requires Backslash !in dir && Backslash !in sub && Backslash !in file
    ensures IncludeDir(dir + [Separator] + ".." + [Backslash] + sub + [Backslash] + file) == sub
  {
    LinuxOfParent(dir, sub, file);
    CleanDirParent(dir, sub, file);
    WindowsOfPlain(sub);
  }

  /** toLinux turns the two backslashes of dir/..\sub\file into separators. */
  lemma LinuxOfParent(dir: string, sub: string, file: string)
    requires Backslash !in dir && Backslash !in sub && Backslash !in file
    ensures ToLinux(dir + [Separator] + ".." + [Backslash] + sub + [Backslash] + file)
         == dir + [Separator] + ".." + [Separator] + sub + [Separator] + file
  {
    var x := dir + [Separator] + ".." + [Backslash] + sub + [Backslash] + file;
    var y := dir + [Separator] + ".." + [Separator] + sub + [Separator] + file;
    forall i | 0 <= i < |x| ensures ToLinux(x)[i] == y[i] {
      if i < |dir| {
        assert x[i] == dir[i] == y[i];
        assert dir[i] in dir;
      } else if i < |dir| + 4 {
      } else if i < |dir| + 4 + |sub| {
        assert x[i] == sub[i - |dir| - 4] == y[i];
        assert sub[i - |dir| - 4] in sub;
      } else if i == |dir| + 4 + |sub| {
      } else {
        assert x[i] == file[i - |dir| - 5 - |sub|] == y[i];
        assert file[i - |dir| - 5 - |sub|] in file;
      }
    }
  }

  /** toWindows leaves a name without separators as it is. */
  lemma WindowsOfPlain(s: string)
    requires Separator !in s
    ensures ToWindows(s) == s
  {
    forall i | 0 <= i < |s| ensures ToWindows(s)[i] == s[i] {
      assert s[i] in s;
    }
  }

  /** The include directories of the keys in ks. */
  function IncludeDirsIn(refs: map<string, string>, ks: set<string>): set<string>
  {
    set x | x in ks && IsIncludeRef(refs, x) :: IncludeDir(x)
  }

  /** Every include directory of the referenced files. */
  function IncludeDirs(refs: map<string, string>): set<string>
  {
    IncludeDirsIn(refs, refs.Keys)
  }

  /** A duplicate-free listing of a set, in some order. */
  ghost predicate IsListing(xs: seq<string>, s: set<string>)
  {
    (forall x :: x in xs <==> x in s) && forall i, j :: 0 <= i < j < |xs| ==> xs[i] != xs[j]
  }

  /** Some element of a non-empty set is not above any other. */
  lemma MinExists(s: set<string>)
    requires s != {}
    ensures exists m :: m in s && forall y :: y in s ==> !Less(y, m)
  {
    var m := LeastOf(s);
  }

  /** A least element of a non-empty set, found by taking elements out one by one. */
  lemma {:induction false} LeastOf(s: set<string>) returns (m: string)
    requires s != {}
    ensures m in s && forall y :: y in s ==> !Less(y, m)
    decreases |s|
  {
    var x :| x in s;
    if s == {x} {
      LessIrreflexive(x);
      m := x;
    } else {
      var n := LeastOf(s - {x});
      if Less(x, n) {
        LeastBelow(s, x, n);
        m := x;
      } else {
        m := n;
      }
    }
  }

  /** An element below the least of the others is the least of all. */
  lemma LeastBelow(s: set<string>, x: string, n: string)
    requires x in s && Less(x, n) && forall y :: y in s - {x} ==> !Less(y, n)
    ensures forall y :: y in s ==> !Less(y, x)
  {
    forall y | y in s ensures !Less(y, x) {
      if y == x { LessIrreflexive(x); } else { LessThenAtMost(x, n, y); }
    }
  }

  /** The elements of s in ascending order: what sort.Strings makes of any
      listing of s. */
  ghost function SortedListing(s: set<string>): (r: seq<string>)
    ensures IsListing(r, s)
    ensures SortedBy(r, Self)
    decreases |s|
  {
    if s == {} then []
    else
      MinExists(s);
      var m :| m in s && forall y :: y in s ==> !Less(y, m);
      var rest := SortedListing(s - {m});
      ConsLeast(s, m, rest);
      [m] + rest
  }

  /** The least element in front of an ascending listing of the others. */
  lemma ConsLeast(s: set<string>, m: string, rest: seq<string>)
    requires m in s && forall y :: y in s ==> !Less(y, m)
    requires IsListing(rest, s - {m}) && SortedBy(rest, Self)
    ensures IsListing([m] + rest, s) && SortedBy([m] + rest, Self)
  {
    var r := [m] + rest;
    forall i, j | 0 <= i < j < |r| ensures !Less(Self(r[j]), Self(r[i])) && r[i] != r[j] {
      assert r[j] == rest[j - 1] && r[j] in s - {m};
      if i > 0 { assert r[i] == rest[i - 1]; }
    }
    forall x ensures x in r <==> x in s {
      if x in s && x != m { assert x in rest; }
    }
  }

  /** A duplicate-free sequence holds each of its elements once. */
  lemma {:induction false} ListingMultiset(xs: seq<string>, s: set<string>)
    requires IsListing(xs, s)
    ensures forall x :: multiset(xs)[x] == if x in s then 1 else 0
  {
    if xs != [] {
      var rest := xs[1..];
      ListingTail(xs, s);
      ListingMultiset(rest, s - {xs[0]});
      assert xs == [xs[0]] + rest;
    }
  }

  /** The tail of a listing of s lists s without the head, and misses the head. */
  lemma ListingTail(xs: seq<string>, s: set<string>)
    requires IsListing(xs, s) && xs != []
    ensures IsListing(xs[1..], s - {xs[0]}) && xs[0] !in xs[1..]
  {
    var rest := xs[1..];
    forall i, j | 0 <= i < j < |rest| ensures rest[i] != rest[j] {
      assert rest[i] == xs[i + 1] && rest[j] == xs[j + 1];
    }
    forall x ensures x in rest <==> x in s - {xs[0]} {
      if x in rest {
        var i :| 0 <= i < |rest| && rest[i] == x;
        assert xs[i + 1] == x;
      }
      if x in s - {xs[0]} {
        assert x in xs;
        var i :| 0 <= i < |xs| && xs[i] == x;
        assert i > 0 && rest[i - 1] == x;
      }
    }
  }

  /** Sorting any listing of s gives the sorted listing of s. */
  lemma SortedListingUnique(xs: seq<string>, s: set<string>)
    requires IsListing(xs, s)
    ensures SortBy(xs, Self) == SortedListing(s)
  {
    var sorted := SortBy(xs, Self);
    var canon := SortedListing(s);
    ListingMultiset(xs, s);
    ListingMultiset(canon, s);
    assert multiset(xs) == multiset(canon);
    SortedUnique(canon, sorted);
  }

  /** p followed by each element of xs. */
  function Prefixed(p: string, xs: seq<string>): (r: seq<string>)
    ensures |r| == |xs| && forall i :: 0 <= i < |xs| ==> r[i] == p + xs[i]
  {
    if xs == [] then [] else Prefixed(p, xs[..|xs| - 1]) + [p + xs[|xs| - 1]]
  }

  const Rule: string := ";------------------------------------------------------------------------------"

  /** The comment banner; root is already in Windows form. */
  function Banner(root: string): seq<string>
  {
    [ Rule,
      ";",
      "; Netlinx Compiler Config File generated by Go",
      "; Source: http://github.org/soloworks/go-netlinx/compiler",
      "; Run> NLRC -C\"" + (if root != "" then root + [Backslash] else "") + "filename.cfg\";",
      Rule,
      "" ]
  }

  /** The root directory: "-R" when none is given. */
  function RootLines(root: string): seq<string>
  {
    ["MainAXSRootDirectory=" + (if root == "" then "-R" else root), ""]
  }

  /** The log file, when one is named, in the root directory. */
  function LogFileLines(root: string, logfile: string): seq<string>
  {
    if logfile != "" then ["OutputLogFileOption=N", "OutputLogFile=" + root + [Backslash] + logfile] else []
  }

  function ConsoleLine(logconsole: bool): string
  {
    "OutputLogConsoleOption=" + (if logconsole then "Y" else "N")
  }

  const BuildOptions: seq<string> := ["BuildWithDebugInformation=Y", "BuildWithSource=N", "BuildWithWC=Y", ""]

  /** The lines before the include paths: the banner, the root directory, the
      log options and the fixed build options. */
  function Preamble(root: string, logfile: string, logconsole: bool): seq<string>
  {
    Banner(root) + RootLines(root) + LogFileLines(root, logfile) + [ConsoleLine(logconsole)] + BuildOptions
  }

  /** The include paths, a blank line, the modules, a blank line, the sources. */
  function Body(includes: seq<string>, modules: seq<string>, sources: seq<string>): seq<string>
  {
    Prefixed("AdditionalIncludePath=", includes) + [""]
    + Prefixed("AXSFILE=", modules) + [""]
    + Prefixed("AXSFILE=", sources)
  }

  /** The whole file as lines. */
  function ConfigLines(root: string, logfile: string, logconsole: bool,
                       includes: seq<string>, modules: seq<string>, sources: seq<string>): seq<string>
  {
    Preamble(root, logfile, logconsole) + Body(includes, modules, sources)
  }

  /** The text of a list of lines, each ended by "\n". */
  function Unlines(lines: seq<string>): string
  {
    if lines == [] then "" else Unlines(lines[..|lines| - 1]) + lines[|lines| - 1] + "\n"
  }

  /** Modules and sources: the referenced keys of each kind. */
  function ModulesIn(refs: map<string, string>, ks: set<string>): set<string>
  {
    set x | x in ks && IsModuleRef(refs, x)
  }

  function SourcesIn(refs: map<string, string>, ks: set<string>): set<string>
  {
    set x | x in ks && IsSourceRef(refs, x)
  }

  /** One more key in a listing. */
  lemma ListingSnoc(xs: seq<string>, s: set<string>, x: string)
    requires IsListing(xs, s) && x !in s
    ensures IsListing(xs + [x], s + {x})
  {
    var ys := xs + [x];
    assert forall i :: 0 <= i < |xs| ==> ys[i] == xs[i];
  }

  /** Each kind of key, one key at a time. */
  lemma KindsStep(refs: map<string, string>, done: set<string>, x: string)
    ensures ModulesIn(refs, done + {x}) == ModulesIn(refs, done) + (if IsModuleRef(refs, x) then {x} else {})
    ensures SourcesIn(refs, done + {x}) == SourcesIn(refs, done) + (if IsSourceRef(refs, x) then {x} else {})
    ensures IncludeDirsIn(refs, done + {x}) == IncludeDirsIn(refs, done) + (if IsIncludeRef(refs, x) then {IncludeDir(x)} else {})
  {
  }

  /** What the loop has gathered from the keys in done. */
  ghost predicate Gathered(refs: map<string, string>, done: set<string>,
                           modules: seq<string>, sources: seq<string>, includes: set<string>)
  {
    IsListing(modules, ModulesIn(refs, done))
    && IsListing(sources, SourcesIn(refs, done))
    && includes == IncludeDirsIn(refs, done)
  }

  /** The loop body for one key: the two nested switches become one test per
      kind; they select the same keys. */
  method ClassifyKey(refs: map<string, string>, x: string, ghost done: set<string>,
                     modules: seq<string>, sources: seq<string>, includes: set<string>)
    returns (modules': seq<string>, sources': seq<string>, includes': set<string>)
    requires x !in done
    requires Gathered(refs, done, modules, sources, includes)
    ensures Gathered(refs, done + {x}, modules', sources', includes')
  {
    KindsStep(refs, done, x);
    modules', sources', includes' := modules, sources, includes;
    if IsModuleRef(refs, x) {
      ListingSnoc(modules, ModulesIn(refs, done), x);
      modules' := modules + [x];
    } else if IsSourceRef(refs, x) {
      ListingSnoc(sources, SourcesIn(refs, done), x);
      sources' := sources + [x];
    } else if IsIncludeRef(refs, x) {
      includes' := includes + {IncludeDir(x)};
    }
  }

  /** The range loop over FilesReferenced, in whatever order Go picks: the .axs
      and .axi modules and sources, each once, and the set of include directories. */
  method Classify(refs: map<string, string>) returns (modules: seq<string>, sources: seq<string>, includes: set<string>)
    ensures IsListing(modules, ModulesIn(refs, refs.Keys))
    ensures IsListing(sources, SourcesIn(refs, refs.Keys))
    ensures includes == IncludeDirs(refs)
  {
    modules, sources, includes := [], [], {};
    var todo := refs.Keys;
    ghost var done: set<string> := {};
    while todo != {}
      invariant todo <= refs.Keys && done == refs.Keys - todo
      invariant Gathered(refs, done, modules, sources, includes)
      decreases |todo|
    {
      var x :| x in todo;
      modules, sources, includes := ClassifyKey(refs, x, done, modules, sources, includes);
      done := done + {x};
      todo := todo - {x};
    }
    assert done == refs.Keys;
  }

  /** The lines of the include-path loop, over the set in whatever order Go picks. */
  method IncludeLines(includes: set<string>) returns (lines: seq<string>, ghost order: seq<string>)
    ensures IsListing(order, includes)
    ensures lines == Prefixed("AdditionalIncludePath=", order)
  {
    lines, order := [], [];
    var rest := includes;
    while rest != {}
      invariant rest <= includes
      invariant forall d :: d in order <==> d in includes && d !in rest
      invariant forall i, j :: 0 <= i < j < |order| ==> order[i] != order[j]
      invariant lines == Prefixed("AdditionalIncludePath=", order)
      decreases |rest|
    {
      var d :| d in rest;
      lines := lines + ["AdditionalIncludePath=" + d];
      order := order + [d];
      rest := rest - {d};
    }
  }

  /** The lines of a range loop over a slice: p and each element. */
  method PrefixedLines(p: string, xs: seq<string>) returns (lines: seq<string>)
    ensures lines == Prefixed(p, xs)
  {
    lines := [];
    for i := 0 to |xs|
      invariant lines == Prefixed(p, xs[..i])
    {
      assert xs[..i + 1][..i] == xs[..i];
      lines := lines + [p + xs[i]];
    }
    assert xs[..|xs|] == xs;
  }

  /** GenerateCFG: the configuration for the referenced files, with the modules and
      the sources in ascending order and the include directories, each once, in
      the order the map loop produced them. */
  method GenerateCFG(a: APW, root: string, logfile: string, logconsole: bool)
    returns (cfg: string, ghost includeOrder: seq<string>)
    ensures IsListing(includeOrder, IncludeDirs(a.filesReferenced))
    ensures cfg == Unlines(ConfigLines(ToWindows(root), logfile, logconsole, includeOrder,
                                       SortedListing(ModulesIn(a.filesReferenced, a.filesReferenced.Keys)),
                                       SortedListing(SourcesIn(a.filesReferenced, a.filesReferenced.Keys))))
  {
    var refs := a.filesReferenced;
    var modules, sources, includes := Classify(refs);
    SortedListingUnique(modules, ModulesIn(refs, refs.Keys));
    SortedListingUnique(sources, SourcesIn(refs, refs.Keys));
    modules := SortBy(modules, Self);
    sources := SortBy(sources, Self);
    var r := ToWindows(root);
    var incLines;
    incLines, includeOrder := IncludeLines(includes);
    var modLines := PrefixedLines("AXSFILE=", modules);
    var srcLines := PrefixedLines("AXSFILE=", sources);
    cfg := Unlines(Preamble(r, logfile, logconsole) + (incLines + [""] + modLines + [""] + srcLines));
  }
  /** Where each part of the body sits: the include paths, a blank line, the
      modules, a blank line and the sources. */
  lemma BodyLayout(includes: seq<string>, modules: seq<string>, sources: seq<string>)
    ensures var b := Body(includes, modules, sources);
      var m := |includes| + 1;
      var s := m + |modules| + 1;
      |b| == s + |sources|
      && (forall i :: 0 <= i < |includes| ==> b[i] == "AdditionalIncludePath=" + includes[i])
      && b[m - 1] == ""
      && (forall i :: 0 <= i < |modules| ==> b[m + i] == "AXSFILE=" + modules[i])
      && b[s - 1] == ""
      && (forall i :: 0 <= i < |sources| ==> b[s + i] == "AXSFILE=" + sources[i])
  {
    BodyIncludes(includes, modules, sources);
    BodyModules(includes, modules, sources);
    BodySources(includes, modules, sources);
  }

  lemma BodyIncludes(includes: seq<string>, modules: seq<string>, sources: seq<string>)
    ensures var b := Body(includes, modules, sources);
      |b| == |includes| + |modules| + |sources| + 2
      && (forall i :: 0 <= i < |includes| ==> b[i] == "AdditionalIncludePath=" + includes[i])
      && b[|includes|] == ""
  {
  }

  lemma BodyModules(includes: seq<string>, modules: seq<string>, sources: seq<string>)
    ensures var b := Body(includes, modules, sources);
      var m := |includes| + 1;
      |b| == m + |modules| + 1 + |sources|
      && (forall i :: 0 <= i < |modules| ==> b[m + i] == "AXSFILE=" + modules[i])
      && b[m + |modules|] == ""
  {
    var a := Prefixed("AdditionalIncludePath=", includes) + [""];
    var mods := Prefixed("AXSFILE=", modules);
    var c := a + mods + [""];
    var srcs := Prefixed("AXSFILE=", sources);
    assert Body(includes, modules, sources) == c + srcs;
    forall i | 0 <= i < |modules| ensures (c + srcs)[|a| + i] == "AXSFILE=" + modules[i] {
      calc {
        (c + srcs)[|a| + i];
        c[|a| + i];
        (a + mods)[|a| + i];
        mods[i];
      }
    }
  }

  lemma BodySources(includes: seq<string>, modules: seq<string>, sources: seq<string>)
    ensures var b := Body(includes, modules, sources);
      var s := |includes| + |modules| + 2;
      |b| == s + |sources|
      && (forall i :: 0 <= i < |sources| ==> b[s + i] == "AXSFILE=" + sources[i])
  {
    var c := Prefixed("AdditionalIncludePath=", includes) + [""] + Prefixed("AXSFILE=", modules) + [""];
    var srcs := Prefixed("AXSFILE=", sources);
    assert Body(includes, modules, sources) == c + srcs;
    forall i | 0 <= i < |sources| ensures (c + srcs)[|c| + i] == "AXSFILE=" + sources[i] {
      assert (c + srcs)[|c| + i] == srcs[i];
    }
  }

  /** Two lines with the same prefix are the same line only for the same rest. */
  lemma PrefixedEqual(p: string, x: string, y: string)
    requires p + x == p + y
    ensures x == y
  {
    assert x == (p + x)[|p|..];
    assert y == (p + y)[|p|..];
  }

  /** A module or source line is never an include line. */
  lemma PathLinesDiffer(x: string, d: string)
    ensures "AXSFILE=" + x != "AdditionalIncludePath=" + d
  {
    assert ("AXSFILE=" + x)[1] == 'X';
    assert ("AdditionalIncludePath=" + d)[1] == 'd';
  }

  /** An include directory has a line exactly when it is one of the listed ones. */
  lemma IncludeLineIff(includes: seq<string>, modules: seq<string>, sources: seq<string>, d: string)
    ensures "AdditionalIncludePath=" + d in Body(includes, modules, sources) <==> d in includes
  {
    var b := Body(includes, modules, sources);
    BodyLayout(includes, modules, sources);
    if d in includes {
      IncludeLineListed(b, includes, d);
    } else {
      IncludeLineOnlyListed(b, includes, modules, sources, d);
    }
  }

  lemma IncludeLineListed(b: seq<string>, includes: seq<string>, d: string)
    requires d in includes && |includes| <= |b|
    requires forall i :: 0 <= i < |includes| ==> b[i] == "AdditionalIncludePath=" + includes[i]
    ensures "AdditionalIncludePath=" + d in b
  {
    var i :| 0 <= i < |includes| && includes[i] == d;
    assert b[i] == "AdditionalIncludePath=" + d;
  }

  lemma IncludeLineOnlyListed(b: seq<string>, includes: seq<string>, modules: seq<string>, sources: seq<string>, d: string)
    requires var m := |includes| + 1;
      var s := m + |modules| + 1;
      |b| == s + |sources|
      && (forall i :: 0 <= i < |includes| ==> b[i] == "AdditionalIncludePath=" + includes[i])
      && b[m - 1] == ""
      && (forall i :: 0 <= i < |modules| ==> b[m + i] == "AXSFILE=" + modules[i])
      && b[s - 1] == ""
      && (forall i :: 0 <= i < |sources| ==> b[s + i] == "AXSFILE=" + sources[i])
    requires d !in includes
    ensures "AdditionalIncludePath=" + d !in b
  {
    var line := "AdditionalIncludePath=" + d;
    var m := |includes| + 1;
    var s := m + |modules| + 1;
    forall i | 0 <= i < |b| ensures b[i] != line {
      if i < |includes| {
        if b[i] == line { PrefixedEqual("AdditionalIncludePath=", includes[i], d); }
      } else if m <= i < m + |modules| {
        assert b[m + (i - m)] == "AXSFILE=" + modules[i - m];
        PathLinesDiffer(modules[i - m], d);
      } else if i >= s {
        assert b[s + (i - s)] == "AXSFILE=" + sources[i - s];
        PathLinesDiffer(sources[i - s], d);
      }
    }
  }

  /** The root line names the root, or "-R" when it is empty. */
  lemma RootLine(root: string, logfile: string, logconsole: bool)
    ensures Preamble(root, logfile, logconsole)[7] ==
      if root == "" then "MainAXSRootDirectory=-R" else "MainAXSRootDirectory=" + root
  {
  }

  /** The log-file option is there exactly when a log file is named, and then the
      file sits in the root directory. */
  lemma LogFileOptionIff(root: string, logfile: string, logconsole: bool)
    ensures "OutputLogFileOption=N" in Preamble(root, logfile, logconsole) <==> logfile != ""
    ensures logfile != "" ==> "OutputLogFile=" + root + [Backslash] + logfile in Preamble(root, logfile, logconsole)
  {
    var line := "OutputLogFileOption=N";
    var banner := Banner(root);
    assert banner[4][0] == ';';
    assert line !in banner;
    var rl := RootLines(root);
    assert rl[0][0] == 'M';
    assert line !in rl;
    assert line != ConsoleLine(logconsole);
    var pre := Preamble(root, logfile, logconsole);
    assert pre == banner + rl + LogFileLines(root, logfile) + [ConsoleLine(logconsole)] + BuildOptions;
  }

  /** The console option reads Y exactly when console logging is asked for. */
  lemma ConsoleOptionIff(root: string, logfile: string, logconsole: bool)
    ensures "OutputLogConsoleOption=Y" in Preamble(root, logfile, logconsole) <==> logconsole
    ensures "OutputLogConsoleOption=N" in Preamble(root, logfile, logconsole) <==> !logconsole
  {
    var banner := Banner(root);
    assert banner[4][0] == ';';
    var rl := RootLines(root);
    assert rl[0][0] == 'M';
    var lf := LogFileLines(root, logfile);
    assert logfile != "" ==> lf[1][9] == 'F';
    assert "OutputLogConsoleOption=Y" !in banner && "OutputLogConsoleOption=N" !in banner;
    assert "OutputLogConsoleOption=Y" !in rl && "OutputLogConsoleOption=N" !in rl;
    assert "OutputLogConsoleOption=Y" !in lf && "OutputLogConsoleOption=N" !in lf;
    assert "OutputLogConsoleOption=Y" !in BuildOptions && "OutputLogConsoleOption=N" !in BuildOptions;
    assert ConsoleLine(true) == "OutputLogConsoleOption=Y";
    assert ConsoleLine(false) == "OutputLogConsoleOption=N";
    var pre := Preamble(root, logfile, logconsole);
    assert pre == banner + rl + lf + [ConsoleLine(logconsole)] + BuildOptions;
  }
}
