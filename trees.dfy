/** The Workspace tree below the Workspace itself: Projects holding Systems
    holding Files. The whole-tree rewrites of apw/workspace.go and
    workspace/os.go (convert, SetRelativeFilepaths, SetAbsoluteFilepaths) each
    replace every System's Files and nothing else; MapFileLists states that once. */
module Trees {
  import opened Text
  import opened Paths
  import opened Sorting
  import opened Files
  import opened Systems
  import opened Projects
  import opened Folders
  import opened Conversion

  /** The three whole-tree rewrites, each a function from a System's Files to
      its new Files. */
  datatype Rewrite = ConvertTo(pt: Profile) | MakeRelative | MakeAbsolute(base: string)

  /** The new Files of one System under a rewrite. */
  function Rewritten(r: Rewrite, fs: seq<File>): (out: seq<File>)
    ensures !r.ConvertTo? ==> |out| == |fs|
  {
    match r
    case ConvertTo(pt) => ConvertedFiles(fs, pt)
    case MakeRelative => seq(|fs|, k requires 0 <= k < |fs| => RelativeFile(fs[k]))
    case MakeAbsolute(base) => seq(|fs|, k requires 0 <= k < |fs| => AbsoluteFile(base, fs[k]))
  }

  /** p with every System's Files rewritten. */
  function WithFiles(p: Project, r: Rewrite): (q: Project)
    ensures |q.systems| == |p.systems|
    ensures forall j :: 0 <= j < |p.systems| ==> q.systems[j] == p.systems[j].(files := Rewritten(r, p.systems[j].files))
    ensures q.(systems := p.systems) == p
  {
    p.(systems := seq(|p.systems|, j requires 0 <= j < |p.systems| => p.systems[j].(files := Rewritten(r, p.systems[j].files))))
  }

  /** Every System of every Project gets its Files rewritten; the Projects, the
      Systems, their number, order and every other field stay as they were. */
  function MapFileLists(ps: seq<Project>, r: Rewrite): (out: seq<Project>)
    ensures |out| == |ps|
    ensures forall i :: 0 <= i < |ps| ==> out[i] == WithFiles(ps[i], r)
  {
    seq(|ps|, i requires 0 <= i < |ps| => WithFiles(ps[i], r))
  }

  /** A rewrite that changes no System's Files the second time changes nothing the
      second time over the whole tree. */
  lemma MapFileListsIdempotent(ps: seq<Project>, r: Rewrite)
    requires forall i, j :: 0 <= i < |ps| && 0 <= j < |ps[i].systems| ==>
      Rewritten(r, Rewritten(r, ps[i].systems[j].files)) == Rewritten(r, ps[i].systems[j].files)
    ensures MapFileLists(MapFileLists(ps, r), r) == MapFileLists(ps, r)
  {
    var once := MapFileLists(ps, r);
    forall i | 0 <= i < |ps| ensures WithFiles(once[i], r) == once[i] {
      var p := once[i];
      forall j | 0 <= j < |p.systems| ensures WithFiles(p, r).systems[j] == p.systems[j] {
        assert p.systems[j].files == Rewritten(r, ps[i].systems[j].files);
      }
    }
  }

  /** The loop over one System's Files, for each rewrite. convert collects the
      survivors into a new list; the other two overwrite FilePathName in place. */
  method RewriteFiles(r: Rewrite, fs: seq<File>) returns (files: seq<File>)
    ensures files == Rewritten(r, fs)
  {
    if r.ConvertTo? {
      files := ConvertFiles(fs, r.pt);
      return;
    }
    files := fs;
    var fi := 0;
    while fi < |files|
      invariant 0 <= fi <= |files| == |fs|
      invariant forall k :: 0 <= k < fi ==> files[k] == Rewritten(r, fs)[k]
      invariant forall k :: fi <= k < |files| ==> files[k] == fs[k]
    {
      var f := files[fi];
      if r.MakeRelative? {
        files := files[fi := f.(filePathName := Join(FileFolder(f.fileType), Base(f.filePathName)))];
      } else if !IsAbs(f.filePathName) {
        files := files[fi := f.(filePathName := Join(r.base, f.filePathName))];
      }
      fi := fi + 1;
    }
  }

  /** The loop over one Project's Systems. */
  method RewriteProject(r: Rewrite, p: Project) returns (q: Project)
    ensures q == WithFiles(p, r)
  {
    var systems := p.systems;
    var si := 0;
    while si < |systems|
      invariant 0 <= si <= |systems| == |p.systems|
      invariant forall k :: 0 <= k < si ==> systems[k] == p.systems[k].(files := Rewritten(r, p.systems[k].files))
      invariant forall k :: si <= k < |systems| ==> systems[k] == p.systems[k]
    {
      var files := RewriteFiles(r, systems[si].files);
      systems := systems[si := systems[si].(files := files)];
      si := si + 1;
    }
    q := p.(systems := systems);
  }

  /** convert over the whole tree. */
  function ConvertedProjects(ps: seq<Project>, pt: Profile): seq<Project>
  {
    MapFileLists(ps, ConvertTo(pt))
  }

  /** convert keeps the shape of the tree, never grows a System's Files, and keeps
      their number unless it builds a Release. */
  lemma ConvertedProjectsShape(ps: seq<Project>, pt: Profile)
    ensures |ConvertedProjects(ps, pt)| == |ps|
    ensures forall i :: 0 <= i < |ps| ==>
      var p := ConvertedProjects(ps, pt)[i];
      p.(systems := ps[i].systems) == ps[i] && |p.systems| == |ps[i].systems|
      && forall j :: 0 <= j < |p.systems| ==>
        p.systems[j].(files := ps[i].systems[j].files) == ps[i].systems[j]
        && |p.systems[j].files| <= |ps[i].systems[j].files|
        && (pt != Release ==> |p.systems[j].files| == |ps[i].systems[j].files|)
  {
  }

  /** Converting the tree a second time with the same profile changes nothing. */
  lemma ConvertedProjectsIdempotent(ps: seq<Project>, pt: Profile)
    ensures ConvertedProjects(ConvertedProjects(ps, pt), pt) == ConvertedProjects(ps, pt)
  {
    forall i, j | 0 <= i < |ps| && 0 <= j < |ps[i].systems|
      ensures Rewritten(ConvertTo(pt), Rewritten(ConvertTo(pt), ps[i].systems[j].files))
        == Rewritten(ConvertTo(pt), ps[i].systems[j].files)
    {
      ConvertedFilesIdempotent(ps[i].systems[j].files, pt);
    }
    MapFileListsIdempotent(ps, ConvertTo(pt));
  }

  /** SetRelativeFilepaths on one File: its type folder joined to its base name. */
  function RelativeFile(f: File): (r: File)
    ensures r.(filePathName := f.filePathName) == f
    ensures CleanName(Base(f.filePathName)) ==>
      Base(r.filePathName) == Base(f.filePathName) && Dir(r.filePathName) == FileFolder(f.fileType)
  {
    var r := f.(filePathName := Join(FileFolder(f.fileType), Base(f.filePathName)));
    assert CleanName(Base(f.filePathName)) ==>
      Base(r.filePathName) == Base(f.filePathName) && Dir(r.filePathName) == FileFolder(f.fileType) by {
      if CleanName(Base(f.filePathName)) {
        BaseOfJoin(FileFolder(f.fileType), Base(f.filePathName));
        DirOfJoin(FileFolder(f.fileType), Base(f.filePathName));
      }
    }
    r
  }

  /** SetRelativeFilepaths on one File as Go computes it, with the Clean inside
      filepath.Join. It is RelativeFile whenever the base name is one Clean keeps. */
  function RelativeFileAsWritten(f: File): (r: File)
    ensures r.(filePathName := f.filePathName) == f
    ensures CleanName(Base(f.filePathName)) ==> r == RelativeFile(f)
  {
    var r := f.(filePathName := CleanJoin(FileFolder(f.fileType), Base(f.filePathName)));
    assert CleanName(Base(f.filePathName)) ==> r == RelativeFile(f) by {
      if CleanName(Base(f.filePathName)) { CleanJoinOfNames(FileFolder(f.fileType), Base(f.filePathName)); }
    }
    r
  }

  /** A Source File with an empty path has the base ".", which Clean drops: the
      first pass gives the bare folder "Source", the second "Source/Source". */
  lemma RelativeFileAsWrittenNotIdempotent(f: File)
    requires f.filePathName == "" && f.fileType == "Source"
    ensures RelativeFileAsWritten(f).filePathName == "Source"
    ensures RelativeFileAsWritten(RelativeFileAsWritten(f)).filePathName == "Source/Source"
  {
    assert FileFolder(f.fileType) == "Source";
    FirstRelativePass(f);
    SecondRelativePass(RelativeFileAsWritten(f));
    SourceTwice();
  }

  lemma SourceTwice()
    ensures "Source" + [Separator] + "Source" == "Source/Source"
  {
  }

  /** A File with an empty path is moved to its folder alone. */
  lemma FirstRelativePass(f: File)
    requires f.filePathName == ""
    ensures RelativeFileAsWritten(f).filePathName == FileFolder(f.fileType)
  {
    assert Base(f.filePathName) == ".";
    CleanDropsDot(FileFolder(f.fileType));
  }

  /** A File whose path is its folder alone gets the folder twice. */
  lemma SecondRelativePass(g: File)
    requires g.filePathName == FileFolder(g.fileType)
    ensures RelativeFileAsWritten(g).filePathName == g.filePathName + [Separator] + g.filePathName
  {
    BaseOfPlain(g.filePathName);
    CleanJoinOfNames(g.filePathName, g.filePathName);
  }

  /** SetAbsoluteFilepaths on one File: a relative path joined to base, an absolute
      one left alone. */
  function AbsoluteFile(base: string, f: File): (r: File)
    ensures r.(filePathName := f.filePathName) == f
    ensures IsAbs(f.filePathName) ==> r == f
    ensures !IsAbs(f.filePathName) ==> r.filePathName == Join(base, f.filePathName)
    ensures IsAbs(base) ==> IsAbs(r.filePathName)
  {
    if IsAbs(f.filePathName) then f else f.(filePathName := Join(base, f.filePathName))
  }

  /** SetRelativeFilepaths over the whole tree. */
  function RelativeProjects(ps: seq<Project>): seq<Project>
  {
    MapFileLists(ps, MakeRelative)
  }

  /** SetAbsoluteFilepaths over the whole tree. */
  function AbsoluteProjects(ps: seq<Project>, base: string): seq<Project>
  {
    MapFileLists(ps, MakeAbsolute(base))
  }

  /** Every File's base name is one Join keeps as its last element. */
  predicate CleanBaseNames(ps: seq<Project>)
  {
    forall i, j, k :: 0 <= i < |ps| && 0 <= j < |ps[i].systems| && 0 <= k < |ps[i].systems[j].files| ==>
      CleanName(Base(ps[i].systems[j].files[k].filePathName))
  }

  /** SetRelativeFilepaths twice is SetRelativeFilepaths once. */
  lemma RelativeProjectsIdempotent(ps: seq<Project>)
    requires CleanBaseNames(ps)
    ensures RelativeProjects(RelativeProjects(ps)) == RelativeProjects(ps)
  {
    forall i, j | 0 <= i < |ps| && 0 <= j < |ps[i].systems|
      ensures Rewritten(MakeRelative, Rewritten(MakeRelative, ps[i].systems[j].files))
        == Rewritten(MakeRelative, ps[i].systems[j].files)
    {
      var fs := ps[i].systems[j].files;
      var once := Rewritten(MakeRelative, fs);
      forall k | 0 <= k < |once| ensures RelativeFile(once[k]) == once[k] {
        assert CleanName(Base(fs[k].filePathName));
      }
    }
    MapFileListsIdempotent(ps, MakeRelative);
  }

  /** SetAbsoluteFilepaths twice with the same absolute (or empty) base is
      SetAbsoluteFilepaths once. */
  lemma AbsoluteProjectsIdempotent(ps: seq<Project>, base: string)
    requires IsAbs(base) || base == ""
    ensures AbsoluteProjects(AbsoluteProjects(ps, base), base) == AbsoluteProjects(ps, base)
  {
    forall i, j | 0 <= i < |ps| && 0 <= j < |ps[i].systems|
      ensures Rewritten(MakeAbsolute(base), Rewritten(MakeAbsolute(base), ps[i].systems[j].files))
        == Rewritten(MakeAbsolute(base), ps[i].systems[j].files)
    {
      var fs := ps[i].systems[j].files;
      var once := Rewritten(MakeAbsolute(base), fs);
      forall k | 0 <= k < |once| ensures AbsoluteFile(base, once[k]) == once[k] {
      }
    }
    MapFileListsIdempotent(ps, MakeAbsolute(base));
  }

  /** A Project with its Systems sorted by Identifier (the loop of Load and NewAPW). */
  function SortSystems(p: Project): (r: Project)
    ensures multiset(r.systems) == multiset(p.systems) && SortedBy(r.systems, SystemIdentifier)
    ensures r.(systems := p.systems) == p
  {
    p.(systems := SortBy(p.systems, SystemIdentifier))
  }

  /** The tree after Load: Projects sorted by Identifier, then each Project's Systems. */
  function SortedTree(ps: seq<Project>): seq<Project>
  {
    MapSeq(SortBy(ps, ProjectIdentifier), SortSystems)
  }

  /** After sorting, both levels are ordered, and the Projects are the input's
      Projects, each with its Systems rearranged. */
  lemma SortedTreeOrdered(ps: seq<Project>)
    ensures SortedBy(SortedTree(ps), ProjectIdentifier)
    ensures forall i :: 0 <= i < |SortedTree(ps)| ==> SortedBy(SortedTree(ps)[i].systems, SystemIdentifier)
    ensures multiset(SortedTree(ps)) == multiset(MapSeq(ps, SortSystems))
  {
    var sorted := SortBy(ps, ProjectIdentifier);
    var r := SortedTree(ps);
    MapSeqAt(sorted, SortSystems);
    forall i, j | 0 <= i < j < |r| ensures !Less(ProjectIdentifier(r[j]), ProjectIdentifier(r[i])) {
      assert r[i].identifier == sorted[i].identifier && r[j].identifier == sorted[j].identifier;
    }
    MapSeqPermutation(sorted, ps, SortSystems);
  }
}
