/** The Workspace of apw/workspace.go and of workspace/workspace.go with
    workspace/os.go: the root of an .apw file. The two variants behave the same;
    one class models both. Its methods change its Projects in place. */
module Workspaces {
  import opened Wrappers
  import opened Sorting
  import opened Lookup
  import opened Paths
  import opened Files
  import opened Systems
  import opened Projects
  import opened Conversion
  import opened Trees

  /** encoding/xml's Header: the declaration Bytes writes before the document. */
  const XmlHeader: string := "<?xml version=\"1.0\" encoding=\"UTF-8\"?>\n"

  /** The version NetLinx Studio 4 writes. */
  const StudioVersion: string := "4.0"

  /** The Workspace fields other than Projects and CurrentVersion. */
  datatype Header = Header(
    identifier: string,
    createVersion: string,
    pjsFile: string,
    pjsConvertDate: string,
    pjsCreateDate: string,
    comments: string)

  class Workspace {
    var identifier: string
    var createVersion: string
    var pjsFile: string
    var pjsConvertDate: string
    var pjsCreateDate: string
    var comments: string
    var projects: seq<Project>
    var currentVersion: string

    function Fields(): Header
      reads this
    {
      Header(identifier, createVersion, pjsFile, pjsConvertDate, pjsCreateDate, comments)
    }

    /** NewWorkspace: the given Identifier, both versions "4.0", no Projects. */
    constructor NewWorkspace(id: string)
      ensures identifier == id && currentVersion == StudioVersion && createVersion == StudioVersion
      ensures projects == []
      ensures pjsFile == "" && pjsConvertDate == "" && pjsCreateDate == "" && comments == ""
    {
      identifier := id;
      createVersion := StudioVersion;
      pjsFile := "";
      pjsConvertDate := "";
      pjsCreateDate := "";
      comments := "";
      projects := [];
      currentVersion := StudioVersion;
    }

    /** The zero Workspace (`&Workspace{}`): every field empty. */
    constructor Empty()
      ensures Fields() == Header("", "", "", "", "", "") && projects == [] && currentVersion == ""
    {
      identifier := "";
      createVersion := "";
      pjsFile := "";
      pjsConvertDate := "";
      pjsCreateDate := "";
      comments := "";
      projects := [];
      currentVersion := "";
    }

    /** FindProject: the first Project whose Identifier is id, or None. */
    method FindProject(id: string) returns (r: Option<Project>)
      ensures r.None? <==> NoMatch(projects, ProjectIdentifier, id)
      ensures r.Some? ==> exists i :: FirstMatch(projects, ProjectIdentifier, id, i) && r.value == projects[i]
    {
      r := FindFirst(projects, ProjectIdentifier, id);
    }

    /** AddProject: p appended, then the Projects sorted by Identifier. */
    method AddProject(p: Project)
      modifies this
      ensures |projects| == |old(projects)| + 1
      ensures multiset(projects) == multiset(old(projects)) + multiset{p}
      ensures SortedBy(projects, ProjectIdentifier)
      ensures Fields() == old(Fields()) && currentVersion == old(currentVersion)
    {
      projects := projects + [p];
      assert multiset(projects) == multiset(old(projects)) + multiset{p};
      projects := SortBy(projects, ProjectIdentifier);
      assert |projects| == |multiset(projects)|;
    }

    /** The loop over the Projects shared by convert, SetRelativeFilepaths and
        SetAbsoluteFilepaths: each Project's Systems get their Files rewritten. */
    method RewriteAll(r: Rewrite)
      modifies this
      ensures projects == MapFileLists(old(projects), r)
      ensures Fields() == old(Fields()) && currentVersion == old(currentVersion)
    {
      var pi := 0;
      while pi < |projects|
        invariant 0 <= pi <= |projects| == |old(projects)|
        invariant forall k :: 0 <= k < pi ==> projects[k] == WithFiles(old(projects)[k], r)
        invariant forall k :: pi <= k < |projects| ==> projects[k] == old(projects)[k]
        invariant Fields() == old(Fields()) && currentVersion == old(currentVersion)
      {
        var p := RewriteProject(r, projects[pi]);
        projects := projects[pi := p];
        pi := pi + 1;
      }
    }

    /** convert: each System's Files replaced by the survivors, converted. */
    method Convert(pt: Profile)
      modifies this
      ensures projects == ConvertedProjects(old(projects), pt)
      ensures Fields() == old(Fields()) && currentVersion == old(currentVersion)
    {
      RewriteAll(ConvertTo(pt));
    }

    /** ConvertToRelease: convert with ptRelease. */
    method ConvertToRelease()
      modifies this
      ensures projects == ConvertedProjects(old(projects), Release)
      ensures Fields() == old(Fields()) && currentVersion == old(currentVersion)
    {
      Convert(Release);
    }

    /** ConvertToHandover: convert with ptHandover. */
    method ConvertToHandover()
      modifies this
      ensures projects == ConvertedProjects(old(projects), Handover)
      ensures Fields() == old(Fields()) && currentVersion == old(currentVersion)
    {
      Convert(Handover);
    }

    /** SetRelativeFilepaths: every FilePathName becomes its type folder joined to its
        base name. */
    method SetRelativeFilepaths()
      modifies this
      ensures projects == RelativeProjects(old(projects))
      ensures Fields() == old(Fields()) && currentVersion == old(currentVersion)
    {
      RewriteAll(MakeRelative);
    }

    /** SetAbsoluteFilepaths: every relative FilePathName joined to base. */
    method SetAbsoluteFilepaths(base: string)
      modifies this
      ensures projects == AbsoluteProjects(old(projects), base)
      ensures Fields() == old(Fields()) && currentVersion == old(currentVersion)
    {
      RewriteAll(MakeAbsolute(base));
    }

    /** Bytes: CurrentVersion set to "4.0", then the XML header followed by the
        encoder's output for the Workspace, or the encoder's error. */
    method Bytes(marshalled: Result<string, string>) returns (r: Result<string, string>)
      modifies this
      ensures currentVersion == StudioVersion
      ensures Fields() == old(Fields()) && projects == old(projects)
      ensures marshalled.Failure? ==> r == Failure(marshalled.error)
      ensures marshalled.Success? ==>
        r.Success? && |r.value| == |XmlHeader| + |marshalled.value|
        && r.value[..|XmlHeader|] == XmlHeader && r.value[|XmlHeader|..] == marshalled.value
    {
      currentVersion := StudioVersion;
      var b := XmlHeader;
      if marshalled.Failure? {
        return Failure(marshalled.error);
      }
      b := b + marshalled.value;
      return Success(b);
    }

    /** The sorting Load (and NewAPW) does once the XML is decoded: the Projects by
        Identifier, then, Project by Project, its Systems. What that order is,
        SortedTreeOrdered states. */
    method SortTree()
      modifies this
      ensures projects == SortedTree(old(projects))
      ensures Fields() == old(Fields()) && currentVersion == old(currentVersion)
    {
      projects := SortBy(projects, ProjectIdentifier);
      projects := SortEach(projects);
    }
  }

  /** The loop over the sorted Projects: each one's Systems sorted in turn. */
  method SortEach(ps: seq<Project>) returns (qs: seq<Project>)
    ensures qs == MapSeq(ps, SortSystems)
  {
    qs := ps;
    var i := 0;
    while i < |qs|
      invariant 0 <= i <= |qs| == |ps|
      invariant forall k :: 0 <= k < i ==> qs[k] == SortSystems(ps[k])
      invariant forall k :: i <= k < |qs| ==> qs[k] == ps[k]
    {
      qs := qs[i := SortSystems(qs[i])];
      i := i + 1;
    }
    MapSeqAt(ps, SortSystems);
  }
}
