/** apw/apw.go: the APW handle of one .apw file. NewAPW fills in the names
    derived from the file name, decodes the workspace when there is XML, gathers
    the referenced files and sorts the tree; ExportArchive zips everything. The
    XML decoder, os.Stat and the zip writer are parameters: the decoded
    Workspace (or the decoder's error), the set of paths that exist, and the set
    of calls that fail. */
module Apw {
  import opened Wrappers
  import opened Paths
  import opened Sorting
  import opened Files
  import opened Projects
  import opened Trees
  import opened FileRefs
  import opened Archive
  import opened Workspaces

  /** The Identifier of an .apw file: its base name without the extension. */
  function IdentifierOf(filename: string): (id: string)
    ensures id + Ext(Base(filename)) == Base(filename)
  {
    StemAndExt(Base(filename));
    TrimSuffix(Base(filename), Ext(Base(filename)))
  }

  /** Trimming a name's extension leaves the part the extension follows. */
  lemma StemAndExt(name: string)
    ensures TrimSuffix(name, Ext(name)) + Ext(name) == name
  {
    ExtIsSuffix(name);
  }

  /** The workspace in dir/Foo.apw is called Foo. */
  lemma IdentifierOfApwFile(dir: string, stem: string)
    requires Separator !in stem
    ensures IdentifierOf(Join(dir, stem + ".apw")) == stem
  {
    ApwName(stem);
    BaseOfJoin(dir, stem + ".apw");
  }

  /** stem + ".apw" is a plain name whose extension is ".apw" and whose stem is stem. */
  lemma ApwName(stem: string)
    requires Separator !in stem
    ensures PlainName(stem + ".apw")
    ensures Ext(stem + ".apw") == ".apw" && TrimSuffix(stem + ".apw", ".apw") == stem
  {
    var name := stem + ".apw";
    assert stem + "." + "apw" == name;
    ExtOfAppended(stem, "apw");
    assert name[|name| - 4..] == ".apw";
    assert name[..|name| - 4] == stem;
    assert Separator !in name by {
      forall i | 0 <= i < |name| ensures name[i] != Separator {
        if i < |stem| { assert name[i] == stem[i]; }
      }
    }
  }

  class APW {
    var identifier: string
    var name: string
    var filename: string
    var originPath: string
    var buildPath: string
    var filesReferenced: map<string, string>
    var filesMissing: seq<string>
    var workspace: Workspace

    /** The names derived from the file name, no references yet, and the empty
        Workspace. */
    constructor Named(fn: string)
      ensures filename == fn && name == Base(fn) && identifier == IdentifierOf(fn)
      ensures originPath == Dir(fn) && buildPath == ""
      ensures filesReferenced == map[] && filesMissing == []
      ensures fresh(workspace) && workspace.projects == []
      ensures workspace.identifier == "" && workspace.createVersion == "" && workspace.pjsFile == ""
      ensures workspace.pjsConvertDate == "" && workspace.pjsCreateDate == "" && workspace.comments == ""
      ensures workspace.currentVersion == ""
    {
      var w := new Workspace.Empty();
      var n, id, dir := Base(fn), IdentifierOf(fn), Dir(fn);
      filename := fn;
      name := n;
      identifier := id;
      originPath := dir;
      buildPath := "";
      filesReferenced := map[];
      filesMissing := [];
      workspace := w;
    }

    /** NewAPW. Without XML: the names and an empty Workspace. With XML that does
        not decode: the decoder's error. Otherwise the decoded Workspace, its
        references gathered from the tree as decoded, then the tree sorted. */
    static method NewAPW(fn: string, xml: Option<Result<Workspace, string>>, onDisk: set<string>)
      returns (r: Result<APW, string>)
      modifies if xml.Some? && xml.value.Success? then {xml.value.value} else {}
      ensures xml.Some? && xml.value.Failure? ==> r == Failure(xml.value.error)
      ensures !(xml.Some? && xml.value.Failure?) ==>
        r.Success? && fresh(r.value)
        && r.value.filename == fn && r.value.name == Base(fn) && r.value.identifier == IdentifierOf(fn)
        && r.value.originPath == Dir(fn) && r.value.buildPath == ""
      ensures xml.None? ==>
        r.Success? && r.value.filesReferenced == map[] && r.value.filesMissing == []
        && fresh(r.value.workspace) && r.value.workspace.projects == []
      ensures xml.Some? && xml.value.Success? ==>
        var w := xml.value.value;
        r.Success? && r.value.workspace == w
        && r.value.filesReferenced == Collect(map[], Dir(fn), AllFiles(old(w.projects)))
        && ListsOnce(r.value.filesMissing, Absent(r.value.filesReferenced, onDisk))
        && w.projects == SortedTree(old(w.projects))
        && w.Fields() == old(w.Fields()) && w.currentVersion == old(w.currentVersion)
    {
      if xml.None? {
        var a := new APW.Named(fn);
        return Success(a);
      }
      if xml.value.Failure? {
        return Failure(xml.value.error);
      }
      var d := Decoded(fn, xml.value.value, onDisk);
      return Success(d);
    }

    /** The part of NewAPW after a successful decode: the handle named after fn
        holds w, gathers its references from the tree as decoded, then sorts it. */
    static method Decoded(fn: string, w: Workspace, onDisk: set<string>) returns (a: APW)
      modifies w
      ensures fresh(a) && a.workspace == w
      ensures a.filename == fn && a.name == Base(fn) && a.identifier == IdentifierOf(fn)
      ensures a.originPath == Dir(fn) && a.buildPath == ""
      ensures a.filesReferenced == Collect(map[], Dir(fn), AllFiles(old(w.projects)))
      ensures ListsOnce(a.filesMissing, Absent(a.filesReferenced, onDisk))
      ensures w.projects == SortedTree(old(w.projects))
      ensures w.Fields() == old(w.Fields()) && w.currentVersion == old(w.currentVersion)
    {
      a := new APW.Named(fn);
      a.workspace := w;
      var _ := a.PopulateFileReferences(onDisk);
      assert a.filesMissing[0..] == a.filesMissing;
      w.SortTree();
    }

    /** populateFileReferences: every File of the tree keyed by its resolved path,
        then each key os.Stat does not find appended to FilesMissing once. Its
        nil-workspace guard tests the address of a field and never fires. */
    method PopulateFileReferences(onDisk: set<string>) returns (err: Option<string>)
      modifies this
      ensures err.None?
      ensures filesReferenced == Collect(old(filesReferenced), originPath, AllFiles(workspace.projects))
      ensures |filesMissing| >= |old(filesMissing)| && filesMissing[..|old(filesMissing)|] == old(filesMissing)
      ensures ListsOnce(filesMissing[|old(filesMissing)|..], Absent(filesReferenced, onDisk))
      ensures identifier == old(identifier) && name == old(name) && filename == old(filename)
      ensures originPath == old(originPath) && buildPath == old(buildPath) && workspace == old(workspace)
    {
      var refs := CollectReferences(filesReferenced, originPath, workspace.projects);
      filesReferenced := refs;
      var missing := MissingKeys(refs, onDisk);
      assert (filesMissing + missing)[|filesMissing|..] == missing;
      filesMissing := filesMissing + missing;
      return None;
    }

    /** ExportArchive: refused with a count when files are missing; otherwise the
        zip in destDir, one entry per referenced file, then the workspace XML
        under Identifier.apw. The first failing call ends the run; a failure on
        the workspace entry ends it through log.Fatal. */
    method ExportArchive(destDir: string, buildID: string, xml: string, failures: Failures)
      returns (outcome: Outcome)
      ensures outcome.Refused? <==> |filesMissing| > 0
      ensures outcome.Refused? ==> outcome.message == MissingMessage(|filesMissing|)
      ensures !outcome.Refused? ==> outcome.zip == Join(destDir, ArchiveName(identifier, buildID))
      ensures outcome.Aborted? ==> (outcome.step, outcome.path) in failures
      ensures outcome.Aborted? ==> FirstFailure((outcome.step, outcome.path), outcome.zip, filesReferenced, failures)
      ensures !outcome.Refused? && (CreateZip, outcome.zip) in failures ==> outcome.Aborted? && outcome.entries == []
      ensures !outcome.Refused? ==> forall i :: 0 <= i < |outcome.entries| ==> !FileFails(outcome.entries[i].source, failures)
      ensures outcome.Saved? <==>
        |filesMissing| == 0
        && Completes(Join(destDir, ArchiveName(identifier, buildID)), filesReferenced, identifier + ".apw", failures)
      ensures outcome.Saved? ==>
        AllEntries(outcome.entries, filesReferenced)
        && outcome.descriptor == identifier + ".apw" && outcome.content == xml
      ensures !outcome.Refused? ==> forall i :: 0 <= i < |outcome.entries| ==> EntryOf(outcome.entries[i], filesReferenced)
    {
      if |filesMissing| > 0 {
        return Refused(MissingMessage(|filesMissing|));
      }
      var zip := Join(destDir, ArchiveName(identifier, buildID));
      var entries, failed := WriteEntries(zip, filesReferenced, failures);
      if failed.Some? {
        return Aborted(failed.value.0, failed.value.1, zip, entries);
      }
      var descriptor := identifier + ".apw";
      if (CreateDescriptor, descriptor) in failures {
        return Fatal(zip, entries);
      }
      return Finish(zip, entries, descriptor, xml, failures);
    }
  }
}
