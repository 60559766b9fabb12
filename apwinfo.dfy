/** The APWInfo handle of structs.go, apw.go and os.go: the same derived names as
    APW, a Files map GatherFiles fills from the Workspace, checkFiles over it, and
    SaveArchive, which checks the files itself before zipping. */
module ApwInfo {
  import opened Wrappers
  import opened Paths
  import opened FileRefs
  import opened Archive
  import opened Workspaces
  import opened Apw

  class APWInfo {
    var identifier: string
    var name: string
    var filename: string
    var originPath: string
    var buildPath: string
    var files: map<string, string>
    var workspace: Workspace

    /** NewAPWInfo: the names derived from the file name, an empty Files map and
        the empty Workspace. */
    constructor NewAPWInfo(fn: string)
      ensures filename == fn && name == Base(fn) && identifier == IdentifierOf(fn)
      ensures originPath == Dir(fn) && buildPath == "" && files == map[]
      ensures fresh(workspace) && workspace.projects == []
      ensures workspace.Fields() == Header("", "", "", "", "", "") && workspace.currentVersion == ""
    {
      filename := fn;
      name := Base(fn);
      identifier := IdentifierOf(fn);
      originPath := Dir(fn);
      buildPath := "";
      files := map[];
      workspace := new Workspace.Empty();
    }

    /** GatherFiles: every File of the tree keyed by its resolved path. Its
        nil-workspace guard tests the address of a field and never fires. */
    method GatherFiles() returns (err: Option<string>)
      modifies this
      ensures err.None?
      ensures files == Collect(old(files), originPath, AllFiles(workspace.projects))
      ensures identifier == old(identifier) && name == old(name) && filename == old(filename)
      ensures originPath == old(originPath) && buildPath == old(buildPath) && workspace == old(workspace)
    {
      files := CollectReferences(files, originPath, workspace.projects);
      return None;
    }

    /** checkFiles: the keys os.Stat does not find, each once, and the error
        "Files Missing" exactly when there is one. */
    method CheckFiles(onDisk: set<string>) returns (missing: seq<string>, err: Option<string>)
      ensures ListsOnce(missing, Absent(files, onDisk))
      ensures err.Some? <==> |missing| > 0
      ensures err.Some? ==> err.value == "Files Missing"
    {
      missing := MissingKeys(files, onDisk);
      if |missing| > 0 {
        return missing, Some("Files Missing");
      }
      return [], None;
    }

    /** SaveArchive: refused when files are missing on disk, with the count and
        "Files" in the plural even for a single file; otherwise the zip in destDir, one entry per file, then the Workspace's
        Bytes under Identifier.apw (empty when encoding fails, since that error is
        dropped). Bytes is only reached once z.Create has succeeded for the
        workspace entry, and it stamps CurrentVersion. */
    method SaveArchive(destDir: string, buildID: string, marshalled: Result<string, string>,
                       onDisk: set<string>, failures: Failures)
      returns (outcome: Outcome)
      modifies workspace
      ensures outcome.Refused? <==> |Absent(files, onDisk)| > 0
      ensures outcome.Refused? ==> outcome.message == MissingMessageAsWritten(|Absent(files, onDisk)|)
      ensures !outcome.Refused? ==> outcome.zip == Join(destDir, ArchiveName(identifier, buildID))
      ensures outcome.Aborted? ==> (outcome.step, outcome.path) in failures
      ensures outcome.Aborted? ==> FirstFailure((outcome.step, outcome.path), outcome.zip, files, failures)
      ensures !outcome.Refused? && (CreateZip, outcome.zip) in failures ==> outcome.Aborted? && outcome.entries == []
      ensures !outcome.Refused? ==> forall i :: 0 <= i < |outcome.entries| ==> !FileFails(outcome.entries[i].source, failures)
      ensures outcome.Saved? <==>
        |Absent(files, onDisk)| == 0
        && Completes(Join(destDir, ArchiveName(identifier, buildID)), files, identifier + ".apw", failures)
      ensures outcome.Saved? ==>
        AllEntries(outcome.entries, files) && outcome.descriptor == identifier + ".apw"
        && outcome.content == (if marshalled.Success? then XmlHeader + marshalled.value else "")
      ensures !outcome.Refused? ==> forall i :: 0 <= i < |outcome.entries| ==> EntryOf(outcome.entries[i], files)
      ensures outcome.Saved? ==> workspace.currentVersion == StudioVersion
      ensures outcome.Refused? || outcome.Aborted? ==> workspace.currentVersion == old(workspace.currentVersion)
      ensures workspace.Fields() == old(workspace.Fields()) && workspace.projects == old(workspace.projects)
    {
      var missing, err := CheckFiles(onDisk);
      if err.Some? {
        return Refused(MissingMessageAsWritten(|missing|));
      }
      var zip := Join(destDir, ArchiveName(identifier, buildID));
      var entries, failed := WriteEntries(zip, files, failures);
      if failed.Some? {
        return Aborted(failed.value.0, failed.value.1, zip, entries);
      }
      var descriptor := identifier + ".apw";
      if (CreateDescriptor, descriptor) in failures {
        return Fatal(zip, entries);
      }
      var bytes := workspace.Bytes(marshalled);
      var content := if bytes.Success? then bytes.value else "";
      assert marshalled.Success? ==> content == XmlHeader + marshalled.value;
      return Finish(zip, entries, descriptor, content, failures);
    }
  }
}
