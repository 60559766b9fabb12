/** The per-file switch of Workspace.convert (apw/workspace.go:80-120 and
    workspace/workspace.go:81-121): a File is kept, renamed to its compiled
    extension, given a default DeviceMap, or dropped, by its extension, its
    declared Type and the profile being built. */
module Conversion {
  import opened Wrappers
  import opened Paths
  import opened Files

  /** packType: ptRelease, ptHandover and ptFull, in iota order. */
  datatype Profile = Release | Handover | Full

  /** The DeviceMap a released master source gets when it has none. */
  const CustomDeviceMap := DeviceMap("Custom [0:1:0]", "Custom [0:1:0]")

  /** A main source file compiled for a Release: extension ".tkn". */
  predicate ReleasesSource(f: File, pt: Profile)
  {
    pt == Release && Ext(f.filePathName) == ".axs" && (f.fileType == "Source" || f.fileType == "MasterSrc")
  }

  /** A module source handed over compiled: extension ".tko". */
  predicate HandsOverModule(f: File, pt: Profile)
  {
    pt == Handover && Ext(f.filePathName) == ".axs" && f.fileType == "Module"
  }

  /** The sources a Release leaves out: module sources and include files. */
  predicate DroppedBy(f: File, pt: Profile)
  {
    pt == Release &&
    ((Ext(f.filePathName) == ".axs" && f.fileType == "Module") ||
     (Ext(f.filePathName) == ".axi" && f.fileType == "Include"))
  }

  /** One pass of the switch: None when the File is set to nil, otherwise the File
      as the switch leaves it. */
  function ConvertFile(f: File, pt: Profile): (r: Option<File>)
    ensures r.None? <==> DroppedBy(f, pt)
    ensures ReleasesSource(f, pt) ==>
      r.Some? && r.value.filePathName == f.ChangeExtension("tkn").filePathName
      && Ext(r.value.filePathName) == ".tkn"
      && r.value.deviceMaps == (if f.deviceMaps == [] then [CustomDeviceMap] else f.deviceMaps)
    ensures HandsOverModule(f, pt) ==>
      r == Some(f.ChangeExtension("tko")) && Ext(r.value.filePathName) == ".tko"
    ensures !ReleasesSource(f, pt) && !HandsOverModule(f, pt) && !DroppedBy(f, pt) ==> r == Some(f)
    ensures r.Some? ==> r.value.(filePathName := f.filePathName, deviceMaps := f.deviceMaps) == f
  {
    var e := Ext(f.filePathName);
    if e == ".axs" then
      if f.fileType == "Source" || f.fileType == "MasterSrc" then
        if pt == Release then
          var g := f.ChangeExtension("tkn");
          assert Ext(g.filePathName) == ".tkn";
          Some(if g.deviceMaps == [] then g.AddDeviceMap(CustomDeviceMap) else g)
        else
          assert !ReleasesSource(f, pt) && !HandsOverModule(f, pt) && !DroppedBy(f, pt);
          Some(f)
      else if f.fileType == "Module" then
        if pt == Release then None
        else if pt == Handover then
          var g := f.ChangeExtension("tko");
          assert Ext(g.filePathName) == ".tko";
          Some(g)
        else
          assert !ReleasesSource(f, pt) && !HandsOverModule(f, pt) && !DroppedBy(f, pt);
          Some(f)
      else
        assert !ReleasesSource(f, pt) && !HandsOverModule(f, pt) && !DroppedBy(f, pt);
        Some(f)
    else if e == ".axi" then
      if f.fileType == "Include" && pt == Release then None
      else
        assert !ReleasesSource(f, pt) && !HandsOverModule(f, pt) && !DroppedBy(f, pt);
        Some(f)
    else
      assert !ReleasesSource(f, pt) && !HandsOverModule(f, pt) && !DroppedBy(f, pt);
      Some(f)
  }

  /** The Files list convert stores back into a System: the survivors, converted,
      in their input order. */
  function ConvertedFiles(fs: seq<File>, pt: Profile): (r: seq<File>)
    ensures |r| <= |fs|
    ensures pt != Release ==> |r| == |fs|
  {
    if fs == [] then []
    else
      match ConvertFile(fs[0], pt)
      case None => ConvertedFiles(fs[1..], pt)
      case Some(g) => [g] + ConvertedFiles(fs[1..], pt)
  }

  /** The loop over a System's Files, appending each survivor to a fresh list. */
  method ConvertFiles(fs: seq<File>, pt: Profile) returns (files: seq<File>)
    ensures files == ConvertedFiles(fs, pt)
  {
    files := [];
    var i := 0;
    while i < |fs|
      invariant 0 <= i <= |fs|
      invariant files == ConvertedFiles(fs[..i], pt)
    {
      var f := ConvertFile(fs[i], pt);
      ConvertedFilesSnoc(fs, i, pt);
      if f.Some? {
        files := files + [f.value];
      }
      i := i + 1;
    }
    assert fs[..i] == fs;
  }

  /** Converting one more File appends what the switch makes of it, if anything. */
  lemma ConvertedFilesSnoc(fs: seq<File>, i: int, pt: Profile)
    requires 0 <= i < |fs|
    ensures ConvertFile(fs[i], pt).None? ==> ConvertedFiles(fs[..i + 1], pt) == ConvertedFiles(fs[..i], pt)
    ensures ConvertFile(fs[i], pt).Some? ==>
      ConvertedFiles(fs[..i + 1], pt) == ConvertedFiles(fs[..i], pt) + [ConvertFile(fs[i], pt).value]
  {
    assert fs[..i + 1] == fs[..i] + [fs[i]];
    ConvertedFilesConcat(fs[..i], [fs[i]], pt);
    assert [fs[i]][1..] == [];
  }

  /** Converting a concatenation converts each part: survivors keep their order. */
  lemma {:induction false} ConvertedFilesConcat(a: seq<File>, b: seq<File>, pt: Profile)
    ensures ConvertedFiles(a + b, pt) == ConvertedFiles(a, pt) + ConvertedFiles(b, pt)
  {
    if a != [] {
      assert (a + b)[0] == a[0] && (a + b)[1..] == a[1..] + b;
      ConvertedFilesConcat(a[1..], b, pt);
      match ConvertFile(a[0], pt)
      case None =>
      case Some(g) =>
        assert ConvertedFiles(a, pt) == [g] + ConvertedFiles(a[1..], pt);
    } else {
      assert a + b == b;
    }
  }

  /** A File convert keeps is left alone by a second pass: its extension is no longer
      ".axs" or it was not touched. */
  lemma ConvertFileIdempotent(f: File, pt: Profile)
    requires ConvertFile(f, pt).Some?
    ensures ConvertFile(ConvertFile(f, pt).value, pt) == ConvertFile(f, pt)
  {
    var g := ConvertFile(f, pt).value;
    if ReleasesSource(f, pt) {
      ExtOfAppended(TrimSuffix(f.filePathName, Ext(f.filePathName)), "tkn");
      assert Ext(g.filePathName) == ".tkn";
    } else if HandsOverModule(f, pt) {
      ExtOfAppended(TrimSuffix(f.filePathName, Ext(f.filePathName)), "tko");
      assert Ext(g.filePathName) == ".tko";
    }
  }

  /** Converting a second time with the same profile changes nothing. */
  lemma {:induction false} ConvertedFilesIdempotent(fs: seq<File>, pt: Profile)
    ensures ConvertedFiles(ConvertedFiles(fs, pt), pt) == ConvertedFiles(fs, pt)
  {
    if fs != [] {
      ConvertedFilesIdempotent(fs[1..], pt);
      var rest := ConvertedFiles(fs[1..], pt);
      match ConvertFile(fs[0], pt)
      case None =>
      case Some(g) =>
        ConvertFileIdempotent(fs[0], pt);
        assert ([g] + rest)[1..] == rest;
    }
  }

  /** ptFull keeps every File as it is. */
  lemma {:induction false} FullKeepsEverything(fs: seq<File>)
    ensures ConvertedFiles(fs, Full) == fs
  {
    if fs != [] {
      FullKeepsEverything(fs[1..]);
      assert [fs[0]] + fs[1..] == fs;
    }
  }

  /** Matching is exact and case-sensitive: an upper-case ".AXS", or an ".axi" whose
      Type is not Include, passes through every profile unchanged. */
  lemma ExtensionMatchIsExact(f: File, pt: Profile)
    requires Ext(f.filePathName) == ".AXS" || (Ext(f.filePathName) == ".axi" && f.fileType == "Source")
    ensures ConvertFile(f, pt) == Some(f)
  {
  }

  /** A released source gets exactly one DeviceMap, the default one, when it had none,
      and keeps its DeviceMaps otherwise. */
  lemma ReleaseDeviceMapCount(f: File)
    requires ReleasesSource(f, Release)
    ensures |ConvertFile(f, Release).value.deviceMaps| == if f.deviceMaps == [] then 1 else |f.deviceMaps|
  {
  }
}
