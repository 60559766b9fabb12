/** file/file.go: the File record of a System, its declared Type and
    CompileType enumerations, and the two operations that change a File
    (AddDeviceMap, ChangeExtension). devicemap/devicemap.go and apw/irdb.go
    contribute the two plain records a File owns. */
module Files {
  import opened Paths

  /** devicemap.DeviceMap: a device address and its name. */
  datatype DeviceMap = DeviceMap(devAddr: string, devName: string)

  /** apw.IRDB: an IR database reference of a File. */
  datatype Irdb = Irdb(property: string, dosName: string, userDbPathName: string, notes: string, dbKey: string)

  /** file.Type is an int counted by iota; String() indexes this table. */
  const TypeNames: seq<string> := [
    "Source", "MasterSrc", "Include", "Module", "AXB", "IR", "TPD", "TP4", "TP5", "KPD",
    "TKO", "IRDB", "IRNDB", "Other", "Duet", "TOK", "TKN", "KPB", "XDD"]

  const TypeSource := 0
  const TypeMasterSrc := 1
  const TypeInclude := 2
  const TypeModule := 3
  const TypeAXB := 4
  const TypeIR := 5
  const TypeTPD := 6
  const TypeTP4 := 7
  const TypeTP5 := 8
  const TypeKPD := 9
  const TypeTKO := 10
  const TypeIRDB := 11
  const TypeIRNDB := 12
  const TypeOther := 13
  const TypeDuet := 14
  const TypeTOK := 15
  const TypeTKN := 16
  const TypeKPB := 17
  const TypeXDD := 18

  /** Type.String: the name at the constant's index. Go indexes a fixed array,
      so a value outside 0..18 panics; callers must stay inside it. */
  function TypeString(t: int): (name: string)
    requires 0 <= t < |TypeNames|
    ensures name in TypeNames
  {
    TypeNames[t]
  }

  /** Distinct constants have distinct names, so String() loses nothing. */
  lemma TypeStringInjective(t: int, u: int)
    requires 0 <= t < |TypeNames| && 0 <= u < |TypeNames| && t != u
    ensures TypeString(t) != TypeString(u)
  {
    NamesDiffer(t, u);
  }

  /** The nineteen names are pairwise distinct. */
  lemma NamesDiffer(t: int, u: int)
    requires 0 <= t < |TypeNames| && 0 <= u < |TypeNames| && t != u
    ensures TypeNames[t] != TypeNames[u]
  {
  }

  /** file.CompileType, counted by iota; String() indexes this table. */
  const CompileTypeNames: seq<string> := ["None", "Netlinx", "Axcess"]

  const CompileTypeNone := 0
  const CompileTypeNetlinx := 1
  const CompileTypeAxcess := 2

  /** CompileType.String, defined on 0..2 only, like Type.String. */
  function CompileTypeString(c: int): (name: string)
    requires 0 <= c < |CompileTypeNames|
    ensures name in CompileTypeNames
  {
    CompileTypeNames[c]
  }

  /** file.File. `fileType` and `compileType` hold the names the XML carries. A
      nil DeviceMaps slice and an empty one are both the empty sequence. */
  datatype File = File(
    identifier: string,
    filePathName: string,
    comments: string,
    masterDirectory: string,
    deviceMaps: seq<DeviceMap>,
    irdbs: seq<Irdb>,
    fileType: string,
    compileType: string)
  {
    /** File.AddDeviceMap: one more DeviceMap at the end, nothing else changes. */
    function AddDeviceMap(d: DeviceMap): (r: File)
      ensures |r.deviceMaps| == |deviceMaps| + 1
      ensures r.deviceMaps[..|deviceMaps|] == deviceMaps && r.deviceMaps[|deviceMaps|] == d
      ensures r.(deviceMaps := deviceMaps) == this
    {
      this.(deviceMaps := deviceMaps + [d])
    }

    /** File.ChangeExtension: the path with its old extension trimmed, then "."
        and the new one. Only FilePathName changes; Identifier keeps the old name. */
    function ChangeExtension(ext: string): (r: File)
      ensures r.filePathName == filePathName[..|filePathName| - |Ext(filePathName)|] + "." + ext
      ensures Ext(filePathName) == "" ==> r.filePathName == filePathName + "." + ext
      ensures '.' !in ext && Separator !in ext ==> Ext(r.filePathName) == "." + ext
      ensures r.(filePathName := filePathName) == this
    {
      var e := Ext(filePathName);
      ExtIsSuffix(filePathName);
      var stem := TrimSuffix(filePathName, e);
      assert stem == filePathName[..|filePathName| - |e|];
      assert '.' !in ext && Separator !in ext ==> Ext(stem + "." + ext) == "." + ext by {
        if '.' !in ext && Separator !in ext { ExtOfAppended(stem, ext); }
      }
      this.(filePathName := stem + "." + ext)
    }
  }

  /** The key FindFile compares with. */
  function FileIdentifier(f: File): string
  {
    f.identifier
  }

  /** file.NewFile: a File named after the base of its path, with the names of
      its Type and CompileType and no DeviceMaps. */
  function NewFile(f: string, t: int, c: int): (r: File)
    requires 0 <= t < |TypeNames| && 0 <= c < |CompileTypeNames|
    ensures r.filePathName == f && r.identifier == Base(f)
    ensures r.fileType == TypeString(t) && r.compileType == CompileTypeString(c)
    ensures r.deviceMaps == [] && r.irdbs == [] && r.comments == "" && r.masterDirectory == ""
  {
    File(Base(f), f, "", "", [], [], TypeString(t), CompileTypeString(c))
  }

  /** Changing to the same dot-free extension twice is changing it once. */
  lemma ChangeExtensionIdempotent(f: File, ext: string)
    requires '.' !in ext && Separator !in ext
    ensures f.ChangeExtension(ext).ChangeExtension(ext) == f.ChangeExtension(ext)
  {
    var g := f.ChangeExtension(ext);
    var stem := f.filePathName[..|f.filePathName| - |Ext(f.filePathName)|];
    assert g.filePathName == stem + "." + ext;
    RestoreSuffix(stem, ext);
    assert g.ChangeExtension(ext).filePathName == g.filePathName;
  }

  /** Cutting "." + ext off stem + "." + ext and putting it back gives the same path. */
  lemma RestoreSuffix(stem: string, ext: string)
    ensures var p := stem + "." + ext; p[..|p| - |"." + ext|] + "." + ext == p
  {
    var p := stem + "." + ext;
    assert p[..|p| - |"." + ext|] == stem;
  }
}
