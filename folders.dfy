/** FileFolder, defined identically in apw/workspace.go and workspace/os.go: the
    sub-folder of an archive or a relative workspace a file of a given Type
    belongs in. */
module Folders {
  import opened Paths
  import opened Files

  /** The six folders, in the order of the switch. */
  const Folders: seq<string> := ["Source", "Includes", "IR Files", "Interfaces", "Modules", "Other"]

  /** The Type strings of each case; every other string takes the default. */
  const SourceKeys: set<string> := {"TKN", "Source", "MasterSrc"}
  const IncludeKeys: set<string> := {"Include"}
  const IRKeys: set<string> := {"IR", "AMX_IR_DB", "IRN_DB"}
  const InterfaceKeys: set<string> := {"TP4", "TP5", "TPD", "KPD"}
  const ModuleKeys: set<string> := {"XDD", "Module", "DUET", "TKO"}

  /** The switch: every string has a folder, one of the six, a plain name. */
  function FileFolder(t: string): (folder: string)
    ensures folder in Folders && PlainName(folder) && CleanName(folder)
  {
    match t
    case "TKN" | "Source" | "MasterSrc" => "Source"
    case "Include" => "Includes"
    case "IR" | "AMX_IR_DB" | "IRN_DB" => "IR Files"
    case "TP4" | "TP5" | "TPD" | "KPD" => "Interfaces"
    case "XDD" | "Module" | "DUET" | "TKO" => "Modules"
    case _ => "Other"
  }

  /** Each folder is returned exactly for the Type strings of its own case, and
      "Other" exactly for every string no case lists. */
  lemma FileFolderRoutes(t: string)
    ensures FileFolder(t) == "Source" <==> t in SourceKeys
    ensures FileFolder(t) == "Includes" <==> t in IncludeKeys
    ensures FileFolder(t) == "IR Files" <==> t in IRKeys
    ensures FileFolder(t) == "Interfaces" <==> t in InterfaceKeys
    ensures FileFolder(t) == "Modules" <==> t in ModuleKeys
    ensures FileFolder(t) == "Other" <==>
      t !in SourceKeys + IncludeKeys + IRKeys + InterfaceKeys + ModuleKeys
  {
  }

  /** The five case lists are disjoint, so the switch never depends on case order. */
  lemma FolderKeysDisjoint()
    ensures SourceKeys * IncludeKeys == {} && SourceKeys * IRKeys == {}
    ensures SourceKeys * InterfaceKeys == {} && SourceKeys * ModuleKeys == {}
    ensures IncludeKeys * IRKeys == {} && IncludeKeys * InterfaceKeys == {}
    ensures IncludeKeys * ModuleKeys == {} && IRKeys * InterfaceKeys == {}
    ensures IRKeys * ModuleKeys == {} && InterfaceKeys * ModuleKeys == {}
  {
  }

  /** Where each Type name of file/file.go is routed: seven of the nineteen land
      in "Other". */
  lemma TypeNameFolders()
    ensures forall t :: 0 <= t < |TypeNames| ==> FileFolder(TypeString(t)) == TypeFolders[t]
  {
    forall t | 0 <= t < |TypeNames| ensures FileFolder(TypeString(t)) == TypeFolders[t] {
      TypeNameFolder(t);
    }
  }

  /** The folder of each Type constant, at the constant's index. */
  const TypeFolders: seq<string> := [
    "Source", "Source", "Includes", "Modules", "Other", "IR Files", "Interfaces", "Interfaces",
    "Interfaces", "Interfaces", "Modules", "Other", "Other", "Other", "Other", "Other", "Source",
    "Other", "Modules"]

  lemma TypeNameFolder(t: int)
    requires 0 <= t < |TypeNames|
    ensures FileFolder(TypeString(t)) == TypeFolders[t]
  {
    if t < 5 { FolderOfTypes0To4(t); }
    else if t < 10 { FolderOfTypes5To9(t); }
    else if t < 15 { FolderOfTypes10To14(t); }
    else { FolderOfTypes15To18(t); }
  }

  lemma FolderOfTypes0To4(t: int)
    requires 0 <= t < 5
    ensures FileFolder(TypeNames[t]) == TypeFolders[t]
  {
    if t == 0 { assert TypeNames[t] == "Source"; }
    else if t == 1 { assert TypeNames[t] == "MasterSrc"; }
    else if t == 2 { assert TypeNames[t] == "Include"; }
    else if t == 3 { assert TypeNames[t] == "Module"; }
    else { assert TypeNames[t] == "AXB"; }
  }

  lemma FolderOfTypes5To9(t: int)
    requires 5 <= t < 10
    ensures FileFolder(TypeNames[t]) == TypeFolders[t]
  {
    if t == 5 { assert TypeNames[t] == "IR"; }
    else if t == 6 { assert TypeNames[t] == "TPD"; }
    else if t == 7 { assert TypeNames[t] == "TP4"; }
    else if t == 8 { assert TypeNames[t] == "TP5"; }
    else { assert TypeNames[t] == "KPD"; }
  }

  lemma FolderOfTypes10To14(t: int)
    requires 10 <= t < 15
    ensures FileFolder(TypeNames[t]) == TypeFolders[t]
  {
    if t == 10 { assert TypeNames[t] == "TKO"; }
    else if t == 11 { assert TypeNames[t] == "IRDB"; }
    else if t == 12 { assert TypeNames[t] == "IRNDB"; }
    else if t == 13 { assert TypeNames[t] == "Other"; }
    else { assert TypeNames[t] == "Duet"; }
  }

  lemma FolderOfTypes15To18(t: int)
    requires 15 <= t < 19
    ensures FileFolder(TypeNames[t]) == TypeFolders[t]
  {
    if t == 15 { assert TypeNames[t] == "TOK"; }
    else if t == 16 { assert TypeNames[t] == "TKN"; }
    else if t == 17 { assert TypeNames[t] == "KPB"; }
    else { assert TypeNames[t] == "XDD"; }
  }

  /** In particular the data-base and Duet Types (IRDB, IRNDB, Duet) are not among
      the keys AMX_IR_DB, IRN_DB and DUET, and go to "Other". */
  lemma DatabaseTypesGoToOther()
    ensures FileFolder(TypeString(TypeIRDB)) == "Other"
    ensures FileFolder(TypeString(TypeIRNDB)) == "Other"
    ensures FileFolder(TypeString(TypeDuet)) == "Other"
  {
    TypeNameFolder(TypeIRDB);
    TypeNameFolder(TypeIRNDB);
    TypeNameFolder(TypeDuet);
  }

  /** The keys of the switch that are not Type names of file/file.go are exactly
      AMX_IR_DB, IRN_DB and DUET: no File built by NewFile can reach them. */
  lemma KeysThatAreNotTypeNames()
    ensures forall k :: k in SourceKeys + IncludeKeys + IRKeys + InterfaceKeys + ModuleKeys ==>
      (k !in TypeNames <==> k in {"AMX_IR_DB", "IRN_DB", "DUET"})
    ensures "AMX_IR_DB" in IRKeys && "IRN_DB" in IRKeys && "DUET" in ModuleKeys
  {
    KeysThatAreTypeNames();
    ForeignKeys();
  }

  /** Twelve of the keys are Type names, each at its constant's index. */
  lemma KeysThatAreTypeNames()
    ensures forall k :: k in SourceKeys + IncludeKeys + IRKeys + InterfaceKeys + ModuleKeys ==>
      k in {"AMX_IR_DB", "IRN_DB", "DUET"} || k in TypeNames
  {
    SourceIncludeIRKeysAreTypeNames();
    InterfaceModuleKeysAreTypeNames();
  }

  lemma SourceIncludeIRKeysAreTypeNames()
    ensures forall k :: k in SourceKeys + IncludeKeys + IRKeys ==> k in {"AMX_IR_DB", "IRN_DB"} || k in TypeNames
  {
    assert TypeNames[TypeSource] == "Source" && TypeNames[TypeMasterSrc] == "MasterSrc";
    assert TypeNames[TypeTKN] == "TKN" && TypeNames[TypeInclude] == "Include" && TypeNames[TypeIR] == "IR";
  }

  lemma InterfaceModuleKeysAreTypeNames()
    ensures forall k :: k in InterfaceKeys + ModuleKeys ==> k == "DUET" || k in TypeNames
  {
    assert TypeNames[TypeTP4] == "TP4" && TypeNames[TypeTP5] == "TP5";
    assert TypeNames[TypeTPD] == "TPD" && TypeNames[TypeKPD] == "KPD";
    assert TypeNames[TypeXDD] == "XDD" && TypeNames[TypeModule] == "Module" && TypeNames[TypeTKO] == "TKO";
  }

  /** AMX_IR_DB, IRN_DB and DUET are keys but no Type name. */
  lemma ForeignKeys()
    ensures "AMX_IR_DB" in IRKeys && "IRN_DB" in IRKeys && "DUET" in ModuleKeys
    ensures forall k :: k in {"AMX_IR_DB", "IRN_DB", "DUET"} ==> k !in TypeNames
  {
  }
}
