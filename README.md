# go-netlinx workspace model

A Dafny model of the AMX NetLinx workspace (`.apw`) tooling of go-netlinx. The
repository keeps several generations of the same code side by side: the `apw/`
package, the `workspace/`, `project/`, `system/` and `file/` packages, and the root
`apwfile` package (`apw.go`, `os.go`, `structs.go`). One tree model serves all of them:
Workspace → Project → System → File → DeviceMap. Each variant's operations are
modelled against that tree.

Modules, following the program's packages:

- `Text`, `Sorting`, `Lookup`, `Paths` — the parts of Go's library the code leans on:
  - string `<`;
  - `strings.Split`/`Join`;
  - `strconv.Itoa` and `"%03d"`;
  - `sort.Sort` over an Identifier key;
  - the first-match loops of the `Find*` methods;
  - `filepath.Base/Dir/Ext/IsAbs/Join` on `/`-separated, clean paths;
  - `filepath.Clean`, with the cleaning `Join` and `Dir` Go runs (`CleanJoin`, `CleanDir`), used where the inputs need not be clean.
- `Files`, `Transports`, `Systems`, `Projects` — the records and their constructors and mutators. The mutators are `AddDeviceMap`, `ChangeExtension`, `AddConnectionToSystem`, `AddFile` and `AddSystem`.
- `Folders` — `FileFolder`, the routing of a declared type to one of six archive folders.
- `Conversion`, `Trees` — the Release/Handover conversion of one File and of a whole tree, and the relative/absolute path rewrites and the post-load sorting.
- `Workspaces` — the `Workspace` class; its methods change its Projects in place.
- `FileRefs` — the map from resolved path to declared type that `populateFileReferences` and `GatherFiles` build, and the list of the missing keys.
- `Archive` — the zip plan of `ExportArchive`/`SaveArchive`:
  - the refusal message;
  - the archive name;
  - one entry per referenced file, named `FileFolder(type)/base`;
  - the `<Identifier>.apw` descriptor written last.
- `Apw`, `ApwInfo` — the `APW` class of `apw/apw.go` and the `APWInfo` class of the root package.
- `CompileCfg` — `toWindows`, `toLinux` and the NetLinx compiler configuration text of `GenerateCFG`.

The file system, the zip writer and the XML codec are not modelled as code. Each becomes a parameter instead:

- File existence, as `os.Stat` reports it, is the set `onDisk` of paths that exist.
- A failing `os.Create`, `os.Open`, `Stat`, `CreateHeader`, `io.Copy` or `z.Create`/`Write` is named by a set `failures` of (step, path) pairs.
- The XML decoder's answer is an `Option<Result<Workspace, string>>`: `None` means no XML was given.
- The encoder's answer is a `Result<string, string>`, or the document string that `ToXML` would return.

Go map iteration (over `FilesReferenced`, `Files` and the include-path set) picks
keys in an arbitrary order (`:|`), and every contract holds for every order.
`sort.Sort` is not stable, so sorted results are specified as "ordered by the key
and a permutation of the input". `sort.Strings` on keys that are all distinct is the
unique ascending listing of the set.

## Model

| member | source | states |
|---|---|---|
| Text.LessIrreflexive | system/system.go:44 | No Identifier is `<` itself. |
| Text.LessTransitive | system/system.go:44 | Go's string `<` used by every `Less` of the sort interfaces is transitive. |
| Text.LessTotal | project/project.go:28 | Two different Identifiers are always ordered one way or the other. |
| Text.LessAsymmetric | apw/project.go:26 | `a < b` excludes `b < a`, so `ByProjectID.Less` is a strict order. |
| Text.Split | system/system.go:63-77 | `strings.Split` on one separator gives at least one piece, and no piece contains the separator. |
| Text.JoinSplit | system/system.go:63-77 | Joining the pieces of a split with the same separator gives the original string back. |
| Text.SplitJoin | system/system.go:63-77 | Splitting a join of separator-free pieces gives exactly those pieces back. |
| Text.Replace | compilecfg/compile.go:11-17 | The replaced string has the same length, and differs from the input only where `from` became `to`. |
| Text.JoinSplitReplaces | compilecfg/compile.go:11-17 | `strings.Join(strings.Split(s, a), b)` is the replacement of every `a` by `b`. |
| Text.Digits | system/system.go:51 | The decimal digits of n: at least one, all digits, and the count tells the magnitude (1, 2 or 3 digits below 10, 100, 1000). |
| Text.DecimalValueOfDigits | system/system.go:51 | The digits denote n again: the decimal rendering loses nothing. |
| Text.Itoa | system/system.go:65 | `strconv.Itoa` of n ≥ 0 is digits denoting n; of a negative n it is '-' followed by the digits of -n. |
| Text.Pad3 | system/system.go:51 | `"%03d"` of an id in 0..999 is exactly three digits denoting the id; above 999 it is the plain decimal. |
| Sorting.Insert | apw/workspace.go:46-51 | Inserting into an ordered sequence adds exactly that element (multiset) and keeps it ordered. |
| Sorting.SortBy | apw/workspace.go:46-51 | `sort.Sort` by a key: the result is a permutation of the input, ordered by the key. |
| Sorting.MapSeq | workspace/os.go:38-44 | Mapping keeps the length. |
| Sorting.MapSeqAt | workspace/os.go:38-44 | The mapped sequence holds f of each element at that element's position. |
| Sorting.MapSeqPermutation | workspace/os.go:38-44 | Sorting each Project's Systems commutes with permuting the Projects: permuted inputs map to permuted outputs. |
| Sorting.SortedUnique | compilecfg/compile.go:50-51 | Two ordered, duplicate-free sequences with the same elements are equal: `sort.Strings` of distinct keys has one result. |
| Lookup.FindFirst | workspace/workspace.go:37-44 | None exactly when no element's key equals id; otherwise the element at the first matching position. |
| Lookup.FirstMatchUnique | workspace/workspace.go:37-44 | The first matching position is unique, so the lookup is deterministic. |
| Lookup.SomeMatchHasFirst | system/system.go:81-88 | Any matching position is preceded by (or is) a first match, so a lookup with a match never fails. |
| Lookup.FirstMatchAppend | system/system.go:81-88 | After appending x, the first match is the old first match, or x's position when there was none and x matches. |
| Paths.Join | apw/apw.go:119 | Join keeps an absolute left operand absolute and drops empty operands. |
| Paths.LastSlash | apw/apw.go:38 | The last separator's index, or -1; no separator follows it. |
| Paths.TrimTrailingSlashes | apw/apw.go:38 | A prefix of the path that does not end in a separator; only separators were removed. |
| Paths.Base | apw/apw.go:38 | `filepath.Base` is never empty and is "/" or a separator-free name. |
| Paths.Dir | apw/apw.go:40 | `filepath.Dir` on clean paths is never empty: "." without a separator, otherwise "/" or a prefix of the path that does not end in a separator. |
| Paths.Ext | apw/apw.go:39 | `filepath.Ext` is empty or starts with '.', has no other '.' and no separator. |
| Paths.ExtIsSuffix | apw/apw.go:39 | The extension is a suffix of the path. |
| Paths.TrimSuffix | apw/apw.go:39 | `strings.TrimSuffix` gives r with r + suffix == s when s ends in suffix, and s unchanged otherwise. |
| Paths.ExtOfAppended | file/file.go:115-125 | The extension of `stem + "." + ext` is `"." + ext` for a dot- and separator-free ext, whatever the stem. |
| Paths.BaseOfPlain | structs.go:29 | A plain name is its own base. |
| Paths.BaseOfJoin | workspace/os.go:91-100 | The base of `Join(dir, name)` is name, so a relocated file keeps its base name. |
| Paths.DirBaseJoin | apw/apw.go:38-40 | Dir and Base of a path with a directory part join back into the path. |
| Paths.DirOfJoin | workspace/os.go:91-100 | The directory of `Join(folder, name)` is the folder. |
| Paths.Clean | workspace/os.go:96 | `filepath.Clean`, which every `filepath.Join` runs, never yields "" and keeps an absolute path absolute. |
| Paths.CleanJoinOfNames | workspace/os.go:96 | For two names Clean keeps, Go's Join with its Clean is the separator concatenation `Paths.Join` computes. |
| Paths.CleanDropsDot | workspace/os.go:96 | Go's Join of a name Clean keeps and "." (the Base of an empty path) is the name alone. |
| Paths.CleanDir | compilecfg/compile.go:41 | `filepath.Dir` as Go computes it, the path up to its last separator cleaned: never empty, and absolute for an absolute path. |
| Paths.CleanDirOfNames | compilecfg/compile.go:41 | On a relative path of names Clean keeps, Go's cleaning Dir and `Paths.Dir` both give the names before the last. |
| Paths.CleanDirParent | compilecfg/compile.go:41 | Go's Dir of `dir/../sub/file` is `sub`: the ".." removes the directory before it. |
| Files.TypeString | file/file.go:17-63 | `Type.String` on 0..18 yields one of the 19 type names. |
| Files.TypeStringInjective | file/file.go:17-63 | Distinct Type constants have distinct names. |
| Files.CompileTypeString | file/file.go:69-83 | `CompileType.String` on 0..2 yields one of None, Netlinx or Axcess. |
| Files.File.AddDeviceMap | file/file.go:110-112 | Exactly one DeviceMap is appended, the old ones kept in order, no other field changes. |
| Files.File.ChangeExtension | file/file.go:115-125 | The path loses its old extension and gains "." + ext (plain append without one), the new extension is "." + ext, and only the path changes (Identifier keeps the old name). |
| Files.NewFile | file/file.go:100-107 | Identifier is the base of the path, the path is stored, Type and CompileType are the names of the constants, no DeviceMaps. |
| Files.ChangeExtensionIdempotent | file/file.go:115-125 | Changing to the same dot-free extension twice is changing it once. |
| Transports.NewIPTransport | apw/transport.go:16-22 | Type "TCPIP", the given host, port 1319, no ping test, empty name and credentials. |
| Systems.System.AddConnectionToSystem | system/system.go:57-78 | TransportEx is the transport's type, TransTCPIPEx joins the six connection fields with '\|', the split gives them back when no field holds '\|', and no other field changes. |
| Systems.System.FindFile | system/system.go:81-88 | None exactly when no File has the Identifier; otherwise the first File that has it. |
| Systems.System.AddFile | system/system.go:91-93 | The File is appended at the end, the old Files kept in order, nothing else changes. |
| Systems.ConnectionString | system/system.go:62-77 | The connection string is the '\|'-join of host, port, ping flag, name, user, password, and splits back into those fields. |
| Systems.PingFlag | system/system.go:67-71 | The flag is "1" exactly when PingTest is set, "0" exactly when it is not. |
| Systems.ConnectionJoin | system/system.go:63-75 | The buffer's text is host, port, flag, name, username, password with a '\|' between each. |
| Systems.ConnectionSplit | system/system.go:63-77 | Splitting the stored string recovers exactly six fields equal to the inputs when none of them holds '\|'. |
| Systems.ConnectionPort | system/system.go:65 | The second field is the port's decimal rendering and denotes the port again. |
| Systems.NewSystem | system/system.go:48-54 | The sysID is stored, no Files or connection; the Identifier is the three-digit zero-padded id, ": " and the name (the plain decimal above 999). |
| Systems.AddFileThenFind | system/system.go:81-93 | After AddFile, FindFile finds what it found before, or the new File when nothing earlier matched. |
| Projects.Project.FindSystem | project/project.go:36-43 | None exactly when no System has the Identifier; otherwise the first System that has it. |
| Projects.Project.AddSystem | project/project.go:46-51 | One System more, a permutation of the old Systems plus s, ordered by Identifier, nothing else changed. |
| Projects.NewProject | apw/project.go:29-31 | The given Identifier, no Systems and empty descriptive fields. |
| Projects.AddSystemIdentifiers | apw/project.go:44-49 | The Identifiers after AddSystem are the old ones plus the new System's. |
| Projects.AddSystemThenFind | project/project.go:36-51 | After AddSystem a System with s's Identifier is found, and it is s when none had that Identifier before. |
| Folders.FileFolder | apw/workspace.go:229-260 | FileFolder is total and returns one of the six folder names, each a plain path element. |
| Folders.FileFolderRoutes | apw/workspace.go:229-260 | Each folder is returned exactly for the type strings of its own case (TKN/Source/MasterSrc, Include, IR/AMX_IR_DB/IRN_DB, TP4/TP5/TPD/KPD, XDD/Module/DUET/TKO), and "Other" exactly for every other string. |
| Folders.FolderKeysDisjoint | workspace/os.go:117-148 | The switch's key sets are pairwise disjoint, so every type has one folder. |
| Folders.TypeNameFolders | workspace/os.go:117-148 | Each of the 19 declared type names has the folder listed for it. |
| Folders.TypeNameFolder | workspace/os.go:117-148 | One declared type name's folder. |
| Folders.DatabaseTypesGoToOther | workspace/os.go:129-140 | The type names IRDB, IRNDB and Duet are not the switch's keys AMX_IR_DB, IRN_DB and DUET, so they go to "Other". |
| Folders.KeysThatAreNotTypeNames | workspace/os.go:129-140 | Exactly AMX_IR_DB, IRN_DB and DUET of the switch's keys are not declared type names, so no File built by NewFile reaches them. |
| Conversion.ConvertFile | apw/workspace.go:80-121 | Dropped exactly for Release `.axs` Module and `.axi` Include. A Release `.axs` Source/MasterSrc becomes `.tkn` and gains the Custom DeviceMap if it had none. A Handover `.axs` Module becomes `.tko`. Everything else passes unchanged, and only the path and DeviceMaps ever change. |
| Conversion.ConvertedFiles | workspace/workspace.go:81-121 | The survivors never outnumber the input and, except for a Release, number exactly the same. |
| Conversion.ConvertFiles | workspace/workspace.go:81-121 | The loop builds exactly the converted survivors, in input order. |
| Conversion.ConvertedFilesConcat | workspace/workspace.go:81-121 | Conversion works file by file: converting a concatenation is concatenating the conversions, so survivors keep their order. |
| Conversion.ConvertFileIdempotent | workspace/workspace.go:83-117 | A converted File converts to itself. |
| Conversion.ConvertedFilesIdempotent | workspace/workspace.go:73-125 | Converting a File list twice equals converting it once. |
| Conversion.FullKeepsEverything | apw/workspace.go:72-124 | The unused Full profile passes every File through. |
| Conversion.ExtensionMatchIsExact | workspace/workspace.go:83-117 | The match is case-sensitive: an `.AXS` File, and an `.axi` File of type Source, pass through unchanged. |
| Conversion.ReleaseDeviceMapCount | apw/workspace.go:86-94 | A released source ends with one DeviceMap when it had none, and with its own ones otherwise. |
| Trees.Rewritten | workspace/os.go:91-114 | The path rewrites keep the number of Files. |
| Trees.WithFiles | workspace/workspace.go:118-122 | Only each System's Files are replaced; the Project's other fields and the Systems' other fields stay, as does their number. |
| Trees.MapFileLists | apw/workspace.go:74-122 | Every Project is rewritten in place and the number of Projects is kept. |
| Trees.MapFileListsIdempotent | workspace/os.go:91-114 | A whole-tree rewrite that fixes every File list is idempotent on the tree. |
| Trees.RewriteFiles | workspace/os.go:91-114 | The inner loop leaves the list rewritten File by File. |
| Trees.RewriteProject | workspace/workspace.go:75-123 | The System loop leaves the Project with each System's Files rewritten. |
| Trees.ConvertedProjectsShape | apw/workspace.go:74-122 | convert keeps the number and order of Projects and Systems and their other fields, never grows a System's Files, and keeps their number except in a Release. |
| Trees.ConvertedProjectsIdempotent | workspace/workspace.go:73-125 | Converting the tree twice with one profile equals converting it once. |
| Trees.RelativeFile | apw/workspace.go:203-212 | Only the path changes, and it becomes the type folder joined to the base name: its Dir is the folder, its Base the old base. |
| Trees.AbsoluteFile | apw/workspace.go:215-226 | Only the path changes; an absolute path is untouched, a relative one is joined to the base, and an absolute base gives an absolute result. |
| Trees.RelativeProjectsIdempotent | workspace/os.go:91-100 | SetRelativeFilepaths applied twice equals once (for base names Join keeps as they are). |
| Trees.RelativeFileAsWritten | workspace/os.go:96 | SetRelativeFilepaths on one File with Go's Join, Clean included; it equals `Trees.RelativeFile` whenever the base name is one Clean keeps. |
| Trees.RelativeFileAsWrittenNotIdempotent | workspace/os.go:96 | A Source File with an empty path becomes "Source" on the first pass and "Source/Source" on the second. |
| Trees.AbsoluteProjectsIdempotent | workspace/os.go:103-114 | SetAbsoluteFilepaths(base) applied twice equals once when base is absolute (or empty). |
| Trees.SortSystems | apw/apw.go:56-58 | A Project's Systems come out ordered by Identifier and as a permutation of the old ones; nothing else changes. |
| Trees.SortedTreeOrdered | workspace/os.go:38-44 | After Load's sorting the Projects are ordered by Identifier, every Project's Systems are ordered, and the tree is a permutation of the input with each Project's Systems sorted. |
| Workspaces.Workspace.NewWorkspace | workspace/workspace.go:28-34 | The given Identifier, CurrentVersion and CreateVersion "4.0", no Projects, empty other fields. |
| Workspaces.Workspace.Empty | apw/apw.go:42 | The zero Workspace: every field empty, no Projects. |
| Workspaces.Workspace.FindProject | apw/workspace.go:36-43 | None exactly when no Project has the Identifier; otherwise the first such Project. |
| Workspaces.Workspace.AddProject | workspace/workspace.go:47-52 | One Project more, a permutation of the old Projects plus p, ordered by Identifier; the other fields unchanged. |
| Workspaces.Workspace.RewriteAll | apw/workspace.go:203-226 | The Project loop leaves every Project with its Files rewritten; the other fields unchanged. |
| Workspaces.Workspace.Convert | workspace/workspace.go:73-125 | The Projects become the converted tree; the other fields unchanged. |
| Workspaces.Workspace.ConvertToRelease | apw/workspace.go:67-69 | The Projects become the Release conversion of the tree. |
| Workspaces.Workspace.ConvertToHandover | workspace/workspace.go:63-65 | The Projects become the Handover conversion of the tree. |
| Workspaces.Workspace.SetRelativeFilepaths | workspace/os.go:91-100 | Every path becomes its type folder joined to its base; the other fields unchanged. |
| Workspaces.Workspace.SetAbsoluteFilepaths | apw/workspace.go:215-226 | Every relative path is joined to base and absolute ones kept; the other fields unchanged. |
| Workspaces.Workspace.Bytes | workspace/os.go:61-88 | CurrentVersion becomes "4.0" whatever happens; the output is the XML header followed by the encoder's text, or the encoder's error; nothing else changes. |
| Workspaces.SortEach | workspace/os.go:42-44 | The loop over the Projects leaves each Project with its Systems sorted, at its own position. |
| Workspaces.Workspace.SortTree | workspace/os.go:38-44 | The Projects become the sorted tree of the old ones (ordered as Trees.SortedTreeOrdered states); the header fields and CurrentVersion do not change. |
| FileRefs.Resolve | apw.go:25-28 | An absolute path is its own key, a relative one is joined to OriginPath. |
| FileRefs.SystemFilesSnoc | apw/apw.go:112-121 | The Files of one more System come after those of the earlier ones. |
| FileRefs.AllFilesSnoc | apw/apw.go:110-122 | The Files of one more Project come after those of the earlier ones. |
| FileRefs.CollectKeys | apw.go:10-35 | The keys after gathering are the old keys plus the resolved path of every File: nothing is removed. |
| FileRefs.CollectLastWins | apw/apw.go:110-123 | A File's key maps to its Type when no later File resolves to the same key (the last write wins). |
| FileRefs.CollectKeepsOthers | apw.go:10-35 | A key no File resolves to keeps its old value. |
| FileRefs.CollectConcat | apw/apw.go:110-123 | Gathering a concatenation is gathering the first part, then the second. |
| FileRefs.CollectSystem | apw.go:22-31 | The innermost loop gathers exactly one System's Files. |
| FileRefs.CollectProject | apw.go:20-32 | The System loop gathers one Project's Files in order. |
| FileRefs.CollectReferences | apw/apw.go:110-123 | The triple loop gathers every File of the tree, in tree order, into the map. |
| FileRefs.MissingKeys | apw/apw.go:126-130 | The listing holds exactly the keys not on disk, each once. |
| Archive.ArchiveName | apw/apw.go:203-208 | The name is the Identifier, then "_" + buildID only when buildID is not empty, then ".zip". |
| Archive.ArchiveNameInjective | os.go:89-94 | Different build ids give different archive names. |
| Archive.EntryNameParts | apw/apw.go:236 | An entry sits in the type's folder under the file's base name. |
| Archive.FileFailure | os.go:108-134 | The first failing step for a file (open, stat, header, copy, in that order), and none exactly when no step fails. |
| Archive.EntryAt | apw/apw.go:219-250 | The entry a referenced file gets is an entry of that file, sourced from its path and named by its type folder and base. |
| Archive.EntriesForAll | os.go:105-136 | Listing every key once gives a complete entry plan: one entry per referenced file. |
| Archive.WriteEntries | os.go:105-136 | A failed zip creation is reported with no entries; otherwise a reported failure is the first failing call on one referenced file. Every written entry is for a file none of whose calls fails. Without a failure every referenced file has exactly one entry, named by its folder and base. |
| Archive.ListingCard | os.go:105-136 | A duplicate-free listing of the key set has as many entries as there are keys. |
| Archive.Finish | apw/apw.go:253-261 | The descriptor written last gives Saved with the entries and descriptor, or the `log.Fatal` outcome when it cannot be written. |
| Archive.MissingMessage | apw/apw.go:191-200 | "1 File not found" for one file, "<n> Files not found" above one, and the singular for zero, as the `> 1` test gives. |
| Archive.MissingMessageAsWritten | os.go:78-84 | As SaveArchive writes it: "<n> Files not found" for every n > 0. |
| Archive.MissingMessageAsWrittenOne | os.go:78-84 | For one missing file SaveArchive writes "1 Files not found", which differs from the singular message. |
| Archive.MissingMessagesAgree | os.go:78-84 | For more than one missing file both messages agree. |
| Apw.IdentifierOf | apw/apw.go:38-39 | The Identifier is a prefix of the file's base name (the base without its extension). |
| Apw.IdentifierOfApwFile | structs.go:29-30 | The Identifier of `dir/Foo.apw` is `Foo`. |
| Apw.APW.Named | apw/apw.go:33-42 | Filename stored, Name its base, Identifier the base without extension, OriginPath its Dir, empty map, no missing files, a fresh empty Workspace. |
| Apw.APW.NewAPW | apw/apw.go:30-64 | A decoder error is returned as it is. Without XML: the derived names, empty references, no missing files. With XML: the decoded Workspace, every File keyed (last wins), exactly the absent keys listed once each, and Projects and Systems sorted. |
| Apw.APW.Decoded | apw/apw.go:44-58 | After a successful decode: the handle holds the decoded Workspace, the references of the tree as decoded, exactly the absent keys once each, and then the sorted tree. |
| Apw.APW.PopulateFileReferences | apw/apw.go:102-133 | Always succeeds; the map gains every File's resolved path (last wins), and exactly the absent keys are appended to FilesMissing, each once. |
| Apw.APW.ExportArchive | apw/apw.go:189-264 | Refused exactly when files are missing, with the n-dependent message. Otherwise the zip is the archive name under destDir. A failed zip creation aborts with no entries, and any other abort names the first failing call on one file. Saved exactly when every step succeeds, and then holds one entry per referenced file and the `<Identifier>.apw` descriptor. |
| ApwInfo.APWInfo.NewAPWInfo | structs.go:22-39 | Filename stored, Name its base, Identifier the base without extension, OriginPath its Dir, empty Files map, fresh empty Workspace. |
| ApwInfo.APWInfo.GatherFiles | apw.go:10-35 | Always returns nil; the map gains every File's resolved path with its Type, last write winning, and loses nothing. |
| ApwInfo.APWInfo.CheckFiles | apw.go:38-53 | Exactly the absent keys, each once, with the "Files Missing" error exactly when there is at least one. |
| ApwInfo.APWInfo.SaveArchive | os.go:74-150 | Refused exactly when a file is absent, with the message as os.go writes it: "<n> Files not found" for every count, one included. Otherwise the zip name under destDir. A failed zip creation aborts with no entries, and any other abort names the first failing call on one file. Saved exactly when every step succeeds, with one entry per file and the descriptor holding header + XML; CurrentVersion is "4.0" once the descriptor is written. |
| CompileCfg.ToWindows | compilecfg/compile.go:11-13 | No '/' is left, the length is kept, and only '/' characters changed (to '\'). |
| CompileCfg.ToLinux | compilecfg/compile.go:15-17 | No '\' is left, the length is kept, and only '\' characters changed (to '/'). |
| CompileCfg.WindowsOfLinux | compilecfg/compile.go:11-17 | toWindows(toLinux(x)) equals toWindows(x). |
| CompileCfg.IncludeDir | compilecfg/compile.go:40-44 | An include directory is in Windows form: no '/' in it. It is computed with Go's cleaning Dir. |
| CompileCfg.IncludeDirOfParent | compilecfg/compile.go:40-44 | An include written `dir/..\sub\file` has the directory `sub`, as Go's Clean gives it. |
| CompileCfg.MinExists | compilecfg/compile.go:50-51 | A non-empty key set has a least element under string `<`. |
| CompileCfg.SortedListing | compilecfg/compile.go:50-51 | The ascending listing of a set: each element once, ordered. |
| CompileCfg.ListingMultiset | compilecfg/compile.go:50-51 | A duplicate-free listing holds each element of the set once. |
| CompileCfg.SortedListingUnique | compilecfg/compile.go:50-51 | Sorting any duplicate-free listing of a set gives its one ascending listing. |
| CompileCfg.Prefixed | compilecfg/compile.go:97-118 | One line per element, each the prefix followed by the element. |
| CompileCfg.ListingSnoc | compilecfg/compile.go:28-47 | A new key appended to a listing lists the enlarged set. |
| CompileCfg.KindsStep | compilecfg/compile.go:28-47 | One more key adds itself to the modules or sources, or its directory to the include set, only by its kind. |
| CompileCfg.ClassifyKey | compilecfg/compile.go:30-46 | One key's switch keeps the gathered lists exact for the keys seen so far. |
| CompileCfg.Classify | compilecfg/compile.go:28-47 | Modules and Source list the `.axs`/`.axi` keys of kind Module and of kind Source/MasterSrc, each once; the include set is exactly the directories of the Include keys. All other keys are ignored. |
| CompileCfg.IncludeLines | compilecfg/compile.go:97-101 | One "AdditionalIncludePath=" line per include directory, each once, in some order. |
| CompileCfg.PrefixedLines | compilecfg/compile.go:104-118 | The loop writes one prefixed line per element, in order. |
| CompileCfg.GenerateCFG | compilecfg/compile.go:20-121 | The file is the preamble for the Windows form of root, the include lines in some listing order of the include set (each directory cleaned as `filepath.Dir` cleans it), then the sorted modules and the sorted sources. |
| CompileCfg.BodyLayout | compilecfg/compile.go:96-118 | The include lines come first, then a blank line, every module line, a blank line and every source line: modules precede sources. |
| CompileCfg.PrefixedEqual | compilecfg/compile.go:97-101 | Two lines with the same prefix are equal only for equal rests. |
| CompileCfg.PathLinesDiffer | compilecfg/compile.go:97-118 | A module or source line is never an include line. |
| CompileCfg.IncludeLineIff | compilecfg/compile.go:97-101 | A directory has an "AdditionalIncludePath=" line exactly when it is one of the include directories. |
| CompileCfg.RootLine | compilecfg/compile.go:72-78 | The root line is "MainAXSRootDirectory=-R" for an empty root and names the root otherwise. |
| CompileCfg.LogFileOptionIff | compilecfg/compile.go:79-86 | The log-file lines are present exactly when a log file is named, and then the file sits in the root. |
| CompileCfg.ConsoleOptionIff | compilecfg/compile.go:87-91 | "OutputLogConsoleOption=Y" is present exactly when logconsole is set, "=N" exactly when it is not. |

## Left out

- XML encoding and decoding (`xml.Marshal`/`Unmarshal`, `FromBytes`, `ToXML`) are calls into `encoding/xml`. Their results are parameters. The commented-out CRLF pass of `Bytes` is not modelled.
- File system and zip I/O are oracles: the `onDisk` set and the `failures` set. This covers `os.Open/Stat/Create/MkdirAll`, `zip.Writer` and `io.Copy`. `FileInfoHeader` metadata and DEFLATE compression are not modelled. The entry name uses the Base of the source path, which is the name `FileInfoHeader` gives. The error `FileInfoHeader` returns is ignored by the code, and so by the model.
- `LoadAPW`, `Load`, `Save`, `writeFile`, `ExportAPW` and `SaveWorkspace`/`LoadWorkspace` only read or write files around the modelled operations. Left out, except the sorting `Load` does after decoding (`Workspace.SortTree`).
- Directory scanning (`FindAPWs`/`gatherAPWs` in `apw/apw.go`, `FindInFolder`/`getAPWs` in `os.go`) only walks directories. Left out.
- `Paths.Join`: does not run `filepath.Clean`. Go's Join with its Clean is modelled separately as `Paths.CleanJoin`, and `Paths.CleanJoinOfNames` proves the two agree for names Clean keeps. The rest of the model uses `Paths.Join`, so it does not capture Go's result on paths with empty, "." or ".." elements. Windows volume names and drive-letter `IsAbs` are not modelled either.
- `Paths.Dir`: does not run `filepath.Clean` on the directory it returns. Go's Dir is modelled as `Paths.CleanDir`, and `Paths.CleanDirOfNames` proves the two agree on relative paths of names Clean keeps. GenerateCFG's include directories use `CleanDir`. The OriginPath of a workspace file name and the lemmas about relocated files use `Paths.Dir`, so on file names with empty, "." or ".." elements they do not capture Go's result.
- Pointer aliasing: Project, System, File, DeviceMap and Transport are values. A mutator returns the updated record instead of changing it through a pointer. An object shared between two places in the tree would be updated in both places in Go but not in the model. The `.apw` codec never builds such sharing.
- `sort.Sort` tie order: equal Identifiers may come out in any order. The model picks one insertion order and promises only "ordered and a permutation".
- `log.Fatal` in the descriptor branch (apw/apw.go:254-261, os.go:140-147) is the `Fatal` outcome, not process termination.
- A nil `DeviceMaps` slice and an empty one are both the empty sequence.
- The `apw/` and `workspace/` Workspace variants behave the same on every modelled operation and are modelled by one class, `Workspaces.Workspace`. Every row cites the lines of the variant it was checked against.
- `ExportArchive` writes `ToXML()`'s output as the descriptor; that text is the `xml` parameter. `SaveArchive` writes `Bytes()`, modelled by `Workspace.Bytes` on the encoder's result.
- The `&apw.Workspace == nil` guards (apw.go:13, apw/apw.go:105) compare a field's address to nil and can never be true. `GatherFiles` and `PopulateFileReferences` therefore always return no error.
- GenerateCFG's nested switches on extension and type are modelled as one predicate per kind (`IsModuleRef`, `IsSourceRef`, `IsIncludeRef`). The include-path output order follows Go map iteration and is a ghost listing order.
- The CLI and HTTP wrappers are left out: compile/cli, compile/cloud, compilelog/cli, compilecfg/gcf, compilelog/gcf and compiler/main.go. compilelog/compilelog.go only prints.
- studio/main.go (Windows registry), ftp/ftp_pull.go (FTP client) and archive/packup.go with archive/config.go (prompts, JSON configuration) are I/O programs. Left out.
- apw/file.go and apw/system.go are not part of this model. The `file/` and `system/` packages stand in for them. In particular, the model assumes that `BySystemID`, the order apw/project.go:48 sorts with, orders Systems by Identifier as `system.ByIdentifier` does.

## Findings

| source | as written | input that shows it | evidently intended | confidence | as-written member | corrected member |
|---|---|---|---|---|---|---|
| os.go:81 | the plural "s" is added when `len(missing) > 0`, which always holds in that branch | one missing file: the message reads "1 Files not found" | "1 File not found" for one file, "s" only for more, as apw/apw.go:195 has it (`> 1`) | not executed | Archive.MissingMessageAsWrittenOne | Archive.MissingMessage |
| workspace/os.go:96 | the new path is `filepath.Join(FileFolder(type), filepath.Base(path))`; Join's Clean drops a base of "." | a Source File with FilePathName "": the first pass gives "Source", the second "Source/Source" | running SetRelativeFilepaths again leaves the paths as they are | not executed | Trees.RelativeFileAsWrittenNotIdempotent | Trees.RelativeProjectsIdempotent |
