/** Writing a workspace archive, as ExportArchive (apw/apw.go) and SaveArchive
    (os.go) do: a zip named after the workspace, one entry per referenced file in
    the folder its Type belongs to, then the workspace file itself. The file
    system and the zip writer are an oracle: the set of steps that fail, each
    with the path it fails on. */
module Archive {
  import opened Wrappers
  import opened Text
  import opened Paths
  import opened Folders

  /** The calls that can fail: os.Create of the zip, os.Open and Stat of a
      referenced file, zip CreateHeader and io.Copy for its entry, and z.Create
      and Write for the workspace entry. */
  datatype Step = CreateZip | Open | Stat | CreateHeader | Copy | CreateDescriptor | WriteDescriptor

  /** The failing calls: a step and the path it is called on (the zip path for
      CreateZip, the referenced file for the four per-file steps, the entry name
      of the workspace file for the last two). */
  type Failures = set<(Step, string)>

  /** A zip entry holding a referenced file, under its entry name. */
  datatype Entry = Entry(name: string, source: string)

  /** How a run ends: refused before anything is written, returned early with an
      error, ended by log.Fatal, or finished with a complete archive: the file
      entries, then the workspace file under its name with its content. */
  datatype Outcome =
    | Refused(message: string)
    | Aborted(step: Step, path: string, zip: string, entries: seq<Entry>)
    | Fatal(zip: string, entries: seq<Entry>)
    | Saved(zip: string, entries: seq<Entry>, descriptor: string, content: string)

  /** The zip file name: the identifier, "_" and the build ID when there is one,
      then ".zip". */
  function ArchiveName(identifier: string, buildID: string): (name: string)
    ensures |name| >= |identifier| + 4 && name[..|identifier|] == identifier
    ensures name[|name| - 4..] == ".zip"
    ensures buildID == "" <==> |name| == |identifier| + 4
    ensures buildID != "" ==> name[|identifier|..|name| - 4] == "_" + buildID
  {
    identifier + (if buildID != "" then "_" + buildID else "") + ".zip"
  }

  /** Different build IDs give different archives of one workspace. */
  lemma ArchiveNameInjective(identifier: string, b1: string, b2: string)
    requires ArchiveName(identifier, b1) == ArchiveName(identifier, b2)
    ensures b1 == b2
  {
    var n := ArchiveName(identifier, b1);
    if b1 != "" && b2 != "" {
      assert "_" + b1 == n[|identifier|..|n| - 4] == "_" + b2;
      assert b1 == ("_" + b1)[1..] && b2 == ("_" + b2)[1..];
    }
  }

  /** The entry name of a referenced file: its base name joined under its Type's
      folder. */
  function EntryName(path: string, fileType: string): string
  {
    Join(FileFolder(fileType), Base(path))
  }

  /** The entry keeps the file's base name, and its directory is the folder. */
  lemma EntryNameParts(path: string, fileType: string)
    requires CleanName(Base(path))
    ensures Base(EntryName(path, fileType)) == Base(path)
    ensures Dir(EntryName(path, fileType)) == FileFolder(fileType)
  {
    BaseOfJoin(FileFolder(fileType), Base(path));
    DirOfJoin(FileFolder(fileType), Base(path));
  }

  /** An entry for one of the referenced files, under its folder. */
  predicate EntryOf(e: Entry, files: map<string, string>)
  {
    e.source in files && e.name == EntryName(e.source, files[e.source])
  }

  /** The first of the four per-file calls that fails for path, in call order. */
  function FileFailure(path: string, failures: Failures): (r: Option<Step>)
    ensures r.Some? ==> (r.value, path) in failures
    ensures r.None? <==> !FileFails(path, failures)
  {
    if (Open, path) in failures then Some(Open)
    else if (Stat, path) in failures then Some(Stat)
    else if (CreateHeader, path) in failures then Some(CreateHeader)
    else if (Copy, path) in failures then Some(Copy)
    else None
  }

  /** One of the four per-file calls fails for path. */
  predicate FileFails(path: string, failures: Failures)
  {
    (Open, path) in failures || (Stat, path) in failures
    || (CreateHeader, path) in failures || (Copy, path) in failures
  }

  /** Nothing fails before the workspace entry. */
  predicate EntriesSucceed(zip: string, files: map<string, string>, failures: Failures)
  {
    (CreateZip, zip) !in failures && forall k :: k in files ==> !FileFails(k, failures)
  }

  /** A failure a run may report: the zip's own creation, or else the first of the
      four calls that fails on one referenced file. */
  predicate FirstFailure(f: (Step, string), zip: string, files: map<string, string>, failures: Failures)
  {
    (f == (CreateZip, zip) && (CreateZip, zip) in failures)
    || ((CreateZip, zip) !in failures && f.1 in files && FileFailure(f.1, failures) == Some(f.0))
  }

  /** Every call succeeds: the entries, the workspace entry's creation and its write. */
  predicate Completes(zip: string, files: map<string, string>, descriptor: string, failures: Failures)
  {
    EntriesSucceed(zip, files, failures)
    && (CreateDescriptor, descriptor) !in failures && (WriteDescriptor, descriptor) !in failures
  }

  /** The entries hold each referenced file exactly once, under its folder. */
  predicate AllEntries(entries: seq<Entry>, files: map<string, string>)
  {
    |entries| == |files|
    && (forall i :: 0 <= i < |entries| ==> EntryOf(entries[i], files))
    && (forall k :: k in files ==> exists i :: 0 <= i < |entries| && entries[i].source == k)
    && (forall i, j :: 0 <= i < j < |entries| ==> entries[i].source != entries[j].source)
  }

  /** The entry a referenced file gets: its folder and base name, its path. */
  function EntryAt(k: string, files: map<string, string>): (e: Entry)
    requires k in files
    ensures EntryOf(e, files) && e.source == k
  {
    Entry(EntryName(k, files[k]), k)
  }

  /** entries holds, position by position, the entries of the files listed in order. */
  predicate ListsEntries(entries: seq<Entry>, order: seq<string>, files: map<string, string>)
  {
    |entries| == |order|
    && forall i :: 0 <= i < |order| ==> order[i] in files && entries[i] == EntryAt(order[i], files)
  }

  /** Entries for a duplicate-free listing of every referenced file are a
      complete set of entries. */
  lemma EntriesForAll(entries: seq<Entry>, order: seq<string>, files: map<string, string>)
    requires ListsEntries(entries, order, files)
    requires forall k :: k in order <==> k in files
    requires forall i, j :: 0 <= i < j < |order| ==> order[i] != order[j]
    ensures AllEntries(entries, files)
  {
    ListingCard(order, files.Keys);
    assert |entries| == |files|;
    forall i | 0 <= i < |entries| ensures EntryOf(entries[i], files) && entries[i].source == order[i] {
      assert entries[i] == EntryAt(order[i], files);
    }
    forall k | k in files ensures exists i :: 0 <= i < |entries| && entries[i].source == k {
      var i :| 0 <= i < |order| && order[i] == k;
      assert entries[i].source == k;
    }
  }

  /** os.Create of the zip, then the range loop over the referenced files, in
      whatever order Go picks: each one opened, stat'ed, given a header and
      copied, and the first failing call ends the run with that step and path. */
  method WriteEntries(zip: string, files: map<string, string>, failures: Failures)
    returns (entries: seq<Entry>, failed: Option<(Step, string)>)
    ensures failed.None? <==> EntriesSucceed(zip, files, failures)
    ensures failed.Some? ==> failed.value in failures && FirstFailure(failed.value, zip, files, failures)
    ensures (CreateZip, zip) in failures ==> failed == Some((CreateZip, zip)) && entries == []
    ensures forall i :: 0 <= i < |entries| ==> !FileFails(entries[i].source, failures)
    ensures forall i :: 0 <= i < |entries| ==> EntryOf(entries[i], files)
    ensures forall i, j :: 0 <= i < j < |entries| ==> entries[i].source != entries[j].source
    ensures failed.None? ==> AllEntries(entries, files)
  {
    entries := [];
    if (CreateZip, zip) in failures {
      return entries, Some((CreateZip, zip));
    }
    var todo := files.Keys;
    ghost var order: seq<string> := [];
    while todo != {}
      invariant todo <= files.Keys
      invariant forall k :: k in order <==> k in files && k !in todo
      invariant forall i, j :: 0 <= i < j < |order| ==> order[i] != order[j]
      invariant forall k :: k in order ==> !FileFails(k, failures)
      invariant ListsEntries(entries, order, files)
      decreases |todo|
    {
      var k :| k in todo;
      var step := FileFailure(k, failures);
      if step.Some? {
        EntriesSound(entries, order, files, failures);
        return entries, Some((step.value, k));
      }
      entries := entries + [EntryAt(k, files)];
      order := order + [k];
      todo := todo - {k};
    }
    EntriesForAll(entries, order, files);
    EntriesSound(entries, order, files, failures);
    return entries, None;
  }

  /** Entries of files none of whose calls fail hold no failing source. */
  lemma EntriesSound(entries: seq<Entry>, order: seq<string>, files: map<string, string>, failures: Failures)
    requires ListsEntries(entries, order, files)
    requires forall k :: k in order ==> !FileFails(k, failures)
    ensures forall i :: 0 <= i < |entries| ==> !FileFails(entries[i].source, failures)
  {
    forall i | 0 <= i < |entries| ensures !FileFails(entries[i].source, failures) {
      assert entries[i].source == order[i];
    }
  }

  /** A duplicate-free listing of a set is as long as the set is large. */
  lemma {:induction false} ListingCard(order: seq<string>, keys: set<string>)
    requires forall k :: k in order <==> k in keys
    requires forall i, j :: 0 <= i < j < |order| ==> order[i] != order[j]
    ensures |order| == |keys|
    decreases |order|
  {
    if order != [] {
      var last := order[|order| - 1];
      var rest := order[..|order| - 1];
      assert forall k :: k in rest <==> k in keys - {last} by {
        forall k ensures k in rest <==> k in keys - {last} {
          if k in rest {
            var i :| 0 <= i < |rest| && rest[i] == k;
            assert order[i] == k;
          }
          if k in keys - {last} {
            assert k in order;
            var i :| 0 <= i < |order| && order[i] == k;
            assert i < |order| - 1;
            assert rest[i] == k;
          }
        }
      }
      ListingCard(rest, keys - {last});
    } else {
      assert forall k :: k !in keys;
      assert keys == {};
    }
  }

  /** The workspace entry once z.Create has succeeded: log.Fatal if the write
      fails, otherwise the complete archive. */
  function Finish(zip: string, entries: seq<Entry>, name: string, content: string, failures: Failures): (r: Outcome)
    ensures r.Saved? <==> (WriteDescriptor, name) !in failures
    ensures r.Saved? ==> r == Saved(zip, entries, name, content)
    ensures r.Fatal? ==> r.zip == zip && r.entries == entries
  {
    if (WriteDescriptor, name) in failures then Fatal(zip, entries)
    else Saved(zip, entries, name, content)
  }

  /** The refusal message: the count, then "File", with an "s" when more than one. */
  function MissingMessage(n: nat): (message: string)
    ensures n == 1 ==> message == "1 File not found"
    ensures n > 1 ==> message == Itoa(n) + " Files not found"
    ensures n == 0 ==> message == "0 File not found"
  {
    Itoa(n) + " File" + (if n > 1 then "s" else "") + " not found"
  }

  /** The message as os.go:78-84 builds it: the "s" is added whenever the count is
      above zero, which it always is on that path. */
  function MissingMessageAsWritten(n: nat): (message: string)
    ensures n > 0 ==> message == Itoa(n) + " Files not found"
  {
    Itoa(n) + " File" + (if n > 0 then "s" else "") + " not found"
  }

  /** One missing file: the message as written reads "1 Files not found". */
  lemma MissingMessageAsWrittenOne()
    ensures MissingMessageAsWritten(1) == "1 Files not found"
    ensures MissingMessageAsWritten(1) != MissingMessage(1)
  {
    assert Itoa(1) == "1";
  }

  /** For more than one missing file the two messages agree. */
  lemma MissingMessagesAgree(n: nat)
    requires n > 1
    ensures MissingMessageAsWritten(n) == MissingMessage(n)
  {
  }
}
