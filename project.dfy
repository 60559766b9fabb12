/** project/project.go and its variant apw/project.go: the Project record of a
    Workspace, its ordering, its constructor, and the lookup and sorted insertion
    of its Systems. The sort type apw/project.go uses, BySystemID, is declared in
    apw/system.go, which is not part of this model; like system.ByIdentifier it is
    taken to order Systems by Identifier. */
module Projects {
  import opened Wrappers
  import opened Text
  import opened Sorting
  import opened Lookup
  import opened Systems

  /** project.Project. */
  datatype Project = Project(
    identifier: string,
    designer: string,
    dealerID: string,
    salesOrder: string,
    purchaseOrder: string,
    comments: string,
    systems: seq<System>)
  {
    /** FindSystem: the first System whose Identifier is id, or None. */
    method FindSystem(id: string) returns (r: Option<System>)
      ensures r.None? <==> NoMatch(systems, SystemIdentifier, id)
      ensures r.Some? ==> exists i :: FirstMatch(systems, SystemIdentifier, id, i) && r.value == systems[i]
    {
      r := FindFirst(systems, SystemIdentifier, id);
    }

    /** AddSystem: s appended, then the Systems sorted by Identifier. */
    function AddSystem(s: System): (r: Project)
      ensures |r.systems| == |systems| + 1
      ensures multiset(r.systems) == multiset(systems) + multiset{s}
      ensures SortedBy(r.systems, SystemIdentifier)
      ensures r.(systems := systems) == this
    {
      var systems' := systems + [s];
      assert multiset(systems') == multiset(systems) + multiset{s};
      var sorted := SortBy(systems', SystemIdentifier);
      assert |sorted| == |multiset(sorted)| == |multiset(systems')| == |systems'|;
      this.(systems := sorted)
    }
  }

  /** The sort key of ByID (ByProjectID in apw/project.go). */
  function ProjectIdentifier(p: Project): string
  {
    p.identifier
  }

  /** NewProject: the given Identifier and nothing else. */
  function NewProject(id: string): (p: Project)
    ensures p.identifier == id && p.systems == []
    ensures p.designer == "" && p.dealerID == "" && p.salesOrder == ""
    ensures p.purchaseOrder == "" && p.comments == ""
  {
    Project(id, "", "", "", "", "", [])
  }

  /** The Identifiers after AddSystem are the old ones and s's. */
  lemma AddSystemIdentifiers(p: Project, s: System)
    ensures multiset(MapSeq(p.AddSystem(s).systems, SystemIdentifier))
      == multiset(MapSeq(p.systems, SystemIdentifier)) + multiset{s.identifier}
  {
    var r := p.AddSystem(s).systems;
    MapSeqPermutation(r, p.systems + [s], SystemIdentifier);
    MapSeqConcat(p.systems, [s], SystemIdentifier);
  }

  /** FindSystem after AddSystem: a System with s's Identifier is found, and it is s
      itself when no older System had that Identifier. */
  lemma AddSystemThenFind(p: Project, s: System)
    ensures exists i :: FirstMatch(p.AddSystem(s).systems, SystemIdentifier, s.identifier, i)
    ensures NoMatch(p.systems, SystemIdentifier, s.identifier) ==>
      forall i :: FirstMatch(p.AddSystem(s).systems, SystemIdentifier, s.identifier, i) ==>
        p.AddSystem(s).systems[i] == s
  {
    var r := p.AddSystem(s).systems;
    AddedIsFound(p.systems, r, s);
    if NoMatch(p.systems, SystemIdentifier, s.identifier) {
      OnlyAddedMatches(p.systems, r, s);
    }
  }

  /** A sequence that holds s has a first System with s's Identifier. */
  lemma AddedIsFound(before: seq<System>, r: seq<System>, s: System)
    requires multiset(r) == multiset(before) + multiset{s}
    ensures exists i :: FirstMatch(r, SystemIdentifier, s.identifier, i)
  {
    assert s in multiset(r);
    var k :| 0 <= k < |r| && r[k] == s;
    SomeMatchHasFirst(r, SystemIdentifier, s.identifier, k);
  }

  /** When no before System had s's Identifier, s is the only one that has it. */
  lemma OnlyAddedMatches(before: seq<System>, r: seq<System>, s: System)
    requires multiset(r) == multiset(before) + multiset{s}
    requires NoMatch(before, SystemIdentifier, s.identifier)
    ensures forall i :: 0 <= i < |r| && SystemIdentifier(r[i]) == s.identifier ==> r[i] == s
  {
    forall i | 0 <= i < |r| && SystemIdentifier(r[i]) == s.identifier ensures r[i] == s {
      assert r[i] in multiset(r);
    }
  }
}
