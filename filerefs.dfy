/** The file-reference scan shared by apw/apw.go (populateFileReferences, into
    APW.FilesReferenced) and apw.go (GatherFiles into APWInfo.Files, checkFiles):
    every File of the tree keyed by its resolved path, with its Type as value,
    and the keys that are not on disk. */
module FileRefs {
  import opened Paths
  import opened Files
  import opened Systems
  import opened Projects

  /** An absolute FilePathName is its own key; a relative one is joined to the
      directory of the .apw file. */
  function Resolve(origin: string, path: string): (key: string)
    ensures IsAbs(path) ==> key == path
    ensures !IsAbs(path) ==> key == Join(origin, path)
    ensures IsAbs(origin) ==> IsAbs(key)
  {
    if IsAbs(path) then path else Join(origin, path)
  }

  /** The Files of a list of Systems, in range order. */
  function SystemFiles(ss: seq<System>): seq<File>
  {
    if ss == [] then [] else ss[0].files + SystemFiles(ss[1..])
  }

  /** The Files of the tree, in the order the three nested range loops visit them. */
  function AllFiles(ps: seq<Project>): seq<File>
  {
    if ps == [] then [] else SystemFiles(ps[0].systems) + AllFiles(ps[1..])
  }

  lemma {:induction false} SystemFilesSnoc(ss: seq<System>, s: System)
    ensures SystemFiles(ss + [s]) == SystemFiles(ss) + s.files
  {
    if ss == [] {
      assert [s][1..] == [];
      assert ss + [s] == [s];
    } else {
      assert (ss + [s])[1..] == ss[1..] + [s];
      SystemFilesSnoc(ss[1..], s);
    }
  }

  lemma {:induction false} AllFilesSnoc(ps: seq<Project>, p: Project)
    ensures AllFiles(ps + [p]) == AllFiles(ps) + SystemFiles(p.systems)
  {
    if ps == [] {
      assert [p][1..] == [];
      assert ps + [p] == [p];
    } else {
      assert (ps + [p])[1..] == ps[1..] + [p];
      AllFilesSnoc(ps[1..], p);
    }
  }

  /** m after `m[key] = file.Type` for each File of fs in turn. */
  function Collect(m: map<string, string>, origin: string, fs: seq<File>): map<string, string>
  {
    if fs == [] then m
    else
      var f := fs[|fs| - 1];
      Collect(m, origin, fs[..|fs| - 1])[Resolve(origin, f.filePathName) := f.fileType]
  }

  /** The keys written for fs. */
  function Keys(origin: string, fs: seq<File>): set<string>
  {
    set i | 0 <= i < |fs| :: Resolve(origin, fs[i].filePathName)
  }

  /** Collecting only adds keys: the old ones and one per File, never removing any. */
  lemma {:induction false} CollectKeys(m: map<string, string>, origin: string, fs: seq<File>)
    ensures Collect(m, origin, fs).Keys == m.Keys + Keys(origin, fs)
  {
    if fs != [] {
      var fs' := fs[..|fs| - 1];
      CollectKeys(m, origin, fs');
      assert Keys(origin, fs) == Keys(origin, fs') + {Resolve(origin, fs[|fs| - 1].filePathName)} by {
        forall i | 0 <= i < |fs'| ensures fs'[i] == fs[i] { }
      }
    }
  }

  /** Last write wins: a key takes the Type of the last File that resolves to it. */
  lemma {:induction false} CollectLastWins(m: map<string, string>, origin: string, fs: seq<File>, i: int)
    requires 0 <= i < |fs|
    requires forall j :: i < j < |fs| ==> Resolve(origin, fs[j].filePathName) != Resolve(origin, fs[i].filePathName)
    ensures Resolve(origin, fs[i].filePathName) in Collect(m, origin, fs)
    ensures Collect(m, origin, fs)[Resolve(origin, fs[i].filePathName)] == fs[i].fileType
  {
    if i < |fs| - 1 {
      CollectLastWins(m, origin, fs[..|fs| - 1], i);
    }
  }

  /** A key no File resolves to keeps its old value. */
  lemma {:induction false} CollectKeepsOthers(m: map<string, string>, origin: string, fs: seq<File>, k: string)
    requires k in m && k !in Keys(origin, fs)
    ensures k in Collect(m, origin, fs) && Collect(m, origin, fs)[k] == m[k]
  {
    if fs != [] {
      var fs' := fs[..|fs| - 1];
      assert Keys(origin, fs') <= Keys(origin, fs) by {
        forall i | 0 <= i < |fs'| ensures fs'[i] == fs[i] { }
      }
      assert Resolve(origin, fs[|fs| - 1].filePathName) != k;
      CollectKeepsOthers(m, origin, fs', k);
    }
  }

  /** The innermost loop: one System's Files. */
  method CollectSystem(m: map<string, string>, origin: string, s: System) returns (r: map<string, string>)
    ensures r == Collect(m, origin, s.files)
  {
    r := m;
    var fi := 0;
    while fi < |s.files|
      invariant 0 <= fi <= |s.files|
      invariant r == Collect(m, origin, s.files[..fi])
    {
      var f := s.files[fi];
      assert s.files[..fi + 1][..fi] == s.files[..fi];
      if IsAbs(f.filePathName) {
        r := r[f.filePathName := f.fileType];
      } else {
        r := r[Join(origin, f.filePathName) := f.fileType];
      }
      fi := fi + 1;
    }
    assert s.files[..fi] == s.files;
  }

  /** A concatenation is collected part by part. */
  lemma {:induction false} CollectConcat(m: map<string, string>, origin: string, a: seq<File>, b: seq<File>)
    ensures Collect(m, origin, a + b) == Collect(Collect(m, origin, a), origin, b)
    decreases |b|
  {
    if b == [] {
      assert a + b == a;
    } else {
      assert (a + b)[..|a + b| - 1] == a + b[..|b| - 1];
      CollectConcat(m, origin, a, b[..|b| - 1]);
    }
  }

  /** The middle loop: one Project's Systems. */
  method CollectProject(m: map<string, string>, origin: string, p: Project) returns (r: map<string, string>)
    ensures r == Collect(m, origin, SystemFiles(p.systems))
  {
    r := m;
    var si := 0;
    while si < |p.systems|
      invariant 0 <= si <= |p.systems|
      invariant r == Collect(m, origin, SystemFiles(p.systems[..si]))
    {
      r := CollectSystem(r, origin, p.systems[si]);
      assert p.systems[..si + 1] == p.systems[..si] + [p.systems[si]];
      SystemFilesSnoc(p.systems[..si], p.systems[si]);
      CollectConcat(m, origin, SystemFiles(p.systems[..si]), p.systems[si].files);
      si := si + 1;
    }
    assert p.systems[..si] == p.systems;
  }

  /** The three nested range loops of populateFileReferences and GatherFiles. */
  method CollectReferences(m: map<string, string>, origin: string, ps: seq<Project>) returns (r: map<string, string>)
    ensures r == Collect(m, origin, AllFiles(ps))
  {
    r := m;
    var pi := 0;
    while pi < |ps|
      invariant 0 <= pi <= |ps|
      invariant r == Collect(m, origin, AllFiles(ps[..pi]))
    {
      r := CollectProject(r, origin, ps[pi]);
      assert ps[..pi + 1] == ps[..pi] + [ps[pi]];
      AllFilesSnoc(ps[..pi], ps[pi]);
      CollectConcat(m, origin, AllFiles(ps[..pi]), SystemFiles(ps[pi].systems));
      pi := pi + 1;
    }
    assert ps[..pi] == ps;
  }

  /** The keys of m os.Stat reports as not existing, given the set of paths that exist. */
  function Absent(m: map<string, string>, onDisk: set<string>): set<string>
  {
    set k | k in m && k !in onDisk
  }

  /** The loop over the map's keys, in whatever order Go picks, appending each key
      that is not on disk: every absent key exactly once and nothing else. */
  method MissingKeys(m: map<string, string>, onDisk: set<string>) returns (missing: seq<string>)
    ensures ListsOnce(missing, Absent(m, onDisk))
  {
    missing := [];
    var todo := m.Keys;
    ghost var seen: set<string> := {};
    while todo != {}
      invariant todo <= m.Keys && seen == (m.Keys - todo) * Absent(m, onDisk)
      invariant ListsOnce(missing, seen)
      decreases |todo|
    {
      var k :| k in todo;
      AbsentStep(m, onDisk, todo, seen, k);
      if k !in onDisk {
        ListsOnceAppend(missing, seen, k);
        missing := missing + [k];
        seen := seen + {k};
      }
      todo := todo - {k};
    }
    AbsentDone(m, onDisk, seen);
  }

  /** Taking k off the keys still to visit adds k to the absent keys seen, when it is absent. */
  lemma AbsentStep(m: map<string, string>, onDisk: set<string>, todo: set<string>, seen: set<string>, k: string)
    requires todo <= m.Keys && seen == (m.Keys - todo) * Absent(m, onDisk) && k in todo
    ensures k !in onDisk ==> k !in seen && seen + {k} == (m.Keys - (todo - {k})) * Absent(m, onDisk)
    ensures k in onDisk ==> seen == (m.Keys - (todo - {k})) * Absent(m, onDisk)
  {
  }

  /** Once every key is visited, the absent keys seen are all of them. */
  lemma AbsentDone(m: map<string, string>, onDisk: set<string>, seen: set<string>)
    requires seen == (m.Keys - {}) * Absent(m, onDisk)
    ensures seen == Absent(m, onDisk)
  {
  }

  /** s lists the set exactly: every element once and nothing else. */
  predicate ListsOnce(s: seq<string>, elems: set<string>)
  {
    (forall i :: 0 <= i < |s| ==> s[i] in elems)
    && (forall k :: k in elems ==> k in s)
    && (forall i, j :: 0 <= i < j < |s| ==> s[i] != s[j])
    && |s| == |elems|
  }

  /** Appending an element not yet listed keeps the listing exact. */
  lemma ListsOnceAppend(s: seq<string>, elems: set<string>, k: string)
    requires ListsOnce(s, elems) && k !in elems
    ensures ListsOnce(s + [k], elems + {k})
  {
    var t := s + [k];
    forall i, j | 0 <= i < j < |t| ensures t[i] != t[j] {
      assert t[i] == s[i];
      if j < |s| { assert t[j] == s[j]; }
    }
  }
}
