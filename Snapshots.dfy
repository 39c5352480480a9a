/** Snapshot files: the `<dir>/<name>.state` naming of `getSnapshotPath` and
    `saveSnapshot` (server/routes.ts:195, 219, 280-282, 483), and the listing
    pipeline of the list route (server/routes.ts:459-479). The directory is
    given as the entries `readdirSync` and `statSync` would report. */
module Snapshots {

  import opened Wrappers
  import opened Strings

  const StateSuffix := ".state"

  /** A directory entry: file name, modification time in milliseconds since
      the epoch, size in bytes. */
  datatype DirEntry = DirEntry(file: string, mtime: int, size: nat)

  /** One element of the listing (`createdAt` is the mtime, in milliseconds). */
  datatype SnapshotInfo = SnapshotInfo(name: string, createdAt: int, size: nat)

  /** `path.join(snapshotsDir, `${name}.state`)`. */
  function SnapshotPath(dir: string, name: string): (path: string)
    ensures EndsWith(path, StateSuffix)
    ensures |path| > |dir| && path[..|dir| + 1] == dir + "/"
  {
    dir + "/" + name + StateSuffix
  }

  /** The file a snapshot path names, seen from its directory, is
      `<name>.state`, as long as the name holds no `/`. */
  lemma SnapshotPathFile(dir: string, name: string)
    requires '/' !in name
    ensures LastSegment(SnapshotPath(dir, name), '/') == name + StateSuffix
  {
    assert SnapshotPath(dir, name) == dir + ['/'] + (name + StateSuffix);
    LastSegmentAfterSeparator(dir, name + StateSuffix, '/');
  }

  /** `fs.existsSync` of the snapshot path, on the directory's entries. */
  predicate Exists(dir: seq<DirEntry>, name: string)
  {
    exists i :: 0 <= i < |dir| && dir[i].file == name + StateSuffix
  }

  /** `fs.unlinkSync` of one file: every entry of that name is gone, every
      other entry is kept, in order. */
  function Unlink(dir: seq<DirEntry>, file: string): (rest: seq<DirEntry>)
    ensures forall e :: e in rest ==> e in dir && e.file != file
    ensures forall e :: e in dir && e.file != file ==> e in rest
    decreases |dir|
  {
    if dir == [] then []
    else if dir[0].file == file then Unlink(dir[1..], file)
    else [dir[0]] + Unlink(dir[1..], file)
  }

  predicate IsStateFile(file: string)
  {
    EndsWith(file, StateSuffix)
  }

  /** The `map` step: `f.replace('.state', '')` strips the FIRST occurrence. */
  function Describe(e: DirEntry): SnapshotInfo
  {
    SnapshotInfo(RemoveFirst(e.file, StateSuffix), e.mtime, e.size)
  }

  /** The `filter` and `map` steps, in directory order. */
  function StateEntries(dir: seq<DirEntry>): (infos: seq<SnapshotInfo>)
    ensures |infos| <= |dir|
    ensures forall x :: x in infos ==> exists e :: e in dir && IsStateFile(e.file) && x == Describe(e)
    ensures forall e :: e in dir && IsStateFile(e.file) ==> Describe(e) in infos
    decreases |dir|
  {
    if dir == [] then []
    else
      var rest := StateEntries(dir[1..]);
      assert forall e :: e in dir[1..] ==> e in dir;
      if IsStateFile(dir[0].file) then [Describe(dir[0])] + rest else rest
  }

  /** Some element of a non-empty set. */
  lemma PickOne(t: set<int>) returns (y: int)
    requires |t| > 0
    ensures y in t
  {
    assert exists z :: z in t by {
      if forall z :: z !in t {
        assert false;
      }
    }
    y :| y in t;
  }

  /** Shifting a set of indices by one keeps its size. */
  lemma {:induction false} ShiftedCard(t: set<int>)
    ensures |set i | i in t :: i + 1| == |t|
    decreases |t|
  {
    if |t| > 0 {
      var y := PickOne(t);
      var t' := t - {y};
      ShiftedCard(t');
      var whole := set i | i in t :: i + 1;
      var rest := set i | i in t' :: i + 1;
      forall z | z in whole ensures z in rest + {y + 1} {
        var j :| j in t && z == j + 1;
        if j != y { assert j in t'; }
      }
      forall z | z in rest + {y + 1} ensures z in whole {
        if z != y + 1 {
          var j :| j in t' && z == j + 1;
          assert j in t;
        }
      }
      assert whole == rest + {y + 1};
      assert y + 1 !in rest;
    }
  }

  /** The positions of the `.state` entries of `dir` that describe `x`. */
  ghost function Positions(dir: seq<DirEntry>, x: SnapshotInfo): set<int>
  {
    set i | 0 <= i < |dir| && IsStateFile(dir[i].file) && Describe(dir[i]) == x
  }

  /** The first position, if it qualifies, and the positions in the rest of
      `dir` moved one place on. */
  ghost function SplitPositions(dir: seq<DirEntry>, x: SnapshotInfo): set<int>
    requires |dir| > 0
  {
    (if IsStateFile(dir[0].file) && Describe(dir[0]) == x then {0} else {})
    + (set i | i in Positions(dir[1..], x) :: i + 1)
  }

  lemma PositionsInSplit(dir: seq<DirEntry>, x: SnapshotInfo, i: int)
    requires |dir| > 0 && i in Positions(dir, x)
    ensures i in SplitPositions(dir, x)
  {
    if i > 0 {
      assert dir[i] == dir[1..][i - 1];
      assert i - 1 in Positions(dir[1..], x);
    }
  }

  lemma SplitInPositions(dir: seq<DirEntry>, x: SnapshotInfo, i: int)
    requires |dir| > 0 && i in SplitPositions(dir, x)
    ensures i in Positions(dir, x)
  {
    if i != 0 {
      var j :| j in Positions(dir[1..], x) && i == j + 1;
      assert dir[i] == dir[1..][j];
    }
  }

  /** The positions in `dir` are the first one, if it qualifies, and the
      positions in the rest of `dir`, each moved one place on. */
  lemma PositionsSplit(dir: seq<DirEntry>, x: SnapshotInfo)
    requires |dir| > 0
    ensures Positions(dir, x) == SplitPositions(dir, x)
  {
    forall i | i in Positions(dir, x) ensures i in SplitPositions(dir, x) {
      PositionsInSplit(dir, x, i);
    }
    forall i | i in SplitPositions(dir, x) ensures i in Positions(dir, x) {
      SplitInPositions(dir, x, i);
    }
  }

  /** The `map` keeps one element per `.state` entry: each description
      occurs in the result exactly as often as there are `.state` entries in
      the directory that it describes, duplicates included. */
  lemma {:induction false} StateEntriesMultiplicity(dir: seq<DirEntry>, x: SnapshotInfo)
    ensures multiset(StateEntries(dir))[x]
            == |set i | 0 <= i < |dir| && IsStateFile(dir[i].file) && Describe(dir[i]) == x|
    decreases |dir|
  {
    assert Positions(dir, x) == set i | 0 <= i < |dir| && IsStateFile(dir[i].file) && Describe(dir[i]) == x;
    if dir == [] {
      assert Positions(dir, x) == {};
    } else {
      var t := Positions(dir[1..], x);
      StateEntriesMultiplicity(dir[1..], x);
      assert t == set i | 0 <= i < |dir[1..]| && IsStateFile(dir[1..][i].file) && Describe(dir[1..][i]) == x;
      PositionsSplit(dir, x);
      ShiftedCard(t);
      assert 0 !in (set i | i in t :: i + 1);
    }
  }

  /** Newest first: creation times never increase along the sequence. */
  predicate NewestFirst(xs: seq<SnapshotInfo>)
  {
    forall i, j :: 0 <= i < j < |xs| ==> xs[i].createdAt >= xs[j].createdAt
  }

  /** Insert before the first entry that is not newer, so that equal times
      keep their input order (the sort is stable). */
  function Insert(x: SnapshotInfo, ys: seq<SnapshotInfo>): (r: seq<SnapshotInfo>)
    ensures multiset(r) == multiset(ys) + multiset{x}
    decreases |ys|
  {
    if ys == [] || ys[0].createdAt <= x.createdAt then [x] + ys
    else
      assert ys == [ys[0]] + ys[1..];
      [ys[0]] + Insert(x, ys[1..])
  }

  /** Inserting into a newest-first sequence keeps it newest first. */
  lemma {:induction false} InsertKeepsOrder(x: SnapshotInfo, ys: seq<SnapshotInfo>)
    requires NewestFirst(ys)
    ensures NewestFirst(Insert(x, ys))
    decreases |ys|
  {
    if !(ys == [] || ys[0].createdAt <= x.createdAt) {
      var tail := Insert(x, ys[1..]);
      InsertKeepsOrder(x, ys[1..]);
      InsertedFrom(x, ys[1..], tail);
      var r := [ys[0]] + tail;
      forall i, j | 0 <= i < j < |r| ensures r[i].createdAt >= r[j].createdAt {
        if i > 0 {
          assert r[i] == tail[i - 1] && r[j] == tail[j - 1];
        } else {
          assert r[j] == tail[j - 1];
        }
      }
    }
  }

  /** Every element of an insertion result is the inserted one or came from
      the sequence inserted into. */
  lemma InsertedFrom(x: SnapshotInfo, ys: seq<SnapshotInfo>, r: seq<SnapshotInfo>)
    requires multiset(r) == multiset(ys) + multiset{x}
    ensures forall k :: 0 <= k < |r| ==> r[k] == x || r[k] in ys
  {
    forall k | 0 <= k < |r| ensures r[k] == x || r[k] in ys {
      assert r[k] in multiset(r);
    }
  }

  /** `.sort((a, b) => b.createdAt - a.createdAt)`. */
  function SortNewestFirst(xs: seq<SnapshotInfo>): (r: seq<SnapshotInfo>)
    ensures multiset(r) == multiset(xs)
    ensures NewestFirst(r)
    decreases |xs|
  {
    if xs == [] then []
    else
      assert xs == [xs[0]] + xs[1..];
      InsertKeepsOrder(xs[0], SortNewestFirst(xs[1..]));
      Insert(xs[0], SortNewestFirst(xs[1..]))
  }

  /** The list route's answer: `None` is a directory read (or stat) that threw,
      which yields the empty list. */
  function ListSnapshots(listing: Option<seq<DirEntry>>): (r: seq<SnapshotInfo>)
    ensures listing.None? ==> r == []
    ensures listing.Some? ==> multiset(r) == multiset(StateEntries(listing.value))
    ensures NewestFirst(r)
  {
    match listing
    case None => []
    case Some(dir) => SortNewestFirst(StateEntries(dir))
  }

  /** Exactly the `.state` files are listed, each described by its stripped
      name, mtime and size; an empty directory lists nothing. */
  lemma ListedIffStateFile(dir: seq<DirEntry>, x: SnapshotInfo)
    ensures x in ListSnapshots(Some(dir)) <==> exists e :: e in dir && IsStateFile(e.file) && x == Describe(e)
    ensures ListSnapshots(Some([])) == []
  {
    var r := ListSnapshots(Some(dir));
    assert x in r <==> x in multiset(r);
    assert x in StateEntries(dir) <==> x in multiset(StateEntries(dir));
  }

  /** `replace` strips only the first `.state`. */
  lemma StripsFirstOccurrenceOnly()
    ensures RemoveFirst("a.state.state", StateSuffix) == "a.state"
  {
    var s := "a.state.state";
    assert OccursAt(s, StateSuffix, 1);
    assert s[0] == 'a';
    assert !OccursAt(s, StateSuffix, 0);
    var i := FirstOccurrence(s, StateSuffix, 0);
    assert i == Some(1);
  }

  /** A file named `<name>.state` whose name holds no dot is described by that
      name again. */
  lemma StripStateSuffix(name: string)
    requires '.' !in name
    ensures RemoveFirst(name + StateSuffix, StateSuffix) == name
  {
    var s := name + StateSuffix;
    assert OccursAt(s, StateSuffix, |name|);
    forall j | 0 <= j < |name| ensures !OccursAt(s, StateSuffix, j) {
      assert s[j] == name[j];
    }
    var i := FirstOccurrence(s, StateSuffix, 0);
    assert i == Some(|name|);
    assert s[..|name|] == name;
  }

  /** What `saveSnapshot` writes is what the listing shows: a snapshot file
      `<name>.state` (dot-free name, as the save route's names are) is listed
      under `name` with its mtime and size. */
  lemma SavedSnapshotIsListed(dir: seq<DirEntry>, name: string, mtime: int, size: nat)
    requires '.' !in name
    requires DirEntry(name + StateSuffix, mtime, size) in dir
    ensures SnapshotInfo(name, mtime, size) in ListSnapshots(Some(dir))
  {
    var e := DirEntry(name + StateSuffix, mtime, size);
    StripStateSuffix(name);
    assert IsStateFile(e.file);
    assert Describe(e) == SnapshotInfo(name, mtime, size);
    ListedIffStateFile(dir, Describe(e));
  }
}
