/** The project registry: declarations reconciled with stored rows, and the project a directory
    is in. Where a path leads, and whether a directory is there, is the disk's to say. */
module Projects {
  import opened Wrappers

  type RawPath = string
  /** A resolved path, by its parts. */
  type Path = seq<string>

  datatype Disk = Disk(resolve: RawPath -> Path, present: RawPath -> bool)

  /** `details` stands for upstream and description, which nothing here depends on. */
  datatype Declaration = Declaration(name: string, root: RawPath, extras: seq<RawPath>, details: string)

  datatype Project = Project(name: string, root: RawPath, extras: seq<RawPath>, details: string, enabled: bool)

  datatype Entry = Entry(path: Path, name: string)

  // ---------------------------------------------------------------- reconciling

  /** The stored row of a root; of several, the last. */
  function RowOf(disk: Disk, stored: seq<Project>, path: Path): Option<nat> {
    if stored == [] then None
    else if disk.resolve(stored[|stored| - 1].root) == path then Some(|stored| - 1)
    else RowOf(disk, stored[..|stored| - 1], path)
  }

  /** The rows after the first `n` declarations: each adopts the stored row of its root, under its
      own name, or adds one. */
  function Adopted(disk: Disk, stored: seq<Project>, config: seq<Declaration>, n: nat): (rows: seq<Project>)
    requires n <= |config|
    ensures |rows| >= |stored|
    ensures forall i :: 0 <= i < |stored| ==> rows[i].root == stored[i].root
  {
    if n == 0 then stored
    else
      var before := Adopted(disk, stored, config, n - 1);
      var d := config[n - 1];
      match RowOf(disk, stored, disk.resolve(d.root))
      case None => before + [Project(d.name, d.root, d.extras, d.details, false)]
      case Some(i) =>
        if i < |before|
        then before[i := before[i].(name := d.name, extras := d.extras, details := d.details)]
        else before
  }

  function Roots(project: Project): seq<RawPath> {
    [project.root] + project.extras
  }

  function Resolved(disk: Disk, roots: seq<RawPath>): seq<Path> {
    seq(|roots|, k requires 0 <= k < |roots| => disk.resolve(roots[k]))
  }

  /** Every directory the rows claim, row by row. */
  function Claims(disk: Disk, rows: seq<Project>): seq<Path> {
    if rows == [] then []
    else Claims(disk, rows[..|rows| - 1]) + Resolved(disk, Roots(rows[|rows| - 1]))
  }

  function Names(rows: seq<Project>): seq<string> {
    seq(|rows|, i requires 0 <= i < |rows| => rows[i].name)
  }

  predicate Distinct<T(==)>(s: seq<T>) {
    forall i, j :: 0 <= i < j < |s| ==> s[i] != s[j]
  }

  /** No two rows share a name, and no directory is claimed twice. */
  predicate Coherent(disk: Disk, rows: seq<Project>) {
    Distinct(Names(rows)) && Distinct(Claims(disk, rows))
  }

  function Enabled(disk: Disk, rows: seq<Project>): seq<Project> {
    seq(|rows|, i requires 0 <= i < |rows| => rows[i].(enabled := disk.present(rows[i].root)))
  }

  // ---------------------------------------------------------------- the index

  function EntriesOf(disk: Disk, project: Project): seq<Entry> {
    if !project.enabled then []
    else seq(|Roots(project)|, k requires 0 <= k < |Roots(project)| =>
             Entry(disk.resolve(Roots(project)[k]), project.name))
  }

  function Entries(disk: Disk, rows: seq<Project>): seq<Entry> {
    if rows == [] then []
    else Entries(disk, rows[..|rows| - 1]) + EntriesOf(disk, rows[|rows| - 1])
  }

  predicate DeepestFirst(roots: seq<Entry>) {
    forall i, j :: 0 <= i < j < |roots| ==> |roots[i].path| >= |roots[j].path|
  }

  /** The roots of the enabled rows, deepest first, in whichever order ties were left. */
  ghost predicate Indexes(disk: Disk, roots: seq<Entry>, rows: seq<Project>) {
    DeepestFirst(roots) && multiset(roots) == multiset(Entries(disk, rows))
  }

  function FirstHit(roots: seq<Entry>, path: Path): Option<string> {
    if roots == [] then None
    else if roots[0].path <= path then Some(roots[0].name)
    else FirstHit(roots[1..], path)
  }

  /** `e` is the `k`th root of the enabled row `i`. */
  predicate Indexed(disk: Disk, rows: seq<Project>, e: Entry, i: nat, k: nat) {
    && i < |rows| && rows[i].enabled && k < |Roots(rows[i])|
    && e == Entry(disk.resolve(Roots(rows[i])[k]), rows[i].name)
  }

  lemma {:induction false} EntryHasRow(disk: Disk, rows: seq<Project>, e: Entry) returns (i: nat, k: nat)
    requires e in Entries(disk, rows)
    ensures Indexed(disk, rows, e, i, k)
  {
    var front, last := rows[..|rows| - 1], rows[|rows| - 1];
    if e in Entries(disk, front) {
      i, k := EntryHasRow(disk, front, e);
      assert rows[i] == front[i];
    } else {
      i := |rows| - 1;
      k :| 0 <= k < |EntriesOf(disk, last)| && EntriesOf(disk, last)[k] == e;
    }
  }

  lemma {:induction false} RowHasEntry(disk: Disk, rows: seq<Project>, e: Entry, i: nat, k: nat)
    requires Indexed(disk, rows, e, i, k)
    ensures e in Entries(disk, rows)
  {
    var front, last := rows[..|rows| - 1], rows[|rows| - 1];
    if i < |front| {
      assert front[i] == rows[i];
      RowHasEntry(disk, front, e, i, k);
    } else {
      assert EntriesOf(disk, last)[k] == e;
    }
  }

  /** Exactly the enabled rows' roots are indexed. */
  lemma EntriesExactly(disk: Disk, rows: seq<Project>, e: Entry)
    ensures e in Entries(disk, rows) <==> exists i: nat, k: nat :: Indexed(disk, rows, e, i, k)
  {
    if e in Entries(disk, rows) {
      var i, k := EntryHasRow(disk, rows, e);
    }
    forall i: nat, k: nat | Indexed(disk, rows, e, i, k) ensures e in Entries(disk, rows) {
      RowHasEntry(disk, rows, e, i, k);
    }
  }

  lemma {:induction false} EntryIsClaimed(disk: Disk, rows: seq<Project>, e: Entry)
    requires e in Entries(disk, rows)
    ensures e.path in Claims(disk, rows)
  {
    var front, last := rows[..|rows| - 1], rows[|rows| - 1];
    if e in Entries(disk, front) {
      EntryIsClaimed(disk, front, e);
    } else {
      var k :| 0 <= k < |EntriesOf(disk, last)| && EntriesOf(disk, last)[k] == e;
      assert Resolved(disk, Roots(last))[k] == e.path;
    }
  }

  lemma DistinctParts<T>(a: seq<T>, b: seq<T>)
    requires Distinct(a + b)
    ensures Distinct(a) && Distinct(b) && forall x :: x in a ==> x !in b
  {
    forall i, j | 0 <= i < j < |b| ensures b[i] != b[j] {
      assert (a + b)[|a| + i] == b[i] && (a + b)[|a| + j] == b[j];
    }
    forall i, j | 0 <= i < j < |a| ensures a[i] != a[j] {
      assert (a + b)[i] == a[i] && (a + b)[j] == a[j];
    }
    forall i, j | 0 <= i < |a| && 0 <= j < |b| ensures a[i] != b[j] {
      assert (a + b)[i] == a[i] && (a + b)[|a| + j] == b[j];
    }
  }

  /** Where no directory is claimed twice, one path is indexed once. */
  lemma {:induction false} OneEntryAPath(disk: Disk, rows: seq<Project>, e: Entry, f: Entry)
    requires Distinct(Claims(disk, rows)) && e in Entries(disk, rows) && f in Entries(disk, rows) && e.path == f.path
    ensures e == f
  {
    var front, last := rows[..|rows| - 1], rows[|rows| - 1];
    DistinctParts(Claims(disk, front), Resolved(disk, Roots(last)));
    if e in Entries(disk, front) {
      EntryIsClaimed(disk, front, e);
    }
    if f in Entries(disk, front) {
      EntryIsClaimed(disk, front, f);
    }
    if e in Entries(disk, front) && f in Entries(disk, front) {
      OneEntryAPath(disk, front, e, f);
    } else {
      forall x | x in EntriesOf(disk, last) ensures x.path in Resolved(disk, Roots(last)) && x.name == last.name {
        var k :| 0 <= k < |EntriesOf(disk, last)| && EntriesOf(disk, last)[k] == x;
        assert Resolved(disk, Roots(last))[k] == x.path;
      }
    }
  }

  // ---------------------------------------------------------------- resolving

  /** `e` is an enabled root holding `path`, and no other holds it as deep down. */
  ghost predicate Deepest(disk: Disk, rows: seq<Project>, path: Path, e: Entry) {
    && e in Entries(disk, rows) && e.path <= path
    && forall f :: f in Entries(disk, rows) && f.path <= path && f != e ==> |f.path| < |e.path|
  }

  lemma {:induction false} FirstHitIs(roots: seq<Entry>, path: Path)
    requires DeepestFirst(roots)
    ensures FirstHit(roots, path).None? <==> forall e :: e in roots ==> !(e.path <= path)
    ensures FirstHit(roots, path).Some? ==>
              exists e :: e in roots && e.path <= path && e.name == FirstHit(roots, path).value
                          && forall f :: f in roots && f.path <= path ==> |f.path| <= |e.path|
  {
    if roots != [] {
      assert forall f :: f in roots ==> f == roots[0] || f in roots[1..];
      if roots[0].path <= path {
        assert roots[0] in roots;
      } else {
        FirstHitIs(roots[1..], path);
        if FirstHit(roots, path).Some? {
          var e :| e in roots[1..] && e.path <= path && e.name == FirstHit(roots[1..], path).value
                   && forall f :: f in roots[1..] && f.path <= path ==> |f.path| <= |e.path|;
          assert e in roots;
        }
      }
    }
  }

  lemma SameElements(roots: seq<Entry>, entries: seq<Entry>)
    requires multiset(roots) == multiset(entries)
    ensures forall e :: e in roots <==> e in entries
  {
    forall e ensures e in roots <==> e in entries {
      assert e in roots <==> e in multiset(roots);
      assert e in entries <==> e in multiset(entries);
    }
  }

  /** Two roots that hold a path and are as deep are the same directory. */
  lemma EquallyDeepAreOne(a: Path, b: Path, path: Path)
    requires a <= path && b <= path && |a| == |b|
    ensures a == b
  {
    assert a == path[..|a|] && b == path[..|b|];
  }

  /** A directory is in the one enabled project whose root holds it deepest down, and in none
      exactly if no enabled root holds it. */
  lemma ResolvesDeepest(disk: Disk, rows: seq<Project>, roots: seq<Entry>, path: Path)
    requires Coherent(disk, rows) && Indexes(disk, roots, rows)
    ensures FirstHit(roots, path).None? <==> forall e :: e in Entries(disk, rows) ==> !(e.path <= path)
    ensures forall name ::
              FirstHit(roots, path) == Some(name) <==> exists e :: Deepest(disk, rows, path, e) && e.name == name
  {
    SameElements(roots, Entries(disk, rows));
    FirstHitIs(roots, path);
    if FirstHit(roots, path).Some? {
      var e :| e in roots && e.path <= path && e.name == FirstHit(roots, path).value
               && forall f :: f in roots && f.path <= path ==> |f.path| <= |e.path|;
      forall f | f in Entries(disk, rows) && f.path <= path && f != e ensures |f.path| < |e.path| {
        if |f.path| == |e.path| {
          EquallyDeepAreOne(e.path, f.path, path);
          OneEntryAPath(disk, rows, e, f);
        }
      }
      assert Deepest(disk, rows, path, e);
      forall f | Deepest(disk, rows, path, f) ensures f == e {
      }
    }
  }

  /** Two orders of the same roots, deepest first, resolve alike. */
  lemma TiesDoNotMatter(disk: Disk, rows: seq<Project>, one: seq<Entry>, other: seq<Entry>, path: Path)
    requires Coherent(disk, rows) && Indexes(disk, one, rows) && Indexes(disk, other, rows)
    ensures FirstHit(one, path) == FirstHit(other, path)
  {
    ResolvesDeepest(disk, rows, one, path);
    ResolvesDeepest(disk, rows, other, path);
    if FirstHit(one, path).Some? {
      assert FirstHit(one, path) == Some(FirstHit(one, path).value);
    }
  }

  // ---------------------------------------------------------------- which declarations count

  lemma {:induction false} RowOfIs(disk: Disk, stored: seq<Project>, path: Path)
    ensures match RowOf(disk, stored, path)
            case None => forall i :: 0 <= i < |stored| ==> disk.resolve(stored[i].root) != path
            case Some(i) => i < |stored| && disk.resolve(stored[i].root) == path
                            && forall j :: i < j < |stored| ==> disk.resolve(stored[j].root) != path
  {
    if stored != [] && disk.resolve(stored[|stored| - 1].root) != path {
      RowOfIs(disk, stored[..|stored| - 1], path);
    }
  }

  /** A row claims its root. */
  lemma {:induction false} RootIsClaimed(disk: Disk, rows: seq<Project>, r: nat)
    requires r < |rows|
    ensures disk.resolve(rows[r].root) in Claims(disk, rows)
  {
    var front, last := rows[..|rows| - 1], rows[|rows| - 1];
    if r < |front| {
      RootIsClaimed(disk, front, r);
    } else {
      assert Resolved(disk, Roots(last))[0] == disk.resolve(last.root);
    }
  }

  lemma {:induction false} OneRowARoot(disk: Disk, rows: seq<Project>, a: nat, b: nat)
    requires Distinct(Claims(disk, rows)) && a < |rows| && b < |rows|
    requires disk.resolve(rows[a].root) == disk.resolve(rows[b].root)
    ensures a == b
    decreases |rows|
  {
    var front, last := rows[..|rows| - 1], rows[|rows| - 1];
    DistinctParts(Claims(disk, front), Resolved(disk, Roots(last)));
    assert Resolved(disk, Roots(last))[0] == disk.resolve(last.root);
    if a < |front| {
      RootIsClaimed(disk, front, a);
    }
    if b < |front| {
      RootIsClaimed(disk, front, b);
    }
    if a < |front| && b < |front| {
      OneRowARoot(disk, front, a, b);
    }
  }

  /** A row as declared: under its name and at its root, with its further roots and details. */
  predicate StandsAt(disk: Disk, rows: seq<Project>, d: Declaration, r: nat) {
    && r < |rows| && rows[r].name == d.name && disk.resolve(rows[r].root) == disk.resolve(d.root)
    && rows[r].extras == d.extras && rows[r].details == d.details
  }

  ghost predicate Stands(disk: Disk, rows: seq<Project>, d: Declaration) {
    exists r: nat :: StandsAt(disk, rows, d, r)
  }

  predicate SameRoot(disk: Disk, config: seq<Declaration>, i: nat, j: nat) {
    i < |config| && j < |config| && disk.resolve(config[i].root) == disk.resolve(config[j].root)
  }

  lemma {:induction false} StandsUntilReplaced(disk: Disk, stored: seq<Project>, config: seq<Declaration>, i: nat,
                                               n: nat)
    requires i < n <= |config|
    requires forall j :: i < j < n ==> !SameRoot(disk, config, i, j)
    ensures Stands(disk, Adopted(disk, stored, config, n), config[i])
    decreases n
  {
    var before, rows := Adopted(disk, stored, config, n - 1), Adopted(disk, stored, config, n);
    RowOfIs(disk, stored, disk.resolve(config[n - 1].root));
    var row := RowOf(disk, stored, disk.resolve(config[n - 1].root));
    if i == n - 1 {
      var r := if row.Some? then row.value else |before|;
      assert StandsAt(disk, rows, config[i], r);
    } else {
      StandsUntilReplaced(disk, stored, config, i, n - 1);
      var r: nat :| StandsAt(disk, before, config[i], r);
      assert row != Some(r) by {
        assert !SameRoot(disk, config, i, n - 1);
      }
      assert rows[r] == before[r];
      assert StandsAt(disk, rows, config[i], r);
    }
  }

  /** A later declaration of a stored row has the last word on its name. */
  lemma {:induction false} NamedLater(disk: Disk, stored: seq<Project>, config: seq<Declaration>, i: nat, j: nat,
                                      n: nat, r: nat)
    requires i < j < n <= |config| && RowOf(disk, stored, disk.resolve(config[j].root)) == Some(r) && r < |stored|
    ensures exists k :: i < k < n && Adopted(disk, stored, config, n)[r].name == config[k].name
    decreases n
  {
    if RowOf(disk, stored, disk.resolve(config[n - 1].root)) == Some(r) {
      assert Adopted(disk, stored, config, n)[r].name == config[n - 1].name;
    } else {
      NamedLater(disk, stored, config, i, j, n - 1, r);
      var k :| i < k < n - 1 && Adopted(disk, stored, config, n - 1)[r].name == config[k].name;
      assert Adopted(disk, stored, config, n)[r] == Adopted(disk, stored, config, n - 1)[r];
    }
  }

  function RootAt(disk: Disk, rows: seq<Project>, r: nat): Path
    requires r < |rows|
  {
    disk.resolve(rows[r].root)
  }

  ghost predicate RepeatsRoot(disk: Disk, rows: seq<Project>) {
    exists a, b :: 0 <= a < b < |rows| && RootAt(disk, rows, a) == RootAt(disk, rows, b)
  }

  /** A declaration keeps every row's root, and adds a row where its directory has none stored. */
  lemma OneMoreAdopted(disk: Disk, stored: seq<Project>, config: seq<Declaration>, n: nat)
    requires 0 < n <= |config|
    ensures var before, rows := Adopted(disk, stored, config, n - 1), Adopted(disk, stored, config, n);
            && |before| <= |rows|
            && (forall a :: 0 <= a < |before| ==> RootAt(disk, rows, a) == RootAt(disk, before, a))
            && (RowOf(disk, stored, disk.resolve(config[n - 1].root)).None? ==>
                  |rows| == |before| + 1 && RootAt(disk, rows, |before|) == disk.resolve(config[n - 1].root))
  {
  }

  /** Two declarations of one directory nobody stored each add a row. */
  lemma {:induction false} NewRootsRepeat(disk: Disk, stored: seq<Project>, config: seq<Declaration>, i: nat, j: nat,
                                          n: nat)
    requires i < j < n <= |config| && SameRoot(disk, config, i, j)
    requires RowOf(disk, stored, disk.resolve(config[i].root)).None?
    ensures RepeatsRoot(disk, Adopted(disk, stored, config, n))
    decreases n
  {
    hide Adopted, RowOf, RootAt;
    var before, rows := Adopted(disk, stored, config, n - 1), Adopted(disk, stored, config, n);
    OneMoreAdopted(disk, stored, config, n);
    if j < n - 1 {
      NewRootsRepeat(disk, stored, config, i, j, n - 1);
      var a, b :| 0 <= a < b < |before| && RootAt(disk, before, a) == RootAt(disk, before, b);
      assert RootAt(disk, rows, a) == RootAt(disk, rows, b);
    } else {
      NewRootStays(disk, stored, config, i, n - 1);
      var a :| 0 <= a < |before| && RootAt(disk, before, a) == disk.resolve(config[i].root);
      assert RootAt(disk, rows, a) == RootAt(disk, rows, |before|);
    }
  }

  lemma {:induction false} NewRootStays(disk: Disk, stored: seq<Project>, config: seq<Declaration>, i: nat, n: nat)
    requires i < n <= |config| && RowOf(disk, stored, disk.resolve(config[i].root)).None?
    ensures var rows := Adopted(disk, stored, config, n);
            exists a :: 0 <= a < |rows| && RootAt(disk, rows, a) == disk.resolve(config[i].root)
    decreases n
  {
    var before, rows := Adopted(disk, stored, config, n - 1), Adopted(disk, stored, config, n);
    OneMoreAdopted(disk, stored, config, n);
    hide Adopted, RootAt;
    if i == n - 1 {
      assert RootAt(disk, rows, |before|) == disk.resolve(config[i].root);
    } else {
      NewRootStays(disk, stored, config, i, n - 1);
      var a :| 0 <= a < |before| && RootAt(disk, before, a) == disk.resolve(config[i].root);
      assert RootAt(disk, rows, a) == RootAt(disk, before, a);
    }
  }

  /** After a reconciliation that succeeds a declared name is found at its root exactly if no later
      declaration names the same directory: that one takes the stored row over, and nobody is told. */
  lemma DeclarationStandsExactly(disk: Disk, stored: seq<Project>, config: seq<Declaration>, i: nat)
    requires i < |config| && (forall a, b :: 0 <= a < b < |config| ==> config[a].name != config[b].name)
    requires Coherent(disk, Adopted(disk, stored, config, |config|))
    ensures Stands(disk, Adopted(disk, stored, config, |config|), config[i])
            <==> forall j :: i < j < |config| ==> !SameRoot(disk, config, i, j)
  {
    var rows := Adopted(disk, stored, config, |config|);
    if forall j :: i < j < |config| ==> !SameRoot(disk, config, i, j) {
      StandsUntilReplaced(disk, stored, config, i, |config|);
    } else {
      var j :| i < j < |config| && SameRoot(disk, config, i, j);
      RowOfIs(disk, stored, disk.resolve(config[i].root));
      var row := RowOf(disk, stored, disk.resolve(config[i].root));
      if row.None? {
        NewRootsRepeat(disk, stored, config, i, j, |config|);
        var a, b :| 0 <= a < b < |rows| && RootAt(disk, rows, a) == RootAt(disk, rows, b);
        OneRowARoot(disk, rows, a, b);
        assert false;
      }
      NamedLater(disk, stored, config, i, j, |config|, row.value);
      var k :| i < k < |config| && rows[row.value].name == config[k].name;
      forall r | 0 <= r < |rows| && disk.resolve(rows[r].root) == disk.resolve(config[i].root)
        ensures rows[r].name != config[i].name
      {
        OneRowARoot(disk, rows, r, row.value);
      }
    }
  }

  /** One stored directory, declared twice under new names: accepted, and one name is nowhere. */
  lemma EarlierDeclarationIsLost(disk: Disk, root: RawPath, details: string)
    ensures var stored := [Project("old", root, [], details, true)];
            var config := [Declaration("a", root, [], details), Declaration("b", root, [], details)];
            var rows := Adopted(disk, stored, config, 2);
            && Coherent(disk, rows) && Stands(disk, rows, config[1]) && !Stands(disk, rows, config[0])
            && rows == [Project("b", root, [], details, true)]
  {
    var stored := [Project("old", root, [], details, true)];
    var config := [Declaration("a", root, [], details), Declaration("b", root, [], details)];
    RowOfIs(disk, stored, disk.resolve(root));
    assert RowOf(disk, stored, disk.resolve(root)) == Some(0);
    assert Adopted(disk, stored, config, 0) == stored;
    var one := Adopted(disk, stored, config, 1);
    assert one == stored[0 := stored[0].(name := "a", extras := [], details := details)];
    assert one == [Project("a", root, [], details, true)];
    var rows := Adopted(disk, stored, config, 2);
    assert rows == one[0 := one[0].(name := "b", extras := [], details := details)];
    assert rows == [Project("b", root, [], details, true)];
    assert rows[..0] == [] && Claims(disk, rows) == Claims(disk, []) + Resolved(disk, Roots(rows[0]));
    assert |Resolved(disk, Roots(rows[0]))| == 1;
    assert StandsAt(disk, rows, config[1], 0);
    assert "a" != "b" by { assert "a"[0] != "b"[0]; }
  }

  /** A stored row that nothing declares stays as it is. */
  lemma {:induction false} UndeclaredStays(disk: Disk, stored: seq<Project>, config: seq<Declaration>, n: nat, r: nat)
    requires n <= |config| && r < |stored|
    requires forall i :: 0 <= i < n ==> disk.resolve(config[i].root) != disk.resolve(stored[r].root)
    ensures Adopted(disk, stored, config, n)[r] == stored[r]
    decreases n
  {
    if n > 0 {
      UndeclaredStays(disk, stored, config, n - 1, r);
      RowOfIs(disk, stored, disk.resolve(config[n - 1].root));
    }
  }

  // ---------------------------------------------------------------- claims and resolution, root by root

  /** The `k`th directory a row names: its root, then its further ones. */
  function NamedAt(row: Project, k: nat): RawPath
    requires k <= |row.extras|
  {
    if k == 0 then row.root else row.extras[k - 1]
  }

  ghost predicate ClaimedApart(disk: Disk, rows: seq<Project>) {
    forall i, a, j, b :: 0 <= i < |rows| && 0 <= a <= |rows[i].extras| && 0 <= j < |rows| && 0 <= b <= |rows[j].extras|
                         && (i != j || a != b) ==>
      disk.resolve(NamedAt(rows[i], a)) != disk.resolve(NamedAt(rows[j], b))
  }

  lemma ResolvedIs(disk: Disk, row: Project)
    ensures |Resolved(disk, Roots(row))| == |row.extras| + 1
    ensures forall k :: 0 <= k <= |row.extras| ==> Resolved(disk, Roots(row))[k] == disk.resolve(NamedAt(row, k))
  {
  }

  lemma {:induction false} ClaimIsNamed(disk: Disk, rows: seq<Project>, path: Path)
    ensures path in Claims(disk, rows) <==>
              exists i, k :: 0 <= i < |rows| && 0 <= k <= |rows[i].extras| && disk.resolve(NamedAt(rows[i], k)) == path
  {
    if rows != [] {
      var front, last := rows[..|rows| - 1], rows[|rows| - 1];
      ClaimIsNamed(disk, front, path);
      ResolvedIs(disk, last);
      hide Claims, Resolved, Roots, NamedAt;
      assert forall i :: 0 <= i < |front| ==> rows[i] == front[i];
      assert path in Claims(disk, rows) <==> path in Claims(disk, front) || path in Resolved(disk, Roots(last)) by {
        ClaimsOf(disk, rows);
      }
    }
  }

  lemma ClaimsOf(disk: Disk, rows: seq<Project>)
    requires rows != []
    ensures Claims(disk, rows) == Claims(disk, rows[..|rows| - 1]) + Resolved(disk, Roots(rows[|rows| - 1]))
  {
  }

  lemma JoinedApart<T>(a: seq<T>, b: seq<T>)
    ensures Distinct(a + b) <==> Distinct(a) && Distinct(b) && forall x :: x in a ==> x !in b
  {
    if Distinct(a + b) {
      DistinctParts(a, b);
    }
    if Distinct(a) && Distinct(b) && forall x :: x in a ==> x !in b {
      forall i, j | 0 <= i < j < |a + b| ensures (a + b)[i] != (a + b)[j] {
        assert (a + b)[i] == if i < |a| then a[i] else b[i - |a|];
        assert (a + b)[j] == if j < |a| then a[j] else b[j - |a|];
        assert i < |a| ==> a[i] in a;
      }
    }
  }

  lemma {:induction false} ClaimsApartExactly(disk: Disk, rows: seq<Project>)
    ensures Distinct(Claims(disk, rows)) <==> ClaimedApart(disk, rows)
  {
    if rows != [] {
      var front, last := rows[..|rows| - 1], rows[|rows| - 1];
      ClaimsApartExactly(disk, front);
      ClaimsOf(disk, rows);
      JoinedApart(Claims(disk, front), Resolved(disk, Roots(last)));
      ResolvedIs(disk, last);
      forall path ensures path in Claims(disk, front) <==>
                            exists i, k :: 0 <= i < |front| && 0 <= k <= |front[i].extras|
                                           && disk.resolve(NamedAt(front[i], k)) == path
      {
        ClaimIsNamed(disk, front, path);
      }
      hide Claims, Roots, NamedAt, Resolved;
      OneMoreApart(disk, front, last, Resolved(disk, Roots(last)), Claims(disk, front));
      assert rows == front + [last];
    }
  }

  lemma OneMoreApart(disk: Disk, front: seq<Project>, last: Project, own: seq<Path>, others: seq<Path>)
    requires |own| == |last.extras| + 1
    requires forall k :: 0 <= k <= |last.extras| ==> own[k] == disk.resolve(NamedAt(last, k))
    requires forall path :: path in others <==>
               exists i, k :: 0 <= i < |front| && 0 <= k <= |front[i].extras|
                              && disk.resolve(NamedAt(front[i], k)) == path
    ensures ClaimedApart(disk, front + [last]) <==>
              ClaimedApart(disk, front) && Distinct(own) && forall path :: path in others ==> path !in own
  {
    hide NamedAt;
    var rows, n := front + [last], |front|;
    assert forall i :: 0 <= i < n ==> rows[i] == front[i];
    if ClaimedApart(disk, rows) {
      forall path | path in others ensures path !in own {
        var i, k :| 0 <= i < |front| && 0 <= k <= |front[i].extras| && disk.resolve(NamedAt(front[i], k)) == path;
        assert disk.resolve(NamedAt(rows[i], k)) == path;
        forall b | 0 <= b < |own| ensures own[b] != path {
          assert own[b] == disk.resolve(NamedAt(rows[n], b));
        }
      }
      forall a, b | 0 <= a < b < |own| ensures own[a] != own[b] {
        assert own[a] == disk.resolve(NamedAt(rows[n], a)) && own[b] == disk.resolve(NamedAt(rows[n], b));
      }
      assert ClaimedApart(disk, front) by {
        forall i, a, j, b | 0 <= i < n && 0 <= a <= |front[i].extras| && 0 <= j < n && 0 <= b <= |front[j].extras|
                            && (i != j || a != b)
          ensures disk.resolve(NamedAt(front[i], a)) != disk.resolve(NamedAt(front[j], b))
        {
          assert rows[i] == front[i] && rows[j] == front[j];
        }
      }
    }
    if ClaimedApart(disk, front) && Distinct(own) && forall path :: path in others ==> path !in own {
      forall i, a, j, b | 0 <= i <= n && 0 <= a <= |rows[i].extras| && 0 <= j <= n && 0 <= b <= |rows[j].extras|
                          && (i != j || a != b)
        ensures disk.resolve(NamedAt(rows[i], a)) != disk.resolve(NamedAt(rows[j], b))
      {
        if i < n {
          assert disk.resolve(NamedAt(front[i], a)) in others;
        } else {
          assert disk.resolve(NamedAt(rows[i], a)) == own[a];
        }
        if j < n {
          assert disk.resolve(NamedAt(front[j], b)) in others;
        } else {
          assert disk.resolve(NamedAt(rows[j], b)) == own[b];
        }
      }
    }
  }

  /** A registry is accepted exactly if its names differ, and so do all directories its rows name,
      within a row as between two. */
  lemma CoherentExactly(disk: Disk, rows: seq<Project>)
    ensures Coherent(disk, rows) <==>
              && (forall i, j :: 0 <= i < j < |rows| ==> rows[i].name != rows[j].name)
              && ClaimedApart(disk, rows)
  {
    ClaimsApartExactly(disk, rows);
    assert forall i :: 0 <= i < |rows| ==> Names(rows)[i] == rows[i].name;
    hide Claims, ClaimedApart;
  }

  /** The row's `k`th directory holds the path, and the row's root is there. */
  ghost predicate HoldsPath(disk: Disk, rows: seq<Project>, path: Path, i: nat, k: nat) {
    && i < |rows| && k <= |rows[i].extras|
    && disk.present(rows[i].root) && disk.resolve(NamedAt(rows[i], k)) <= path
  }

  lemma HoldingIsIndexed(disk: Disk, rows: seq<Project>, i: nat, k: nat)
    requires i < |rows| && k <= |rows[i].extras| && disk.present(rows[i].root)
    ensures Entry(disk.resolve(NamedAt(rows[i], k)), rows[i].name) in Entries(disk, Enabled(disk, rows))
  {
    var on := Enabled(disk, rows);
    var e := Entry(disk.resolve(NamedAt(rows[i], k)), rows[i].name);
    assert Indexed(disk, on, e, i, k);
    RowHasEntry(disk, on, e, i, k);
  }

  lemma IndexedHolds(disk: Disk, rows: seq<Project>, e: Entry) returns (i: nat, k: nat)
    requires e in Entries(disk, Enabled(disk, rows))
    ensures i < |rows| && k <= |rows[i].extras| && disk.present(rows[i].root)
    ensures e == Entry(disk.resolve(NamedAt(rows[i], k)), rows[i].name)
  {
    i, k := EntryHasRow(disk, Enabled(disk, rows), e);
  }

  /** And none that does is deeper. */
  ghost predicate HoldsDeepest(disk: Disk, rows: seq<Project>, path: Path, i: nat, k: nat) {
    && HoldsPath(disk, rows, path, i, k)
    && forall j: nat, l: nat :: HoldsPath(disk, rows, path, j, l) ==>
         |disk.resolve(NamedAt(rows[j], l))| <= |disk.resolve(NamedAt(rows[i], k))|
  }

  lemma DeepestIsHeld(disk: Disk, rows: seq<Project>, path: Path, e: Entry) returns (i: nat, k: nat)
    requires Deepest(disk, Enabled(disk, rows), path, e)
    ensures HoldsDeepest(disk, rows, path, i, k) && rows[i].name == e.name
  {
    hide Entries, Enabled, NamedAt;
    i, k := IndexedHolds(disk, rows, e);
    forall j: nat, l: nat | HoldsPath(disk, rows, path, j, l)
      ensures |disk.resolve(NamedAt(rows[j], l))| <= |disk.resolve(NamedAt(rows[i], k))|
    {
      HoldingIsIndexed(disk, rows, j, l);
    }
  }

  lemma HeldIsDeepest(disk: Disk, rows: seq<Project>, path: Path, i: nat, k: nat)
    requires Coherent(disk, rows) && HoldsDeepest(disk, rows, path, i, k)
    ensures Deepest(disk, Enabled(disk, rows), path, Entry(disk.resolve(NamedAt(rows[i], k)), rows[i].name))
  {
    var on, e := Enabled(disk, rows), Entry(disk.resolve(NamedAt(rows[i], k)), rows[i].name);
    EnablingKeepsCoherent(disk, rows);
    HoldingIsIndexed(disk, rows, i, k);
    hide Entries, Enabled, NamedAt;
    forall f | f in Entries(disk, on) && f.path <= path && f != e ensures |f.path| < |e.path| {
      var j, l := IndexedHolds(disk, rows, f);
      assert HoldsPath(disk, rows, path, j, l);
      if |f.path| == |e.path| {
        EquallyDeepAreOne(e.path, f.path, path);
        OneEntryAPath(disk, on, e, f);
      }
    }
  }

  /** After a reconciliation that succeeds a directory is in the project that names the deepest of the
      directories that hold it, among the rows whose root is there, and in none if there is none. */
  lemma ResolvedExactly(disk: Disk, rows: seq<Project>, roots: seq<Entry>, path: Path)
    requires Coherent(disk, rows) && Indexes(disk, roots, Enabled(disk, rows))
    ensures FirstHit(roots, path).None? <==> forall i: nat, k: nat :: !HoldsPath(disk, rows, path, i, k)
    ensures forall name ::
              FirstHit(roots, path) == Some(name) <==>
              exists i: nat, k: nat :: HoldsDeepest(disk, rows, path, i, k) && rows[i].name == name
  {
    var on := Enabled(disk, rows);
    EnablingKeepsCoherent(disk, rows);
    ResolvesDeepest(disk, on, roots, path);
    hide Coherent, Enabled, Entries, NamedAt, FirstHit;
    forall i: nat, k: nat | HoldsPath(disk, rows, path, i, k) ensures FirstHit(roots, path).Some? {
      HoldingIsIndexed(disk, rows, i, k);
    }
    forall i: nat, k: nat | HoldsDeepest(disk, rows, path, i, k)
      ensures FirstHit(roots, path) == Some(rows[i].name)
    {
      HeldIsDeepest(disk, rows, path, i, k);
    }
    if FirstHit(roots, path).Some? {
      var e :| Deepest(disk, on, path, e) && e.name == FirstHit(roots, path).value;
      var i, k := DeepestIsHeld(disk, rows, path, e);
    }
  }

  lemma DeclaredAt(disk: Disk, rows: seq<Project>, d: Declaration, r: nat, x: RawPath) returns (k: nat)
    requires StandsAt(disk, rows, d, r) && (x == d.root || x in d.extras)
    ensures k <= |rows[r].extras| && disk.resolve(NamedAt(rows[r], k)) == disk.resolve(x)
  {
    if x == d.root {
      k := 0;
    } else {
      var e :| 0 <= e < |d.extras| && d.extras[e] == x;
      k := e + 1;
    }
  }

  /** A declaration that no later one replaces has the directories it names, its further ones included,
      resolve to it, as long as its row's root is there. */
  lemma DeclaredRootsResolve(disk: Disk, stored: seq<Project>, config: seq<Declaration>, roots: seq<Entry>, i: nat,
                             x: RawPath)
    requires i < |config| && (x == config[i].root || x in config[i].extras)
    requires forall j :: i < j < |config| ==> !SameRoot(disk, config, i, j)
    requires forall root :: disk.resolve(root) == disk.resolve(config[i].root) ==> disk.present(root)
    requires var rows := Adopted(disk, stored, config, |config|);
             Coherent(disk, rows) && Indexes(disk, roots, Enabled(disk, rows))
    ensures FirstHit(roots, disk.resolve(x)) == Some(config[i].name)
  {
    var rows := Adopted(disk, stored, config, |config|);
    StandsUntilReplaced(disk, stored, config, i, |config|);
    var r: nat :| StandsAt(disk, rows, config[i], r);
    var path := disk.resolve(x);
    hide Coherent, Adopted, Indexes, FirstHit, Enabled;
    var k := DeclaredAt(disk, rows, config[i], r, x);
    hide NamedAt;
    assert HoldsDeepest(disk, rows, path, r, k);
    ResolvedExactly(disk, rows, roots, path);
  }

  // ---------------------------------------------------------------- the manager

  class ProjectManager {
    const disk: Disk
    const config: seq<Declaration>
    var stored: seq<Project>
    var projects: map<string, Project>
    var roots: seq<Entry>

    constructor (disk: Disk, config: seq<Declaration>, stored: seq<Project>)
      ensures this.disk == disk && this.config == config && this.stored == stored && roots == []
    {
      this.disk, this.config, this.stored := disk, config, stored;
      projects, roots := map[], [];
    }

    /** The rows by resolved root, the later of two under the same. */
    method ByRoot() returns (byRoot: map<Path, nat>)
      ensures forall path :: path in byRoot <==> RowOf(disk, stored, path).Some?
      ensures forall path :: path in byRoot ==> RowOf(disk, stored, path) == Some(byRoot[path])
    {
      byRoot := map[];
      for i := 0 to |stored|
        invariant forall path :: path in byRoot <==> RowOf(disk, stored[..i], path).Some?
        invariant forall path :: path in byRoot ==> RowOf(disk, stored[..i], path) == Some(byRoot[path])
      {
        assert stored[..i + 1][..i] == stored[..i];
        byRoot := byRoot[disk.resolve(stored[i].root) := i];
      }
      assert stored[..|stored|] == stored;
    }

    method Adopt() returns (rows: seq<Project>)
      ensures rows == Adopted(disk, stored, config, |config|)
    {
      var byRoot := ByRoot();
      rows := stored;
      for n := 0 to |config|
        invariant rows == Adopted(disk, stored, config, n)
      {
        var declared := config[n];
        var path := disk.resolve(declared.root);
        if path in byRoot {
          var i := byRoot[path];
          RowOfIs(disk, stored, path);
          rows := rows[i := rows[i].(name := declared.name, extras := declared.extras, details := declared.details)];
        } else {
          rows := rows + [Project(declared.name, declared.root, declared.extras, declared.details, false)];
        }
      }
    }

    /** The names and directories of the rows so far, and the first that comes twice. */
    method Check(rows: seq<Project>) returns (coherent: bool)
      ensures coherent <==> Coherent(disk, rows)
    {
      var named: set<string>, rooted: set<Path> := {}, {};
      assert rows[..0] == [];
      for n := 0 to |rows|
        invariant named == set name | name in Names(rows[..n])
        invariant rooted == set path | path in Claims(disk, rows[..n])
        invariant Coherent(disk, rows[..n])
      {
        var project := rows[n];
        ghost var before := rows[..n];
        assert rows[..n + 1][..n] == before;
        assert Names(rows[..n + 1]) == Names(before) + [project.name];
        if project.name in named {
          Repeats(Names(before), [project.name], project.name);
          assert Names(rows[..n + 1]) == Names(rows)[..n + 1];
          return false;
        }
        named := named + {project.name};
        var claimed := Roots(project);
        for k := 0 to |claimed|
          invariant rooted == set path | path in Claims(disk, before) + Resolved(disk, claimed[..k])
          invariant Distinct(Claims(disk, before) + Resolved(disk, claimed[..k]))
        {
          var path := disk.resolve(claimed[k]);
          ghost var claims := Claims(disk, before) + Resolved(disk, claimed[..k]);
          assert Claims(disk, before) + Resolved(disk, claimed[..k + 1]) == claims + [path];
          if path in rooted {
            Repeats(claims, [path], path);
            ClaimsGoOn(disk, rows, n, k + 1);
            return false;
          }
          rooted := rooted + {path};
        }
        assert claimed[..|claimed|] == claimed;
      }
      assert rows[..|rows|] == rows;
      return true;
    }

    /** After the last entry that is as deep. */
    method Insert(sorted: seq<Entry>, entry: Entry) returns (longer: seq<Entry>)
      requires DeepestFirst(sorted)
      ensures DeepestFirst(longer) && multiset(longer) == multiset(sorted) + multiset{entry}
    {
      hide DeepestFirst;
      var i := |sorted|;
      while i > 0 && |sorted[i - 1].path| < |entry.path|
        invariant 0 <= i <= |sorted|
        invariant forall j :: i <= j < |sorted| ==> |sorted[j].path| < |entry.path|
      {
        i := i - 1;
      }
      longer := sorted[..i] + [entry] + sorted[i..];
      InsertedDeepestFirst(sorted, entry, i);
      assert multiset(sorted) == multiset(sorted[..i]) + multiset(sorted[i..]) by {
        assert sorted == sorted[..i] + sorted[i..];
      }
    }

    /** Deepest first; equally deep ones as they come. */
    method Sort(entries: seq<Entry>) returns (sorted: seq<Entry>)
      ensures DeepestFirst(sorted) && multiset(sorted) == multiset(entries)
    {
      hide DeepestFirst;
      sorted := [];
      NothingIsSorted();
      for n := 0 to |entries|
        invariant DeepestFirst(sorted) && multiset(sorted) == multiset(entries[..n])
      {
        assert entries[..n + 1] == entries[..n] + [entries[n]];
        sorted := Insert(sorted, entries[n]);
      }
      assert entries[..|entries|] == entries;
    }

    method Collect(rows: seq<Project>) returns (entries: seq<Entry>)
      ensures entries == Entries(disk, rows)
    {
      entries := [];
      assert rows[..0] == [];
      for n := 0 to |rows|
        invariant entries == Entries(disk, rows[..n])
      {
        assert rows[..n + 1][..n] == rows[..n];
        entries := entries + EntriesOf(disk, rows[n]);
      }
      assert rows[..|rows|] == rows;
    }

    /** Refused, the registry and its rows stay as they were. */
    method Reconcile() returns (refused: bool)
      modifies this
      ensures refused <==> !Coherent(disk, Adopted(disk, old(stored), config, |config|))
      ensures refused ==> stored == old(stored) && projects == old(projects) && roots == old(roots)
      ensures !refused ==> stored == Enabled(disk, Adopted(disk, old(stored), config, |config|))
      ensures !refused ==> Coherent(disk, stored) && Indexes(disk, roots, stored)
      ensures !refused ==> forall i :: 0 <= i < |stored| ==>
              stored[i].name in projects && projects[stored[i].name] == stored[i]
    {
      hide Adopted, Claims, Entries, DeepestFirst;
      var rows := Adopt();
      var coherent := Check(rows);
      if !coherent {
        return true;
      }
      EnablingKeepsCoherent(disk, rows);
      stored := Enabled(disk, rows);
      projects := map[];
      for i := 0 to |stored|
        invariant Coherent(disk, stored) && stored == Enabled(disk, rows)
        invariant forall j :: 0 <= j < i ==> stored[j].name in projects && projects[stored[j].name] == stored[j]
      {
        assert forall j :: 0 <= j < |stored| ==> Names(stored)[j] == stored[j].name;
        projects := projects[stored[i].name := stored[i]];
      }
      var entries := Collect(stored);
      roots := Sort(entries);
      return false;
    }

    method Resolve(cwd: RawPath) returns (name: Option<string>)
      ensures name == FirstHit(roots, disk.resolve(cwd))
    {
      var path := disk.resolve(cwd);
      for i := 0 to |roots|
        invariant FirstHit(roots[i..], path) == FirstHit(roots, path)
      {
        if roots[i].path <= path {
          return Some(roots[i].name);
        }
        assert roots[i..][1..] == roots[i + 1..];
      }
      assert roots[|roots|..] == [];
      return None;
    }
  }

  lemma InsertedDeepestFirst(sorted: seq<Entry>, entry: Entry, i: nat)
    requires DeepestFirst(sorted) && i <= |sorted|
    requires i > 0 ==> |sorted[i - 1].path| >= |entry.path|
    requires forall j :: i <= j < |sorted| ==> |sorted[j].path| < |entry.path|
    ensures DeepestFirst(sorted[..i] + [entry] + sorted[i..])
  {
    var longer := sorted[..i] + [entry] + sorted[i..];
    forall a, b | 0 <= a < b < |longer| ensures |longer[a].path| >= |longer[b].path| {
      assert longer[a] == if a < i then sorted[a] else if a == i then entry else sorted[a - 1];
      assert longer[b] == if b < i then sorted[b] else if b == i then entry else sorted[b - 1];
      assert a < i ==> |sorted[a].path| >= |sorted[i - 1].path|;
    }
  }

  lemma NothingIsSorted()
    ensures DeepestFirst([])
  {
  }

  lemma Repeats<T>(a: seq<T>, b: seq<T>, x: T)
    requires x in a && x in b
    ensures !Distinct(a + b)
  {
    var i :| 0 <= i < |a| && a[i] == x;
    var j :| 0 <= j < |b| && b[j] == x;
    assert (a + b)[i] == (a + b)[|a| + j];
  }

  lemma {:induction false} ClaimsBegin(disk: Disk, rows: seq<Project>, n: nat)
    requires n <= |rows|
    ensures Claims(disk, rows[..n]) <= Claims(disk, rows)
    decreases |rows|
  {
    if n < |rows| {
      assert rows[..|rows| - 1][..n] == rows[..n];
      ClaimsBegin(disk, rows[..|rows| - 1], n);
    } else {
      assert rows[..n] == rows;
    }
  }

  lemma ClaimsGoOn(disk: Disk, rows: seq<Project>, n: nat, k: nat)
    requires n < |rows| && k <= |Roots(rows[n])|
    requires !Distinct(Claims(disk, rows[..n]) + Resolved(disk, Roots(rows[n])[..k]))
    ensures !Coherent(disk, rows)
  {
    var part := Claims(disk, rows[..n]) + Resolved(disk, Roots(rows[n])[..k]);
    ClaimsBegin(disk, rows, n + 1);
    assert rows[..n + 1][..n] == rows[..n];
    assert part <= Claims(disk, rows[..n + 1]);
    var i, j :| 0 <= i < j < |part| && part[i] == part[j];
    assert Claims(disk, rows)[i] == Claims(disk, rows)[j];
  }

  lemma {:induction false} EnablingKeepsClaims(disk: Disk, rows: seq<Project>)
    ensures Claims(disk, Enabled(disk, rows)) == Claims(disk, rows)
  {
    if rows != [] {
      EnablingKeepsClaims(disk, rows[..|rows| - 1]);
      assert Enabled(disk, rows)[..|rows| - 1] == Enabled(disk, rows[..|rows| - 1]);
    }
  }

  lemma EnablingKeepsCoherent(disk: Disk, rows: seq<Project>)
    requires Coherent(disk, rows)
    ensures Coherent(disk, Enabled(disk, rows))
  {
    EnablingKeepsClaims(disk, rows);
    assert Names(Enabled(disk, rows)) == Names(rows);
  }
}
