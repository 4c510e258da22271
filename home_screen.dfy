/**
 * The home screen's file catalogue: local files followed by every drive
 * file, a "recent" ordering that ranks each file's `modified` label in a
 * fixed six-label vocabulary, a favourites view, and the first eight
 * entries of whichever tab is active.
 */
module HomeScreen {
  import opened Js
  import opened DriveTree

  /** `[...files, ...getAllDriveFiles(driveData)]`: no file is merged away, duplicates stay. */
  function AllFiles(local: seq<FileItem>, driveData: seq<ApiDrive>): (r: seq<FileItem>)
    ensures |r| == |local| + |AllDriveFiles(driveData)|
    ensures multiset(r) == multiset(local) + multiset(AllDriveFiles(driveData))
    ensures r[..|local|] == local
    ensures r[|local|..] == AllDriveFiles(driveData)
  {
    local + AllDriveFiles(driveData)
  }

  // ----- the "recent" order -----

  /** The relative-time labels in the order the recent tab lists them ("2 hours ago" … "1 week ago"). */
  const TimeOrder: seq<string> := ["2시간 전", "5시간 전", "1일 전", "2일 전", "3일 전", "1주 전"]

  /** `s.indexOf(x)`: the first position of `x`, or -1. */
  function IndexOf(s: seq<string>, x: string): (r: int)
    ensures -1 <= r < |s|
    ensures r == -1 <==> x !in s
    ensures r >= 0 ==> s[r] == x && x !in s[..r]
  {
    if s == [] then -1
    else if s[0] == x then 0
    else
      var k := IndexOf(s[1..], x);
      assert s[1..] == s[1..][..|s| - 1];
      if k == -1 then -1
      else
        assert s[..k + 1] == [s[0]] + s[1..][..k];
        k + 1
  }

  /** The rank the comparator uses for a file: the index of its label, -1 when the label is unknown. */
  function Rank(f: FileItem): (r: int)
    ensures -1 <= r < 6
    ensures r == -1 <==> f.modified !in TimeOrder
  {
    IndexOf(TimeOrder, f.modified)
  }

  /** `allFiles.slice().sort((a, b) => rank(a) - rank(b))` */
  function RecentOrder(s: seq<FileItem>): (r: seq<FileItem>)
    ensures |r| == |s|
  {
    SortBy(s, Rank)
  }

  /** The recent order is a permutation of the catalogue ordered by rank, equal ranks in catalogue order. */
  lemma RecentOrderSpec(s: seq<FileItem>)
    ensures SortedBy(RecentOrder(s), Rank)
    ensures multiset(RecentOrder(s)) == multiset(s)
    ensures forall k :: WithKey(RecentOrder(s), Rank, k) == WithKey(s, Rank, k)
  {
    SortByIsStableSort(s, Rank);
  }

  /** A file with a label outside the vocabulary comes before every file with a known label. */
  lemma UnknownLabelsFirst(s: seq<FileItem>, i: nat, j: nat)
    requires i < |RecentOrder(s)| && j < |RecentOrder(s)|
    requires RecentOrder(s)[i].modified !in TimeOrder && RecentOrder(s)[j].modified in TimeOrder
    ensures i < j
  {
    RecentOrderSpec(s);
  }

  // ----- the favourites view and the tabs -----

  predicate IsFavorite(f: FileItem) {
    IsTrue(f.isFavorite)
  }

  /** `allFiles.filter(file => file.isFavorite)` */
  function Favorites(s: seq<FileItem>): (r: seq<FileItem>)
    ensures |r| <= |s|
    ensures forall i :: 0 <= i < |r| ==> r[i] in s && IsFavorite(r[i])
  {
    FilterKeeps(s, IsFavorite);
    Filter(s, IsFavorite)
  }

  /** The favourites view holds exactly the favourite files, each in its original relative order. */
  lemma FavoritesSpec(a: seq<FileItem>, b: seq<FileItem>, x: FileItem)
    ensures x in Favorites(a) <==> x in a && IsFavorite(x)
    ensures Favorites(a + b) == Favorites(a) + Favorites(b)
  {
    FilterMembership(a, IsFavorite, x);
    FilterAppend(a, b, IsFavorite);
  }

  datatype Tab = Recent | Favorites | Drive

  /** `getCurrentTabContent`: the first eight files of the tab's list; the drive tab renders the tree instead (`null`). */
  function TabContent(tab: Tab, allFiles: seq<FileItem>): (r: Option<seq<FileItem>>)
    ensures tab.Drive? <==> r.None?
    ensures tab.Recent? ==> r.Some? && |r.value| == Min(8, |allFiles|)
    ensures tab.Recent? ==> r.value == RecentOrder(allFiles)[..|r.value|]
    ensures tab.Favorites? ==> r.Some? && |r.value| == Min(8, |Favorites(allFiles)|)
    ensures tab.Favorites? ==> r.value == Favorites(allFiles)[..|r.value|]
  {
    match tab
    case Recent =>
      SliceTake(RecentOrder(allFiles), 8);
      Some(Slice(RecentOrder(allFiles), 0, 8))
    case Favorites =>
      SliceTake(Favorites(allFiles), 8);
      Some(Slice(Favorites(allFiles), 0, 8))
    case Drive => None
  }

  function Min(a: int, b: int): int {
    if a <= b then a else b
  }

  // ----- the drive tab -----

  /** The two names the drive tab hides: `['root', 'trash'].includes(name)`. */
  predicate Reserved(name: string) {
    name == "root" || name == "trash"
  }

  /** `drive.folders.filter(folder => !['root', 'trash'].includes(folder.name))` */
  function VisibleFolders(folders: seq<Folder>): (r: seq<Folder>)
    ensures |r| <= |folders|
    ensures forall i :: 0 <= i < |r| ==> r[i] in folders && !Reserved(r[i].name)
  {
    var p := (f: Folder) => !Reserved(f.name);
    FilterKeeps(folders, p);
    Filter(folders, p)
  }

  /** A drive as the drive tab lists it: the same drive, its reserved top-level folders hidden. */
  function ShownDrive(d: DriveTree.Drive): DriveTree.Drive {
    d.(folders := VisibleFolders(d.folders))
  }

  /**
   * `api.drives.filter(drive => !['root', 'trash'].includes(drive.name))`, each
   * kept drive listing its top-level folders through the same filter.
   * Sub-folders are rendered as they are, reserved names included.
   */
  function VisibleDrives(drives: seq<DriveTree.Drive>): (r: seq<DriveTree.Drive>)
    ensures |r| <= |drives|
    ensures forall i :: 0 <= i < |r| ==> !Reserved(r[i].name)
    ensures forall i, j :: 0 <= i < |r| && 0 <= j < |r[i].folders| ==> !Reserved(r[i].folders[j].name)
  {
    var p := (d: DriveTree.Drive) => !Reserved(d.name);
    var kept := Filter(drives, p);
    FilterKeeps(drives, p);
    MapEach(kept, ShownDrive);
    Map(kept, ShownDrive)
  }

  /**
   * A top-level folder is listed exactly when the drive has it and its name
   * is not reserved; it is listed whole, its sub-folders and files as they
   * are, and the listed folders keep the drive's order.
   */
  lemma VisibleFoldersSpec(a: seq<Folder>, b: seq<Folder>, f: Folder)
    ensures f in VisibleFolders(a) <==> f in a && !Reserved(f.name)
    ensures VisibleFolders(a + b) == VisibleFolders(a) + VisibleFolders(b)
  {
    var p := (f: Folder) => !Reserved(f.name);
    FilterMembership(a, p, f);
    FilterAppend(a, b, p);
  }

  /**
   * A drive is listed exactly when it is a drive of the credential whose
   * name is not reserved, shown with its visible folders; the listed
   * drives keep the credential's order.
   */
  lemma VisibleDrivesSpec(a: seq<DriveTree.Drive>, b: seq<DriveTree.Drive>, d: DriveTree.Drive)
    ensures d in VisibleDrives(a) <==> exists e :: e in a && !Reserved(e.name) && d == ShownDrive(e)
    ensures VisibleDrives(a + b) == VisibleDrives(a) + VisibleDrives(b)
  {
    var p := (e: DriveTree.Drive) => !Reserved(e.name);
    var kept := Filter(a, p);
    FilterAppend(a, b, p);
    MapAppend(kept, Filter(b, p), ShownDrive);
    if d in VisibleDrives(a) {
      var k :| 0 <= k < |kept| && Map(kept, ShownDrive)[k] == d;
      MapAt(kept, ShownDrive, k);
      assert kept[k] in kept;
      FilterMembership(a, p, kept[k]);
    }
    if exists e :: e in a && !Reserved(e.name) && d == ShownDrive(e) {
      var e :| e in a && !Reserved(e.name) && d == ShownDrive(e);
      FilterMembership(a, p, e);
      var k :| 0 <= k < |kept| && kept[k] == e;
      MapAt(kept, ShownDrive, k);
    }
  }

  /**
   * The drive tab and the catalogue disagree about reserved names: a drive
   * or top-level folder named `root` or `trash` is hidden from the tab
   * while its files are in the catalogue, and a sub-folder of that name is
   * shown on the tab.
   */
  lemma ReservedHiddenOnlyOnDriveTab(x: FileItem, reserved: string)
    requires Reserved(reserved)
    ensures VisibleDrives([DriveTree.Drive("d", reserved, [])]) == []
    ensures VisibleFolders([Folder("f", reserved, [], [x])]) == []
    ensures x in AllDriveFiles([ApiDrive("t", 0, "u", [DriveTree.Drive("d", reserved, [Folder("f", reserved, [], [x])])])])
    ensures VisibleFolders([Folder("g", "docs", [Folder("f", reserved, [], [x])], [])]) ==
      [Folder("g", "docs", [Folder("f", reserved, [], [x])], [])]
  {
    ReservedNamesNotExcluded(x, reserved);
    var d := DriveTree.Drive("d", reserved, []);
    var f := Folder("f", reserved, [], [x]);
    var g := Folder("g", "docs", [f], []);
    assert [d][1..] == [] && [f][1..] == [] && [g][1..] == [];
  }
}
