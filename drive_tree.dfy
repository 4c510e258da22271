/**
 * The drive tree the back end sends the front end: a list of connected
 * credentials, each with its drives, each drive with its top-level folders,
 * each folder with nested sub-folders and files. A folder's missing
 * `files` or `subFolders` field is the empty sequence here.
 *
 * The file catalogue is built from the tree by a pre-order walk: a folder's
 * own files come first, then the files of each sub-folder in turn.
 */
module DriveTree {
  import opened Js

  /** A file as the front end shows it; `isFavorite` is absent on files fresh from a drive. */
  datatype FileItem = FileItem(
    id: string,
    name: string,
    fileType: string,
    icon: string,
    modified: string,
    isFavorite: Option<bool>)

  datatype Folder = Folder(id: string, name: string, subFolders: seq<Folder>, files: seq<FileItem>)

  datatype Drive = Drive(id: string, name: string, folders: seq<Folder>)

  /** One credential's entry of the drive-loading response. */
  datatype ApiDrive = ApiDrive(apiTitle: string, apiIdx: int, apiURL: string, drives: seq<Drive>)

  // ----- the walk, as a specification -----

  /** The files of a folder in walk order: its own files, then each sub-folder's. */
  function FolderFiles(f: Folder): seq<FileItem>
    decreases f, 1
  {
    f.files + ForestFiles(f.subFolders)
  }

  function ForestFiles(fs: seq<Folder>): seq<FileItem>
    decreases fs, 0
  {
    if fs == [] then [] else FolderFiles(fs[0]) + ForestFiles(fs[1..])
  }

  function DrivesFiles(ds: seq<Drive>): seq<FileItem> {
    if ds == [] then [] else ForestFiles(ds[0].folders) + DrivesFiles(ds[1..])
  }

  /** Every file of every folder at every depth, across credentials, then drives, then folders. */
  function AllDriveFiles(apis: seq<ApiDrive>): seq<FileItem> {
    if apis == [] then [] else DrivesFiles(apis[0].drives) + AllDriveFiles(apis[1..])
  }

  // ----- an independent description: which files a tree holds, and how many -----

  /** `x` is a file of `f` or of one of its descendants. */
  predicate Holds(f: Folder, x: FileItem)
    decreases f
  {
    x in f.files || exists i :: 0 <= i < |f.subFolders| && Holds(f.subFolders[i], x)
  }

  /** The number of files in a folder and all its descendants. */
  function FileCount(f: Folder): nat
    decreases f, 1
  {
    |f.files| + ForestCount(f.subFolders)
  }

  function ForestCount(fs: seq<Folder>): nat
    decreases fs, 0
  {
    if fs == [] then 0 else FileCount(fs[0]) + ForestCount(fs[1..])
  }

  // ----- lemmas -----

  lemma {:induction false} ForestFilesAppend(a: seq<Folder>, b: seq<Folder>)
    ensures ForestFiles(a + b) == ForestFiles(a) + ForestFiles(b)
  {
    if a == [] {
      assert a + b == b;
    } else {
      assert (a + b)[1..] == a[1..] + b;
      ForestFilesAppend(a[1..], b);
    }
  }

  lemma {:induction false} DrivesFilesAppend(a: seq<Drive>, b: seq<Drive>)
    ensures DrivesFiles(a + b) == DrivesFiles(a) + DrivesFiles(b)
  {
    if a == [] {
      assert a + b == b;
    } else {
      assert (a + b)[1..] == a[1..] + b;
      DrivesFilesAppend(a[1..], b);
    }
  }

  lemma {:induction false} AllDriveFilesAppend(a: seq<ApiDrive>, b: seq<ApiDrive>)
    ensures AllDriveFiles(a + b) == AllDriveFiles(a) + AllDriveFiles(b)
  {
    if a == [] {
      assert a + b == b;
    } else {
      assert (a + b)[1..] == a[1..] + b;
      AllDriveFilesAppend(a[1..], b);
    }
  }

  /** Nothing is added or dropped: the walk emits exactly as many files as the folder holds at every depth. */
  lemma {:induction false} FolderFilesCount(f: Folder)
    ensures |FolderFiles(f)| == FileCount(f)
    decreases f, 1
  {
    ForestFilesCount(f.subFolders);
  }

  lemma {:induction false} ForestFilesCount(fs: seq<Folder>)
    ensures |ForestFiles(fs)| == ForestCount(fs)
    decreases fs, 0
  {
    if fs != [] {
      FolderFilesCount(fs[0]);
      ForestFilesCount(fs[1..]);
    }
  }

  /** The walk emits a file exactly when the folder or one of its descendants holds it. */
  lemma {:induction false} FolderFilesMembership(f: Folder, x: FileItem)
    ensures x in FolderFiles(f) <==> Holds(f, x)
    decreases f, 1
  {
    ForestFilesMembership(f.subFolders, x);
  }

  lemma {:induction false} ForestFilesMembership(fs: seq<Folder>, x: FileItem)
    ensures x in ForestFiles(fs) <==> exists i :: 0 <= i < |fs| && Holds(fs[i], x)
    decreases fs, 0
  {
    if fs != [] {
      FolderFilesMembership(fs[0], x);
      ForestFilesMembership(fs[1..], x);
      if x in ForestFiles(fs[1..]) {
        var i :| 0 <= i < |fs| - 1 && Holds(fs[1..][i], x);
        assert Holds(fs[i + 1], x);
      }
      if exists i :: 0 <= i < |fs| && Holds(fs[i], x) {
        var i :| 0 <= i < |fs| && Holds(fs[i], x);
        if i > 0 { assert Holds(fs[1..][i - 1], x); }
      }
    }
  }

  /**
   * Pre-order: the walk of a folder starts with the folder's own files, and
   * the files of its k-th sub-folder come after those of every earlier one.
   */
  lemma {:induction false} FolderFilesPreOrder(f: Folder, k: nat)
    requires k <= |f.subFolders|
    ensures FolderFiles(f) == f.files + ForestFiles(f.subFolders[..k]) + ForestFiles(f.subFolders[k..])
  {
    assert f.subFolders == f.subFolders[..k] + f.subFolders[k..];
    ForestFilesAppend(f.subFolders[..k], f.subFolders[k..]);
  }

  /**
   * The walk does not skip the reserved names: a drive or folder called
   * `root` or `trash` contributes its files like any other (only the drive
   * view hides them when it renders).
   */
  lemma ReservedNamesNotExcluded(x: FileItem, reserved: string)
    requires reserved == "root" || reserved == "trash"
    ensures AllDriveFiles([ApiDrive("t", 0, "u", [Drive("d", reserved, [Folder("f", reserved, [], [x])])])]) == [x]
  {
    var f := Folder("f", reserved, [], [x]);
    var d := Drive("d", reserved, [f]);
    assert ForestFiles([f]) == [x];
    assert DrivesFiles([d]) == [x];
  }

  // ----- the walk as the front end runs it -----

  /**
   * `traverseFolder`: push the folder's files onto `acc`, then walk each
   * sub-folder in order.
   */
  method TraverseFolder(f: Folder, acc: seq<FileItem>) returns (result: seq<FileItem>)
    ensures result == acc + FolderFiles(f)
    decreases f
  {
    result := acc + f.files;
    var i := 0;
    while i < |f.subFolders|
      invariant 0 <= i <= |f.subFolders|
      invariant result == acc + f.files + ForestFiles(f.subFolders[..i])
    {
      result := TraverseFolder(f.subFolders[i], result);
      ForestFilesAppend(f.subFolders[..i], [f.subFolders[i]]);
      assert f.subFolders[..i + 1] == f.subFolders[..i] + [f.subFolders[i]];
      i := i + 1;
    }
    assert f.subFolders[..i] == f.subFolders;
  }

  /** `folders.forEach(traverseFolder)`: walk each folder of a run in order. */
  method WalkFolders(folders: seq<Folder>, acc: seq<FileItem>) returns (result: seq<FileItem>)
    ensures result == acc + ForestFiles(folders)
  {
    result := acc;
    var k := 0;
    while k < |folders|
      invariant 0 <= k <= |folders|
      invariant result == acc + ForestFiles(folders[..k])
    {
      result := TraverseFolder(folders[k], result);
      ForestFilesAppend(folders[..k], [folders[k]]);
      assert folders[..k + 1] == folders[..k] + [folders[k]];
      k := k + 1;
    }
    assert folders[..k] == folders;
  }

  /** `api.drives.forEach(...)`: walk the folders of each drive in order. */
  method WalkDrives(drives: seq<Drive>, acc: seq<FileItem>) returns (result: seq<FileItem>)
    ensures result == acc + DrivesFiles(drives)
  {
    result := acc;
    var d := 0;
    while d < |drives|
      invariant 0 <= d <= |drives|
      invariant result == acc + DrivesFiles(drives[..d])
    {
      result := WalkFolders(drives[d].folders, result);
      DrivesFilesAppend(drives[..d], [drives[d]]);
      assert drives[..d + 1] == drives[..d] + [drives[d]];
      d := d + 1;
    }
    assert drives[..d] == drives;
  }

  /** `getAllDriveFiles`: walk every folder of every drive of every credential, in order. */
  method FlattenDrives(apis: seq<ApiDrive>) returns (result: seq<FileItem>)
    ensures result == AllDriveFiles(apis)
  {
    result := [];
    var a := 0;
    while a < |apis|
      invariant 0 <= a <= |apis|
      invariant result == AllDriveFiles(apis[..a])
    {
      result := WalkDrives(apis[a].drives, result);
      AllDriveFilesAppend(apis[..a], [apis[a]]);
      assert apis[..a + 1] == apis[..a] + [apis[a]];
      a := a + 1;
    }
    assert apis[..a] == apis;
  }
}
