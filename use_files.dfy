/**
 * The file hook: the state cells `files`, `showPreviewDrawer` and
 * `selectedFile`, the initial drive load that replaces `files` with the
 * flattened tree, the preview drawer's open and close, and the favourite
 * toggle.
 */
module UseFiles {
  import opened Js
  import opened DriveTree

  /** `prev.map(x => x.id === fileId ? { ...x, isFavorite: !x.isFavorite } : x)` */
  function ToggleFavorite(files: seq<FileItem>, fileId: string): (r: seq<FileItem>)
    ensures |r| == |files|
    ensures forall i :: 0 <= i < |files| ==> r[i].(isFavorite := files[i].isFavorite) == files[i]
    ensures forall i :: 0 <= i < |files| && files[i].id != fileId ==> r[i] == files[i]
  {
    var f := (x: FileItem) => if x.id == fileId then x.(isFavorite := Not(x.isFavorite)) else x;
    MapEach(files, f);
    Map(files, f)
  }

  /**
   * The toggle keeps length and order, flips the flag of exactly the entries
   * whose id matches, and changes no other field.
   */
  lemma ToggleFavoriteAt(files: seq<FileItem>, fileId: string, i: nat)
    requires i < |files|
    ensures |ToggleFavorite(files, fileId)| == |files|
    ensures ToggleFavorite(files, fileId)[i].(isFavorite := files[i].isFavorite) == files[i]
    ensures IsTrue(ToggleFavorite(files, fileId)[i].isFavorite) <==> (if files[i].id == fileId then !IsTrue(files[i].isFavorite) else IsTrue(files[i].isFavorite))
    ensures files[i].id != fileId ==> ToggleFavorite(files, fileId)[i] == files[i]
    ensures files[i].id == fileId ==> ToggleFavorite(files, fileId)[i].isFavorite.Some?
  {
    MapAt(files, (x: FileItem) => if x.id == fileId then x.(isFavorite := Not(x.isFavorite)) else x, i);
  }

  /** An id no entry carries leaves the list as it was. */
  lemma {:induction false} ToggleFavoriteUnknownId(files: seq<FileItem>, fileId: string)
    requires forall i :: 0 <= i < |files| ==> files[i].id != fileId
    ensures ToggleFavorite(files, fileId) == files
  {
    forall i | 0 <= i < |files| ensures ToggleFavorite(files, fileId)[i] == files[i] {
      ToggleFavoriteAt(files, fileId, i);
    }
  }

  /**
   * Toggling twice restores every favourite as shown, and restores the list
   * itself exactly when the matching entries carry a flag: an absent flag
   * comes back as `false`.
   */
  lemma {:induction false} ToggleFavoriteTwice(files: seq<FileItem>, fileId: string)
    ensures |ToggleFavorite(ToggleFavorite(files, fileId), fileId)| == |files|
    ensures forall i :: 0 <= i < |files| ==>
      IsTrue(ToggleFavorite(ToggleFavorite(files, fileId), fileId)[i].isFavorite) == IsTrue(files[i].isFavorite)
    ensures ToggleFavorite(ToggleFavorite(files, fileId), fileId) == files <==>
      forall i :: 0 <= i < |files| && files[i].id == fileId ==> files[i].isFavorite.Some?
  {
    var once := ToggleFavorite(files, fileId);
    var twice := ToggleFavorite(once, fileId);
    forall i | 0 <= i < |files|
      ensures IsTrue(twice[i].isFavorite) == IsTrue(files[i].isFavorite)
      ensures files[i].isFavorite.Some? ==> twice[i] == files[i]
      ensures files[i].id != fileId ==> twice[i] == files[i]
    {
      ToggleFavoriteAt(files, fileId, i);
      ToggleFavoriteAt(once, fileId, i);
      assert once[i].id == files[i].id;
      if files[i].id == fileId && files[i].isFavorite.Some? {
        PresentFlagsByTruth(twice[i].isFavorite, files[i].isFavorite);
        assert twice[i] == twice[i].(isFavorite := files[i].isFavorite);
      }
    }
    forall i | 0 <= i < |files| && files[i].id == fileId && twice == files
      ensures files[i].isFavorite.Some?
    {
      ToggleFavoriteAt(once, fileId, i);
      assert once[i].id == fileId;
    }
  }

  /** The file hook's state cells. */
  class FilesHook {
    var files: seq<FileItem>
    var showPreviewDrawer: bool
    var selectedFile: Option<FileItem>

    constructor ()
      ensures files == [] && !showPreviewDrawer && selectedFile == None
    {
      files := [];
      showPreviewDrawer := false;
      selectedFile := None;
    }

    /**
     * The mount effect: a response that is ok and parses replaces `files`
     * with the flattened tree; a non-ok response, a parse failure or a
     * rejected fetch leaves `files` as it was.
     */
    method Load(res: Response<seq<ApiDrive>>)
      modifies this
      ensures files == (if res.Answered? && res.ok && res.body.Some? then AllDriveFiles(res.body.value) else old(files))
      ensures showPreviewDrawer == old(showPreviewDrawer) && selectedFile == old(selectedFile)
    {
      if res.Answered? && res.ok && res.body.Some? {
        files := FlattenDrives(res.body.value);
      }
    }

    /** `onFileSelect`: select the file and open the drawer. */
    method OnFileSelect(f: FileItem)
      modifies this
      ensures selectedFile == Some(f) && showPreviewDrawer
      ensures files == old(files)
    {
      selectedFile := Some(f);
      showPreviewDrawer := true;
    }

    /** `handleClosePreview`: close the drawer and clear the selection. */
    method HandleClosePreview()
      modifies this
      ensures selectedFile == None && !showPreviewDrawer
      ensures files == old(files)
    {
      showPreviewDrawer := false;
      selectedFile := None;
    }

    /** `onToggleFavorite`: flip the flag of the files with that id. */
    method OnToggleFavorite(fileId: string)
      modifies this
      ensures files == ToggleFavorite(old(files), fileId)
      ensures showPreviewDrawer == old(showPreviewDrawer) && selectedFile == old(selectedFile)
    {
      files := ToggleFavorite(files, fileId);
    }
  }
}
