/**
 * The activity's start-up logic: the first screen to show, and the
 * reconciliation pass that retries every pending image upload and delete
 * and removes the rows whose retry succeeded.
 *
 * The object storage is an oracle `storageOk`: whether the success listener
 * of a given request fires. The removal, which the source launches from
 * that listener, is applied in sequence.
 */
module MainActivity {
  import opened Wrappers
  import opened DiaryModel
  import opened ImagesDatabase
  import Screen

  /** The Realm session's current user. */
  datatype User = User(id: string, loggedIn: bool)

  /** The first screen: Home for a logged-in user, otherwise Authentication. */
  function StartDestination(currentUser: Option<User>): (route: string)
    ensures route == Screen.Route(Screen.Home) <==> currentUser.Some? && currentUser.value.loggedIn
    ensures route != Screen.Route(Screen.Home) ==> route == Screen.Route(Screen.Authentication)
  {
    Screen.RoutesDistinct(Screen.Home, Screen.Authentication, "");
    if currentUser.Some? && currentUser.value.loggedIn then Screen.Route(Screen.Home)
    else Screen.Route(Screen.Authentication)
  }

  /** The upload a retry issues. */
  function RetryUploadRequest(image: ImageToUpload): (r: StorageRequest)
    ensures r.PutFile? && r.path == image.remoteImagePath
    ensures r.file == image.imageUri && r.session == Some(image.sessionUri)
  {
    PutFile(image.remoteImagePath, image.imageUri, Some(image.sessionUri))
  }

  /** The delete a retry issues. */
  function RetryDeleteRequest(image: ImageToDelete): (r: StorageRequest)
    ensures r.Delete? && r.path == image.remoteImagePath
  {
    Delete(image.remoteImagePath)
  }

  /** The rows a pass leaves: those whose retry did not succeed, unchanged. */
  function Surviving<R>(rows: map<int, R>, succeeded: R -> bool): (r: map<int, R>)
    ensures forall k :: k in r <==> k in rows && !succeeded(rows[k])
    ensures forall k :: k in r ==> r[k] == rows[k]
  {
    map k | k in rows && !succeeded(rows[k]) :: rows[k]
  }

  /** When every retry succeeds the table is drained. */
  lemma AllSucceedDrains<R>(rows: map<int, R>, succeeded: R -> bool)
    requires forall k :: k in rows ==> succeeded(rows[k])
    ensures Surviving(rows, succeeded) == map[]
  {
    forall k | k in Surviving(rows, succeeded) ensures false {
    }
  }

  /** When every retry fails the table is unchanged, so the next pass retries the same rows. */
  lemma AllFailUnchanged<R>(rows: map<int, R>, succeeded: R -> bool)
    requires forall k :: k in rows ==> !succeeded(rows[k])
    ensures Surviving(rows, succeeded) == rows
    ensures Surviving(Surviving(rows, succeeded), succeeded) == rows
  {
    var r := Surviving(rows, succeeded);
    forall k | k in rows ensures k in r && r[k] == rows[k] {
    }
    forall k | k in r ensures k in rows {
    }
  }

  /** A pass removes a row only when that row's own retry succeeded, and changes no row. */
  lemma OnlySucceededRemoved<R>(rows: map<int, R>, succeeded: R -> bool, k: int)
    requires k in rows
    ensures k !in Surviving(rows, succeeded) <==> succeeded(rows[k])
    ensures k in Surviving(rows, succeeded) ==> Surviving(rows, succeeded)[k] == rows[k]
  {
  }

  /** The success outcome of retrying one pending upload. */
  function UploadSucceeds(storageOk: StorageRequest -> bool): ImageToUpload -> bool
  {
    (r: ImageToUpload) => storageOk(RetryUploadRequest(r))
  }

  /** The success outcome of retrying one pending delete. */
  function DeleteSucceeds(storageOk: StorageRequest -> bool): ImageToDelete -> bool
  {
    (r: ImageToDelete) => storageOk(RetryDeleteRequest(r))
  }

  /** One retry: the row is removed when its upload succeeds. */
  method RetryUpload(dao: ImagesToUploadDao, row: ImageToUpload, storageOk: StorageRequest -> bool)
    requires dao.Valid()
    modifies dao
    ensures dao.Valid() && dao.lastId == old(dao.lastId)
    ensures dao.rows == if UploadSucceeds(storageOk)(row) then old(dao.rows) - {row.id} else old(dao.rows)
  {
    if storageOk(RetryUploadRequest(row)) {
      dao.CleanupImage(row.id);
    }
  }

  /** One retry: the row is removed when its delete succeeds. */
  method RetryDelete(dao: ImageToDeleteDao, row: ImageToDelete, storageOk: StorageRequest -> bool)
    requires dao.Valid()
    modifies dao
    ensures dao.Valid() && dao.lastId == old(dao.lastId)
    ensures dao.rows == if DeleteSucceeds(storageOk)(row) then old(dao.rows) - {row.id} else old(dao.rows)
  {
    if storageOk(RetryDeleteRequest(row)) {
      dao.CleanupImage(row.id);
    }
  }

  /** The first loop of the pass: retry every pending upload once. */
  method RetryUploads(dao: ImagesToUploadDao, storageOk: StorageRequest -> bool) returns (tried: seq<ImageToUpload>)
    requires dao.Valid()
    modifies dao
    ensures dao.Valid() && dao.lastId == old(dao.lastId)
    ensures dao.rows == Surviving(old(dao.rows), UploadSucceeds(storageOk))
    ensures forall i :: 0 <= i < |tried| ==> tried[i].id in old(dao.rows) && old(dao.rows)[tried[i].id] == tried[i]
    ensures forall k :: k in old(dao.rows) ==> old(dao.rows)[k] in tried
    ensures forall i, j :: 0 <= i < j < |tried| ==> tried[i].id != tried[j].id
  {
    var ok := UploadSucceeds(storageOk);
    tried := dao.GetAllImages();
    var i := 0;
    while i < |tried|
      invariant 0 <= i <= |tried|
      invariant dao.Valid() && dao.lastId == old(dao.lastId)
      invariant forall k :: k in dao.rows ==> k in old(dao.rows) && dao.rows[k] == old(dao.rows)[k]
      invariant forall j :: 0 <= j < i ==> (tried[j].id in dao.rows <==> !ok(tried[j]))
      invariant forall j :: i <= j < |tried| ==> tried[j].id in dao.rows
    {
      RetryUpload(dao, tried[i], storageOk);
      i := i + 1;
    }
    var expected := Surviving(old(dao.rows), ok);
    forall k | k in old(dao.rows) ensures k in dao.rows <==> k in expected {
      var j :| 0 <= j < |tried| && tried[j] == old(dao.rows)[k];
    }
    forall k | k in dao.rows ensures k in expected && dao.rows[k] == expected[k] {
    }
    forall k | k in expected ensures k in dao.rows {
    }
  }

  /** The second loop of the pass: retry every pending delete once. */
  method RetryDeletes(dao: ImageToDeleteDao, storageOk: StorageRequest -> bool) returns (tried: seq<ImageToDelete>)
    requires dao.Valid()
    modifies dao
    ensures dao.Valid() && dao.lastId == old(dao.lastId)
    ensures dao.rows == Surviving(old(dao.rows), DeleteSucceeds(storageOk))
    ensures forall i :: 0 <= i < |tried| ==> tried[i].id in old(dao.rows) && old(dao.rows)[tried[i].id] == tried[i]
    ensures forall k :: k in old(dao.rows) ==> old(dao.rows)[k] in tried
    ensures forall i, j :: 0 <= i < j < |tried| ==> tried[i].id != tried[j].id
  {
    var ok := DeleteSucceeds(storageOk);
    tried := dao.GetAllImages();
    var i := 0;
    while i < |tried|
      invariant 0 <= i <= |tried|
      invariant dao.Valid() && dao.lastId == old(dao.lastId)
      invariant forall k :: k in dao.rows ==> k in old(dao.rows) && dao.rows[k] == old(dao.rows)[k]
      invariant forall j :: 0 <= j < i ==> (tried[j].id in dao.rows <==> !ok(tried[j]))
      invariant forall j :: i <= j < |tried| ==> tried[j].id in dao.rows
    {
      RetryDelete(dao, tried[i], storageOk);
      i := i + 1;
    }
    var expected := Surviving(old(dao.rows), ok);
    forall k | k in old(dao.rows) ensures k in dao.rows <==> k in expected {
      var j :| 0 <= j < |tried| && tried[j] == old(dao.rows)[k];
    }
    forall k | k in dao.rows ensures k in expected && dao.rows[k] == expected[k] {
    }
    forall k | k in expected ensures k in dao.rows {
    }
  }

  /**
   * `cleanupCheck`: every pending upload and every pending delete is retried
   * exactly once with its stored fields; a row goes exactly when its retry
   * succeeded.
   */
  method CleanupCheck(uploads: ImagesToUploadDao, deletes: ImageToDeleteDao, storageOk: StorageRequest -> bool)
    returns (uploadsTried: seq<ImageToUpload>, deletesTried: seq<ImageToDelete>)
    requires uploads.Valid() && deletes.Valid()
    modifies uploads, deletes
    ensures uploads.Valid() && deletes.Valid()
    ensures uploads.rows == Surviving(old(uploads.rows), UploadSucceeds(storageOk))
    ensures deletes.rows == Surviving(old(deletes.rows), DeleteSucceeds(storageOk))
    ensures forall k :: k in old(uploads.rows) ==> old(uploads.rows)[k] in uploadsTried
    ensures forall k :: k in old(deletes.rows) ==> old(deletes.rows)[k] in deletesTried
    ensures forall i, j :: 0 <= i < j < |uploadsTried| ==> uploadsTried[i].id != uploadsTried[j].id
    ensures forall i, j :: 0 <= i < j < |deletesTried| ==> deletesTried[i].id != deletesTried[j].id
    ensures forall i :: 0 <= i < |uploadsTried| ==> uploadsTried[i].id in old(uploads.rows)
    ensures forall i :: 0 <= i < |deletesTried| ==> deletesTried[i].id in old(deletes.rows)
  {
    uploadsTried := RetryUploads(uploads, storageOk);
    deletesTried := RetryDeletes(deletes, storageOk);
  }
}
