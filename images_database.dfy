/**
 * The local database of pending image operations: one table of uploads
 * that were interrupted and one of remote deletes that failed. Ids are
 * assigned by the database (auto-increment, starting at 1); callers always
 * pass the entity's default id 0, which the database treats as unassigned.
 */
module ImagesDatabase {
  import opened Wrappers
  import opened DiaryModel

  const ImagesToUploadTable: string := "images_to_upload_table"
  const ImagesToDeleteTable: string := "images_to_delete_table"
  const ImagesDatabaseName: string := "images_db"
  const SchemaVersion: nat := 2

  /** An upload to resume: where it goes, the local file, and the upload session to resume. */
  datatype ImageToUpload = ImageToUpload(id: int, remoteImagePath: string, imageUri: string, sessionUri: string)

  /** A remote delete to retry. */
  datatype ImageToDelete = ImageToDelete(id: int, remoteImagePath: string)

  /** The keys of `rows`, each exactly once, when every key lies in 1..lastId. */
  method ListKeys<R>(rows: map<int, R>, lastId: int) returns (ks: seq<int>)
    requires forall k :: k in rows ==> 0 < k <= lastId
    ensures forall i :: 0 <= i < |ks| ==> ks[i] in rows
    ensures forall k :: k in rows ==> k in ks
    ensures forall i, j :: 0 <= i < j < |ks| ==> ks[i] != ks[j]
  {
    ks := [];
    var id := 1;
    while id <= lastId
      invariant 1 <= id && (id <= lastId + 1 || lastId < 1)
      invariant forall i :: 0 <= i < |ks| ==> ks[i] in rows && ks[i] < id
      invariant forall k :: k in rows && k < id ==> k in ks
      invariant forall i, j :: 0 <= i < j < |ks| ==> ks[i] < ks[j]
    {
      if id in rows {
        ks := ks + [id];
      }
      id := id + 1;
    }
  }

  /** Every row sits under its own id, and every id is at most the last one assigned. */
  ghost predicate WellKeyed<R>(rows: map<int, R>, idOf: R -> int, lastId: int)
  {
    0 <= lastId && forall k :: k in rows ==> idOf(rows[k]) == k && 0 < k <= lastId
  }

  /** The upload rows after `added` are inserted one by one, with the ids after `lastId`. */
  function UploadsAdded(rows: map<int, ImageToUpload>, lastId: int, added: seq<ImageToUpload>): (r: map<int, ImageToUpload>)
    requires forall k :: k in rows ==> k <= lastId
    ensures forall k :: k in r <==> k in rows || lastId < k <= lastId + |added|
    ensures forall k :: k in rows ==> r[k] == rows[k]
    ensures forall j :: 0 <= j < |added| ==> r[lastId + 1 + j] == added[j].(id := lastId + 1 + j)
    decreases |added|
  {
    if added == [] then rows
    else
      var n := |added|;
      UploadsAdded(rows, lastId, added[..n - 1])[lastId + n := added[n - 1].(id := lastId + n)]
  }

  /** The delete rows after one row per path in `paths` is inserted, with the ids after `lastId`. */
  function DeletesAdded(rows: map<int, ImageToDelete>, lastId: int, paths: seq<string>): (r: map<int, ImageToDelete>)
    requires forall k :: k in rows ==> k <= lastId
    ensures forall k :: k in r <==> k in rows || lastId < k <= lastId + |paths|
    ensures forall k :: k in rows ==> r[k] == rows[k]
    ensures forall j :: 0 <= j < |paths| ==> r[lastId + 1 + j] == ImageToDelete(lastId + 1 + j, paths[j])
    decreases |paths|
  {
    if paths == [] then rows
    else
      var n := |paths|;
      DeletesAdded(rows, lastId, paths[..n - 1])[lastId + n := ImageToDelete(lastId + n, paths[n - 1])]
  }

  /** The paths, in order, whose remote delete failed. */
  function FailedDeletes(paths: seq<string>, deleteOk: StorageRequest -> bool): (r: seq<string>)
    ensures |r| <= |paths|
    decreases |paths|
  {
    if paths == [] then []
    else
      var n := |paths|;
      FailedDeletes(paths[..n - 1], deleteOk) + (if deleteOk(Delete(paths[n - 1])) then [] else [paths[n - 1]])
  }

  /** A path is queued exactly when it was tried and its delete failed. */
  lemma {:induction false} FailedDeletesExactly(paths: seq<string>, deleteOk: StorageRequest -> bool)
    ensures forall p :: p in FailedDeletes(paths, deleteOk) <==> p in paths && !deleteOk(Delete(p))
    decreases |paths|
  {
    if paths != [] {
      var n := |paths|;
      var last := paths[n - 1];
      assert paths == paths[..n - 1] + [last];
      FailedDeletesExactly(paths[..n - 1], deleteOk);
    }
  }

  /**
   * The queued paths are the failed ones, each once and in the order tried:
   * `idx` lists the positions of `paths` whose delete failed, increasing,
   * and the queue holds the paths at those positions.
   */
  lemma {:induction false} FailedDeletesInOrder(paths: seq<string>, deleteOk: StorageRequest -> bool) returns (idx: seq<nat>)
    ensures |idx| == |FailedDeletes(paths, deleteOk)|
    ensures forall j :: 0 <= j < |idx| ==> idx[j] < |paths| && FailedDeletes(paths, deleteOk)[j] == paths[idx[j]]
    ensures forall j, k :: 0 <= j < k < |idx| ==> idx[j] < idx[k]
    ensures forall i :: 0 <= i < |paths| ==> (i in idx <==> !deleteOk(Delete(paths[i])))
    decreases |paths|
  {
    if paths == [] {
      idx := [];
    } else {
      var n := |paths|;
      var init, last := paths[..n - 1], paths[n - 1];
      var idx0 := FailedDeletesInOrder(init, deleteOk);
      assert paths == init + [last];
      assert FailedDeletes(paths, deleteOk) == FailedDeletes(init, deleteOk) + Failed(last, deleteOk);
      idx := FailedSnoc(init, last, FailedDeletes(init, deleteOk), idx0, deleteOk);
    }
  }

  /** One more path tried: the failed positions gain its position exactly when its delete fails. */
  lemma FailedSnoc(init: seq<string>, last: string, r0: seq<string>, idx0: seq<nat>, deleteOk: StorageRequest -> bool)
    returns (idx: seq<nat>)
    requires |idx0| == |r0|
    requires forall j :: 0 <= j < |idx0| ==> idx0[j] < |init| && r0[j] == init[idx0[j]]
    requires forall j, k :: 0 <= j < k < |idx0| ==> idx0[j] < idx0[k]
    requires forall i :: 0 <= i < |init| ==> (i in idx0 <==> !deleteOk(Delete(init[i])))
    ensures |idx| == |r0 + Failed(last, deleteOk)|
    ensures forall j :: 0 <= j < |idx| ==> idx[j] < |init + [last]| && (r0 + Failed(last, deleteOk))[j] == (init + [last])[idx[j]]
    ensures forall j, k :: 0 <= j < k < |idx| ==> idx[j] < idx[k]
    ensures forall i :: 0 <= i < |init + [last]| ==> (i in idx <==> !deleteOk(Delete((init + [last])[i])))
  {
    var n, xs, r := |init|, init + [last], r0 + Failed(last, deleteOk);
    assert n !in idx0;
    assert forall i :: 0 <= i < n ==> xs[i] == init[i];
    if deleteOk(Delete(last)) {
      idx := idx0;
      assert r == r0;
    } else {
      idx := idx0 + [n];
      assert r == r0 + [last];
      assert r[|r0|] == xs[n];
    }
    forall i | 0 <= i < n + 1 ensures i in idx <==> !deleteOk(Delete(xs[i])) {
      if i < n {
        assert xs[i] == init[i];
      }
    }
  }

  function UploadId(r: ImageToUpload): int { r.id }
  function DeleteId(r: ImageToDelete): int { r.id }

  /** The table of interrupted uploads. */
  class ImagesToUploadDao {
    var rows: map<int, ImageToUpload>
    var lastId: int

    ghost predicate Valid()
      reads this
    {
      WellKeyed(rows, UploadId, lastId)
    }

    constructor ()
      ensures Valid() && rows == map[] && lastId == 0
    {
      rows := map[];
      lastId := 0;
    }

    /** Inserts `image` under a new id; the id the caller passed is not used. */
    method AddImageToUpload(image: ImageToUpload) returns (id: int)
      requires Valid()
      modifies this
      ensures Valid()
      ensures id == old(lastId) + 1 && lastId == id && id !in old(rows)
      ensures rows == old(rows)[id := image.(id := id)]
    {
      lastId := lastId + 1;
      id := lastId;
      rows := rows[id := image.(id := id)];
    }

    /** A snapshot of every row, each exactly once. */
    method GetAllImages() returns (result: seq<ImageToUpload>)
      requires Valid()
      ensures forall i :: 0 <= i < |result| ==> result[i].id in rows && rows[result[i].id] == result[i]
      ensures forall k :: k in rows ==> rows[k] in result
      ensures forall i, j :: 0 <= i < j < |result| ==> result[i].id != result[j].id
    {
      var ks := ListKeys(rows, lastId);
      var table := rows;
      result := seq(|ks|, i requires 0 <= i < |ks| => table[ks[i]]);
      forall k | k in rows ensures rows[k] in result {
        var i :| 0 <= i < |ks| && ks[i] == k;
        assert result[i] == rows[k];
      }
    }

    /** Deletes the row with that id; an absent id changes nothing. */
    method CleanupImage(imageId: int)
      requires Valid()
      modifies this
      ensures Valid()
      ensures rows == old(rows) - {imageId} && lastId == old(lastId)
    {
      rows := rows - {imageId};
    }
  }

  /** The table of failed remote deletes. */
  class ImageToDeleteDao {
    var rows: map<int, ImageToDelete>
    var lastId: int

    ghost predicate Valid()
      reads this
    {
      WellKeyed(rows, DeleteId, lastId)
    }

    constructor ()
      ensures Valid() && rows == map[] && lastId == 0
    {
      rows := map[];
      lastId := 0;
    }

    /** Inserts `image` under a new id; the id the caller passed is not used. */
    method AddImageToDelete(image: ImageToDelete) returns (id: int)
      requires Valid()
      modifies this
      ensures Valid()
      ensures id == old(lastId) + 1 && lastId == id && id !in old(rows)
      ensures rows == old(rows)[id := image.(id := id)]
    {
      lastId := lastId + 1;
      id := lastId;
      rows := rows[id := image.(id := id)];
    }

    /** A snapshot of every row, each exactly once. */
    method GetAllImages() returns (result: seq<ImageToDelete>)
      requires Valid()
      ensures forall i :: 0 <= i < |result| ==> result[i].id in rows && rows[result[i].id] == result[i]
      ensures forall k :: k in rows ==> rows[k] in result
      ensures forall i, j :: 0 <= i < j < |result| ==> result[i].id != result[j].id
    {
      var ks := ListKeys(rows, lastId);
      var table := rows;
      result := seq(|ks|, i requires 0 <= i < |ks| => table[ks[i]]);
      forall k | k in rows ensures rows[k] in result {
        var i :| 0 <= i < |ks| && ks[i] == k;
        assert result[i] == rows[k];
      }
    }

    /** Deletes the row with that id; an absent id changes nothing. */
    method CleanupImage(imageId: int)
      requires Valid()
      modifies this
      ensures Valid()
      ensures rows == old(rows) - {imageId} && lastId == old(lastId)
    {
      rows := rows - {imageId};
    }
  }

  // ---------------------------------------------------------------------
  // Recording failed storage operations
  // ---------------------------------------------------------------------

  /** One more path tried: it joins the failed ones exactly when its delete fails. */
  lemma FailedDeletesStep(paths: seq<string>, i: nat, deleteOk: StorageRequest -> bool)
    requires i < |paths|
    ensures FailedDeletes(paths[..i + 1], deleteOk) ==
      FailedDeletes(paths[..i], deleteOk) + Failed(paths[i], deleteOk)
  {
    assert paths[..i + 1][..i] == paths[..i];
  }

  /** `[path]` when its delete fails, else nothing. */
  function Failed(path: string, deleteOk: StorageRequest -> bool): seq<string>
  {
    if deleteOk(Delete(path)) then [] else [path]
  }

  /**
   * Deletes one path remotely; a failed delete is queued under the next id.
   * The ghost parameters describe the queue so far: the rows before the bulk
   * delete and the paths queued since.
   */
  method DeleteOrQueue(path: string, deleteOk: StorageRequest -> bool, dao: ImageToDeleteDao,
                       ghost rows0: map<int, ImageToDelete>, ghost last0: int, ghost failed: seq<string>)
    requires dao.Valid()
    requires forall k :: k in rows0 ==> k <= last0
    requires dao.rows == DeletesAdded(rows0, last0, failed) && dao.lastId == last0 + |failed|
    modifies dao
    ensures dao.Valid()
    ensures dao.rows == DeletesAdded(rows0, last0, failed + Failed(path, deleteOk))
    ensures dao.lastId == last0 + |failed + Failed(path, deleteOk)|
  {
    if !deleteOk(Delete(path)) {
      assert (failed + [path])[..|failed|] == failed;
      var _ := dao.AddImageToDelete(ImageToDelete(0, path));
    } else {
      assert failed + [] == failed;
    }
  }

  /** `deleteImagesFromFirebase`: deletes each path remotely, in order, and queues every failed delete for a later retry. */
  method QueueFailedDeletes(paths: seq<string>, deleteOk: StorageRequest -> bool, dao: ImageToDeleteDao)
    requires dao.Valid()
    modifies dao
    ensures dao.Valid()
    ensures dao.rows == DeletesAdded(old(dao.rows), old(dao.lastId), FailedDeletes(paths, deleteOk))
    ensures dao.lastId == old(dao.lastId) + |FailedDeletes(paths, deleteOk)|
  {
    ghost var rows0, last0 := dao.rows, dao.lastId;
    assert forall k :: k in rows0 ==> k <= last0;
    var i := 0;
    ghost var failed: seq<string> := [];
    while i < |paths|
      invariant 0 <= i <= |paths|
      invariant dao.Valid()
      invariant failed == FailedDeletes(paths[..i], deleteOk)
      invariant dao.rows == DeletesAdded(rows0, last0, failed)
      invariant dao.lastId == last0 + |failed|
    {
      FailedDeletesStep(paths, i, deleteOk);
      DeleteOrQueue(paths[i], deleteOk, dao, rows0, last0, failed);
      failed := failed + Failed(paths[i], deleteOk);
      i := i + 1;
    }
    assert paths[..i] == paths;
  }

  /** The upload rows an upload pass records: one per image whose upload reports a session. */
  function PendingUploads(images: seq<GalleryImage>, sessionOf: GalleryImage -> Option<string>): (r: seq<ImageToUpload>)
    ensures |r| <= |images|
    decreases |images|
  {
    if images == [] then []
    else
      var n := |images|;
      PendingUploads(images[..n - 1], sessionOf) + Pending(images[n - 1], sessionOf)
  }

  /** The row recorded for one image: none unless its upload reports a session. */
  function Pending(image: GalleryImage, sessionOf: GalleryImage -> Option<string>): seq<ImageToUpload>
  {
    match sessionOf(image)
    case None => []
    case Some(session) => [ImageToUpload(0, image.remoteImagePath, image.image, session)]
  }

  /** An upload row is recorded exactly for an image of the pass whose upload reports a session, with that session. */
  lemma {:induction false} PendingUploadsExactly(images: seq<GalleryImage>, sessionOf: GalleryImage -> Option<string>)
    ensures forall u :: u in PendingUploads(images, sessionOf) <==>
      exists g :: g in images && sessionOf(g).Some? && u == ImageToUpload(0, g.remoteImagePath, g.image, sessionOf(g).value)
    decreases |images|
  {
    if images != [] {
      var n := |images|;
      var last := images[n - 1];
      assert images == images[..n - 1] + [last];
      PendingUploadsExactly(images[..n - 1], sessionOf);
      forall u | u in PendingUploads(images, sessionOf)
        ensures exists g :: g in images && sessionOf(g).Some? && u == ImageToUpload(0, g.remoteImagePath, g.image, sessionOf(g).value)
      {
        if u !in PendingUploads(images[..n - 1], sessionOf) {
          assert u in Pending(last, sessionOf);
          assert last in images;
        } else {
          var g :| g in images[..n - 1] && sessionOf(g).Some? && u == ImageToUpload(0, g.remoteImagePath, g.image, sessionOf(g).value);
          assert g in images;
        }
      }
      forall u | exists g :: g in images && sessionOf(g).Some? && u == ImageToUpload(0, g.remoteImagePath, g.image, sessionOf(g).value)
        ensures u in PendingUploads(images, sessionOf)
      {
        var g :| g in images && sessionOf(g).Some? && u == ImageToUpload(0, g.remoteImagePath, g.image, sessionOf(g).value);
        if g != last {
          assert g in images[..n - 1];
        }
      }
    }
  }

  /**
   * The recorded uploads are those of the images reporting a session, one
   * each and in gallery order: `idx` lists those positions, increasing, and
   * row `j` is the upload of the image at `idx[j]`.
   */
  lemma {:induction false} PendingUploadsInOrder(images: seq<GalleryImage>, sessionOf: GalleryImage -> Option<string>)
    returns (idx: seq<nat>)
    ensures |idx| == |PendingUploads(images, sessionOf)|
    ensures forall j :: 0 <= j < |idx| ==> idx[j] < |images|
    ensures forall j :: 0 <= j < |idx| ==> Pending(images[idx[j]], sessionOf) == [PendingUploads(images, sessionOf)[j]]
    ensures forall j, k :: 0 <= j < k < |idx| ==> idx[j] < idx[k]
    ensures forall i :: 0 <= i < |images| ==> (i in idx <==> sessionOf(images[i]).Some?)
    decreases |images|
  {
    if images == [] {
      idx := [];
    } else {
      var n := |images|;
      var init, last := images[..n - 1], images[n - 1];
      var idx0 := PendingUploadsInOrder(init, sessionOf);
      assert images == init + [last];
      assert PendingUploads(images, sessionOf) == PendingUploads(init, sessionOf) + Pending(last, sessionOf);
      idx := PendingSnoc(init, last, PendingUploads(init, sessionOf), idx0, sessionOf);
    }
  }

  /** One more image uploaded: the recorded positions gain its position exactly when it reports a session. */
  lemma PendingSnoc(init: seq<GalleryImage>, last: GalleryImage, r0: seq<ImageToUpload>, idx0: seq<nat>,
                    sessionOf: GalleryImage -> Option<string>) returns (idx: seq<nat>)
    requires |idx0| == |r0|
    requires forall j :: 0 <= j < |idx0| ==> idx0[j] < |init| && Pending(init[idx0[j]], sessionOf) == [r0[j]]
    requires forall j, k :: 0 <= j < k < |idx0| ==> idx0[j] < idx0[k]
    requires forall i :: 0 <= i < |init| ==> (i in idx0 <==> sessionOf(init[i]).Some?)
    ensures |idx| == |r0 + Pending(last, sessionOf)|
    ensures forall j :: 0 <= j < |idx| ==>
      idx[j] < |init + [last]| && Pending((init + [last])[idx[j]], sessionOf) == [(r0 + Pending(last, sessionOf))[j]]
    ensures forall j, k :: 0 <= j < k < |idx| ==> idx[j] < idx[k]
    ensures forall i :: 0 <= i < |init + [last]| ==> (i in idx <==> sessionOf((init + [last])[i]).Some?)
  {
    var n := |init|;
    assert n !in idx0;
    idx := if sessionOf(last).Some? then idx0 + [n] else idx0;
  }

  lemma PendingUploadsStep(images: seq<GalleryImage>, i: nat, sessionOf: GalleryImage -> Option<string>)
    requires i < |images|
    ensures PendingUploads(images[..i + 1], sessionOf) == PendingUploads(images[..i], sessionOf) + Pending(images[i], sessionOf)
  {
    assert images[..i + 1][..i] == images[..i];
  }

  /**
   * Uploads one image; when its upload reports a session, the upload is
   * recorded under the next id. The ghost parameters describe the queue so
   * far: the rows before the pass and the rows recorded since.
   */
  method UploadOrQueue(image: GalleryImage, sessionOf: GalleryImage -> Option<string>, dao: ImagesToUploadDao,
                       ghost rows0: map<int, ImageToUpload>, ghost last0: int, ghost queued: seq<ImageToUpload>)
    requires dao.Valid()
    requires forall k :: k in rows0 ==> k <= last0
    requires dao.rows == UploadsAdded(rows0, last0, queued) && dao.lastId == last0 + |queued|
    modifies dao
    ensures dao.Valid()
    ensures dao.rows == UploadsAdded(rows0, last0, queued + Pending(image, sessionOf))
    ensures dao.lastId == last0 + |queued + Pending(image, sessionOf)|
  {
    var session := sessionOf(image);
    if session.Some? {
      var row := ImageToUpload(0, image.remoteImagePath, image.image, session.value);
      assert (queued + [row])[..|queued|] == queued;
      var _ := dao.AddImageToUpload(row);
    } else {
      assert queued + [] == queued;
    }
  }

  /** `uploadImageToFirebase`: uploads every image, in order, recording each upload that reports a session. */
  method QueuePendingUploads(images: seq<GalleryImage>, sessionOf: GalleryImage -> Option<string>, dao: ImagesToUploadDao)
    requires dao.Valid()
    modifies dao
    ensures dao.Valid()
    ensures dao.rows == UploadsAdded(old(dao.rows), old(dao.lastId), PendingUploads(images, sessionOf))
    ensures dao.lastId == old(dao.lastId) + |PendingUploads(images, sessionOf)|
  {
    ghost var rows0, last0 := dao.rows, dao.lastId;
    assert forall k :: k in rows0 ==> k <= last0;
    var i := 0;
    ghost var queued: seq<ImageToUpload> := [];
    while i < |images|
      invariant 0 <= i <= |images|
      invariant dao.Valid()
      invariant queued == PendingUploads(images[..i], sessionOf)
      invariant dao.rows == UploadsAdded(rows0, last0, queued)
      invariant dao.lastId == last0 + |queued|
    {
      PendingUploadsStep(images, i, sessionOf);
      UploadOrQueue(images[i], sessionOf, dao, rows0, last0, queued);
      queued := queued + Pending(images[i], sessionOf);
      i := i + 1;
    }
    assert images[..i] == images;
  }
}
