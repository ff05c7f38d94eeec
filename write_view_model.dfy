/**
 * The write screen's view model: the editor state, loading the diary being
 * edited, routing a save to insert or update, deleting the diary, and the
 * storage paths of its pictures.
 *
 * The signed-in user's id is a parameter (None when signed out; the string
 * template then writes "null"). What the object storage does is given by
 * oracles: whether a delete succeeds, and which upload reports a session.
 */
module WriteViewModel {
  import opened Wrappers
  import opened DiaryModel
  import opened Strings
  import AppMood
  import MongoDB
  import ImagesDatabase

  /** The editor state. */
  datatype UiState = UiState(
    selectedDiaryId: Option<ObjectId>,
    selectedDiary: Option<Diary>,
    title: string,
    description: string,
    mood: AppMood.Mood,
    updatedDateTime: Option<Instant>)

  /** `UiState()`, every field at its default. */
  const Defaults: UiState := UiState(None, None, "", "", AppMood.Neutral, None)

  /** The defaults: nothing selected, empty texts, the first mood, no chosen date. */
  lemma DefaultsAreEmpty()
    ensures Defaults.selectedDiaryId.None? && Defaults.selectedDiary.None? && Defaults.updatedDateTime.None?
    ensures Defaults.title == "" && Defaults.description == ""
    ensures AppMood.Ordinal(Defaults.mood) == 0
  {
  }

  // ---------------------------------------------------------------------
  // Which diary a save writes
  // ---------------------------------------------------------------------

  /** The diary `insertDiary` stores: the chosen date, when there is one, replaces the diary's own. */
  function InsertTarget(ui: UiState, diary: Diary): (r: Diary)
    ensures r.(date := diary.date) == diary
    ensures ui.updatedDateTime.Some? ==> r.date == ui.updatedDateTime.value
    ensures ui.updatedDateTime.None? ==> r == diary
  {
    if ui.updatedDateTime.Some? then diary.(date := ui.updatedDateTime.value) else diary
  }

  /**
   * The diary `updateDiary` stores: the selected id, and the chosen date or
   * else the selected diary's date. None when both are missing, where the
   * `!!` throws before the repository is called; nothing in the launched
   * coroutine catches it, so the exception ends the app.
   */
  function UpdateTarget(ui: UiState, diary: Diary): (r: Option<Diary>)
    requires ui.selectedDiaryId.Some?
    ensures r.None? <==> ui.updatedDateTime.None? && ui.selectedDiary.None?
    ensures r.Some? ==> r.value.(id := diary.id, date := diary.date) == diary
    ensures r.Some? ==> r.value.id == ui.selectedDiaryId.value
    ensures r.Some? && ui.updatedDateTime.Some? ==> r.value.date == ui.updatedDateTime.value
    ensures r.Some? && ui.updatedDateTime.None? ==> r.value.date == ui.selectedDiary.value.date
  {
    if ui.updatedDateTime.Some? then Some(diary.(id := ui.selectedDiaryId.value, date := ui.updatedDateTime.value))
    else if ui.selectedDiary.Some? then Some(diary.(id := ui.selectedDiaryId.value, date := ui.selectedDiary.value.date))
    else None
  }

  // ---------------------------------------------------------------------
  // Storage paths of pictures
  // ---------------------------------------------------------------------

  /** `"${lastPathSegment}-${millis}.${imageType}"`: the file name of a new picture. */
  function ImageName(segment: Option<string>, millis: nat, imageType: string): string
  {
    Text(segment) + "-" + NatToString(millis) + "." + imageType
  }

  /** The storage path `addImage` gives a new picture: a file of the user's directory. */
  function NewImagePath(uid: Option<string>, segment: Option<string>, millis: nat, imageType: string): (r: string)
    ensures r == ImageDirectory(uid) + "/" + ImageName(segment, millis, imageType)
  {
    "images/" + Text(uid) + "/" + Text(segment) + "-" + NatToString(millis) + "." + imageType
  }

  /**
   * Pictures added in different milliseconds get different paths, whatever
   * the segment and type: the millisecond count is kept in the name.
   */
  lemma NewImagePathsDistinct(uid: Option<string>, segment: Option<string>, m1: nat, m2: nat, imageType: string)
    requires m1 != m2
    ensures NewImagePath(uid, segment, m1, imageType) != NewImagePath(uid, segment, m2, imageType)
  {
    var pre := ImageDirectory(uid) + "/" + Text(segment) + "-";
    var suf := "." + imageType;
    var d1, d2 := NatToString(m1), NatToString(m2);
    assert NewImagePath(uid, segment, m1, imageType) == pre + d1 + suf;
    assert NewImagePath(uid, segment, m2, imageType) == pre + d2 + suf;
    if pre + d1 + suf == pre + d2 + suf {
      SameFrame(pre, d1, d2, suf);
      NatToStringInjective(m1, m2);
    }
  }

  /** Strings that agree around a middle part agree in the middle part. */
  lemma SameFrame(pre: string, x: string, y: string, suf: string)
    requires pre + x + suf == pre + y + suf
    ensures x == y
  {
    var s := pre + x + suf;
    assert |x| == |y|;
    assert x == s[|pre|..|pre| + |x|];
    assert y == (pre + y + suf)[|pre|..|pre| + |y|];
  }

  /**
   * `extractRemoteImagePath`: the file name is the third piece of the URL
   * cut at "%2F", up to its first "?". None when the URL has fewer than
   * three pieces, where `chunks[2]` throws.
   */
  function ExtractRemoteImagePath(url: string, uid: Option<string>): Option<string>
  {
    var chunks := Split(url, "%2F");
    if |chunks| < 3 then None
    else Some("images/" + Text(uid) + "/" + Split(chunks[2], "?")[0])
  }

  /**
   * A download URL names its object as `images%2F<owner>%2F<name>` followed
   * by `?` and the query; extraction recovers `<name>` in the current user's
   * directory when no piece holds a `%` and the name holds no `?`.
   */
  lemma {:induction false} ExtractFromDownloadUrl(base: string, owner: string, name: string, query: string, uid: Option<string>)
    requires '%' !in base && '%' !in owner && '%' !in name && '%' !in query && '?' !in name
    ensures ExtractRemoteImagePath(base + "images%2F" + owner + "%2F" + name + "?" + query, uid) == Some(ImageDirectory(uid) + "/" + name)
  {
    var tail := name + "?" + query;
    var url := base + "images%2F" + owner + "%2F" + name + "?" + query;
    assert url == base + "images%2F" + owner + "%2F" + tail;
    DownloadUrlPieces(base, owner, tail);
    SplitAfter(name, "?", query);
    assert Split(tail, "?")[0] == name;
  }

  /** A download URL cuts at "%2F" into the part before the directory, the owner, and the rest. */
  lemma {:induction false} DownloadUrlPieces(base: string, owner: string, tail: string)
    requires '%' !in base && '%' !in owner && '%' !in tail
    ensures Split(base + "images%2F" + owner + "%2F" + tail, "%2F") == [base + "images", owner, tail]
  {
    var url := base + "images%2F" + owner + "%2F" + tail;
    assert url == (base + "images") + "%2F" + (owner + "%2F" + tail);
    assert '%' !in base + "images";
    SplitAfter(base + "images", "%2F", owner + "%2F" + tail);
    SplitAfter(owner, "%2F", tail);
    SplitWithout(tail, "%2F");
  }

  /** A URL holding no `%` has no "%2F" piece after the first, so extraction throws. */
  lemma ExtractNeedsTwoSeparators(url: string, uid: Option<string>)
    requires '%' !in url
    ensures ExtractRemoteImagePath(url, uid).None?
  {
    SplitWithout(url, "%2F");
  }

  /**
   * A URL-unreserved character (letters, digits, `-`, `.`, `_`, `~`): one
   * that percent-encoding leaves as it is, so a name made of them appears
   * verbatim in a download URL.
   */
  predicate Unreserved(c: char)
  {
    ('A' <= c <= 'Z') || ('a' <= c <= 'z') || ('0' <= c <= '9') || c == '-' || c == '.' || c == '_' || c == '~'
  }

  /**
   * For a file name of unreserved characters, the path `addImage` records
   * for the signed-in user is the one extraction recovers from that
   * picture's download URL.
   */
  lemma {:induction false} AddedPathIsExtracted(uid: string, segment: Option<string>, millis: nat, imageType: string,
                                                base: string, query: string)
    requires '%' !in base && '%' !in uid && '%' !in query
    requires forall i :: 0 <= i < |Text(segment)| ==> Unreserved(Text(segment)[i])
    requires forall i :: 0 <= i < |imageType| ==> Unreserved(imageType[i])
    ensures ExtractRemoteImagePath(base + "images%2F" + uid + "%2F" + ImageName(segment, millis, imageType) + "?" + query, Some(uid))
      == Some(NewImagePath(Some(uid), segment, millis, imageType))
  {
    var digits := NatToString(millis);
    assert '%' !in digits && '?' !in digits by {
      forall i | 0 <= i < |digits| ensures digits[i] != '%' && digits[i] != '?' {
      }
    }
    var seg := Text(segment);
    assert '%' !in seg && '?' !in seg by {
      forall i | 0 <= i < |seg| ensures seg[i] != '%' && seg[i] != '?' {
        assert Unreserved(seg[i]);
      }
    }
    assert '%' !in imageType && '?' !in imageType by {
      forall i | 0 <= i < |imageType| ensures imageType[i] != '%' && imageType[i] != '?' {
        assert Unreserved(imageType[i]);
      }
    }
    var name := ImageName(segment, millis, imageType);
    assert name == seg + "-" + digits + "." + imageType;
    assert '%' !in name && '?' !in name;
    ExtractFromDownloadUrl(base, uid, name, query, Some(uid));
  }

  /**
   * Whatever owner the URL names, an extracted path is a file of the current
   * user's image directory.
   */
  lemma ExtractedInOwnDirectory(url: string, uid: Option<string>)
    ensures ExtractRemoteImagePath(url, uid).Some? ==> ImageDirectory(uid) + "/" <= ExtractRemoteImagePath(url, uid).value
  {
  }

  /** `extractRemoteImagePath` for the current user, as a function of the URL. */
  function Extractor(uid: Option<string>): (f: string -> Option<string>)
    ensures forall url :: f(url) == ExtractRemoteImagePath(url, uid)
  {
    url => ExtractRemoteImagePath(url, uid)
  }

  /**
   * The gallery images `fetchSelectedDiary` adds for the download URLs, in
   * the order they arrive, up to the first URL whose extraction throws.
   */
  function Downloads(urls: seq<string>, extract: string -> Option<string>): (r: seq<GalleryImage>)
    ensures |r| <= |urls|
  {
    if urls == [] then []
    else match extract(urls[0])
      case None => []
      case Some(path) => [GalleryImage(urls[0], path)] + Downloads(urls[1..], extract)
  }

  /** Picture i is URL i with the path extracted from it, and the first URL left out is one whose extraction throws. */
  lemma {:induction false} DownloadsExactly(urls: seq<string>, extract: string -> Option<string>)
    ensures var r := Downloads(urls, extract);
      && (forall i :: 0 <= i < |r| ==> r[i].image == urls[i] && extract(urls[i]) == Some(r[i].remoteImagePath))
      && (|r| < |urls| ==> extract(urls[|r|]).None?)
  {
    if urls != [] && extract(urls[0]).Some? {
      DownloadsExactly(urls[1..], extract);
      var r := Downloads(urls, extract);
      var rest := Downloads(urls[1..], extract);
      assert r == [GalleryImage(urls[0], extract(urls[0]).value)] + rest;
      forall i | 1 <= i < |r| ensures r[i] == rest[i - 1] && urls[i] == urls[1..][i - 1] {
      }
      if |r| < |urls| {
        assert urls[|r|] == urls[1..][|rest|];
      }
    }
  }

  /** Every picture is added exactly when no URL's extraction throws. */
  lemma {:induction false} DownloadsComplete(urls: seq<string>, extract: string -> Option<string>)
    ensures |Downloads(urls, extract)| == |urls| <==> forall k :: 0 <= k < |urls| ==> extract(urls[k]).Some?
  {
    DownloadsExactly(urls, extract);
  }

  /** Unfolds `Downloads` at position i of the URLs. */
  lemma DownloadsStep(urls: seq<string>, i: nat, extract: string -> Option<string>)
    requires i < |urls|
    ensures extract(urls[i]).None? ==> Downloads(urls[i..], extract) == []
    ensures extract(urls[i]).Some? ==>
      Downloads(urls[i..], extract) == [GalleryImage(urls[i], extract(urls[i]).value)] + Downloads(urls[i + 1..], extract)
  {
    assert urls[i..][0] == urls[i] && urls[i..][1..] == urls[i + 1..];
  }

  /** The storage paths of gallery images, in order. */
  function RemotePaths(images: seq<GalleryImage>): (r: seq<string>)
    ensures |r| == |images|
    ensures forall i :: 0 <= i < |images| ==> r[i] == images[i].remoteImagePath
  {
    seq(|images|, i requires 0 <= i < |images| => images[i].remoteImagePath)
  }

  /** The upload rows a save leaves: the failed uploads of `images` appended after `last0`. */
  predicate UploadsQueued(dao: ImagesDatabase.ImagesToUploadDao, rows0: map<int, ImagesDatabase.ImageToUpload>, last0: int,
                          images: seq<GalleryImage>, sessionOf: GalleryImage -> Option<string>)
    reads dao
  {
    && (forall k :: k in rows0 ==> k <= last0)
    && dao.rows == ImagesDatabase.UploadsAdded(rows0, last0, ImagesDatabase.PendingUploads(images, sessionOf))
    && dao.lastId == last0 + |ImagesDatabase.PendingUploads(images, sessionOf)|
  }

  /** The delete rows a save leaves: the failed deletes of `paths` appended after `last0`. */
  predicate DeletesQueued(dao: ImagesDatabase.ImageToDeleteDao, rows0: map<int, ImagesDatabase.ImageToDelete>, last0: int,
                          paths: seq<string>, deleteOk: StorageRequest -> bool)
    reads dao
  {
    && (forall k :: k in rows0 ==> k <= last0)
    && dao.rows == ImagesDatabase.DeletesAdded(rows0, last0, ImagesDatabase.FailedDeletes(paths, deleteOk))
    && dao.lastId == last0 + |ImagesDatabase.FailedDeletes(paths, deleteOk)|
  }

  class WriteViewModel {
    var uiState: UiState
    const gallery: GalleryState

    /** `init`: the defaults, with the id the navigation argument carries. */
    constructor (argument: Option<ObjectId>)
      ensures uiState == Defaults.(selectedDiaryId := argument)
      ensures fresh(gallery) && gallery.images == [] && gallery.imagesToBeDeleted == []
    {
      uiState := Defaults;
      gallery := new GalleryState();
      new;
      GetDiaryIdArgument(argument);
    }

    method GetDiaryIdArgument(argument: Option<ObjectId>)
      modifies this
      ensures uiState == old(uiState).(selectedDiaryId := argument)
    {
      uiState := uiState.(selectedDiaryId := argument);
    }

    method SetSelectedDiary(diary: Diary)
      modifies this
      ensures uiState == old(uiState).(selectedDiary := Some(diary))
    {
      uiState := uiState.(selectedDiary := Some(diary));
    }

    method SetTitle(title: string)
      modifies this
      ensures uiState == old(uiState).(title := title)
    {
      uiState := uiState.(title := title);
    }

    method SetDescription(description: string)
      modifies this
      ensures uiState == old(uiState).(description := description)
    {
      uiState := uiState.(description := description);
    }

    method SetMood(mood: AppMood.Mood)
      modifies this
      ensures uiState == old(uiState).(mood := mood)
    {
      uiState := uiState.(mood := mood);
    }

    method UpdateDateTime(moment: Instant)
      modifies this
      ensures uiState == old(uiState).(updatedDateTime := Some(moment))
    {
      uiState := uiState.(updatedDateTime := Some(moment));
    }

    /**
     * One emission of the selected diary's query, with the download URLs of
     * its pictures in the order they arrive. A Success fills the editor; an
     * unknown mood name makes `valueOf` throw after title and description
     * are set (`completed` is false), as does a URL extraction that throws.
     * The flow's `catch` guards only the upstream query, not the collector
     * or the download callback, so `completed == false` stands for an
     * uncaught exception that ends the app. The query is only subscribed
     * to when a diary id was passed to the screen.
     */
    method OnSelectedDiary(result: RequestState<Diary>, urls: seq<string>, uid: Option<string>) returns (completed: bool)
      requires uiState.selectedDiaryId.Some?
      modifies this, gallery
      ensures gallery.imagesToBeDeleted == old(gallery.imagesToBeDeleted)
      ensures !result.Success? ==> completed && uiState == old(uiState) && gallery.images == old(gallery.images)
      ensures result.Success? && AppMood.ValueOf(result.data.mood).None? ==>
        && !completed && gallery.images == old(gallery.images)
        && uiState == old(uiState).(title := result.data.title, description := result.data.description)
      ensures result.Success? && AppMood.ValueOf(result.data.mood).Some? ==>
        && uiState == old(uiState).(title := result.data.title, description := result.data.description,
                                    mood := AppMood.ValueOf(result.data.mood).value, selectedDiary := Some(result.data))
        && gallery.images == old(gallery.images) + Downloads(urls, Extractor(uid))
        && completed == (|Downloads(urls, Extractor(uid))| == |urls|)
    {
      if !result.Success? {
        return true;
      }
      var diary := result.data;
      SetTitle(diary.title);
      SetDescription(diary.description);
      var mood := AppMood.ValueOf(diary.mood);
      if mood.None? {
        return false;
      }
      SetMood(mood.value);
      SetSelectedDiary(diary);
      completed := AddDownloads(urls, Extractor(uid));
    }

    /** `onImageDownload` for each URL in turn, until an extraction throws. */
    method AddDownloads(urls: seq<string>, extract: string -> Option<string>) returns (completed: bool)
      modifies gallery
      ensures gallery.imagesToBeDeleted == old(gallery.imagesToBeDeleted)
      ensures gallery.images == old(gallery.images) + Downloads(urls, extract)
      ensures completed == (|Downloads(urls, extract)| == |urls|)
    {
      var i := 0;
      while i < |urls| && extract(urls[i]).Some?
        invariant 0 <= i <= |urls|
        invariant gallery.imagesToBeDeleted == old(gallery.imagesToBeDeleted)
        invariant |gallery.images| == |old(gallery.images)| + i
        invariant gallery.images + Downloads(urls[i..], extract) == old(gallery.images) + Downloads(urls, extract)
      {
        DownloadsStep(urls, i, extract);
        gallery.AddImage(GalleryImage(urls[i], extract(urls[i]).value));
        i := i + 1;
      }
      if i < |urls| {
        DownloadsStep(urls, i, extract);
      } else {
        assert urls[i..] == [];
      }
      completed := i == |urls|;
    }

    /** `addImage`: appends the picture with a fresh path in the user's directory. */
    method AddImage(image: string, segment: Option<string>, imageType: string, uid: Option<string>, millis: nat)
      modifies gallery
      ensures gallery.images == old(gallery.images) + [GalleryImage(image, NewImagePath(uid, segment, millis, imageType))]
      ensures gallery.imagesToBeDeleted == old(gallery.imagesToBeDeleted)
    {
      var remoteImagePath := "images/" + Text(uid) + "/" + Text(segment) + "-" + NatToString(millis) + "." + imageType;
      gallery.AddImage(GalleryImage(image, remoteImagePath));
    }

    /** `deleteImagesFromFirebase(images)`: the given paths, or else those of the pictures the user removed. */
    method DeleteImagesFromFirebase(images: Option<seq<string>>, deleteOk: StorageRequest -> bool,
                                    deletes: ImagesDatabase.ImageToDeleteDao)
      requires deletes.Valid()
      modifies deletes
      ensures deletes.Valid()
      ensures var paths := if images.Some? then images.value else RemotePaths(gallery.imagesToBeDeleted);
        && deletes.rows == ImagesDatabase.DeletesAdded(old(deletes.rows), old(deletes.lastId), ImagesDatabase.FailedDeletes(paths, deleteOk))
        && deletes.lastId == old(deletes.lastId) + |ImagesDatabase.FailedDeletes(paths, deleteOk)|
    {
      var paths := if images.Some? then images.value else RemotePaths(gallery.imagesToBeDeleted);
      ImagesDatabase.QueueFailedDeletes(paths, deleteOk, deletes);
    }

    /** `insertDiary`: on Success, uploads every gallery picture. */
    method InsertDiary(diary: Diary, repo: MongoDB.MongoDB, sessionOf: GalleryImage -> Option<string>,
                       uploads: ImagesDatabase.ImagesToUploadDao)
      returns (r: Option<Callback>)
      requires repo.Valid() && uploads.Valid()
      modifies repo, uploads
      ensures repo.Valid() && uploads.Valid()
      ensures var w := MongoDB.InsertOutcome(repo.user, old(repo.diaries), InsertTarget(uiState, diary));
        && repo.diaries == w.diaries && r == CallbackOf(w.result)
        && (w.result.Success? ==> UploadsQueued(uploads, old(uploads.rows), old(uploads.lastId), gallery.images, sessionOf))
        && (!w.result.Success? ==> uploads.rows == old(uploads.rows) && uploads.lastId == old(uploads.lastId))
    {
      var result := repo.InsertDiary(InsertTarget(uiState, diary));
      if result.Success? {
        ImagesDatabase.QueuePendingUploads(gallery.images, sessionOf, uploads);
      }
      r := CallbackOf(result);
    }

    /** `updateDiary`: on Success, uploads the gallery pictures and deletes the removed ones. */
    method UpdateDiary(diary: Diary, repo: MongoDB.MongoDB, sessionOf: GalleryImage -> Option<string>,
                       deleteOk: StorageRequest -> bool,
                       uploads: ImagesDatabase.ImagesToUploadDao, deletes: ImagesDatabase.ImageToDeleteDao)
      returns (r: Option<Callback>)
      requires uiState.selectedDiaryId.Some?
      requires repo.Valid() && uploads.Valid() && deletes.Valid()
      modifies repo, uploads, deletes
      ensures repo.Valid() && uploads.Valid() && deletes.Valid()
      ensures UpdateTarget(uiState, diary).None? ==>
        && r.None? && repo.diaries == old(repo.diaries)
        && uploads.rows == old(uploads.rows) && uploads.lastId == old(uploads.lastId)
        && deletes.rows == old(deletes.rows) && deletes.lastId == old(deletes.lastId)
      ensures UpdateTarget(uiState, diary).Some? ==>
        var w := MongoDB.UpdateOutcome(repo.user, old(repo.diaries), UpdateTarget(uiState, diary).value);
        && repo.diaries == w.diaries && r == CallbackOf(w.result)
        && (w.result.Success? ==>
              && UploadsQueued(uploads, old(uploads.rows), old(uploads.lastId), gallery.images, sessionOf)
              && DeletesQueued(deletes, old(deletes.rows), old(deletes.lastId), RemotePaths(gallery.imagesToBeDeleted), deleteOk))
        && (!w.result.Success? ==>
              && uploads.rows == old(uploads.rows) && uploads.lastId == old(uploads.lastId)
              && deletes.rows == old(deletes.rows) && deletes.lastId == old(deletes.lastId))
    {
      var target := UpdateTarget(uiState, diary);
      if target.None? {
        return None;
      }
      var result := repo.UpdateDiary(target.value);
      if result.Success? {
        ImagesDatabase.QueuePendingUploads(gallery.images, sessionOf, uploads);
        DeleteImagesFromFirebase(None, deleteOk, deletes);
      }
      r := CallbackOf(result);
    }

    /**
     * `upsertDiary`: an update when a diary is selected, else an insert,
     * with the Room tables each branch changes. None when nothing answers:
     * the update threw, uncaught, and the exception ends the app.
     */
    method UpsertDiary(diary: Diary, repo: MongoDB.MongoDB, sessionOf: GalleryImage -> Option<string>,
                       deleteOk: StorageRequest -> bool,
                       uploads: ImagesDatabase.ImagesToUploadDao, deletes: ImagesDatabase.ImageToDeleteDao)
      returns (r: Option<Callback>)
      requires repo.Valid() && uploads.Valid() && deletes.Valid()
      modifies repo, uploads, deletes
      ensures repo.Valid() && uploads.Valid() && deletes.Valid()
      ensures uiState.selectedDiaryId.None? ==>
        var w := MongoDB.InsertOutcome(repo.user, old(repo.diaries), InsertTarget(uiState, diary));
        && repo.diaries == w.diaries && r == CallbackOf(w.result) && r.Some?
        && (w.result.Success? ==> UploadsQueued(uploads, old(uploads.rows), old(uploads.lastId), gallery.images, sessionOf))
        && (!w.result.Success? ==> uploads.rows == old(uploads.rows) && uploads.lastId == old(uploads.lastId))
        && deletes.rows == old(deletes.rows) && deletes.lastId == old(deletes.lastId)
      ensures uiState.selectedDiaryId.Some? ==>
        && (UpdateTarget(uiState, diary).None? <==> r.None?)
        && (UpdateTarget(uiState, diary).None? ==>
              && repo.diaries == old(repo.diaries)
              && uploads.rows == old(uploads.rows) && uploads.lastId == old(uploads.lastId)
              && deletes.rows == old(deletes.rows) && deletes.lastId == old(deletes.lastId))
        && (UpdateTarget(uiState, diary).Some? ==>
              var w := MongoDB.UpdateOutcome(repo.user, old(repo.diaries), UpdateTarget(uiState, diary).value);
              && repo.diaries == w.diaries && r == CallbackOf(w.result)
              && (w.result.Success? ==>
                    && UploadsQueued(uploads, old(uploads.rows), old(uploads.lastId), gallery.images, sessionOf)
                    && DeletesQueued(deletes, old(deletes.rows), old(deletes.lastId), RemotePaths(gallery.imagesToBeDeleted), deleteOk))
              && (!w.result.Success? ==>
                    && uploads.rows == old(uploads.rows) && uploads.lastId == old(uploads.lastId)
                    && deletes.rows == old(deletes.rows) && deletes.lastId == old(deletes.lastId)))
    {
      if uiState.selectedDiaryId.Some? {
        r := UpdateDiary(diary, repo, sessionOf, deleteOk, uploads, deletes);
      } else {
        r := InsertDiary(diary, repo, sessionOf, uploads);
      }
    }

    /**
     * `deleteDiary`: nothing without a selected id; otherwise deletes the
     * diary and, on Success, the selected diary's pictures.
     */
    method DeleteDiary(repo: MongoDB.MongoDB, deleteOk: StorageRequest -> bool, deletes: ImagesDatabase.ImageToDeleteDao)
      returns (r: Option<Callback>)
      requires repo.Valid() && deletes.Valid()
      modifies repo, deletes
      ensures repo.Valid() && deletes.Valid()
      ensures uiState.selectedDiaryId.None? ==>
        r.None? && repo.diaries == old(repo.diaries) && deletes.rows == old(deletes.rows) && deletes.lastId == old(deletes.lastId)
      ensures uiState.selectedDiaryId.Some? ==>
        var w := MongoDB.DeleteOutcome(repo.user, old(repo.diaries), uiState.selectedDiaryId.value);
        && repo.diaries == w.diaries && r == CallbackOf(w.result) && r.Some?
        && (w.result.Success? && uiState.selectedDiary.Some? ==>
              DeletesQueued(deletes, old(deletes.rows), old(deletes.lastId), uiState.selectedDiary.value.images, deleteOk))
        && (!w.result.Success? || uiState.selectedDiary.None? ==>
              deletes.rows == old(deletes.rows) && deletes.lastId == old(deletes.lastId))
    {
      if uiState.selectedDiaryId.None? {
        return None;
      }
      var result := repo.DeleteDiary(uiState.selectedDiaryId.value);
      if result.Success? && uiState.selectedDiary.Some? {
        DeleteImagesFromFirebase(Some(uiState.selectedDiary.value.images), deleteOk, deletes);
      }
      r := CallbackOf(result);
    }
  }
}
