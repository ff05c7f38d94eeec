# Diary app: a Dafny model of its data and screen logic

The app is an Android diary. A signed-in user writes diary entries: a title,
a description, a mood and pictures. The entries are stored in a MongoDB Realm
database that syncs to the cloud. The pictures go to a Firebase object storage.
Uploads that are interrupted and deletes that fail are kept in a local Room
database and retried at the next start.

This project models that core in Dafny and proves properties of the model:

- `mood.dfy`, `app_mood.dfy`: the two copies of the `Mood` enum (the shared
  util module's and the app's). They have the same sixteen constants, names,
  ordinals and content colours, and `valueOf` inverts `name`.
- `screen.dfy`: the navigation routes and the write screen's `diaryId` argument.
- `diary_model.dfy`: the diary record, the `RequestState` envelope, failures,
  gallery images and the gallery state, storage requests, and the
  success/error callbacks.
- `mongodb.dfy`: the repository (`object MongoDB`). It has a record store
  with distinct primary keys. The queries are functions of that store:
  filter by owner, a stable sort by date, and `groupBy` local day. Each write
  is a method tied to a pure outcome function.
- `images_database.dfy`: the two Room tables as classes with auto-increment
  keys. It also defines the rows that a pass of failed deletes or interrupted
  uploads leaves behind.
- `main_activity.dfy`: the start destination, and the `cleanupCheck` pass
  that retries every pending row and removes the rows whose retry succeeded.
- `home_view_model.dfy`: the home screen's view model. It covers which
  subscription job is live, what each emission shows, and the bulk delete of
  all diaries and pictures.
- `write_view_model.dfy`: the write screen's view model. It covers the editor
  state, loading a diary, insert/update/delete, and picture paths. The path
  round trip is proved for file names of URL-unreserved characters: the
  path recorded for a new picture is the one extracted from its download
  URL.
- `write_screen.dfy`: the picture viewer's selection (next, previous, delete,
  close) and the mood pager's page.

The outside world is a parameter of the model:

- The signed-in Firebase user is `uid: Option<string>`. A string template
  writes "null" for a missing user.
- The Realm user is a constant of the repository object. It is read once,
  when the object is created.
- Whether a storage request succeeds is an oracle `StorageRequest -> bool`.
- Whether an upload reports an upload session is an oracle
  `GalleryImage -> Option<string>`.
- What `listAll` returns is an argument.
- The local calendar day of a moment is an abstract function `dayOf`.

Some Kotlin behaviour is modelled as an explicit outcome:

- A thrown exception that the source catches becomes an `Error` value, for
  example `first()` on an empty result. An exception that nothing catches
  ends the app. It becomes a run that stops where the exception is thrown,
  with `completed == false` or a `None` result: `Mood.valueOf` of an unknown
  name, the `!!` on a null selected diary, and `chunks[2]` of a URL with too
  few pieces.
- `RequestState` results become the callback they end in (`CallbackOf`).

The home view model calls the repository copy in the `data/mongo` module.
That copy is not part of this model's sources. The app's `MongoDB`, which the
write view model uses, stands in for it. The DAO interfaces and
`GalleryState` are not part of the sources either. They are modelled from
their uses: a Room table with an auto-increment key, and an image list.
`MainActivity` takes its routes from `com.example.util.Screen`, which is not
part of the sources either; the app's navigation `Screen` stands in for it.

## Model

| member | source | states |
|---|---|---|
| Mood.Ordinal | core/util/src/main/java/com/example/util/model/Mood.kt:22-107 | a constant's ordinal is its position in the declaration (`values()[ordinal] == m`) |
| Mood.Declaration | core/util/src/main/java/com/example/util/model/Mood.kt:27-106 | sixteen distinct constants, Neutral first |
| Mood.OrdinalOfValue | core/util/src/main/java/com/example/util/model/Mood.kt:27-106 | `values()[i].ordinal == i` for every position |
| Mood.Lookup | core/util/src/main/java/com/example/util/model/Mood.kt:22-107 | the first constant of a list with the given name, or none that has it |
| Mood.ValueOf | core/util/src/main/java/com/example/util/model/Mood.kt:22-107 | `valueOf` returns the constant with that exact name, and fails exactly when no constant has it |
| Mood.NameInjective | core/util/src/main/java/com/example/util/model/Mood.kt:27-106 | different constants have different names |
| Mood.ValueOfName | core/util/src/main/java/com/example/util/model/Mood.kt:22-107 | `valueOf(m.name) == m` for every mood |
| Mood.WhiteContent | core/util/src/main/java/com/example/util/model/Mood.kt:32-86 | white content colour for exactly Angry, Disappointed, Lonely, Romantic and Shameful; black otherwise |
| AppMood.Ordinal | app/src/main/java/com/example/diary/model/Mood.kt:22-107 | the app copy's ordinal is its declaration position |
| AppMood.Lookup | app/src/main/java/com/example/diary/model/Mood.kt:22-107 | first constant with the given name, or none has it |
| AppMood.ValueOf | app/src/main/java/com/example/diary/model/Mood.kt:22-107 | `valueOf` of the app copy: the constant with that name, failing exactly for unknown names |
| AppMood.Declaration | app/src/main/java/com/example/diary/model/Mood.kt:27-106 | sixteen distinct constants, Neutral (the write screen's default) first |
| AppMood.OrdinalOfValue | app/src/main/java/com/example/diary/model/Mood.kt:27-106 | `values()[i].ordinal == i` |
| AppMood.SameLayout | app/src/main/java/com/example/diary/model/Mood.kt:27-106 | both enum copies declare the same names and content colours at every position |
| AppMood.ToUtilKeeps | app/src/main/java/com/example/diary/model/Mood.kt:22-107 | the positional correspondence with the util copy keeps name, ordinal and content colour |
| AppMood.NameInjective | app/src/main/java/com/example/diary/model/Mood.kt:27-106 | different constants have different names |
| AppMood.ValueOfName | app/src/main/java/com/example/diary/model/Mood.kt:22-107 | `valueOf(m.name) == m` |
| AppMood.WhiteContent | app/src/main/java/com/example/diary/model/Mood.kt:32-86 | white content colour for exactly the five moods the declaration gives `Color.White` |
| Screen.DiaryIdArgument | app/src/main/java/com/example/diary/navigation/Screen.kt:8-9 | a route carries an argument exactly when it starts with the write prefix, and the prefix and argument make up the route |
| Screen.PassDiaryIdRoundTrip | app/src/main/java/com/example/diary/navigation/Screen.kt:9 | the id passed in a write route (`PassDiaryId`: the `write_screen?diaryId=` prefix followed by the id) reads back unchanged |
| Screen.PassDiaryIdInjective | app/src/main/java/com/example/diary/navigation/Screen.kt:9 | different diary ids give different write routes (`PassDiaryId`) |
| Screen.WriteRouteIsTemplate | app/src/main/java/com/example/diary/navigation/Screen.kt:8-9 | the write route is `passDiaryId` of the `{diaryId}` placeholder, with the key from app/src/main/java/com/example/diary/util/Constants.kt |
| Screen.RoutesDistinct | app/src/main/java/com/example/diary/navigation/Screen.kt:5-11 | the three routes are pairwise distinct, and no concrete write route equals Home or Authentication |
| DiaryModel.CallbackOf | feature/home/src/main/java/com/example/home/HomeViewModel.kt:109-117 | Success ends in `onSuccess` and Error in `onError` with its error; other states in neither |
| DiaryModel.GalleryState.AddImage | app/src/main/java/com/example/diary/presentation/screens/write/WriteViewModel.kt:192-197 | appends the image to the gallery, and nothing else changes |
| MongoDB.Select | app/src/main/java/com/example/diary/data/repository/MongoDB.kt:48 | a query filter keeps every record that matches, with its multiplicity, and no other records |
| MongoDB.SelectKeepsIds | app/src/main/java/com/example/diary/data/repository/MongoDB.kt:48 | filtering keeps primary keys distinct |
| MongoDB.InsertByDate | app/src/main/java/com/example/diary/data/repository/MongoDB.kt:49 | inserting into a date-sorted list keeps it sorted and adds exactly that record |
| MongoDB.SortByDate | app/src/main/java/com/example/diary/data/repository/MongoDB.kt:49 | `.sort("date", order)` is a permutation whose dates follow the order |
| MongoDB.AddToGroups | app/src/main/java/com/example/diary/data/repository/MongoDB.kt:53-57 | one `groupBy` step: the record joins the group of its day, or opens a new last group when no group has that day |
| MongoDB.AddToGroupsMembers | app/src/main/java/com/example/diary/data/repository/MongoDB.kt:53-57 | one grouping step adds exactly that record to the groups' members |
| MongoDB.GroupBy | app/src/main/java/com/example/diary/data/repository/MongoDB.kt:53-57 | `groupBy` local day: non-empty groups, one per day, each holding only its day's records; the members are exactly the input |
| MongoDB.AddToGroupsWellGrouped | app/src/main/java/com/example/diary/data/repository/MongoDB.kt:53-57 | a grouping step keeps the groups well formed |
| MongoDB.GroupsKeepOrder | app/src/main/java/com/example/diary/data/repository/MongoDB.kt:49-57 | grouping a date-sorted list gives date-sorted groups |
| MongoDB.GroupDaysFollowOrder | app/src/main/java/com/example/diary/data/repository/MongoDB.kt:53-57 | when the records' days are sorted, the groups' days are sorted the same way |
| MongoDB.SortedGroupsInDayOrder | app/src/main/java/com/example/diary/data/repository/MongoDB.kt:49-57 | sorting by date and then grouping by a monotone local day gives groups whose days are in the sort order |
| MongoDB.WindowBounds | app/src/main/java/com/example/diary/data/repository/MongoDB.kt:74-75 | each filter bound is the date moved by one day and truncated to a whole second |
| MongoDB.WindowCoversRange | app/src/main/java/com/example/diary/data/repository/MongoDB.kt:72-75 | every record dated between the two chosen dates, both included, passes the filter |
| MongoDB.FindIndex | app/src/main/java/com/example/diary/data/repository/MongoDB.kt:127 | `first().find()`: position of the first matching record, or none matches |
| MongoDB.NoUserNoWrite | app/src/main/java/com/example/diary/data/repository/MongoDB.kt:109-179 | with no user, every write fails as unauthenticated and changes nothing |
| MongoDB.InsertSetsOwner | app/src/main/java/com/example/diary/data/repository/MongoDB.kt:111-118 | insert appends the diary under the caller's owner id; an id already stored fails and changes nothing |
| MongoDB.UpdateOverwritesFields | app/src/main/java/com/example/diary/data/repository/MongoDB.kt:126-137 | update finds the record by id only and overwrites title, description, mood, images and date, keeping id and owner; an absent id fails |
| MongoDB.RemoveAt | app/src/main/java/com/example/diary/data/repository/MongoDB.kt:151 | removing one record from records with distinct keys removes exactly that key |
| MongoDB.DeleteRemovesOwned | app/src/main/java/com/example/diary/data/repository/MongoDB.kt:146-158 | delete removes the record with that id only when the caller owns it; otherwise it fails and changes nothing |
| MongoDB.DeleteAllKeepsOthers | app/src/main/java/com/example/diary/data/repository/MongoDB.kt:167-171 | delete-all removes exactly the caller's records and keeps every other record with its multiplicity |
| MongoDB.MongoDB.GetAllDiaries | app/src/main/java/com/example/diary/data/repository/MongoDB.kt:45-66 | unauthenticated without a user; otherwise the owner's records grouped by day, newest first, with groups in descending day order under a monotone day |
| MongoDB.MongoDB.GetFilteredDiaries | app/src/main/java/com/example/diary/data/repository/MongoDB.kt:68-93 | the owner's records strictly inside the padded window, grouped by day, oldest first |
| MongoDB.MongoDB.GetSelectedDiary | app/src/main/java/com/example/diary/data/repository/MongoDB.kt:95-107 | Success exactly when some record has that id, with a stored record of that id; otherwise `first()` fails |
| MongoDB.MongoDB.InsertDiary | app/src/main/java/com/example/diary/data/repository/MongoDB.kt:109-122 | result and new store are those of the insert outcome; keys stay distinct; an inserted diary can be read back by id |
| MongoDB.MongoDB.UpdateDiary | app/src/main/java/com/example/diary/data/repository/MongoDB.kt:124-142 | result and new store are those of the update outcome; keys stay distinct |
| MongoDB.MongoDB.DeleteDiary | app/src/main/java/com/example/diary/data/repository/MongoDB.kt:144-163 | result and new store are those of the delete outcome; keys stay distinct |
| MongoDB.MongoDB.DeleteAllDiaries | app/src/main/java/com/example/diary/data/repository/MongoDB.kt:165-179 | result and new store are those of the delete-all outcome; keys stay distinct |
| ImagesDatabase.ListKeys | app/src/main/java/com/example/diary/MainActivity.kt:71 | the table scan behind `getAllImages`, shared by both tables: every key of the table, each exactly once |
| ImagesDatabase.UploadsAdded | app/src/main/java/com/example/diary/data/database/entity/ImageToUpload.kt:7-14 | appending rows keeps the old rows and gives the new ones the next auto-increment keys, in order |
| ImagesDatabase.DeletesAdded | app/src/main/java/com/example/diary/data/database/entity/ImageToDelete.kt:7-12 | appending delete rows keeps the old rows and gives each path the next key, in order |
| ImagesDatabase.FailedDeletes | app/src/main/java/com/example/diary/presentation/screens/write/WriteViewModel.kt:232-240 | no more queued paths than paths tried |
| ImagesDatabase.FailedDeletesInOrder | app/src/main/java/com/example/diary/presentation/screens/write/WriteViewModel.kt:232-240 | the queued paths are those at the positions whose delete failed, each once and in the order tried |
| ImagesDatabase.FailedDeletesExactly | app/src/main/java/com/example/diary/presentation/screens/write/WriteViewModel.kt:232-240 | a path is queued exactly when it was tried and its delete failed |
| ImagesDatabase.ImagesToUploadDao.AddImageToUpload | app/src/main/java/com/example/diary/presentation/screens/write/WriteViewModel.kt:210-216 | stores the row under the next auto-increment id, which is returned |
| ImagesDatabase.ImagesToUploadDao.GetAllImages | app/src/main/java/com/example/diary/MainActivity.kt:71 | returns every stored row once, each under its own key |
| ImagesDatabase.ImagesToUploadDao.CleanupImage | app/src/main/java/com/example/diary/MainActivity.kt:77 | removes exactly the row with that id |
| ImagesDatabase.ImageToDeleteDao.AddImageToDelete | app/src/main/java/com/example/diary/presentation/screens/write/WriteViewModel.kt:236-238 | stores the row under the next auto-increment id, which is returned |
| ImagesDatabase.ImageToDeleteDao.GetAllImages | app/src/main/java/com/example/diary/MainActivity.kt:82 | returns every stored row once, each under its own key |
| ImagesDatabase.ImageToDeleteDao.CleanupImage | app/src/main/java/com/example/diary/MainActivity.kt:88 | removes exactly the row with that id |
| ImagesDatabase.QueueFailedDeletes | app/src/main/java/com/example/diary/presentation/screens/write/WriteViewModel.kt:232-240 | after a delete pass, the table holds the old rows plus one row per failed path, in order |
| ImagesDatabase.PendingUploads | app/src/main/java/com/example/diary/presentation/screens/write/WriteViewModel.kt:202-219 | no more upload rows than images |
| ImagesDatabase.PendingUploadsInOrder | app/src/main/java/com/example/diary/presentation/screens/write/WriteViewModel.kt:202-219 | the upload rows belong to the images at the positions whose upload reports a session, one each and in gallery order |
| ImagesDatabase.PendingUploadsExactly | app/src/main/java/com/example/diary/presentation/screens/write/WriteViewModel.kt:205-218 | an upload row is recorded exactly for an image whose upload reports a session, with its path, URI and that session |
| ImagesDatabase.QueuePendingUploads | app/src/main/java/com/example/diary/presentation/screens/write/WriteViewModel.kt:200-221 | after an upload pass, the table holds the old rows plus the pending uploads, in order |
| MainActivity.StartDestination | app/src/main/java/com/example/diary/MainActivity.kt:96-99 | Home exactly for a present, logged-in user; Authentication otherwise |
| MainActivity.AllSucceedDrains | app/src/main/java/com/example/diary/MainActivity.kt:70-93 | when every retry succeeds the table is empty afterwards |
| MainActivity.AllFailUnchanged | app/src/main/java/com/example/diary/MainActivity.kt:70-93 | when every retry fails the table is unchanged, and the next pass retries the same rows |
| MainActivity.OnlySucceededRemoved | app/src/main/java/com/example/diary/MainActivity.kt:70-93 | the rows a pass leaves (`Surviving`): a row goes exactly when its own retry succeeded, and kept rows are unchanged |
| MainActivity.RetryUploads | app/src/main/java/com/example/diary/MainActivity.kt:71-81 | every pending upload is retried once, resuming the stored upload (`RetryUploadRequest`: the stored path, file and session); the table becomes the surviving rows (`Surviving`) |
| MainActivity.RetryDeletes | app/src/main/java/com/example/diary/MainActivity.kt:82-92 | every pending delete is retried once as a delete of the stored path (`RetryDeleteRequest`); the table becomes the surviving rows (`Surviving`) |
| MainActivity.CleanupCheck | app/src/main/java/com/example/diary/MainActivity.kt:65-94 | both tables are retried in full, and each keeps exactly its failed rows |
| HomeViewModel.Launched | feature/home/src/main/java/com/example/home/HomeViewModel.kt:60-80 | launching a job appends a running job and cancels only the other mode's latest job; every other job keeps its state |
| HomeViewModel.EarlierFilterStaysLive | feature/home/src/main/java/com/example/home/HomeViewModel.kt:71-75 | a second date filter does not cancel the first filter's job |
| HomeViewModel.ImagePathInjective | feature/home/src/main/java/com/example/home/HomeViewModel.kt:95 | different listed names give different paths (`ImagePath`: `images/${uid}/${name}`) |
| HomeViewModel.HomeViewModel.constructor | feature/home/src/main/java/com/example/home/HomeViewModel.kt:36-50 | starts loading all diaries with one running job; the network is unavailable |
| HomeViewModel.HomeViewModel.SetNetwork | feature/home/src/main/java/com/example/home/HomeViewModel.kt:46-48 | records the observed status and changes nothing else |
| HomeViewModel.HomeViewModel.GetDiaries | feature/home/src/main/java/com/example/home/HomeViewModel.kt:51-59 | filtered mode exactly when both dates are given; the state becomes Loading; the chosen mode's job is live and the other mode's latest is cancelled |
| HomeViewModel.HomeViewModel.ObserveAllDiaries | feature/home/src/main/java/com/example/home/HomeViewModel.kt:60-69 | launches a running all-diaries job and cancels the latest filtered job |
| HomeViewModel.HomeViewModel.ObserveFilteredDiaries | feature/home/src/main/java/com/example/home/HomeViewModel.kt:71-80 | launches a running filtered job and cancels the latest all-diaries job |
| HomeViewModel.HomeViewModel.Publish | feature/home/src/main/java/com/example/home/HomeViewModel.kt:65-67 | an emission replaces the shown diaries only while its job is running |
| HomeViewModel.HomeViewModel.DeleteAllDiaries | feature/home/src/main/java/com/example/home/HomeViewModel.kt:82-125 | offline: error and no change; listing failure: error and no change; otherwise each listed picture is deleted at its path (`ImagePaths`, one per listed name, in listing order) and every failed delete is queued, the user's diaries go, and exactly one callback reports the outcome |
| WriteViewModel.DefaultsAreEmpty | app/src/main/java/com/example/diary/presentation/screens/write/WriteViewModel.kt:258-265 | the default editor state: nothing selected, empty texts, Neutral, no chosen date |
| WriteViewModel.InsertTarget | app/src/main/java/com/example/diary/presentation/screens/write/WriteViewModel.kt:113-117 | the inserted diary differs from the given one at most in its date, which is the chosen date when there is one |
| WriteViewModel.UpdateTarget | app/src/main/java/com/example/diary/presentation/screens/write/WriteViewModel.kt:148-155 | the updated diary gets the selected id and the chosen date, else the selected diary's date; it throws exactly when both are missing |
| WriteViewModel.ExtractFromDownloadUrl | app/src/main/java/com/example/diary/presentation/screens/write/WriteViewModel.kt:223-227 | from a download URL `…images%2F<owner>%2F<name>?<query>`, extraction recovers `<name>` in the current user's directory |
| WriteViewModel.ExtractNeedsTwoSeparators | app/src/main/java/com/example/diary/presentation/screens/write/WriteViewModel.kt:224-225 | a URL without "%2F" pieces makes `chunks[2]` throw |
| WriteViewModel.AddedPathIsExtracted | app/src/main/java/com/example/diary/presentation/screens/write/WriteViewModel.kt:189-190 | for a signed-in user and a file name of URL-unreserved characters, the path `addImage` records (`NewImagePath`) is the one extraction recovers from the picture's download URL |
| WriteViewModel.NewImagePathsDistinct | app/src/main/java/com/example/diary/presentation/screens/write/WriteViewModel.kt:189-190 | pictures added in different milliseconds get different paths (`NewImagePath`), whatever the segment and type |
| WriteViewModel.ExtractedInOwnDirectory | app/src/main/java/com/example/diary/presentation/screens/write/WriteViewModel.kt:223-227 | every extracted path is a file of the current user's image directory, whatever owner the URL names |
| WriteViewModel.Downloads | app/src/main/java/com/example/diary/presentation/screens/write/WriteViewModel.kt:74-85 | at most one gallery image per downloaded URL |
| WriteViewModel.DownloadsExactly | app/src/main/java/com/example/diary/presentation/screens/write/WriteViewModel.kt:74-85 | image i is URL i with its extracted path, and the first URL left out is one whose extraction throws |
| WriteViewModel.DownloadsComplete | app/src/main/java/com/example/diary/presentation/screens/write/WriteViewModel.kt:74-85 | every picture is added exactly when no extraction throws |
| WriteViewModel.WriteViewModel.constructor | app/src/main/java/com/example/diary/presentation/screens/write/WriteViewModel.kt:45-58 | an empty gallery and the default state holding the navigation argument's id |
| WriteViewModel.WriteViewModel.GetDiaryIdArgument | app/src/main/java/com/example/diary/presentation/screens/write/WriteViewModel.kt:54-58 | only the selected id changes |
| WriteViewModel.WriteViewModel.SetSelectedDiary | app/src/main/java/com/example/diary/presentation/screens/write/WriteViewModel.kt:93-95 | only the selected diary changes |
| WriteViewModel.WriteViewModel.SetTitle | app/src/main/java/com/example/diary/presentation/screens/write/WriteViewModel.kt:96-98 | only the title changes |
| WriteViewModel.WriteViewModel.SetDescription | app/src/main/java/com/example/diary/presentation/screens/write/WriteViewModel.kt:99-101 | only the description changes |
| WriteViewModel.WriteViewModel.SetMood | app/src/main/java/com/example/diary/presentation/screens/write/WriteViewModel.kt:102-104 | only the mood changes |
| WriteViewModel.WriteViewModel.UpdateDateTime | app/src/main/java/com/example/diary/presentation/screens/write/WriteViewModel.kt:105-107 | only the chosen date changes |
| WriteViewModel.WriteViewModel.OnSelectedDiary | app/src/main/java/com/example/diary/presentation/screens/write/WriteViewModel.kt:68-88 | nothing changes for a non-Success emission; an unknown mood name throws after title and description are set, and `completed == false` stands for that uncaught exception, which ends the app (as does an extraction that throws); otherwise the editor is filled and the downloads are appended |
| WriteViewModel.WriteViewModel.AddDownloads | app/src/main/java/com/example/diary/presentation/screens/write/WriteViewModel.kt:74-85 | appends the downloads in order, each with the current user's extraction (`Extractor`), and completes exactly when no extraction throws |
| WriteViewModel.WriteViewModel.AddImage | app/src/main/java/com/example/diary/presentation/screens/write/WriteViewModel.kt:188-198 | appends one picture with its new path, and nothing else changes |
| WriteViewModel.WriteViewModel.DeleteImagesFromFirebase | app/src/main/java/com/example/diary/presentation/screens/write/WriteViewModel.kt:229-254 | deletes the given paths, or else those of the removed pictures (`RemotePaths`, in order), and queues each failed delete |
| WriteViewModel.WriteViewModel.InsertDiary | app/src/main/java/com/example/diary/presentation/screens/write/WriteViewModel.kt:108-128 | stores the insert target; on Success queues the pending uploads; the callback matches the result |
| WriteViewModel.WriteViewModel.UpdateDiary | app/src/main/java/com/example/diary/presentation/screens/write/WriteViewModel.kt:143-167 | when the update target throws, `r.None?` stands for that uncaught exception, which ends the app; nothing is written and nothing answers before it; otherwise stores it, and on Success queues pending uploads and failed deletes of removed pictures |
| WriteViewModel.WriteViewModel.UpsertDiary | app/src/main/java/com/example/diary/presentation/screens/write/WriteViewModel.kt:129-142 | an update when a diary is selected, else an insert, each with its Room tables: an insert always answers one callback and queues the pending uploads exactly on Success; an update that throws changes nothing, and otherwise queues the pending uploads and failed deletes exactly on Success |
| WriteViewModel.WriteViewModel.DeleteDiary | app/src/main/java/com/example/diary/presentation/screens/write/WriteViewModel.kt:168-187 | nothing without a selected id; otherwise deletes it, answers one callback, and on Success deletes the selected diary's pictures |
| WriteScreen.IndexOf | feature/write/src/main/java/com/example/write/WriteScreen.kt:115 | `indexOf`: the first position holding the selection, -1 exactly when no position holds it |
| WriteScreen.NextSelection | feature/write/src/main/java/com/example/write/WriteScreen.kt:114-121 | moves to the following picture exactly when the index is before the last; any new selection is in the list |
| WriteScreen.PreviousSelection | feature/write/src/main/java/com/example/write/WriteScreen.kt:122-129 | moves to the preceding picture exactly when the index is positive; any new selection is in the list |
| WriteScreen.StaysInGallery | feature/write/src/main/java/com/example/write/WriteScreen.kt:114-129 | a selection from the list stays in the list under next and previous |
| WriteScreen.EndsAreFixed | feature/write/src/main/java/com/example/write/WriteScreen.kt:117-125 | next leaves the last picture and previous the first picture selected |
| WriteScreen.NextPreviousRoundTrip | feature/write/src/main/java/com/example/write/WriteScreen.kt:114-129 | with distinct pictures, previous undoes next and next undoes previous |
| WriteScreen.DistinctIndex | feature/write/src/main/java/com/example/write/WriteScreen.kt:115 | in a list of distinct pictures, picture k is found at k |
| WriteScreen.PagerPage | feature/write/src/main/java/com/example/write/WriteScreen.kt:81-83 | the pager page, `valueOf(mood.name).ordinal`, is the mood's own ordinal |
| WriteScreen.GalleryViewer.constructor | feature/write/src/main/java/com/example/write/WriteScreen.kt:77-79 | nothing is selected at first |
| WriteScreen.GalleryViewer.OnImageClicked | feature/write/src/main/java/com/example/write/WriteScreen.kt:106-110 | selects the tapped picture and shows the dialog |
| WriteScreen.GalleryViewer.OnNextClicked | feature/write/src/main/java/com/example/write/WriteScreen.kt:114-121 | the selection becomes `NextSelection` of the old one |
| WriteScreen.GalleryViewer.OnPreviousClicked | feature/write/src/main/java/com/example/write/WriteScreen.kt:122-129 | the selection becomes `PreviousSelection` of the old one |
| WriteScreen.GalleryViewer.OnDeleteClicked | feature/write/src/main/java/com/example/write/WriteScreen.kt:131-136 | hands over the selected picture once and clears the selection |
| WriteScreen.GalleryViewer.OnCloseClicked | feature/write/src/main/java/com/example/write/WriteScreen.kt:137 | clears the selection and hides the dialog |
| WriteScreen.GalleryViewer.OnDismissRequest | feature/write/src/main/java/com/example/write/WriteScreen.kt:111 | clears the selection and hides the dialog |
| Strings.IndexOf | app/src/main/java/com/example/diary/presentation/screens/write/WriteViewModel.kt:224-225 | the first occurrence of the delimiter, or none occurs |
| Strings.Split | app/src/main/java/com/example/diary/presentation/screens/write/WriteViewModel.kt:224-225 | Kotlin `split` of a literal delimiter: the pieces joined back give the string, and no piece holds the delimiter |
| Strings.SplitAfter | app/src/main/java/com/example/diary/presentation/screens/write/WriteViewModel.kt:224-225 | a string cut at its first delimiter splits into that first piece and the split of the rest |
| Strings.NatToString | app/src/main/java/com/example/diary/presentation/screens/write/WriteViewModel.kt:190 | the millisecond count renders as a non-empty run of decimal digits |
| Strings.NatToStringValue | app/src/main/java/com/example/diary/presentation/screens/write/WriteViewModel.kt:190 | the digits denote the number: reading them back (`DecimalValue`) gives the millisecond count |
| Strings.NatToStringInjective | app/src/main/java/com/example/diary/presentation/screens/write/WriteViewModel.kt:190 | different millisecond counts give different decimal forms |

## Left out

- I/O, coroutines and threads. Dispatcher switches, `debounce(2000)`, the
  timing of `cancelAndJoin`, and the order in which concurrent callbacks
  fire are not modelled. Each callback runs to completion, in sequence.
- Time zones and calendar arithmetic. The local day is an abstract function
  `dayOf`, and `plusDays`/`minusDays` are modelled as adding 86400 seconds,
  which ignores daylight-saving changes.
- `ObjectId.from` parsing of the hex text: ids are compared as strings, and
  malformed hex is not modelled.
- The text of error messages passed to `onError` (`toString` or `message`):
  the model keeps the failure cause, and its message where the source writes
  one out.
- The upload progress listener is modelled as reporting at most one session
  per image. Repeated progress events, which could queue more than one row
  per image, are not modelled.
- `fetchImagesFromFirebase` is not part of this model's sources. It is the
  download of a diary's pictures; the model takes the download URLs in the
  order they arrive.
- The `ZoomableImage` scale and offset clamping is floating-point arithmetic.
- Mood icons and container colours are resource handles.
- Compose layout and callback wiring of the screens.
- The connectivity observer's statuses other than Available are collapsed
  into Unavailable.
- `GalleryState.removeImage`: `GalleryState` is not part of this model's
  sources. Only adding images is used by the modelled code; the list of
  removed pictures is read as given.
- The `data/mongo` copy of the repository, which the home view model calls,
  is not part of this model's sources; the app's copy stands in for it.
- `configureTheRealm`, sync subscriptions and login are left out: the
  repository is a record store with a fixed user.
- `MongoDB.MongoDB.GetAllDiaries`: the groups' day order is proved only for a
  monotone `dayOf`, because the time-zone mapping is not modelled.
- `MongoDB.MongoDB.GetFilteredDiaries`: same monotone-day condition for the
  groups' day order.
- `WriteViewModel.WriteViewModel.OnSelectedDiary`: models a single emission
  of the selected-diary query. Re-emissions append the downloads again, as
  the source does, but are not stated as a separate property.
- `WriteViewModel.AddedPathIsExtracted`: holds only for file names of
  URL-unreserved characters. A download URL percent-encodes every other
  character of the object name, and that encoding is not modelled. For a
  name such as `image:33`, the source extracts the encoded name
  (`image%3A33`), so a later delete targets a different path from the one
  recorded.
