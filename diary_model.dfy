/**
 * Types shared by the repository and the view models: the diary record,
 * the request-state envelope every asynchronous read produces, a gallery
 * image, and requests to the object storage.
 */
module DiaryModel {
  import opened Wrappers
  import Strings

  /** A diary id: the hex text of a Realm ObjectId. */
  type ObjectId = string

  /** A moment, in nanoseconds since the epoch (a RealmInstant). */
  type Instant = int

  const NanosPerSecond: int := 1_000_000_000
  const SecondsPerDay: int := 86_400

  /** One diary entry; `mood` holds the name of a Mood constant. */
  datatype Diary = Diary(
    id: ObjectId,
    ownerId: string,
    title: string,
    description: string,
    mood: string,
    images: seq<string>,
    date: Instant)

  /** The causes an operation can fail with. */
  datatype Failure =
    | UserNotAuthenticated        // UserNotAuthenticatedException
    | QueriedDiaryDoesNotExist    // update of an absent id
    | DiaryDoesNotExist           // delete of an absent or foreign id
    | PrimaryKeyExists            // copyToRealm of an id the realm already holds
    | NoSuchElement               // `first()` of an empty query result
    | NoInternetConnection        // bulk delete attempted offline
    | StorageFailure              // the object storage reported a failure

  /** The message each failure carries, where the source spells it out. */
  function Message(f: Failure): Option<string>
  {
    match f
    case UserNotAuthenticated => Some("User is not logged in.")
    case QueriedDiaryDoesNotExist => Some("Queried Diary does not exist.")
    case DiaryDoesNotExist => Some("Diary does not exist.!")
    case NoInternetConnection => Some("No Internet Connection!")
    case _ => None
  }

  /** The envelope of an asynchronous result. */
  datatype RequestState<+T> = Idle | Loading | Success(data: T) | Error(error: Failure)

  /** The diaries of one local day, as `groupBy` produces them. */
  datatype DayGroup = DayGroup(day: int, diaries: seq<Diary>)

  /** What the diary queries emit: groups keyed by local day. */
  type Diaries = RequestState<seq<DayGroup>>

  /** A picture on the write screen: its local URI and its object-storage path. */
  datatype GalleryImage = GalleryImage(image: string, remoteImagePath: string)

  /** The write screen's pictures, and those the user removed and that are still to be deleted remotely. */
  class GalleryState {
    var images: seq<GalleryImage>
    var imagesToBeDeleted: seq<GalleryImage>

    constructor ()
      ensures images == [] && imagesToBeDeleted == []
    {
      images := [];
      imagesToBeDeleted := [];
    }

    method AddImage(image: GalleryImage)
      modifies this
      ensures images == old(images) + [image]
      ensures imagesToBeDeleted == old(imagesToBeDeleted)
    {
      images := images + [image];
    }
  }

  /** A call to the object storage. */
  datatype StorageRequest =
    | PutFile(path: string, file: string, session: Option<string>)  // upload, resumed when a session is given
    | Delete(path: string)

  /** Which of the two callbacks an operation ends in. */
  datatype Callback = OnSuccess | OnError(error: Failure)

  /** `if (result is Success) onSuccess() else if (result is Error) onError(...)`: neither for Idle or Loading. */
  function CallbackOf<T>(result: RequestState<T>): (r: Option<Callback>)
    ensures r == Some(OnSuccess) <==> result.Success?
    ensures result.Error? <==> r.Some? && r.value.OnError?
    ensures r.Some? && r.value.OnError? ==> r.value.error == result.error
  {
    match result
    case Success(_) => Some(OnSuccess)
    case Error(e) => Some(OnError(e))
    case _ => None
  }

  /** `"images/${userId}"`: a user's picture directory in the object storage. */
  function ImageDirectory(uid: Option<string>): string
  {
    "images/" + Strings.Text(uid)
  }
}
