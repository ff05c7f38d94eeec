/**
 * The home screen's view model: which diary subscription is live, the
 * state the list shows, the network status, and the bulk delete of all of
 * the user's diaries and pictures.
 *
 * A coroutine job is an entry of `jobs`; launching a subscription appends
 * an active job and, as the source does, cancels only the latest job of
 * the other mode. What a live job collects is `Publish`: each emission of
 * its query replaces the shown state.
 */
module HomeViewModel {
  import opened Wrappers
  import opened DiaryModel
  import opened Strings
  import MongoDB
  import ImagesDatabase

  /** The network states the view model distinguishes. */
  datatype Status = Available | Unavailable

  /** The query a job collects. */
  datatype Subscription = AllDiaries | FilteredDiaries(from: Instant, to: Instant)

  datatype Job = Job(subscription: Subscription, active: bool)

  /** The jobs after launching one for `s` that cancels the job at `cancel`, if any. */
  function Launched(jobs: seq<Job>, cancel: Option<nat>, s: Subscription): (r: seq<Job>)
    requires cancel.Some? ==> cancel.value < |jobs|
    ensures |r| == |jobs| + 1 && r[|jobs|] == Job(s, true)
    ensures forall i :: 0 <= i < |jobs| ==>
      r[i].subscription == jobs[i].subscription && r[i].active == (jobs[i].active && cancel != Some(i))
  {
    var kept := if cancel.Some? then jobs[cancel.value := jobs[cancel.value].(active := false)] else jobs;
    kept + [Job(s, true)]
  }

  /** The latest job of a mode is running. */
  predicate Live(jobs: seq<Job>, latest: Option<nat>)
  {
    latest.Some? && latest.value < |jobs| && jobs[latest.value].active
  }

  /**
   * Choosing a second date range cancels only the all-diaries job: the job
   * of the first range is not the one cancelled and keeps running.
   */
  lemma EarlierFilterStaysLive(jobs: seq<Job>, allJob: Option<nat>, earlier: nat, s: Subscription)
    requires allJob.Some? ==> allJob.value < |jobs|
    requires earlier < |jobs| && jobs[earlier].active && jobs[earlier].subscription.FilteredDiaries?
    requires allJob.Some? ==> jobs[allJob.value].subscription == AllDiaries
    ensures Launched(jobs, allJob, s)[earlier].active
  {
  }

  /** What one emission of a subscription's query shows. */
  function Emission(s: Subscription, repo: MongoDB.MongoDB): Diaries
    reads repo
  {
    match s
    case AllDiaries => repo.GetAllDiaries()
    case FilteredDiaries(from, to) => repo.GetFilteredDiaries(from, to)
  }

  /** `"images/${userId}/${name}"`, the storage path of a listed picture. */
  function ImagePath(uid: Option<string>, name: string): (r: string)
    ensures r == ImageDirectory(uid) + "/" + name
  {
    "images/" + Text(uid) + "/" + name
  }

  /** The storage paths of the listed pictures, in listing order. */
  function ImagePaths(uid: Option<string>, names: seq<string>): (r: seq<string>)
    ensures |r| == |names|
    ensures forall i :: 0 <= i < |names| ==> r[i] == ImagePath(uid, names[i])
  {
    seq(|names|, i requires 0 <= i < |names| => ImagePath(uid, names[i]))
  }

  /** Different listed names give different paths inside the user's directory. */
  lemma {:induction false} ImagePathInjective(uid: Option<string>, a: string, b: string)
    requires ImagePath(uid, a) == ImagePath(uid, b)
    ensures a == b
  {
    var prefix := ImageDirectory(uid) + "/";
    assert ImagePath(uid, a) == prefix + a && ImagePath(uid, b) == prefix + b;
    assert a == (prefix + a)[|prefix|..];
    assert b == (prefix + b)[|prefix|..];
  }

  class HomeViewModel {
    var network: Status
    /** The state the list shows. */
    var diaries: Diaries
    var dateIsSelected: bool
    /** Every job launched, in launch order. */
    var jobs: seq<Job>
    /** The latest all-diaries job; None while the `lateinit` field is unassigned. */
    var allDiariesJob: Option<nat>
    /** The latest filtered job; None while the `lateinit` field is unassigned. */
    var filteredDiariesJob: Option<nat>

    /** Both latest-job fields name jobs of their own mode. */
    ghost predicate Indexed()
      reads this
    {
      && (allDiariesJob.Some? ==> allDiariesJob.value < |jobs| && jobs[allDiariesJob.value].subscription == AllDiaries)
      && (filteredDiariesJob.Some? ==> filteredDiariesJob.value < |jobs| && jobs[filteredDiariesJob.value].subscription.FilteredDiaries?)
    }

    /** The mode `dateIsSelected` names is live and the other mode's latest job is not. */
    ghost predicate Valid()
      reads this
    {
      && Indexed()
      && (dateIsSelected ==> Live(jobs, filteredDiariesJob) && !Live(jobs, allDiariesJob))
      && (!dateIsSelected ==> Live(jobs, allDiariesJob) && !Live(jobs, filteredDiariesJob))
    }

    /** `init`: subscribes to all diaries; the network is unavailable until observed. */
    constructor ()
      ensures Valid()
      ensures diaries == Loading && !dateIsSelected && network == Unavailable
      ensures jobs == [Job(AllDiaries, true)] && allDiariesJob == Some(0) && filteredDiariesJob == None
    {
      network := Unavailable;
      diaries := Idle;
      dateIsSelected := false;
      jobs := [];
      allDiariesJob := None;
      filteredDiariesJob := None;
      new;
      GetDiaries(None, None);
    }

    /** A status emitted by the connectivity observer. */
    method SetNetwork(status: Status)
      modifies this
      ensures network == status
      ensures diaries == old(diaries) && dateIsSelected == old(dateIsSelected) && jobs == old(jobs)
      ensures allDiariesJob == old(allDiariesJob) && filteredDiariesJob == old(filteredDiariesJob)
    {
      network := status;
    }

    /** `getDiaries(fromDate, toDate)`: the filtered mode when both dates are given, else all diaries. */
    method GetDiaries(from: Option<Instant>, to: Option<Instant>)
      requires Indexed()
      modifies this
      ensures Valid()
      ensures dateIsSelected == (from.Some? && to.Some?)
      ensures diaries == Loading && network == old(network)
      ensures dateIsSelected ==>
        && jobs == Launched(old(jobs), old(allDiariesJob), FilteredDiaries(from.value, to.value))
        && filteredDiariesJob == Some(|old(jobs)|) && allDiariesJob == old(allDiariesJob)
      ensures !dateIsSelected ==>
        && jobs == Launched(old(jobs), old(filteredDiariesJob), AllDiaries)
        && allDiariesJob == Some(|old(jobs)|) && filteredDiariesJob == old(filteredDiariesJob)
    {
      dateIsSelected := from.Some? && to.Some?;
      diaries := Loading;
      if dateIsSelected {
        ObserveFilteredDiaries(from.value, to.value);
      } else {
        ObserveAllDiaries();
      }
    }

    method ObserveAllDiaries()
      requires Indexed()
      modifies this
      ensures Indexed()
      ensures jobs == Launched(old(jobs), old(filteredDiariesJob), AllDiaries)
      ensures allDiariesJob == Some(|old(jobs)|) && filteredDiariesJob == old(filteredDiariesJob)
      ensures Live(jobs, allDiariesJob) && !Live(jobs, filteredDiariesJob)
      ensures diaries == old(diaries) && dateIsSelected == old(dateIsSelected) && network == old(network)
    {
      jobs := Launched(jobs, filteredDiariesJob, AllDiaries);
      allDiariesJob := Some(|jobs| - 1);
    }

    method ObserveFilteredDiaries(from: Instant, to: Instant)
      requires Indexed()
      modifies this
      ensures Indexed()
      ensures jobs == Launched(old(jobs), old(allDiariesJob), FilteredDiaries(from, to))
      ensures filteredDiariesJob == Some(|old(jobs)|) && allDiariesJob == old(allDiariesJob)
      ensures Live(jobs, filteredDiariesJob) && !Live(jobs, allDiariesJob)
      ensures diaries == old(diaries) && dateIsSelected == old(dateIsSelected) && network == old(network)
    {
      jobs := Launched(jobs, allDiariesJob, FilteredDiaries(from, to));
      filteredDiariesJob := Some(|jobs| - 1);
    }

    /** Job `j` collects one emission of its query: shown only while the job runs. */
    method Publish(j: nat, repo: MongoDB.MongoDB)
      requires j < |jobs|
      modifies this
      ensures jobs == old(jobs) && dateIsSelected == old(dateIsSelected) && network == old(network)
      ensures diaries == if jobs[j].active then Emission(jobs[j].subscription, repo) else old(diaries)
      ensures allDiariesJob == old(allDiariesJob) && filteredDiariesJob == old(filteredDiariesJob)
    {
      if jobs[j].active {
        diaries := Emission(jobs[j].subscription, repo);
      }
    }

    /**
     * `deleteAllDiaries`: refuses offline; otherwise deletes every picture in
     * the user's storage directory (`listed` is what `listAll` reports, None
     * when it fails), queues each failed delete for a later retry, then deletes
     * the user's diaries and reports the outcome.
     */
    method DeleteAllDiaries(uid: Option<string>, listed: Option<seq<string>>, deleteOk: StorageRequest -> bool,
                            repo: MongoDB.MongoDB, dao: ImagesDatabase.ImageToDeleteDao)
      returns (cb: Option<Callback>)
      requires repo.Valid() && dao.Valid()
      modifies repo, dao
      ensures repo.Valid() && dao.Valid()
      ensures network != Available ==> cb == Some(OnError(NoInternetConnection))
      ensures network == Available && listed.None? ==> cb == Some(OnError(StorageFailure))
      ensures network != Available || listed.None? ==>
        repo.diaries == old(repo.diaries) && dao.rows == old(dao.rows) && dao.lastId == old(dao.lastId)
      ensures network == Available && listed.Some? ==>
        var failed := ImagesDatabase.FailedDeletes(ImagePaths(uid, listed.value), deleteOk);
        var w := MongoDB.DeleteAllOutcome(repo.user, old(repo.diaries));
        && dao.rows == ImagesDatabase.DeletesAdded(old(dao.rows), old(dao.lastId), failed)
        && dao.lastId == old(dao.lastId) + |failed|
        && repo.diaries == w.diaries && cb == CallbackOf(w.result)
      ensures cb.Some?
    {
      if network != Available {
        return Some(OnError(NoInternetConnection));
      }
      if listed.None? {
        return Some(OnError(StorageFailure));
      }
      ImagesDatabase.QueueFailedDeletes(ImagePaths(uid, listed.value), deleteOk, dao);
      var result := repo.DeleteAllDiaries();
      cb := CallbackOf(result);
    }
  }
}
