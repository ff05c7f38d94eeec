/**
 * The diary repository over the synchronised Realm. The realm is a class
 * holding every diary record (in storage order, primary keys distinct);
 * queries are functions of that state, and each write operation is a
 * method tied to a pure function giving its result and the new state.
 *
 * The Realm user is captured once, when the repository object is created.
 * The conversion of a timestamp to a local calendar day is the abstract
 * function `dayOf`; Realm's sort is modelled as a stable insertion sort.
 */
module MongoDB {
  import opened Wrappers
  import opened DiaryModel

  // ---------------------------------------------------------------------
  // Filtering, sorting and grouping
  // ---------------------------------------------------------------------

  datatype Sort = Ascending | Descending

  predicate InOrder(a: Instant, b: Instant, order: Sort)
  {
    if order == Ascending then a <= b else a >= b
  }

  /** The dates of `s` follow `order`. */
  predicate SortedBy(s: seq<Diary>, order: Sort)
  {
    forall i, j :: 0 <= i < j < |s| ==> InOrder(s[i].date, s[j].date, order)
  }

  /** No two records share an `_id` (the primary key). */
  predicate DistinctIds(s: seq<Diary>)
  {
    forall i, j :: 0 <= i < j < |s| ==> s[i].id != s[j].id
  }

  /** The records of `s` that satisfy `keep`, in their order (a query predicate). */
  function Select(s: seq<Diary>, keep: Diary -> bool): (r: seq<Diary>)
    ensures forall x :: multiset(r)[x] == if keep(x) then multiset(s)[x] else 0
    ensures forall x :: x in r <==> x in s && keep(x)
  {
    if s == [] then []
    else
      var rest := Select(s[1..], keep);
      var head := if keep(s[0]) then [s[0]] else [];
      assert s == [s[0]] + s[1..];
      assert multiset(s) == multiset{s[0]} + multiset(s[1..]);
      assert multiset(head + rest) == multiset(head) + multiset(rest);
      head + rest
  }

  /** Filtering keeps primary keys distinct. */
  lemma {:induction false} SelectKeepsIds(s: seq<Diary>, keep: Diary -> bool)
    requires DistinctIds(s)
    ensures DistinctIds(Select(s, keep))
  {
    if s != [] {
      assert DistinctIds(s[1..]);
      SelectKeepsIds(s[1..], keep);
      if keep(s[0]) {
        HeadIdNotInTail(s);
        ConsDistinct(s[0], Select(s[1..], keep), s[1..]);
      }
    }
  }

  /** The first record's key is not the key of any later record. */
  lemma HeadIdNotInTail(s: seq<Diary>)
    requires DistinctIds(s) && |s| > 0
    ensures forall x :: x in s[1..] ==> x.id != s[0].id
  {
    forall x | x in s[1..] ensures x.id != s[0].id {
      var k :| 0 <= k < |s[1..]| && s[1..][k] == x;
      assert s[k + 1] == x;
    }
  }

  /** Putting a record in front of distinct records drawn from `pool` keeps keys distinct when `pool` lacks its key. */
  lemma ConsDistinct(x: Diary, rest: seq<Diary>, pool: seq<Diary>)
    requires DistinctIds(rest)
    requires forall y :: y in rest ==> y in pool
    requires forall y :: y in pool ==> y.id != x.id
    ensures DistinctIds([x] + rest)
  {
    var r := [x] + rest;
    forall i, j | 0 <= i < j < |r| ensures r[i].id != r[j].id {
      assert r[j] == rest[j - 1];
      if i > 0 {
        assert r[i] == rest[i - 1];
      } else {
        assert rest[j - 1] in rest;
      }
    }
  }

  /** Inserts `d` before the first record it may precede, keeping the sort stable. */
  function InsertByDate(d: Diary, s: seq<Diary>, order: Sort): (r: seq<Diary>)
    requires SortedBy(s, order)
    ensures SortedBy(r, order)
    ensures multiset(r) == multiset(s) + multiset{d}
  {
    if s == [] then [d]
    else
      assert s == [s[0]] + s[1..];
      if InOrder(d.date, s[0].date, order) then
        [d] + s
      else
        var rest := InsertByDate(d, s[1..], order);
        HeadBoundsRest(s, d, rest, order);
        PrependSorted(s[0], rest, order);
        [s[0]] + rest
  }

  /** The head of a sorted sequence precedes the rest of it and anything that may follow it. */
  lemma HeadBoundsRest(s: seq<Diary>, d: Diary, rest: seq<Diary>, order: Sort)
    requires |s| > 0 && SortedBy(s, order) && !InOrder(d.date, s[0].date, order)
    requires multiset(rest) == multiset(s[1..]) + multiset{d}
    ensures forall j :: 0 <= j < |rest| ==> InOrder(s[0].date, rest[j].date, order)
  {
    forall j | 0 <= j < |rest| ensures InOrder(s[0].date, rest[j].date, order) {
      assert rest[j] in multiset(rest);
      if rest[j] != d {
        assert rest[j] in multiset(s[1..]);
        var k :| 0 <= k < |s[1..]| && s[1..][k] == rest[j];
        assert s[k + 1] == rest[j];
      }
    }
  }

  /** A record that precedes every record of a sorted sequence may be put in front of it. */
  lemma PrependSorted(x: Diary, rest: seq<Diary>, order: Sort)
    requires SortedBy(rest, order)
    requires forall j :: 0 <= j < |rest| ==> InOrder(x.date, rest[j].date, order)
    ensures SortedBy([x] + rest, order)
  {
    var r := [x] + rest;
    forall i, j | 0 <= i < j < |r| ensures InOrder(r[i].date, r[j].date, order) {
      if i > 0 {
        assert r[i] == rest[i - 1] && r[j] == rest[j - 1];
      } else {
        assert r[j] == rest[j - 1];
      }
    }
  }

  /** `.sort("date", order)`: a permutation of `s` whose dates follow `order`. */
  function SortByDate(s: seq<Diary>, order: Sort): (r: seq<Diary>)
    ensures SortedBy(r, order)
    ensures multiset(r) == multiset(s)
  {
    if s == [] then []
    else
      assert s == [s[0]] + s[1..];
      InsertByDate(s[0], SortByDate(s[1..], order), order)
  }

  /** Every record held by the groups, with multiplicity. */
  function Members(gs: seq<DayGroup>): multiset<Diary>
  {
    if gs == [] then multiset{} else multiset(gs[0].diaries) + Members(gs[1..])
  }

  /** Every group is non-empty, holds only records of its own day, and no day has two groups. */
  predicate WellGrouped(gs: seq<DayGroup>, dayOf: Instant -> int)
  {
    && (forall i :: 0 <= i < |gs| ==> |gs[i].diaries| > 0)
    && (forall i, x :: 0 <= i < |gs| && x in gs[i].diaries ==> dayOf(x.date) == gs[i].day)
    && (forall i, j :: 0 <= i < j < |gs| ==> gs[i].day != gs[j].day)
  }

  /** One step of `groupBy`: `d` joins the group of `day`, or opens a new last group. */
  function AddToGroups(gs: seq<DayGroup>, day: int, d: Diary): (r: seq<DayGroup>)
    requires forall i, j :: 0 <= i < j < |gs| ==> gs[i].day != gs[j].day
    ensures |r| == |gs| || (|r| == |gs| + 1 && r[|gs|] == DayGroup(day, [d]) && forall i :: 0 <= i < |gs| ==> gs[i].day != day)
    ensures |r| == |gs| ==> exists i :: 0 <= i < |gs| && gs[i].day == day
    ensures forall i :: 0 <= i < |gs| ==> r[i] == Joined(gs[i], day, d)
  {
    if gs == [] then [DayGroup(day, [d])]
    else
      var rest := if gs[0].day == day then gs[1..] else AddToGroups(gs[1..], day, d);
      var r := [Joined(gs[0], day, d)] + rest;
      forall i | 1 <= i < |gs| ensures r[i] == Joined(gs[i], day, d) {
        assert r[i] == rest[i - 1] && gs[i] == gs[1..][i - 1];
      }
      r
  }

  /** The group `g` after `d`, of day `day`, has been offered to it. */
  function Joined(g: DayGroup, day: int, d: Diary): DayGroup
  {
    if g.day == day then g.(diaries := g.diaries + [d]) else g
  }

  /** Adding one record to the groups adds it to the members. */
  lemma {:induction false} AddToGroupsMembers(gs: seq<DayGroup>, day: int, d: Diary)
    requires forall i, j :: 0 <= i < j < |gs| ==> gs[i].day != gs[j].day
    ensures Members(AddToGroups(gs, day, d)) == Members(gs) + multiset{d}
  {
    if gs != [] {
      var r := AddToGroups(gs, day, d);
      assert r[1..] == if gs[0].day == day then gs[1..] else AddToGroups(gs[1..], day, d);
      if gs[0].day != day {
        AddToGroupsMembers(gs[1..], day, d);
      }
    }
  }

  /** Kotlin's `groupBy`: groups in the order their day first occurs, records in their order. */
  function GroupBy(s: seq<Diary>, dayOf: Instant -> int): (r: seq<DayGroup>)
    ensures WellGrouped(r, dayOf)
    ensures Members(r) == multiset(s)
    decreases |s|
  {
    if s == [] then []
    else
      var n := |s|;
      var last := s[n - 1];
      assert s == s[..n - 1] + [last];
      var gs := GroupBy(s[..n - 1], dayOf);
      AddToGroupsMembers(gs, dayOf(last.date), last);
      AddToGroupsWellGrouped(gs, dayOf, last);
      AddToGroups(gs, dayOf(last.date), last)
  }

  /** Adding a record under its own day keeps the groups well formed. */
  lemma AddToGroupsWellGrouped(gs: seq<DayGroup>, dayOf: Instant -> int, d: Diary)
    requires WellGrouped(gs, dayOf)
    ensures WellGrouped(AddToGroups(gs, dayOf(d.date), d), dayOf)
  {
    var day := dayOf(d.date);
    var r := AddToGroups(gs, day, d);
    forall i | 0 <= i < |r| ensures |r[i].diaries| > 0 {
      if i < |gs| {
        assert r[i] == Joined(gs[i], day, d);
      }
    }
    forall i, x | 0 <= i < |r| && x in r[i].diaries ensures dayOf(x.date) == r[i].day {
      if i < |gs| {
        assert r[i] == Joined(gs[i], day, d);
        if gs[i].day == day && x !in gs[i].diaries {
          assert x == d;
        }
      }
    }
    forall i, j | 0 <= i < j < |r| ensures r[i].day != r[j].day {
      assert r[i] == Joined(gs[i], day, d);
      if j < |gs| {
        assert r[j] == Joined(gs[j], day, d);
      }
    }
  }

  /** A record held by group `i` is one of the members. */
  lemma {:induction false} InGroupIsMember(gs: seq<DayGroup>, i: nat, x: Diary)
    requires i < |gs| && x in gs[i].diaries
    ensures x in Members(gs)
  {
    if i > 0 {
      InGroupIsMember(gs[1..], i - 1, x);
    }
  }

  /** Appending a record no earlier (in `order`) than all others keeps a group sorted. */
  lemma AppendSorted(g: seq<Diary>, last: Diary, order: Sort)
    requires SortedBy(g, order)
    requires forall x :: x in g ==> InOrder(x.date, last.date, order)
    ensures SortedBy(g + [last], order)
  {
    forall a, b | 0 <= a < b < |g| + 1 ensures InOrder((g + [last])[a].date, (g + [last])[b].date, order) {
      if b == |g| {
        assert (g + [last])[a] in g;
      }
    }
  }

  /** In a sorted sequence every earlier record is in order with the last one. */
  lemma BeforeLast(s: seq<Diary>, order: Sort, x: Diary)
    requires SortedBy(s, order) && |s| > 0
    requires x in multiset(s[..|s| - 1])
    ensures InOrder(x.date, s[|s| - 1].date, order)
  {
    var prefix := s[..|s| - 1];
    var j :| 0 <= j < |prefix| && prefix[j] == x;
    assert s[j] == x;
  }

  /** Grouping a sorted sequence leaves every group sorted the same way. */
  lemma {:induction false} GroupsKeepOrder(s: seq<Diary>, dayOf: Instant -> int, order: Sort)
    requires SortedBy(s, order)
    ensures forall i :: 0 <= i < |GroupBy(s, dayOf)| ==> SortedBy(GroupBy(s, dayOf)[i].diaries, order)
    decreases |s|
  {
    if s != [] {
      var n := |s|;
      var last := s[n - 1];
      var prefix := s[..n - 1];
      assert SortedBy(prefix, order);
      GroupsKeepOrder(prefix, dayOf, order);
      var gs := GroupBy(prefix, dayOf);
      var r := GroupBy(s, dayOf);
      assert r == AddToGroups(gs, dayOf(last.date), last);
      forall i | 0 <= i < |r| ensures SortedBy(r[i].diaries, order) {
        if i < |gs| {
          assert r[i] == Joined(gs[i], dayOf(last.date), last);
          if gs[i].day == dayOf(last.date) {
            forall x | x in gs[i].diaries ensures InOrder(x.date, last.date, order) {
              InGroupIsMember(gs, i, x);
              BeforeLast(s, order, x);
            }
            AppendSorted(gs[i].diaries, last, order);
          }
        }
      }
    }
  }

  /** A later moment never falls on an earlier local day. */
  ghost predicate Monotone(dayOf: Instant -> int)
  {
    forall a: Instant, b: Instant :: a <= b ==> dayOf(a) <= dayOf(b)
  }

  /** The days of the groups follow `order`. */
  predicate DaysInOrder(gs: seq<DayGroup>, order: Sort)
  {
    forall i, j :: 0 <= i < j < |gs| ==> InOrder(gs[i].day, gs[j].day, order)
  }

  /** The local days of the records of `s` follow `order`. */
  predicate DaysSorted(s: seq<Diary>, dayOf: Instant -> int, order: Sort)
  {
    forall i, j :: 0 <= i < j < |s| ==> InOrder(dayOf(s[i].date), dayOf(s[j].date), order)
  }

  /** Grouping records whose days are sorted puts the groups' days in the same order. */
  lemma {:induction false} GroupDaysFollowOrder(s: seq<Diary>, dayOf: Instant -> int, order: Sort)
    requires DaysSorted(s, dayOf, order)
    ensures DaysInOrder(GroupBy(s, dayOf), order)
    decreases |s|
  {
    if s != [] {
      var n := |s|;
      var last := s[n - 1];
      var prefix := s[..n - 1];
      assert DaysSorted(prefix, dayOf, order);
      GroupDaysFollowOrder(prefix, dayOf, order);
      forall k | 0 <= k < |prefix| ensures InOrder(dayOf(prefix[k].date), dayOf(last.date), order) {
        assert prefix[k] == s[k];
      }
      var gs := GroupBy(prefix, dayOf);
      forall i | 0 <= i < |gs| ensures InOrder(gs[i].day, dayOf(last.date), order) {
        GroupDayBefore(prefix, dayOf, order, last.date, i);
      }
      GroupStepKeepsDayOrder(gs, order, dayOf(last.date), last);
      assert GroupBy(s, dayOf) == AddToGroups(gs, dayOf(last.date), last);
    }
  }

  /** The step of `GroupDaysFollowOrder`: a record whose day no group's day follows. */
  lemma GroupStepKeepsDayOrder(gs: seq<DayGroup>, order: Sort, day: int, d: Diary)
    requires forall i, j :: 0 <= i < j < |gs| ==> gs[i].day != gs[j].day
    requires DaysInOrder(gs, order)
    requires forall i :: 0 <= i < |gs| ==> InOrder(gs[i].day, day, order)
    ensures DaysInOrder(AddToGroups(gs, day, d), order)
  {
    var r := AddToGroups(gs, day, d);
    forall i, j | 0 <= i < j < |r| ensures InOrder(r[i].day, r[j].day, order) {
      assert r[i] == Joined(gs[i], day, d);
      if j < |gs| {
        assert r[j] == Joined(gs[j], day, d);
      } else {
        assert r[j] == DayGroup(day, [d]);
      }
    }
  }

  /** When every record precedes moment `t` in day order, so does every group's day. */
  lemma GroupDayBefore(prefix: seq<Diary>, dayOf: Instant -> int, order: Sort, t: Instant, i: nat)
    requires forall k :: 0 <= k < |prefix| ==> InOrder(dayOf(prefix[k].date), dayOf(t), order)
    requires i < |GroupBy(prefix, dayOf)|
    ensures InOrder(GroupBy(prefix, dayOf)[i].day, dayOf(t), order)
  {
    var gs := GroupBy(prefix, dayOf);
    var x := gs[i].diaries[0];
    InGroupIsMember(gs, i, x);
    assert x in multiset(prefix);
    var k :| 0 <= k < |prefix| && prefix[k] == x;
  }

  /** The repository's pipeline: sorted by date, grouped by a monotone day, the days come out sorted. */
  lemma {:induction false} SortedGroupsInDayOrder(s: seq<Diary>, dayOf: Instant -> int, order: Sort)
    requires SortedBy(s, order)
    ensures Monotone(dayOf) ==> DaysInOrder(GroupBy(s, dayOf), order)
  {
    if Monotone(dayOf) {
      forall i, j | 0 <= i < j < |s| ensures InOrder(dayOf(s[i].date), dayOf(s[j].date), order) {
        assert InOrder(s[i].date, s[j].date, order);
      }
      GroupDaysFollowOrder(s, dayOf, order);
    }
  }

  // ---------------------------------------------------------------------
  // Query predicates
  // ---------------------------------------------------------------------

  /** `toInstant().epochSecond`: whole seconds, rounded down. */
  function EpochSecond(t: Instant): int
  {
    t / NanosPerSecond
  }

  /** `RealmInstant.from(fromDate.minusDays(1).epochSecond, 0)`: the strict lower bound of the filter. */
  function LowerBound(from: Instant): Instant
  {
    EpochSecond(from - SecondsPerDay * NanosPerSecond) * NanosPerSecond
  }

  /** `RealmInstant.from(toDate.plusDays(1).epochSecond, 0)`: the strict upper bound of the filter. */
  function UpperBound(to: Instant): Instant
  {
    EpochSecond(to + SecondsPerDay * NanosPerSecond) * NanosPerSecond
  }

  /** `date < $1 AND date > $2` of the filtered query. */
  predicate InWindow(d: Diary, from: Instant, to: Instant)
  {
    LowerBound(from) < d.date < UpperBound(to)
  }

  /** Each bound is the padded date truncated to a whole second. */
  lemma {:induction false} WindowBounds(from: Instant, to: Instant)
    ensures LowerBound(from) == (from / NanosPerSecond - SecondsPerDay) * NanosPerSecond
    ensures from - SecondsPerDay * NanosPerSecond - NanosPerSecond < LowerBound(from) <= from - SecondsPerDay * NanosPerSecond
    ensures to + SecondsPerDay * NanosPerSecond - NanosPerSecond < UpperBound(to) <= to + SecondsPerDay * NanosPerSecond
  {
    var n := NanosPerSecond;
    var day := SecondsPerDay * n;
    assert (from - day) / n == from / n - SecondsPerDay by {
      assert from - day == (from / n - SecondsPerDay) * n + from % n;
    }
    assert (from - day) / n * n <= from - day < (from - day) / n * n + n;
    assert (to + day) / n * n <= to + day < (to + day) / n * n + n;
  }

  /** The one-day pad keeps every record dated between the two chosen dates, both included. */
  lemma {:induction false} WindowCoversRange(d: Diary, from: Instant, to: Instant)
    requires from <= d.date <= to
    ensures InWindow(d, from, to)
  {
    WindowBounds(from, to);
  }

  // ---------------------------------------------------------------------
  // Write operations, as functions of the user and the stored records
  // ---------------------------------------------------------------------

  /** What a `realm.write` block returns, and the records it leaves. */
  datatype Written<T> = Written(result: RequestState<T>, diaries: seq<Diary>)

  /** Position of the first record satisfying `p` (`query(...).first().find()`). */
  function FindIndex(s: seq<Diary>, p: Diary -> bool): (r: Option<nat>)
    ensures r.Some? ==> r.value < |s| && p(s[r.value])
    ensures r.Some? ==> forall j :: 0 <= j < r.value ==> !p(s[j])
    ensures r.None? ==> forall j :: 0 <= j < |s| ==> !p(s[j])
  {
    if s == [] then None
    else if p(s[0]) then Some(0)
    else match FindIndex(s[1..], p)
      case None => None
      case Some(i) => Some(i + 1)
  }

  /** The fields `updateDiary` copies onto the stored record. */
  function Overwrite(stored: Diary, diary: Diary): Diary
  {
    stored.(title := diary.title, description := diary.description, mood := diary.mood,
            images := diary.images, date := diary.date)
  }

  /** `insertDiary`: stores the diary as the user's, unless its id is taken. */
  function InsertOutcome(user: Option<string>, diaries: seq<Diary>, diary: Diary): Written<Diary>
  {
    if user.None? then Written(Error(UserNotAuthenticated), diaries)
    else if FindIndex(diaries, (d: Diary) => d.id == diary.id).Some? then Written(Error(PrimaryKeyExists), diaries)
    else
      var stored := diary.(ownerId := user.value);
      Written(Success(stored), diaries + [stored])
  }

  /** `updateDiary`: looks the diary up by id alone and overwrites five fields. */
  function UpdateOutcome(user: Option<string>, diaries: seq<Diary>, diary: Diary): Written<Diary>
  {
    if user.None? then Written(Error(UserNotAuthenticated), diaries)
    else match FindIndex(diaries, (d: Diary) => d.id == diary.id)
      case None => Written(Error(QueriedDiaryDoesNotExist), diaries)
      case Some(i) =>
        var updated := Overwrite(diaries[i], diary);
        Written(Success(updated), diaries[i := updated])
  }

  /** `deleteDiary`: removes the diary with that id when the user owns it. */
  function DeleteOutcome(user: Option<string>, diaries: seq<Diary>, id: ObjectId): Written<Diary>
  {
    if user.None? then Written(Error(UserNotAuthenticated), diaries)
    else match FindIndex(diaries, (d: Diary) => d.id == id && d.ownerId == user.value)
      case None => Written(Error(DiaryDoesNotExist), diaries)
      case Some(i) => Written(Success(diaries[i]), diaries[..i] + diaries[i + 1..])
  }

  /** `deleteAllDiaries`: removes every diary the user owns. */
  function DeleteAllOutcome(user: Option<string>, diaries: seq<Diary>): Written<bool>
  {
    if user.None? then Written(Error(UserNotAuthenticated), diaries)
    else Written(Success(true), Select(diaries, (d: Diary) => d.ownerId != user.value))
  }

  /** Without a user every write fails as unauthenticated and changes nothing. */
  lemma NoUserNoWrite(diaries: seq<Diary>, diary: Diary, id: ObjectId)
    ensures InsertOutcome(None, diaries, diary) == Written(Error(UserNotAuthenticated), diaries)
    ensures UpdateOutcome(None, diaries, diary) == Written(Error(UserNotAuthenticated), diaries)
    ensures DeleteOutcome(None, diaries, id) == Written(Error(UserNotAuthenticated), diaries)
    ensures DeleteAllOutcome(None, diaries) == Written(Error(UserNotAuthenticated), diaries)
  {
  }

  /** Insert stores the diary with the caller as owner; a taken id fails and changes nothing. */
  lemma {:induction false} InsertSetsOwner(uid: string, diaries: seq<Diary>, diary: Diary)
    requires DistinctIds(diaries)
    ensures var w := InsertOutcome(Some(uid), diaries, diary);
      DistinctIds(w.diaries) &&
      if exists i :: 0 <= i < |diaries| && diaries[i].id == diary.id then
        w == Written(Error(PrimaryKeyExists), diaries)
      else
        w.result == Success(diary.(ownerId := uid)) && w.diaries == diaries + [diary.(ownerId := uid)]
  {
    var found := FindIndex(diaries, (d: Diary) => d.id == diary.id);
    if found.None? {
      var r := diaries + [diary.(ownerId := uid)];
      forall i, j | 0 <= i < j < |r| ensures r[i].id != r[j].id {
        if j == |diaries| {
          assert r[i] == diaries[i];
        }
      }
    }
  }

  /**
   * Update of a stored id overwrites exactly title, description, mood, images
   * and date of that record; its id and owner and every other record stay.
   * An absent id fails and changes nothing.
   */
  lemma {:induction false} UpdateOverwritesFields(uid: string, diaries: seq<Diary>, diary: Diary)
    requires DistinctIds(diaries)
    ensures var w := UpdateOutcome(Some(uid), diaries, diary);
      DistinctIds(w.diaries) && |w.diaries| == |diaries| &&
      if exists i :: 0 <= i < |diaries| && diaries[i].id == diary.id then
        exists i :: 0 <= i < |diaries| && diaries[i].id == diary.id
          && w.result == Success(w.diaries[i])
          && w.diaries[i].id == diary.id && w.diaries[i].ownerId == diaries[i].ownerId
          && w.diaries[i].title == diary.title && w.diaries[i].description == diary.description
          && w.diaries[i].mood == diary.mood && w.diaries[i].images == diary.images
          && w.diaries[i].date == diary.date
          && forall j :: 0 <= j < |diaries| && j != i ==> w.diaries[j] == diaries[j]
      else
        w == Written(Error(QueriedDiaryDoesNotExist), diaries)
  {
    var w := UpdateOutcome(Some(uid), diaries, diary);
    var found := FindIndex(diaries, (d: Diary) => d.id == diary.id);
    if found.Some? {
      var i := found.value;
      assert w.diaries == diaries[i := Overwrite(diaries[i], diary)];
      forall a, b | 0 <= a < b < |w.diaries| ensures w.diaries[a].id != w.diaries[b].id {
        assert w.diaries[a].id == diaries[a].id && w.diaries[b].id == diaries[b].id;
      }
    }
  }

  /** Removing position `i` from records with distinct keys removes exactly that key. */
  lemma RemoveAt(s: seq<Diary>, i: nat)
    requires DistinctIds(s) && i < |s|
    ensures DistinctIds(s[..i] + s[i + 1..])
    ensures multiset(s[..i] + s[i + 1..]) == multiset(s) - multiset{s[i]}
    ensures forall x :: x in s[..i] + s[i + 1..] <==> x in s && x.id != s[i].id
  {
    RemovedMultiset(s, i);
    RemovedDistinct(s, i, s[..i] + s[i + 1..]);
    RemovedMembers(s, i, s[..i] + s[i + 1..]);
  }

  /** Removing a position keeps the remaining ids distinct. */
  lemma RemovedDistinct(s: seq<Diary>, i: nat, r: seq<Diary>)
    requires DistinctIds(s) && i < |s| && r == s[..i] + s[i + 1..]
    ensures DistinctIds(r)
  {
    RemovedShift(s, i, r);
    forall p, q | 0 <= p < q < |r| ensures r[p].id != r[q].id {
      assert r[p] == s[if p < i then p else p + 1];
      assert r[q] == s[if q < i then q else q + 1];
    }
  }

  /** With distinct ids, what remains is exactly every record with another id. */
  lemma RemovedMembers(s: seq<Diary>, i: nat, r: seq<Diary>)
    requires DistinctIds(s) && i < |s| && r == s[..i] + s[i + 1..]
    ensures forall x :: x in r <==> x in s && x.id != s[i].id
  {
    RemovedShift(s, i, r);
    forall x | x in r ensures x in s && x.id != s[i].id {
      var k :| 0 <= k < |r| && r[k] == x;
      assert x == s[if k < i then k else k + 1];
    }
    forall x | x in s && x.id != s[i].id ensures x in r {
      var k :| 0 <= k < |s| && s[k] == x;
      assert r[if k < i then k else k - 1] == x;
    }
  }

  /** Removing position `i` removes one occurrence of `s[i]`. */
  lemma RemovedMultiset(s: seq<Diary>, i: nat)
    requires i < |s|
    ensures multiset(s[..i] + s[i + 1..]) == multiset(s) - multiset{s[i]}
  {
    assert s == s[..i] + [s[i]] + s[i + 1..];
  }

  /** After removing position `i`, the records from `i` on move one place forward. */
  lemma RemovedShift(s: seq<Diary>, i: nat, r: seq<Diary>)
    requires i < |s| && r == s[..i] + s[i + 1..]
    ensures |r| == |s| - 1
    ensures forall k :: 0 <= k < i ==> r[k] == s[k]
    ensures forall k :: i <= k < |r| ==> r[k] == s[k + 1]
  {
  }


  /**
   * Delete removes exactly the matching record the user owns and returns it;
   * an id that is absent or owned by someone else fails and removes nothing.
   */
  lemma {:induction false} DeleteRemovesOwned(uid: string, diaries: seq<Diary>, id: ObjectId)
    requires DistinctIds(diaries)
    ensures var w := DeleteOutcome(Some(uid), diaries, id);
      DistinctIds(w.diaries) &&
      if exists i :: 0 <= i < |diaries| && diaries[i].id == id && diaries[i].ownerId == uid then
        && w.result.Success? && w.result.data.id == id && w.result.data.ownerId == uid
        && w.result.data in diaries
        && multiset(w.diaries) == multiset(diaries) - multiset{w.result.data}
        && forall x :: x in w.diaries <==> x in diaries && x.id != id
      else
        w == Written(Error(DiaryDoesNotExist), diaries)
  {
    var found := FindIndex(diaries, (d: Diary) => d.id == id && d.ownerId == uid);
    if found.Some? {
      RemoveAt(diaries, found.value);
    }
  }

  /** Delete-all removes exactly the caller's records and keeps everyone else's, in order. */
  lemma DeleteAllKeepsOthers(uid: string, diaries: seq<Diary>)
    requires DistinctIds(diaries)
    ensures var w := DeleteAllOutcome(Some(uid), diaries);
      && w.result == Success(true)
      && DistinctIds(w.diaries)
      && (forall x :: x in w.diaries <==> x in diaries && x.ownerId != uid)
      && (forall x: Diary :: x.ownerId != uid ==> multiset(w.diaries)[x] == multiset(diaries)[x])
  {
    SelectKeepsIds(diaries, (d: Diary) => d.ownerId != uid);
  }

  // ---------------------------------------------------------------------
  // The repository object
  // ---------------------------------------------------------------------

  class MongoDB {
    /** `app.currentUser`'s id, read once when the object is created. */
    const user: Option<string>
    /** The local calendar day of a moment (time zone left abstract). */
    const dayOf: Instant -> int
    /** The records of the realm, in storage order. */
    var diaries: seq<Diary>

    ghost predicate Valid()
      reads this
    {
      DistinctIds(diaries)
    }

    constructor (user: Option<string>, dayOf: Instant -> int, diaries: seq<Diary>)
      requires DistinctIds(diaries)
      ensures Valid()
      ensures this.user == user && this.dayOf == dayOf && this.diaries == diaries
    {
      this.user := user;
      this.dayOf := dayOf;
      this.diaries := diaries;
    }

    /**
     * `getAllDiaries`, one emission: the user's records, newest first,
     * grouped by local day.
     */
    function GetAllDiaries(): (r: Diaries)
      reads this
      ensures user.None? ==> r == Error(UserNotAuthenticated)
      ensures user.Some? ==> r.Success? && WellGrouped(r.data, dayOf)
      ensures user.Some? ==> forall x: Diary :: Members(r.data)[x] == if x.ownerId == user.value then multiset(diaries)[x] else 0
      ensures user.Some? ==> forall i :: 0 <= i < |r.data| ==> SortedBy(r.data[i].diaries, Descending)
      ensures user.Some? && Monotone(dayOf) ==> DaysInOrder(r.data, Descending)
    {
      if user.None? then Error(UserNotAuthenticated)
      else
        var uid := user.value;
        var sorted := SortByDate(Select(diaries, (d: Diary) => d.ownerId == uid), Descending);
        GroupsKeepOrder(sorted, dayOf, Descending);
        SortedGroupsInDayOrder(sorted, dayOf, Descending);
        Success(GroupBy(sorted, dayOf))
    }

    /**
     * `getFilteredDiaries(from, to)`, one emission: the user's records strictly
     * inside the padded window, oldest first, grouped by local day.
     */
    function GetFilteredDiaries(from: Instant, to: Instant): (r: Diaries)
      reads this
      ensures user.None? ==> r == Error(UserNotAuthenticated)
      ensures user.Some? ==> r.Success? && WellGrouped(r.data, dayOf)
      ensures user.Some? ==> forall x: Diary :: Members(r.data)[x] == if x.ownerId == user.value && InWindow(x, from, to) then multiset(diaries)[x] else 0
      ensures user.Some? ==> forall i :: 0 <= i < |r.data| ==> SortedBy(r.data[i].diaries, Ascending)
      ensures user.Some? && Monotone(dayOf) ==> DaysInOrder(r.data, Ascending)
    {
      if user.None? then Error(UserNotAuthenticated)
      else
        var uid := user.value;
        var sorted := SortByDate(Select(diaries, (d: Diary) => d.ownerId == uid && InWindow(d, from, to)), Ascending);
        GroupsKeepOrder(sorted, dayOf, Ascending);
        SortedGroupsInDayOrder(sorted, dayOf, Ascending);
        Success(GroupBy(sorted, dayOf))
    }

    /**
     * `getSelectedDiary(id)`, one emission: the record with that id; for an
     * absent id `first()` throws, shown as Error(NoSuchElement).
     */
    function GetSelectedDiary(id: ObjectId): (r: RequestState<Diary>)
      reads this
      ensures user.None? ==> r == Error(UserNotAuthenticated)
      ensures r.Success? ==> r.data in diaries && r.data.id == id
      ensures user.Some? ==> (r.Success? <==> exists i :: 0 <= i < |diaries| && diaries[i].id == id)
      ensures user.Some? && !r.Success? ==> r == Error(NoSuchElement)
    {
      if user.None? then Error(UserNotAuthenticated)
      else match FindIndex(diaries, (d: Diary) => d.id == id)
        case None => Error(NoSuchElement)
        case Some(i) => Success(diaries[i])
    }

    method InsertDiary(diary: Diary) returns (r: RequestState<Diary>)
      requires Valid()
      modifies this
      ensures Valid()
      ensures Written(r, diaries) == InsertOutcome(user, old(diaries), diary)
      ensures r.Success? ==> GetSelectedDiary(diary.id) == r
    {
      if user.None? {
        return Error(UserNotAuthenticated);
      }
      InsertSetsOwner(user.value, diaries, diary);
      var uid := user.value;
      if FindIndex(diaries, (d: Diary) => d.id == diary.id).Some? {
        return Error(PrimaryKeyExists);
      }
      var stored := diary.(ownerId := uid);
      diaries := diaries + [stored];
      r := Success(stored);
      assert diaries[|diaries| - 1] == stored;
      var found := FindIndex(diaries, (d: Diary) => d.id == diary.id);
      assert found.Some?;
      assert found.value == |diaries| - 1;
    }

    method UpdateDiary(diary: Diary) returns (r: RequestState<Diary>)
      requires Valid()
      modifies this
      ensures Valid()
      ensures Written(r, diaries) == UpdateOutcome(user, old(diaries), diary)
    {
      if user.None? {
        return Error(UserNotAuthenticated);
      }
      UpdateOverwritesFields(user.value, diaries, diary);
      var queried := FindIndex(diaries, (d: Diary) => d.id == diary.id);
      if queried.Some? {
        var i := queried.value;
        var updated := diaries[i].(title := diary.title);
        updated := updated.(description := diary.description);
        updated := updated.(mood := diary.mood);
        updated := updated.(images := diary.images);
        updated := updated.(date := diary.date);
        diaries := diaries[i := updated];
        r := Success(updated);
      } else {
        r := Error(QueriedDiaryDoesNotExist);
      }
    }

    method DeleteDiary(id: ObjectId) returns (r: RequestState<Diary>)
      requires Valid()
      modifies this
      ensures Valid()
      ensures Written(r, diaries) == DeleteOutcome(user, old(diaries), id)
    {
      if user.None? {
        return Error(UserNotAuthenticated);
      }
      var uid := user.value;
      DeleteRemovesOwned(uid, diaries, id);
      var found := FindIndex(diaries, (d: Diary) => d.id == id && d.ownerId == uid);
      if found.Some? {
        var i := found.value;
        r := Success(diaries[i]);
        diaries := diaries[..i] + diaries[i + 1..];
      } else {
        r := Error(DiaryDoesNotExist);
      }
    }

    method DeleteAllDiaries() returns (r: RequestState<bool>)
      requires Valid()
      modifies this
      ensures Valid()
      ensures Written(r, diaries) == DeleteAllOutcome(user, old(diaries))
    {
      if user.None? {
        return Error(UserNotAuthenticated);
      }
      var uid := user.value;
      SelectKeepsIds(diaries, (d: Diary) => d.ownerId != uid);
      diaries := Select(diaries, (d: Diary) => d.ownerId != uid);
      r := Success(true);
    }
  }
}
