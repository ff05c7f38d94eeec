/** Navigation routes of the app and the write screen's argument. */
module Screen {
  import opened Wrappers

  /** Name of the write screen's optional argument. */
  const WriteScreenArgumentKey: string := "diaryId"

  /** What precedes the diary id in a write-screen route. */
  const WritePrefix: string := "write_screen?" + WriteScreenArgumentKey + "="

  datatype Screen = Authentication | Home | Write

  /** `Screen.route`; the write route is the template with a `{diaryId}` placeholder. */
  function Route(s: Screen): string
  {
    match s
    case Authentication => "authentication_screen"
    case Home => "home_screen"
    case Write => "write_screen?" + WriteScreenArgumentKey + "={" + WriteScreenArgumentKey + "}"
  }

  /** `Screen.Write.passDiaryId(id)`: the concrete write route for one diary. */
  function PassDiaryId(diaryId: string): (r: string)
    ensures |r| == |WritePrefix| + |diaryId|
    ensures r[..|WritePrefix|] == WritePrefix && r[|WritePrefix|..] == diaryId
  {
    "write_screen?" + WriteScreenArgumentKey + "=" + diaryId
  }

  /** The diary id a write route carries, when the route has the write prefix. */
  function DiaryIdArgument(route: string): (r: Option<string>)
    ensures r.Some? <==> |WritePrefix| <= |route| && route[..|WritePrefix|] == WritePrefix
    ensures r.Some? ==> WritePrefix + r.value == route
  {
    if |WritePrefix| <= |route| && route[..|WritePrefix|] == WritePrefix then
      assert route == route[..|WritePrefix|] + route[|WritePrefix|..];
      Some(route[|WritePrefix|..])
    else None
  }

  /** `passDiaryId("diaryId=" + id)` reads back as `id`. */
  lemma {:induction false} PassDiaryIdRoundTrip(diaryId: string)
    ensures DiaryIdArgument(PassDiaryId(diaryId)) == Some(diaryId)
  {
    var r := PassDiaryId(diaryId);
    assert r[..|WritePrefix|] == WritePrefix;
  }

  /** Different diary ids give different routes. */
  lemma {:induction false} PassDiaryIdInjective(a: string, b: string)
    requires PassDiaryId(a) == PassDiaryId(b)
    ensures a == b
  {
    PassDiaryIdRoundTrip(a);
    PassDiaryIdRoundTrip(b);
  }

  /** The write route is `passDiaryId` applied to the `{diaryId}` placeholder. */
  lemma WriteRouteIsTemplate()
    ensures Route(Write) == PassDiaryId("{" + WriteScreenArgumentKey + "}")
    ensures Route(Write) == "write_screen?diaryId={diaryId}"
  {
  }

  /** The three routes are pairwise distinct, and no concrete write route is the Home or Authentication route. */
  lemma {:induction false} RoutesDistinct(a: Screen, b: Screen, diaryId: string)
    ensures Route(a) == Route(b) ==> a == b
    ensures PassDiaryId(diaryId) != Route(Home) && PassDiaryId(diaryId) != Route(Authentication)
  {
    var r := PassDiaryId(diaryId);
    assert r[0] == 'w';
    assert Route(Home)[0] == 'h' && Route(Authentication)[0] == 'a' && Route(Write)[0] == 'w';
  }
}
