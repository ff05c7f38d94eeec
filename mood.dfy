/**
 * The `Mood` enum of the shared util module: sixteen moods in declaration
 * order, each with a name and a content (text) colour. The icon and the
 * container colour are resource handles and are not modelled.
 */
module Mood {
  import opened Wrappers

  datatype Mood =
    | Neutral | Angry | Happy | Bored | Calm | Depressed | Disappointed | Humorous
    | Lonely | Mysterious | Romantic | Shameful | Awful | Surprised | Suspicious | Tense

  /** The colour drawn on top of a mood's container colour. */
  datatype Color = Black | White

  /** `Mood.values()`: every mood, in declaration order. */
  const Values: seq<Mood> := [
    Neutral, Angry, Happy, Bored, Calm, Depressed, Disappointed, Humorous,
    Lonely, Mysterious, Romantic, Shameful, Awful, Surprised, Suspicious, Tense
  ]

  /** `m.ordinal`: the position of `m` in the declaration. */
  function Ordinal(m: Mood): (r: nat)
    ensures r < |Values| && Values[r] == m
  {
    match m
    case Neutral => 0
    case Angry => 1
    case Happy => 2
    case Bored => 3
    case Calm => 4
    case Depressed => 5
    case Disappointed => 6
    case Humorous => 7
    case Lonely => 8
    case Mysterious => 9
    case Romantic => 10
    case Shameful => 11
    case Awful => 12
    case Surprised => 13
    case Suspicious => 14
    case Tense => 15
  }

  /** `m.name`: the identifier of the constant. */
  function Name(m: Mood): string
  {
    match m
    case Neutral => "Neutral"
    case Angry => "Angry"
    case Happy => "Happy"
    case Bored => "Bored"
    case Calm => "Calm"
    case Depressed => "Depressed"
    case Disappointed => "Disappointed"
    case Humorous => "Humorous"
    case Lonely => "Lonely"
    case Mysterious => "Mysterious"
    case Romantic => "Romantic"
    case Shameful => "Shameful"
    case Awful => "Awful"
    case Surprised => "Surprised"
    case Suspicious => "Suspicious"
    case Tense => "Tense"
  }

  /** `m.contentColor`. */
  function ContentColor(m: Mood): Color
  {
    match m
    case Angry => White
    case Disappointed => White
    case Lonely => White
    case Romantic => White
    case Shameful => White
    case _ => Black
  }

  /** The first mood of `ms` named `name`, if any. */
  function Lookup(name: string, ms: seq<Mood>): (r: Option<Mood>)
    ensures r.Some? ==> r.value in ms && Name(r.value) == name
    ensures r.Some? ==> exists i :: 0 <= i < |ms| && ms[i] == r.value && forall j :: 0 <= j < i ==> Name(ms[j]) != name
    ensures r.None? ==> forall i :: 0 <= i < |ms| ==> Name(ms[i]) != name
  {
    if ms == [] then None
    else if Name(ms[0]) == name then Some(ms[0])
    else
      var r := Lookup(name, ms[1..]);
      assert r.Some? ==> exists i :: 0 <= i < |ms| && ms[i] == r.value && forall j :: 0 <= j < i ==> Name(ms[j]) != name by {
        if r.Some? {
          var i :| 0 <= i < |ms[1..]| && ms[1..][i] == r.value && forall j :: 0 <= j < i ==> Name(ms[1..][j]) != name;
          assert ms[i + 1] == r.value;
          assert forall j :: 0 <= j < i + 1 ==> Name(ms[j]) != name by {
            forall j | 0 <= j < i + 1 ensures Name(ms[j]) != name {
              if j > 0 {
                assert ms[j] == ms[1..][j - 1];
              }
            }
          }
        }
      }
      r
  }

  /**
   * `Mood.valueOf(name)`: the mood with that exact name; None stands for the
   * IllegalArgumentException thrown for any other string.
   */
  function ValueOf(name: string): (r: Option<Mood>)
    ensures r.Some? ==> Name(r.value) == name
    ensures r.None? <==> forall m: Mood :: Name(m) != name
  {
    var r := Lookup(name, Values);
    assert r.None? ==> forall m: Mood :: Name(m) != name by {
      if r.None? {
        forall m: Mood ensures Name(m) != name {
          assert Values[Ordinal(m)] == m;
        }
      }
    }
    r
  }

  /** There are sixteen moods and the first of them, ordinal 0, is Neutral. */
  lemma Declaration()
    ensures |Values| == 16
    ensures Values[0] == Neutral && Ordinal(Neutral) == 0
    ensures forall i, j :: 0 <= i < j < |Values| ==> Values[i] != Values[j]
  {
  }

  /** `values()[i].ordinal == i`: ordinals and positions agree both ways. */
  lemma {:induction false} OrdinalOfValue(i: nat)
    requires i < |Values|
    ensures Ordinal(Values[i]) == i
  {
    Declaration();
  }

  /** Different moods have different names. */
  lemma {:induction false} NameInjective(a: Mood, b: Mood)
    requires Name(a) == Name(b)
    ensures a == b
  {
    match a
    case Neutral => assert Name(b)[0] == 'N';
    case Angry => assert Name(b)[..2] == "An";
    case Happy => assert Name(b)[0] == 'H' && Name(b)[1] == 'a';
    case Bored => assert Name(b)[0] == 'B';
    case Calm => assert Name(b)[0] == 'C';
    case Depressed => assert Name(b)[..3] == "Dep";
    case Disappointed => assert Name(b)[..3] == "Dis";
    case Humorous => assert Name(b)[0] == 'H' && Name(b)[1] == 'u';
    case Lonely => assert Name(b)[0] == 'L';
    case Mysterious => assert Name(b)[0] == 'M';
    case Romantic => assert Name(b)[0] == 'R';
    case Shameful => assert Name(b)[..2] == "Sh";
    case Awful => assert Name(b)[..2] == "Aw";
    case Surprised => assert Name(b)[..3] == "Sur";
    case Suspicious => assert Name(b)[..3] == "Sus";
    case Tense => assert Name(b)[0] == 'T';
  }

  /** `valueOf(m.name) == m` for every mood. */
  lemma {:induction false} ValueOfName(m: Mood)
    ensures ValueOf(Name(m)) == Some(m)
  {
    var r := ValueOf(Name(m));
    NameInjective(r.value, m);
  }

  /** Exactly Angry, Disappointed, Lonely, Romantic and Shameful draw white content. */
  lemma WhiteContent(m: Mood)
    ensures ContentColor(m) == White <==> m in {Angry, Disappointed, Lonely, Romantic, Shameful}
    ensures ContentColor(m) == Black <==> m !in {Angry, Disappointed, Lonely, Romantic, Shameful}
  {
  }
}
