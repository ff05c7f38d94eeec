/**
 * The app module's own copy of the `Mood` enum. It is a separate Kotlin
 * type with the same sixteen constants, names and content colours as the
 * util module's; the write screen's state (`UiState.mood`) uses this one.
 * Its facts are proved through the correspondence with the util copy.
 */
module AppMood {
  import opened Wrappers
  import Util = Mood

  datatype Mood =
    | Neutral | Angry | Happy | Bored | Calm | Depressed | Disappointed | Humorous
    | Lonely | Mysterious | Romantic | Shameful | Awful | Surprised | Suspicious | Tense

  /** `Mood.values()`, in declaration order. */
  const Values: seq<Mood> := [
    Neutral, Angry, Happy, Bored, Calm, Depressed, Disappointed, Humorous,
    Lonely, Mysterious, Romantic, Shameful, Awful, Surprised, Suspicious, Tense
  ]

  /** `m.ordinal`. */
  function Ordinal(m: Mood): (r: nat)
    ensures r < |Values| && Values[r] == m
  {
    match m
    case Neutral => 0
    case Angry => 1
    case Happy => 2
    case Bored => 3
    case Calm => 4
    case Depressed => 5
    case Disappointed => 6
    case Humorous => 7
    case Lonely => 8
    case Mysterious => 9
    case Romantic => 10
    case Shameful => 11
    case Awful => 12
    case Surprised => 13
    case Suspicious => 14
    case Tense => 15
  }

  /** `m.name`. */
  function Name(m: Mood): string
  {
    match m
    case Neutral => "Neutral"
    case Angry => "Angry"
    case Happy => "Happy"
    case Bored => "Bored"
    case Calm => "Calm"
    case Depressed => "Depressed"
    case Disappointed => "Disappointed"
    case Humorous => "Humorous"
    case Lonely => "Lonely"
    case Mysterious => "Mysterious"
    case Romantic => "Romantic"
    case Shameful => "Shameful"
    case Awful => "Awful"
    case Surprised => "Surprised"
    case Suspicious => "Suspicious"
    case Tense => "Tense"
  }

  /** `m.contentColor`. */
  function ContentColor(m: Mood): Util.Color
  {
    match m
    case Angry => Util.White
    case Disappointed => Util.White
    case Lonely => Util.White
    case Romantic => Util.White
    case Shameful => Util.White
    case _ => Util.Black
  }

  /** The first mood of `ms` named `name`, if any. */
  function Lookup(name: string, ms: seq<Mood>): (r: Option<Mood>)
    ensures r.Some? ==> r.value in ms && Name(r.value) == name
    ensures r.Some? ==> exists i :: 0 <= i < |ms| && ms[i] == r.value && forall j :: 0 <= j < i ==> Name(ms[j]) != name
    ensures r.None? ==> forall i :: 0 <= i < |ms| ==> Name(ms[i]) != name
  {
    if ms == [] then None
    else if Name(ms[0]) == name then Some(ms[0])
    else
      var r := Lookup(name, ms[1..]);
      assert r.Some? ==> exists i :: 0 <= i < |ms| && ms[i] == r.value && forall j :: 0 <= j < i ==> Name(ms[j]) != name by {
        if r.Some? {
          var i :| 0 <= i < |ms[1..]| && ms[1..][i] == r.value && forall j :: 0 <= j < i ==> Name(ms[1..][j]) != name;
          assert ms[i + 1] == r.value;
          assert forall j :: 0 <= j < i + 1 ==> Name(ms[j]) != name by {
            forall j | 0 <= j < i + 1 ensures Name(ms[j]) != name {
              if j > 0 {
                assert ms[j] == ms[1..][j - 1];
              }
            }
          }
        }
      }
      r
  }

  /** `Mood.valueOf(name)`; None stands for the IllegalArgumentException. */
  function ValueOf(name: string): (r: Option<Mood>)
    ensures r.Some? ==> Name(r.value) == name
    ensures r.None? <==> forall m: Mood :: Name(m) != name
  {
    var r := Lookup(name, Values);
    assert r.None? ==> forall m: Mood :: Name(m) != name by {
      if r.None? {
        forall m: Mood ensures Name(m) != name {
          assert Values[Ordinal(m)] == m;
        }
      }
    }
    r
  }

  /** The util constant declared at the same position. */
  function ToUtil(m: Mood): Util.Mood
  {
    Util.Values[Ordinal(m)]
  }

  /** Sixteen moods; Neutral is ordinal 0 (and the default mood of the write screen). */
  lemma Declaration()
    ensures |Values| == 16
    ensures Values[0] == Neutral && Ordinal(Neutral) == 0
    ensures forall i, j :: 0 <= i < j < |Values| ==> Values[i] != Values[j]
  {
  }

  /** `values()[i].ordinal == i`. */
  lemma {:induction false} OrdinalOfValue(i: nat)
    requires i < |Values|
    ensures Ordinal(Values[i]) == i
  {
    Declaration();
  }

  /** Both files declare the same constants, in the same order, with the same names and colours. */
  lemma {:induction false} SameLayout()
    ensures |Values| == |Util.Values| == 16
    ensures forall i :: 0 <= i < |Values| ==>
      Name(Values[i]) == Util.Name(Util.Values[i]) && ContentColor(Values[i]) == Util.ContentColor(Util.Values[i])
  {
    Util.Declaration();
    forall i | 0 <= i < |Values|
      ensures Name(Values[i]) == Util.Name(Util.Values[i]) && ContentColor(Values[i]) == Util.ContentColor(Util.Values[i])
    {
      OrdinalOfValue(i);
      SameAt(Values[i]);
    }
  }

  /** A constant and the util constant at its ordinal share name and colour. */
  lemma SameAt(m: Mood)
    ensures Name(m) == Util.Name(Util.Values[Ordinal(m)])
    ensures ContentColor(m) == Util.ContentColor(Util.Values[Ordinal(m)])
  {
  }

  /** The correspondence keeps name, ordinal and content colour. */
  lemma {:induction false} ToUtilKeeps(m: Mood)
    ensures Util.Name(ToUtil(m)) == Name(m)
    ensures Util.Ordinal(ToUtil(m)) == Ordinal(m)
    ensures Util.ContentColor(ToUtil(m)) == ContentColor(m)
  {
    SameAt(m);
    Util.OrdinalOfValue(Ordinal(m));
  }

  /** Different moods have different names: proved from the util copy. */
  lemma {:induction false} NameInjective(a: Mood, b: Mood)
    requires Name(a) == Name(b)
    ensures a == b
  {
    ToUtilKeeps(a);
    ToUtilKeeps(b);
    Util.NameInjective(ToUtil(a), ToUtil(b));
    assert Ordinal(a) == Ordinal(b);
  }

  /** `valueOf(m.name) == m` for every mood. */
  lemma {:induction false} ValueOfName(m: Mood)
    ensures ValueOf(Name(m)) == Some(m)
  {
    var r := ValueOf(Name(m));
    NameInjective(r.value, m);
  }

  /** White content for exactly Angry, Disappointed, Lonely, Romantic and Shameful. */
  lemma {:induction false} WhiteContent(m: Mood)
    ensures ContentColor(m) == Util.White <==> m in {Angry, Disappointed, Lonely, Romantic, Shameful}
  {
    ToUtilKeeps(m);
    Util.WhiteContent(ToUtil(m));
    assert ToUtil(m) in {Util.Angry, Util.Disappointed, Util.Lonely, Util.Romantic, Util.Shameful}
      <==> m in {Angry, Disappointed, Lonely, Romantic, Shameful};
  }
}
