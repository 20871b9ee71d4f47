/** `getRecommendations` (backend/server.js): a stress level is mapped onto
    one of five bands, each with a fixed category label and four fixed
    pieces of advice. The level is whatever `Number(...)` produced; NaN fails
    every `<=` test and so falls through to the last band. */
module Recommendations {
  import opened Js

  datatype Recommendation = Recommendation(category: string, recommendations: seq<string>)

  /** The five bands, least severe first. */
  datatype Category = VeryLow | Low | Moderate | High | VeryHigh

  function Label(c: Category): string {
    match c
    case VeryLow => "Very Low Stress"
    case Low => "Low Stress"
    case Moderate => "Moderate Stress"
    case High => "High Stress"
    case VeryHigh => "Very High Stress"
  }

  /** The band's position in order of severity. */
  function Severity(c: Category): nat {
    match c
    case VeryLow => 0
    case Low => 1
    case Moderate => 2
    case High => 3
    case VeryHigh => 4
  }

  /** The inclusive upper bound of each band but the last; a band starts
      just above the bound of the band before it. */
  function UpperBound(c: Category): int
    requires c != VeryHigh
  {
    match c
    case VeryLow => 20
    case Low => 40
    case Moderate => 60
    case High => 80
  }

  /** Reference definition of the bands by their bounds. */
  predicate InBand(c: Category, v: int) {
    match c
    case VeryLow => v <= UpperBound(VeryLow)
    case Low => UpperBound(VeryLow) < v <= UpperBound(Low)
    case Moderate => UpperBound(Low) < v <= UpperBound(Moderate)
    case High => UpperBound(Moderate) < v <= UpperBound(High)
    case VeryHigh => UpperBound(High) < v
  }

  /** The if/else chain of `getRecommendations`. */
  function Band(level: JsNumber): Category {
    if level.Num? && level.v <= 20 then VeryLow
    else if level.Num? && level.v <= 40 then Low
    else if level.Num? && level.v <= 60 then Moderate
    else if level.Num? && level.v <= 80 then High
    else VeryHigh
  }

  /** The four fixed pieces of advice of each band, in order. */
  function Advice(c: Category): (a: seq<string>)
    ensures |a| == 4
  {
    match c
    case VeryLow => [
      "You're managing stress really well.",
      "Maintain good sleep and exercise habits.",
      "Keep doing relaxing activities you enjoy.",
      "Continue balancing study and personal life."]
    case Low => [
      "Try light meditation (5–10 minutes daily).",
      "Engage in hobbies or physical activities.",
      "Reduce unnecessary screen time.",
      "Stay socially connected with friends."]
    case Moderate => [
      "Take short study breaks every 45–60 minutes.",
      "Increase physical exercise (20–30 minutes/day).",
      "Practice deep-breathing relaxation techniques.",
      "Create a realistic study schedule to avoid pressure."]
    case High => [
      "Reduce academic workload if possible.",
      "Avoid excessive screen time before bed.",
      "Talk to a close friend or mentor about what's stressing you.",
      "Try guided meditation or mindfulness apps."]
    case VeryHigh => [
      "Seek professional counseling or therapist help.",
      "Avoid isolation — talk to family/friends regularly.",
      "Reduce caffeine, social media, and late-night screen time.",
      "Maintain a strict sleep routine (7–9 hours)."]
  }

  /** `getRecommendations(level)`: the label and the advice of the level's band. */
  function GetRecommendations(level: JsNumber): (r: Recommendation)
    ensures |r.recommendations| == 4
  {
    var c := Band(level);
    Recommendation(Label(c), Advice(c))
  }

  /** The band of a numeric level is the band whose bounds contain it. */
  lemma BandMatchesBounds(v: int, c: Category)
    ensures Band(Num(v)) == c <==> InBand(c, v)
  {
  }

  /** The labels are pairwise distinct, so a category label names exactly one band. */
  lemma LabelsDistinct(c: Category, d: Category)
    ensures Label(c) == Label(d) <==> c == d
  {
  }

  /** Boundary values belong to the lower band. */
  lemma BoundariesGoToLowerBand()
    ensures Band(Num(0)) == VeryLow && Band(Num(20)) == VeryLow
    ensures Band(Num(21)) == Low && Band(Num(40)) == Low
    ensures Band(Num(41)) == Moderate && Band(Num(60)) == Moderate
    ensures Band(Num(61)) == High && Band(Num(80)) == High
    ensures Band(Num(81)) == VeryHigh && Band(Num(100)) == VeryHigh
  {
  }

  /** A NaN level compares false against every bound. */
  lemma NaNIsVeryHigh()
    ensures Band(NaN) == VeryHigh
    ensures GetRecommendations(NaN).category == "Very High Stress"
  {
  }

  /** A higher level never gets a less severe band. */
  lemma {:induction false} SeverityMonotone(a: int, b: int)
    requires a <= b
    ensures Severity(Band(Num(a))) <= Severity(Band(Num(b)))
  {
    BandMatchesBounds(a, Band(Num(a)));
    BandMatchesBounds(b, Band(Num(b)));
  }

  /** The category label determines the advice: two levels whose results
      carry the same label get the same four strings. */
  lemma AdviceDeterminedByCategory(x: JsNumber, y: JsNumber)
    requires GetRecommendations(x).category == GetRecommendations(y).category
    ensures GetRecommendations(x) == GetRecommendations(y)
  {
    LabelsDistinct(Band(x), Band(y));
  }
}
