/** `assessmentSchema` (backend/models/Assessment.js): the shape of a stored
    assessment and the checks Mongoose runs on it when it is saved.

    Numeric fields hold what the server computed with `Number(...)`; a NaN
    fails Mongoose's cast to Number, so it is rejected like a missing value.
    `facialImageBase64`/`voiceAudioBase64` are `None` when stored as `null`
    (their default). `createdAt` defaults to the save time, which the caller
    passes in. */
module AssessmentSchema {
  import opened Js

  datatype AssessmentRecord = AssessmentRecord(
    userId: Json,
    facialImageBase64: Option<Json>,
    voiceAudioBase64: Option<Json>,
    age: JsNumber,
    gender: string,
    sleepHours: JsNumber,
    exerciseFrequency: JsNumber,
    academicPressure: JsNumber,
    financialPressure: JsNumber,
    studyHours: JsNumber,
    screenTime: JsNumber,
    stressLevel: Option<JsNumber>,
    createdAt: int)

  const GenderValues: set<string> := {"male", "female", "other"}

  /** A number that is present and not NaN, with `lo <= v <= hi`. */
  predicate Between(x: JsNumber, lo: int, hi: int) {
    x.Num? && lo <= x.v <= hi
  }

  /** Every schema rule, field by field. */
  predicate Valid(r: AssessmentRecord) {
    && Truthy(Some(r.userId))
    && r.age.Num? && r.age.v >= 10
    && r.gender in GenderValues
    && Between(r.sleepHours, 0, 24)
    && Between(r.exerciseFrequency, 0, 12)
    && r.academicPressure.Num?
    && r.financialPressure.Num?
    && Between(r.studyHours, 0, 12)
    && Between(r.screenTime, 0, 12)
    && (r.stressLevel.None? || Between(r.stressLevel.value, 0, 100))
  }

  /** The paths Mongoose's validation error would name for this record. */
  function InvalidFields(r: AssessmentRecord): set<string> {
    (if Truthy(Some(r.userId)) then {} else {"userId"})
    + (if r.age.Num? && r.age.v >= 10 then {} else {"age"})
    + (if r.gender in GenderValues then {} else {"gender"})
    + (if Between(r.sleepHours, 0, 24) then {} else {"sleepHours"})
    + (if Between(r.exerciseFrequency, 0, 12) then {} else {"exerciseFrequency"})
    + (if r.academicPressure.Num? then {} else {"academicPressure"})
    + (if r.financialPressure.Num? then {} else {"financialPressure"})
    + (if Between(r.studyHours, 0, 12) then {} else {"studyHours"})
    + (if Between(r.screenTime, 0, 12) then {} else {"screenTime"})
    + (if r.stressLevel.None? || Between(r.stressLevel.value, 0, 100) then {} else {"stressLevel"})
  }

  /** A record saves exactly when no path fails. */
  lemma ValidIffNoInvalidField(r: AssessmentRecord)
    ensures Valid(r) <==> InvalidFields(r) == {}
  {
    var bad := InvalidFields(r);
    if !Truthy(Some(r.userId)) { assert "userId" in bad; }
    else if !(r.age.Num? && r.age.v >= 10) { assert "age" in bad; }
    else if r.gender !in GenderValues { assert "gender" in bad; }
    else if !Between(r.sleepHours, 0, 24) { assert "sleepHours" in bad; }
    else if !Between(r.exerciseFrequency, 0, 12) { assert "exerciseFrequency" in bad; }
    else if !r.academicPressure.Num? { assert "academicPressure" in bad; }
    else if !r.financialPressure.Num? { assert "financialPressure" in bad; }
    else if !Between(r.studyHours, 0, 12) { assert "studyHours" in bad; }
    else if !Between(r.screenTime, 0, 12) { assert "screenTime" in bad; }
    else if !(r.stressLevel.None? || Between(r.stressLevel.value, 0, 100)) { assert "stressLevel" in bad; }
  }

  /** `sleepHours` is bounded inclusively at both ends: 0 and 24 pass, 25
      fails and is the path the error names. */
  lemma SleepHoursBounds(r: AssessmentRecord)
    requires Valid(r)
    ensures Valid(r.(sleepHours := Num(0))) && Valid(r.(sleepHours := Num(24)))
    ensures !Valid(r.(sleepHours := Num(25)))
    ensures InvalidFields(r.(sleepHours := Num(25))) == {"sleepHours"}
  {
    ValidIffNoInvalidField(r);
  }

  /** `academicPressure` and `financialPressure` have no bounds, and
      `stressLevel` may be absent. */
  lemma UnboundedAndOptionalFields(r: AssessmentRecord, a: int, f: int)
    requires Valid(r)
    ensures Valid(r.(academicPressure := Num(a), financialPressure := Num(f)))
    ensures Valid(r.(stressLevel := None))
    ensures !Valid(r.(stressLevel := Some(Num(101)))) && !Valid(r.(stressLevel := Some(Num(-1))))
  {
  }
}
