/** The request-handling logic of backend/server.js, with the Mongo
    collections as append-only sequences and the prediction service as an
    oracle: a function from the payload posted to it to either the parsed
    JSON reply or a failure (network error, non-2xx status, timeout). Each
    route is a function from the current collections and the request to
    the response, the new collections and the payloads posted to the
    scorer. */
module Server {
  import opened Js
  import opened Patterns
  import opened Recommendations
  import opened AssessmentSchema

  // ---------------------------------------------------------------------
  // Registration validators: `RegExp.prototype.test` converts its argument
  // with `String(...)`, so a missing field is tested as "undefined".

  predicate ValidateNameFormat(name: Option<Json>) {
    NamePattern(ToJsString(name))
  }

  predicate ValidateEmailFormat(email: Option<Json>) {
    EmailFormat(ToJsString(email))
  }

  predicate ValidatePasswordStrength(password: Option<Json>) {
    PasswordPattern(ToJsString(password))
  }

  /** A missing or `null` name is tested as the all-letter strings
      "undefined" and "null", so it passes the name check. */
  lemma MissingNamePassesNameCheck()
    ensures ValidateNameFormat(None) && ValidateNameFormat(Some(JNull))
    ensures !ValidateNameFormat(Some(JStr("")))
  {
    assert forall i :: 0 <= i < |"undefined"| ==> IsAsciiLetter("undefined"[i]);
    assert forall i :: 0 <= i < |"null"| ==> IsAsciiLetter("null"[i]);
  }

  lemma NoAtInDecimal(n: int)
    ensures '@' !in IntToDecimal(n)
  {
  }

  /** Only a JSON string can pass the e-mail check: the `String(...)` form
      of every other value has no `@`. */
  lemma {:induction false} EmailCheckNeedsString(email: Option<Json>)
    ensures ValidateEmailFormat(email) ==> email.Some? && email.value.JStr?
  {
    match email
    case None =>
    case Some(JNull) =>
    case Some(JBool(b)) =>
    case Some(JNum(n)) => NoAtInDecimal(n);
    case Some(JStr(_)) =>
  }

  // ---------------------------------------------------------------------
  // POST /api/register

  /** A user as far as registration is concerned; the password hash is not
      part of this model. */
  datatype Account = Account(name: Option<Json>, email: string)

  datatype RegisterResponse = InvalidName | InvalidEmail | WeakPassword | UserExists | Registered

  function RegisterStatus(r: RegisterResponse): nat {
    match r
    case InvalidName => 400
    case InvalidEmail => 400
    case WeakPassword => 400
    case UserExists => 409
    case Registered => 201
  }

  function RegisterMessage(r: RegisterResponse): string {
    match r
    case InvalidName => "Name must contain only letters."
    case InvalidEmail => "Invalid email format."
    case WeakPassword => "Password must be 8+ chars with letters, numbers & symbols."
    case UserExists => "User already exists."
    case Registered => "Registration successful!"
  }

  datatype RegisterOutcome = RegisterOutcome(response: RegisterResponse, accounts: seq<Account>)

  predicate EmailTaken(accounts: seq<Account>, email: string) {
    exists i :: 0 <= i < |accounts| && accounts[i].email == email
  }

  /** No two accounts share an e-mail address. */
  predicate UniqueEmails(accounts: seq<Account>) {
    forall i, j :: 0 <= i < j < |accounts| ==> accounts[i].email != accounts[j].email
  }

  /** The register handler: name, e-mail and password checks in that order,
      then the duplicate check, then the insert. The address looked up and
      stored is the e-mail value itself, which only a JSON string can be
      once it has passed the check (`EmailCheckNeedsString`). */
  function Register(accounts: seq<Account>, body: map<string, Json>): (o: RegisterOutcome)
    ensures o.response == InvalidName <==> !ValidateNameFormat(Get(body, "name"))
    ensures o.response == InvalidEmail
      <==> ValidateNameFormat(Get(body, "name")) && !ValidateEmailFormat(Get(body, "email"))
    ensures o.response == WeakPassword
      <==> ValidateNameFormat(Get(body, "name")) && ValidateEmailFormat(Get(body, "email"))
           && !ValidatePasswordStrength(Get(body, "password"))
    ensures (o.response == UserExists || o.response == Registered)
      <==> ValidateNameFormat(Get(body, "name")) && ValidateEmailFormat(Get(body, "email"))
           && ValidatePasswordStrength(Get(body, "password"))
    ensures o.response == UserExists ==> EmailTaken(accounts, ToJsString(Get(body, "email")))
    ensures o.response != Registered ==> o.accounts == accounts
    ensures o.response == Registered ==>
      && !EmailTaken(accounts, ToJsString(Get(body, "email")))
      && o.accounts == accounts + [Account(Get(body, "name"), ToJsString(Get(body, "email")))]
  {
    var name, email, password := Get(body, "name"), Get(body, "email"), Get(body, "password");
    if !ValidateNameFormat(name) then RegisterOutcome(InvalidName, accounts)
    else if !ValidateEmailFormat(email) then RegisterOutcome(InvalidEmail, accounts)
    else if !ValidatePasswordStrength(password) then RegisterOutcome(WeakPassword, accounts)
    else if EmailTaken(accounts, ToJsString(email)) then RegisterOutcome(UserExists, accounts)
    else RegisterOutcome(Registered, accounts + [Account(name, ToJsString(email))])
  }

  /** Registration never creates a second account for an address. */
  lemma RegisterKeepsEmailsUnique(accounts: seq<Account>, body: map<string, Json>)
    requires UniqueEmails(accounts)
    ensures UniqueEmails(Register(accounts, body).accounts)
  {
    var o := Register(accounts, body);
    if o.response == Registered {
      AppendKeepsUnique(accounts, Account(Get(body, "name"), ToJsString(Get(body, "email"))));
    }
  }

  lemma AppendKeepsUnique(accounts: seq<Account>, a: Account)
    requires UniqueEmails(accounts) && !EmailTaken(accounts, a.email)
    ensures UniqueEmails(accounts + [a])
  {
    var s := accounts + [a];
    forall i, j | 0 <= i < j < |s| ensures s[i].email != s[j].email {
      assert s[i] == accounts[i];
    }
  }

  // ---------------------------------------------------------------------
  // The prediction service and the score it returns

  datatype ScorerReply = ScorerOk(data: map<string, Json>) | ScorerFailed

  /** The keys the score may be found under, in priority order. */
  const ScoreKeys: seq<string> := ["predicted_score", "prediction", "score"]

  /** The eight behavioural fields forwarded to the scorer. */
  const BehaviouralKeys: set<string> :=
    {"age", "gender", "sleepHours", "exerciseFrequency",
     "academicPressure", "studyHours", "screenTime", "financialPressure"}

  const MediaKeys: set<string> := {"facialImageBase64", "voiceAudioBase64"}

  /** `m[k0] ?? m[k1] ?? ...`: the value under the first key that is neither
      absent nor `null`. */
  function FirstNonNullish(m: map<string, Json>, keys: seq<string>): (r: Option<Json>)
    ensures r.None? <==> forall i :: 0 <= i < |keys| ==> Nullish(Get(m, keys[i]))
    ensures r.Some? ==> exists i :: 0 <= i < |keys| && Get(m, keys[i]) == r && !Nullish(r)
                          && forall k :: 0 <= k < i ==> Nullish(Get(m, keys[k]))
  {
    if keys == [] then None
    else if !Nullish(Get(m, keys[0])) then Get(m, keys[0])
    else
      var r := FirstNonNullish(m, keys[1..]);
      assert forall i :: 1 <= i < |keys| ==> keys[1..][i - 1] == keys[i];
      r
  }

  /** `Number(ml.predicted_score ?? ml.prediction ?? ml.score ?? 0)`. */
  function ExtractScore(data: map<string, Json>): JsNumber {
    ToNumber(Some(FirstNonNullish(data, ScoreKeys).GetOr(JNum(0))))
  }

  /** The score comes from the first key, in priority order, whose value is
      not nullish; with none of them it is 0. */
  lemma {:induction false} ExtractScorePriority(data: map<string, Json>)
    ensures !Nullish(Get(data, "predicted_score"))
      ==> ExtractScore(data) == ToNumber(Get(data, "predicted_score"))
    ensures Nullish(Get(data, "predicted_score")) && !Nullish(Get(data, "prediction"))
      ==> ExtractScore(data) == ToNumber(Get(data, "prediction"))
    ensures Nullish(Get(data, "predicted_score")) && Nullish(Get(data, "prediction"))
      && !Nullish(Get(data, "score"))
      ==> ExtractScore(data) == ToNumber(Get(data, "score"))
    ensures (Nullish(Get(data, "predicted_score")) && Nullish(Get(data, "prediction"))
             && Nullish(Get(data, "score")))
      ==> ExtractScore(data) == Num(0)
  {
    var r := FirstNonNullish(data, ScoreKeys);
    if r.Some? {
      var i :| 0 <= i < 3 && Get(data, ScoreKeys[i]) == r && !Nullish(r)
        && forall k :: 0 <= k < i ==> Nullish(Get(data, ScoreKeys[k]));
      assert ScoreKeys[0] == "predicted_score" && ScoreKeys[1] == "prediction";
      if i == 1 { assert Nullish(Get(data, ScoreKeys[0])); }
      if i == 2 { assert Nullish(Get(data, ScoreKeys[0])) && Nullish(Get(data, ScoreKeys[1])); }
    } else {
      assert Nullish(Get(data, ScoreKeys[0])) && Nullish(Get(data, ScoreKeys[1]))
        && Nullish(Get(data, ScoreKeys[2]));
    }
  }

  /** `??` is nullish, not falsy: a score of 0 under the primary key is
      kept even when a fallback key holds another value. */
  lemma ZeroScoreIsKept(data: map<string, Json>)
    requires Get(data, "predicted_score") == Some(JNum(0))
    ensures ExtractScore(data) == Num(0)
  {
    ExtractScorePriority(data);
  }

  /** The body sent to the scorer: the eight behavioural fields as given.
      `JSON.stringify` omits a key whose value is `undefined`. */
  function ScorerPayload(body: map<string, Json>): map<string, Json> {
    map k | k in BehaviouralKeys && k in body :: body[k]
  }

  /** The payload carries exactly the behavioural fields present in the
      body, unchanged, and never the media fields or the user id. */
  lemma PayloadIsBehaviouralOnly(body: map<string, Json>)
    ensures ScorerPayload(body).Keys == BehaviouralKeys * body.Keys
    ensures forall k :: k in ScorerPayload(body) ==> ScorerPayload(body)[k] == body[k]
    ensures ScorerPayload(body).Keys !! MediaKeys && "userId" !in ScorerPayload(body)
  {
  }

  // ---------------------------------------------------------------------
  // POST /api/predict-stress: the whole body goes to the scorer.

  datatype PredictResponse =
    | Prediction(predictedScore: JsNumber, category: string, recommendations: seq<string>)
    | PredictionFailed

  function PredictStress(body: map<string, Json>, scorer: map<string, Json> -> ScorerReply): (r: PredictResponse)
    ensures r.Prediction? <==> scorer(body).ScorerOk?
    ensures r.Prediction? ==>
      && r.predictedScore == ExtractScore(scorer(body).data)
      && Recommendation(r.category, r.recommendations) == GetRecommendations(r.predictedScore)
  {
    match scorer(body)
    case ScorerFailed => PredictionFailed
    case ScorerOk(data) =>
      var score := ExtractScore(data);
      var rec := GetRecommendations(score);
      Prediction(score, rec.category, rec.recommendations)
  }

  // ---------------------------------------------------------------------
  // POST /api/assessment

  /** `(data.gender || 'other').toLowerCase()`; `None` when the value is
      truthy but not a string, where `toLowerCase` is not a function and
      the handler throws. */
  function StoredGender(gender: Option<Json>): (g: Option<string>)
    ensures !Truthy(gender) ==> g == Some("other")
    ensures Truthy(gender) && gender.value.JStr? ==> g == Some(ToLowerAscii(gender.value.s))
    ensures Truthy(gender) && !gender.value.JStr? ==> g == None
  {
    if !Truthy(gender) then Some("other")
    else if gender.value.JStr? then Some(ToLowerAscii(gender.value.s))
    else None
  }

  /** `value || null`. */
  function StoredMedia(media: Option<Json>): Option<Json> {
    if Truthy(media) then media else None
  }

  /** The record the handler builds, before it is validated. */
  function BuildRecord(body: map<string, Json>, gender: string, score: JsNumber, now: int): AssessmentRecord
    requires "userId" in body
  {
    AssessmentRecord(
      body["userId"],
      StoredMedia(Get(body, "facialImageBase64")),
      StoredMedia(Get(body, "voiceAudioBase64")),
      ToNumber(Get(body, "age")),
      gender,
      ToNumber(Get(body, "sleepHours")),
      ToNumber(Get(body, "exerciseFrequency")),
      ToNumber(Get(body, "academicPressure")),
      ToNumber(Get(body, "financialPressure")),
      ToNumber(Get(body, "studyHours")),
      ToNumber(Get(body, "screenTime")),
      Some(score),
      now)
  }

  datatype SubmitResponse =
    | MissingUserId
    | ProcessingError
    | AssessmentSaved(predictedScore: JsNumber, category: string, recommendations: seq<string>,
                      assessment: AssessmentRecord)

  function SubmitStatus(r: SubmitResponse): nat {
    match r
    case MissingUserId => 400
    case ProcessingError => 500
    case AssessmentSaved(_, _, _, _) => 200
  }

  datatype SubmitOutcome = SubmitOutcome(
    response: SubmitResponse,
    store: seq<AssessmentRecord>,
    scorerCalls: seq<map<string, Json>>)

  /** The assessment handler. `now` is the clock reading `Date.now` gives
      the record's `createdAt`. */
  function SubmitAssessment(store: seq<AssessmentRecord>, body: map<string, Json>,
                            scorer: map<string, Json> -> ScorerReply, now: int): (o: SubmitOutcome)
    // missing user id: 400, before any scorer call
    ensures o.response == MissingUserId <==> !Truthy(Get(body, "userId"))
    ensures o.response == MissingUserId ==> o.scorerCalls == [] && o.store == store
    // otherwise the scorer is called exactly once, with the behavioural payload
    ensures Truthy(Get(body, "userId")) ==> o.scorerCalls == [ScorerPayload(body)]
    ensures Truthy(Get(body, "userId")) && scorer(ScorerPayload(body)).ScorerFailed?
      ==> o.response == ProcessingError
    // nothing is stored unless the assessment is saved
    ensures !o.response.AssessmentSaved? ==> o.store == store
    // a save appends one valid record carrying the returned score, and the
    // returned advice is that score's
    ensures o.response.AssessmentSaved? ==>
      && StoredGender(Get(body, "gender")).Some?
      && o.response.assessment
         == BuildRecord(body, StoredGender(Get(body, "gender")).value, o.response.predictedScore, now)
      && o.store == store + [o.response.assessment]
      && Valid(o.response.assessment)
      && o.response.assessment.createdAt == now
      && o.response.assessment.userId == body["userId"]
      && scorer(ScorerPayload(body)).ScorerOk?
      && o.response.predictedScore == ExtractScore(scorer(ScorerPayload(body)).data)
      && o.response.assessment.stressLevel == Some(o.response.predictedScore)
      && Recommendation(o.response.category, o.response.recommendations)
         == GetRecommendations(o.response.predictedScore)
    // and a record that would be valid is saved
    ensures Truthy(Get(body, "userId")) && scorer(ScorerPayload(body)).ScorerOk?
      && StoredGender(Get(body, "gender")).Some?
      && Valid(BuildRecord(body, StoredGender(Get(body, "gender")).value,
                           ExtractScore(scorer(ScorerPayload(body)).data), now))
      ==> o.response.AssessmentSaved?
  {
    if !Truthy(Get(body, "userId")) then SubmitOutcome(MissingUserId, store, [])
    else
      var payload := ScorerPayload(body);
      match scorer(payload)
      case ScorerFailed => SubmitOutcome(ProcessingError, store, [payload])
      case ScorerOk(data) =>
        var score := ExtractScore(data);
        var rec := GetRecommendations(score);
        match StoredGender(Get(body, "gender"))
        case None => SubmitOutcome(ProcessingError, store, [payload])
        case Some(gender) =>
          var record := BuildRecord(body, gender, score, now);
          if Valid(record) then
            SubmitOutcome(AssessmentSaved(score, rec.category, rec.recommendations, record),
                          store + [record], [payload])
          else SubmitOutcome(ProcessingError, store, [payload])
  }

  /** How a saved record is normalised from the request: media kept when
      truthy and `null` otherwise, gender lower-cased or `"other"`, each
      number through `Number(...)`. */
  lemma SavedRecordNormalisation(store: seq<AssessmentRecord>, body: map<string, Json>,
                                 scorer: map<string, Json> -> ScorerReply, now: int)
    requires SubmitAssessment(store, body, scorer, now).response.AssessmentSaved?
    ensures var r := SubmitAssessment(store, body, scorer, now).response.assessment;
      && (r.facialImageBase64.Some? <==> Truthy(Get(body, "facialImageBase64")))
      && (r.facialImageBase64.Some? ==> r.facialImageBase64 == Get(body, "facialImageBase64"))
      && (r.voiceAudioBase64.Some? <==> Truthy(Get(body, "voiceAudioBase64")))
      && (r.voiceAudioBase64.Some? ==> r.voiceAudioBase64 == Get(body, "voiceAudioBase64"))
      && (!Truthy(Get(body, "gender")) ==> r.gender == "other")
      && (Truthy(Get(body, "gender")) ==> r.gender == ToLowerAscii(body["gender"].s))
      && r.age == ToNumber(Get(body, "age"))
      && r.sleepHours == ToNumber(Get(body, "sleepHours"))
      && r.exerciseFrequency == ToNumber(Get(body, "exerciseFrequency"))
      && r.academicPressure == ToNumber(Get(body, "academicPressure"))
      && r.financialPressure == ToNumber(Get(body, "financialPressure"))
      && r.studyHours == ToNumber(Get(body, "studyHours"))
      && r.screenTime == ToNumber(Get(body, "screenTime"))
  {
  }

  /** The schema runs at save time, after the scorer: whenever the record
      built from a scored request fails validation, or the gender cannot be
      lower-cased, the request has still been sent for scoring, the answer
      is a 500 and nothing is stored. */
  lemma RejectedInputIsScoredNotStored(store: seq<AssessmentRecord>, body: map<string, Json>,
                                       scorer: map<string, Json> -> ScorerReply, now: int)
    requires Truthy(Get(body, "userId")) && scorer(ScorerPayload(body)).ScorerOk?
    requires StoredGender(Get(body, "gender")).None?
      || !Valid(BuildRecord(body, StoredGender(Get(body, "gender")).value,
                            ExtractScore(scorer(ScorerPayload(body)).data), now))
    ensures var o := SubmitAssessment(store, body, scorer, now);
      o.response == ProcessingError && o.store == store && o.scorerCalls == [ScorerPayload(body)]
  {
  }

  /** Any sleep value outside 0 to 24 (or not a number) is scored, then
      rejected and not stored. */
  lemma OutOfRangeInputIsScoredThenRejected(store: seq<AssessmentRecord>, body: map<string, Json>,
                                            scorer: map<string, Json> -> ScorerReply, now: int)
    requires Truthy(Get(body, "userId")) && scorer(ScorerPayload(body)).ScorerOk?
    requires !Between(ToNumber(Get(body, "sleepHours")), 0, 24)
    ensures var o := SubmitAssessment(store, body, scorer, now);
      o.response == ProcessingError && o.store == store && o.scorerCalls == [ScorerPayload(body)]
  {
    if StoredGender(Get(body, "gender")).Some? {
      var r := BuildRecord(body, StoredGender(Get(body, "gender")).value,
                           ExtractScore(scorer(ScorerPayload(body)).data), now);
      assert r.sleepHours == ToNumber(Get(body, "sleepHours"));
    }
    RejectedInputIsScoredNotStored(store, body, scorer, now);
  }

  /** An upper-case member of the enumeration is stored lower-cased and
      passes the enum check. */
  lemma UpperCaseGenderAccepted()
    ensures StoredGender(Some(JStr("MALE"))) == Some("male")
  {
    var r := ToLowerAscii("MALE");
    assert forall i :: 0 <= i < 4 ==> r[i] == "male"[i];
    assert r == "male";
  }

  /** A non-empty gender string that does not lower-case to a member of
      the enumeration is stored lower-cased, so the record fails the enum
      check: the request is scored, answered with a 500, and not stored. */
  lemma UnknownGenderRejected(store: seq<AssessmentRecord>, body: map<string, Json>,
                              scorer: map<string, Json> -> ScorerReply, now: int, s: string)
    requires Truthy(Get(body, "userId")) && scorer(ScorerPayload(body)).ScorerOk?
    requires Get(body, "gender") == Some(JStr(s)) && s != ""
    requires ToLowerAscii(s) !in GenderValues
    ensures StoredGender(Get(body, "gender")) == Some(ToLowerAscii(s))
    ensures var o := SubmitAssessment(store, body, scorer, now);
      o.response == ProcessingError && o.store == store && o.scorerCalls == [ScorerPayload(body)]
  {
    var r := BuildRecord(body, ToLowerAscii(s), ExtractScore(scorer(ScorerPayload(body)).data), now);
    assert r.gender !in GenderValues;
    RejectedInputIsScoredNotStored(store, body, scorer, now);
  }

  /** Each route reads the score the same way. */
  lemma BothRoutesAgreeOnScore(store: seq<AssessmentRecord>, body: map<string, Json>,
                               scorer: map<string, Json> -> ScorerReply, now: int)
    requires SubmitAssessment(store, body, scorer, now).response.AssessmentSaved?
    requires scorer(body) == scorer(ScorerPayload(body))
    ensures PredictStress(body, scorer).Prediction?
    ensures PredictStress(body, scorer).predictedScore
         == SubmitAssessment(store, body, scorer, now).response.predictedScore
    ensures PredictStress(body, scorer).category
         == SubmitAssessment(store, body, scorer, now).response.category
  {
  }

  // ---------------------------------------------------------------------
  // GET /api/get-history/:userId:
  // `Assessment.find({ userId }).sort({ createdAt: 1 })`

  predicate SortedByCreatedAt(s: seq<AssessmentRecord>) {
    forall i, j :: 0 <= i < j < |s| ==> s[i].createdAt <= s[j].createdAt
  }

  /** The records of one user, in store order. */
  function RecordsOf(store: seq<AssessmentRecord>, userId: string): (r: seq<AssessmentRecord>)
    ensures forall x :: x in r <==> x in store && x.userId == JStr(userId)
    ensures |r| <= |store|
  {
    if store == [] then []
    else
      var init, last := store[..|store| - 1], store[|store| - 1];
      assert store == init + [last];
      RecordsOf(init, userId) + (if last.userId == JStr(userId) then [last] else [])
  }

  /** The filter keeps every record of the user exactly as often as the
      store holds it, and no other record. */
  lemma {:induction false} RecordsOfCounts(store: seq<AssessmentRecord>, userId: string)
    ensures forall x :: multiset(RecordsOf(store, userId))[x]
                        == if x.userId == JStr(userId) then multiset(store)[x] else 0
  {
    if store != [] {
      var init, last := store[..|store| - 1], store[|store| - 1];
      RecordsOfCounts(init, userId);
      assert store == init + [last];
      assert RecordsOf(store, userId)
          == RecordsOf(init, userId) + (if last.userId == JStr(userId) then [last] else []);
    }
  }

  /** Puts `x` after every record not later than it (a stable insert). */
  function InsertByCreatedAt(s: seq<AssessmentRecord>, x: AssessmentRecord): (r: seq<AssessmentRecord>)
    requires SortedByCreatedAt(s)
    ensures SortedByCreatedAt(r)
    ensures multiset(r) == multiset(s) + multiset{x}
  {
    if s == [] || s[|s| - 1].createdAt <= x.createdAt then s + [x]
    else
      var r' := InsertByCreatedAt(s[..|s| - 1], x);
      InsertedNotLaterThanLast(s, x, r');
      assert s == s[..|s| - 1] + [s[|s| - 1]];
      r' + [s[|s| - 1]]
  }

  /** Inserting a record earlier than the last one into the rest of a
      sorted list gives records none of which is later than the last. */
  lemma InsertedNotLaterThanLast(s: seq<AssessmentRecord>, x: AssessmentRecord, r: seq<AssessmentRecord>)
    requires SortedByCreatedAt(s) && s != [] && x.createdAt < s[|s| - 1].createdAt
    requires multiset(r) == multiset(s[..|s| - 1]) + multiset{x}
    ensures forall k :: 0 <= k < |r| ==> r[k].createdAt <= s[|s| - 1].createdAt
  {
    var init := s[..|s| - 1];
    forall k | 0 <= k < |r| ensures r[k].createdAt <= s[|s| - 1].createdAt {
      assert r[k] in multiset(r);
      if r[k] != x {
        assert r[k] in multiset(init);
        var m :| 0 <= m < |init| && init[m] == r[k];
        assert s[m] == r[k];
      }
    }
  }

  /** Insertion sort by `createdAt`; records with equal times keep their
      store order. */
  function SortByCreatedAt(s: seq<AssessmentRecord>): (r: seq<AssessmentRecord>)
    ensures SortedByCreatedAt(r)
    ensures multiset(r) == multiset(s)
  {
    if s == [] then []
    else
      assert s == s[..|s| - 1] + [s[|s| - 1]];
      InsertByCreatedAt(SortByCreatedAt(s[..|s| - 1]), s[|s| - 1])
  }

  /** The history read: the user's records, oldest first. */
  function GetHistory(store: seq<AssessmentRecord>, userId: string): seq<AssessmentRecord> {
    SortByCreatedAt(RecordsOf(store, userId))
  }

  datatype HistoryResponse = HistoryResponse(hasHistory: bool, history: seq<AssessmentRecord>)

  /** The history holds exactly the user's stored records. */
  lemma HistoryMembership(store: seq<AssessmentRecord>, userId: string)
    ensures forall x :: x in GetHistory(store, userId) <==> x in store && x.userId == JStr(userId)
    ensures |GetHistory(store, userId)| > 0
        <==> exists i :: 0 <= i < |store| && store[i].userId == JStr(userId)
  {
    var h := GetHistory(store, userId);
    assert forall x :: x in h <==> x in multiset(h);
    assert forall x :: x in RecordsOf(store, userId) <==> x in multiset(RecordsOf(store, userId));
    if exists i :: 0 <= i < |store| && store[i].userId == JStr(userId) {
      var i :| 0 <= i < |store| && store[i].userId == JStr(userId);
      assert store[i] in h;
    }
    if |h| > 0 {
      assert h[0] in h;
      var i :| 0 <= i < |store| && store[i] == h[0];
    }
  }

  /** A saved assessment is read back by its user's history with the
      feature values the request carried, each through `Number(...)`. */
  lemma SavedAssessmentReadBack(store: seq<AssessmentRecord>, body: map<string, Json>,
                                scorer: map<string, Json> -> ScorerReply, now: int, userId: string)
    requires Get(body, "userId") == Some(JStr(userId))
    requires SubmitAssessment(store, body, scorer, now).response.AssessmentSaved?
    ensures var o := SubmitAssessment(store, body, scorer, now);
      exists x :: x in GetHistory(o.store, userId)
        && x == o.response.assessment
        && x.age == ToNumber(Get(body, "age"))
        && x.sleepHours == ToNumber(Get(body, "sleepHours"))
        && x.exerciseFrequency == ToNumber(Get(body, "exerciseFrequency"))
        && x.academicPressure == ToNumber(Get(body, "academicPressure"))
        && x.financialPressure == ToNumber(Get(body, "financialPressure"))
        && x.studyHours == ToNumber(Get(body, "studyHours"))
        && x.screenTime == ToNumber(Get(body, "screenTime"))
        && x.stressLevel == Some(o.response.predictedScore)
  {
    var o := SubmitAssessment(store, body, scorer, now);
    var x := o.response.assessment;
    HistoryMembership(o.store, userId);
    assert x == o.store[|store|];
    assert x in GetHistory(o.store, userId);
  }

  function GetHistoryRoute(store: seq<AssessmentRecord>, userId: string): (r: HistoryResponse)
    ensures r.hasHistory <==> |r.history| > 0
    ensures r.hasHistory <==> exists i :: 0 <= i < |store| && store[i].userId == JStr(userId)
    ensures SortedByCreatedAt(r.history)
    ensures multiset(r.history) == multiset(RecordsOf(store, userId))
    ensures forall x :: x in r.history <==> x in store && x.userId == JStr(userId)
  {
    var h := GetHistory(store, userId);
    HistoryMembership(store, userId);
    HistoryResponse(|h| > 0, h)
  }

  lemma {:induction false} RecordsOfSorted(store: seq<AssessmentRecord>, userId: string)
    requires SortedByCreatedAt(store)
    ensures SortedByCreatedAt(RecordsOf(store, userId))
  {
    if store != [] {
      var init, last := store[..|store| - 1], store[|store| - 1];
      assert SortedByCreatedAt(init) by {
        forall i, j | 0 <= i < j < |init| ensures init[i].createdAt <= init[j].createdAt {
          assert init[i] == store[i] && init[j] == store[j];
        }
      }
      RecordsOfSorted(init, userId);
      var r := RecordsOf(init, userId);
      forall k | 0 <= k < |r| ensures r[k].createdAt <= last.createdAt {
        NotLaterThanLast(store, r[k]);
      }
      assert RecordsOf(store, userId) == r + (if last.userId == JStr(userId) then [last] else []);
    }
  }

  /** A record of the rest of a sorted store is not later than its last. */
  lemma NotLaterThanLast(store: seq<AssessmentRecord>, x: AssessmentRecord)
    requires SortedByCreatedAt(store) && store != [] && x in store[..|store| - 1]
    ensures x.createdAt <= store[|store| - 1].createdAt
  {
    var m :| 0 <= m < |store| - 1 && store[..|store| - 1][m] == x;
    assert store[m] == x;
  }

  lemma {:induction false} SortOfSortedIsIdentity(s: seq<AssessmentRecord>)
    requires SortedByCreatedAt(s)
    ensures SortByCreatedAt(s) == s
  {
    if s != [] {
      var init, last := s[..|s| - 1], s[|s| - 1];
      assert SortedByCreatedAt(init) by {
        forall i, j | 0 <= i < j < |init| ensures init[i].createdAt <= init[j].createdAt {
          assert init[i] == s[i] && init[j] == s[j];
        }
      }
      SortOfSortedIsIdentity(init);
      assert SortByCreatedAt(s) == InsertByCreatedAt(init, last);
      assert init == [] || init[|init| - 1].createdAt <= last.createdAt by {
        if init != [] { assert init[|init| - 1] == s[|s| - 2]; }
      }
      InsertAtEnd(init, last);
      assert s == init + [last];
    }
  }

  lemma InsertAtEnd(s: seq<AssessmentRecord>, x: AssessmentRecord)
    requires SortedByCreatedAt(s) && (s == [] || s[|s| - 1].createdAt <= x.createdAt)
    ensures InsertByCreatedAt(s, x) == s + [x]
  {
  }

  /** When the store's times never go backwards (records are stamped at
      save time and only appended), the history is the user's records in
      the order they were saved. */
  lemma {:induction false} HistoryInSaveOrder(store: seq<AssessmentRecord>, userId: string)
    requires SortedByCreatedAt(store)
    ensures GetHistory(store, userId) == RecordsOf(store, userId)
  {
    RecordsOfSorted(store, userId);
    SortOfSortedIsIdentity(RecordsOf(store, userId));
  }
}
