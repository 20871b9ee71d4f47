/** How the pieces fit together: records the assessment handler stores are
    valid and carry a score, the history route returns them, and the
    returning-user dashboard (src/ExistingUserHome.jsx) summarises the
    `stressLevel` of each returned record. */
module Pipeline {
  import opened Js
  import opened AssessmentSchema
  import Server
  import Dashboard

  /** A stored record that passed the schema and holds a numeric score. */
  predicate Scored(r: AssessmentRecord) {
    Valid(r) && r.stressLevel.Some? && r.stressLevel.value.Num?
  }

  predicate AllScored(store: seq<AssessmentRecord>) {
    forall i :: 0 <= i < |store| ==> Scored(store[i])
  }

  /** Every submission, whatever its outcome, keeps every stored record
      valid and scored. */
  lemma SubmitKeepsStoreScored(store: seq<AssessmentRecord>, body: map<string, Json>,
                               scorer: map<string, Json> -> Server.ScorerReply, now: int)
    requires AllScored(store)
    ensures AllScored(Server.SubmitAssessment(store, body, scorer, now).store)
  {
    var o := Server.SubmitAssessment(store, body, scorer, now);
    if o.response.AssessmentSaved? {
      forall i | 0 <= i < |o.store| ensures Scored(o.store[i]) {
        if i < |store| {
          assert o.store[i] == store[i];
        }
      }
    }
  }

  /** What the dashboard reads from one history record. */
  function ToHistoryItem(r: AssessmentRecord): (item: Dashboard.HistoryItem)
    requires Scored(r)
    ensures 0 <= item.stressLevel <= 100 && item.createdAt == r.createdAt
  {
    Dashboard.HistoryItem(r.createdAt, r.stressLevel.value.v)
  }

  function ToHistoryItems(history: seq<AssessmentRecord>): (items: seq<Dashboard.HistoryItem>)
    requires AllScored(history)
    ensures |items| == |history|
    ensures forall i :: 0 <= i < |items| ==> items[i] == ToHistoryItem(history[i])
  {
    seq(|history|, i requires 0 <= i < |history| => ToHistoryItem(history[i]))
  }

  /** The dashboard of a user who has saved at least one assessment shows
      a summary whose statistics all lie in the schema's 0 to 100 range,
      and whose count is the number of that user's records. */
  lemma DashboardOfStoredHistory(store: seq<AssessmentRecord>, userId: string)
    requires AllScored(store)
    requires exists i :: 0 <= i < |store| && store[i].userId == JStr(userId)
    ensures var h := Server.GetHistoryRoute(store, userId).history;
      && AllScored(h)
      && var d := Dashboard.Summarize(ToHistoryItems(h));
      && d.Summary?
      && d.total == |Server.RecordsOf(store, userId)|
      && 0 <= d.lowest <= d.average <= d.highest <= 100
      && 0 <= d.latest <= 100
  {
    var route := Server.GetHistoryRoute(store, userId);
    var h := route.history;
    forall k | 0 <= k < |h| ensures Scored(h[k]) {
      assert h[k] in h;
      var i :| 0 <= i < |store| && store[i] == h[k];
    }
    assert |h| == |Server.RecordsOf(store, userId)| by {
      assert |multiset(h)| == |multiset(Server.RecordsOf(store, userId))|;
    }
    var items := ToHistoryItems(h);
    assert items != [];
    Dashboard.StatisticsWithinScoreRange(items);
  }
}
