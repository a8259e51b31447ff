/**
 * The aggregate statistics of GetModuleAnalytics and GetQuizAnalytics: every
 * user's records of one module are counted, passed against a threshold,
 * summed for the truncated averages, and tallied per answered element.
 */
module Analytics {
  import opened Common
  import opened Models

  /** Per-element tally: how many records answered it, how many of those were marked correct. */
  datatype ElementStat = ElementStat(attempts: nat, correct: nat)

  /** The integer part of an analytics response (the float pass rates are not modelled). */
  datatype Summary = Summary(
    totalAttempts: nat,
    totalPassed: nat,
    averageScore: int,
    averageTime: int,
    elementStats: map<string, ElementStat>)

  /** The records of module `moduleID` among `ms`, in order. */
  function RecordsOf(ms: seq<UserModule>, moduleID: int): (r: seq<UserModule>)
    ensures |r| <= |ms|
    decreases |ms|
  {
    if ms == [] then []
    else
      var rest := RecordsOf(ms[..|ms| - 1], moduleID);
      if ms[|ms| - 1].moduleID == moduleID then rest + [ms[|ms| - 1]] else rest
  }

  /** Every user's records of module `moduleID`: users in order, each user's records in order. */
  function Attempts(users: seq<User>, moduleID: int): seq<UserModule>
    decreases |users|
  {
    if users == [] then []
    else Attempts(users[..|users| - 1], moduleID) + RecordsOf(users[|users| - 1].modules, moduleID)
  }

  function StatOf(stats: map<string, ElementStat>, k: string): ElementStat {
    if k in stats then stats[k] else ElementStat(0, 0)
  }

  function Counted(s: ElementStat, a: Answer): ElementStat {
    ElementStat(s.attempts + 1, s.correct + if a.correct then 1 else 0)
  }

  /** The tally after one record: each answered element counted once more. */
  function Tally(stats: map<string, ElementStat>, answers: map<string, Answer>): map<string, ElementStat> {
    map k | k in stats.Keys + answers.Keys :: if k in answers then Counted(StatOf(stats, k), answers[k]) else stats[k]
  }

  /** The tally after all of `records`, in order. */
  function StatsOf(records: seq<UserModule>): map<string, ElementStat>
    decreases |records|
  {
    if records == [] then map[]
    else Tally(StatsOf(records[..|records| - 1]), records[|records| - 1].answers)
  }

  function PassedCount(records: seq<UserModule>, threshold: int): (n: nat)
    ensures n <= |records|
    decreases |records|
  {
    if records == [] then 0
    else PassedCount(records[..|records| - 1], threshold) + (if records[|records| - 1].score >= threshold then 1 else 0)
  }

  function ScoreSum(records: seq<UserModule>): int
    decreases |records|
  {
    if records == [] then 0 else ScoreSum(records[..|records| - 1]) + records[|records| - 1].score
  }

  function TimeSum(records: seq<UserModule>): int
    decreases |records|
  {
    if records == [] then 0 else TimeSum(records[..|records| - 1]) + records[|records| - 1].timePassed
  }

  /** The statistics of `records`: averages truncated toward zero as Go's `/` does. */
  function Summarize(records: seq<UserModule>, threshold: int): Summary {
    var n := |records|;
    Summary(
      n,
      PassedCount(records, threshold),
      if n > 0 then GoDiv(ScoreSum(records), n) else 0,
      if n > 0 then GoDiv(TimeSum(records), n) else 0,
      StatsOf(records))
  }

  /** The inner loop over one record's answers; map order does not matter. */
  method TallyAnswers(stats: map<string, ElementStat>, answers: map<string, Answer>) returns (out: map<string, ElementStat>)
    ensures out == Tally(stats, answers)
  {
    out := stats;
    var todo := answers.Keys;
    while todo != {}
      invariant todo <= answers.Keys
      invariant out == Tally(stats, map k | k in answers && k !in todo :: answers[k])
      decreases todo
    {
      var k :| k in todo;
      ghost var before := map x | x in answers && x !in todo :: answers[x];
      ghost var after := map x | x in answers && x !in todo - {k} :: answers[x];
      assert after == before[k := answers[k]];
      TallyStep(stats, before, k, answers[k]);
      out := out[k := Counted(StatOf(out, k), answers[k])];
      todo := todo - {k};
    }
    assert (map k | k in answers && k !in todo :: answers[k]) == answers;
  }

  /** Tallying one more answer, of an element not yet tallied from this record. */
  lemma TallyStep(stats: map<string, ElementStat>, before: map<string, Answer>, k: string, a: Answer)
    requires k !in before
    ensures StatOf(Tally(stats, before), k) == StatOf(stats, k)
    ensures Tally(stats, before)[k := Counted(StatOf(stats, k), a)] == Tally(stats, before[k := a])
  {
  }

  /** The running totals of the collection loop: attempts, passes, score and time sums, and the tally. */
  datatype Totals = Totals(attempts: nat, passed: nat, scoreSum: int, timeSum: int, stats: map<string, ElementStat>)

  /** The totals after `seen`, in order. */
  function TotalsOf(seen: seq<UserModule>, threshold: int): Totals {
    Totals(|seen|, PassedCount(seen, threshold), ScoreSum(seen), TimeSum(seen), StatsOf(seen))
  }

  /** One more record of the module: every total takes it into account. */
  method AddRecord(ghost seen: seq<UserModule>, m: UserModule, threshold: int, t: Totals) returns (t': Totals)
    requires t == TotalsOf(seen, threshold)
    ensures t' == TotalsOf(seen + [m], threshold)
  {
    assert (seen + [m])[..|seen|] == seen;
    var stats := TallyAnswers(t.stats, m.answers);
    t' := Totals(t.attempts + 1, t.passed + if m.score >= threshold then 1 else 0,
                 t.scoreSum + m.score, t.timeSum + m.timePassed, stats);
  }

  /** The inner loop over one user's records: those of the module are added in order. */
  method AddUserRecords(ghost seen: seq<UserModule>, ms: seq<UserModule>, moduleID: int, threshold: int, t: Totals)
    returns (t': Totals)
    requires t == TotalsOf(seen, threshold)
    ensures t' == TotalsOf(seen + RecordsOf(ms, moduleID), threshold)
  {
    t' := t;
    assert seen + RecordsOf(ms[..0], moduleID) == seen;
    for j := 0 to |ms|
      invariant t' == TotalsOf(seen + RecordsOf(ms[..j], moduleID), threshold)
    {
      assert ms[..j + 1][..j] == ms[..j];
      ghost var before := seen + RecordsOf(ms[..j], moduleID);
      if ms[j].moduleID == moduleID {
        t' := AddRecord(before, ms[j], threshold, t');
        assert before + [ms[j]] == seen + RecordsOf(ms[..j + 1], moduleID);
      } else {
        assert before == seen + RecordsOf(ms[..j + 1], moduleID);
      }
    }
    assert ms[..|ms|] == ms;
  }

  /** The collection loop of the analytics handlers, over users and then their records. */
  method Aggregate(users: seq<User>, moduleID: int, threshold: int) returns (s: Summary)
    ensures s == Summarize(Attempts(users, moduleID), threshold)
  {
    var t := Totals(0, 0, 0, 0, map[]);
    for i := 0 to |users|
      invariant t == TotalsOf(Attempts(users[..i], moduleID), threshold)
    {
      assert users[..i + 1][..i] == users[..i];
      t := AddUserRecords(Attempts(users[..i], moduleID), users[i].modules, moduleID, threshold, t);
    }
    assert users[..|users|] == users;
    var averageScore, averageTime := t.scoreSum, t.timeSum;
    if t.attempts > 0 {
      averageScore := GoDiv(averageScore, t.attempts);
      averageTime := GoDiv(averageTime, t.attempts);
    }
    s := Summary(t.attempts, t.passed, averageScore, averageTime, t.stats);
  }

  function AnsweredCount(records: seq<UserModule>, k: string): (n: nat)
    ensures n <= |records|
    decreases |records|
  {
    if records == [] then 0
    else AnsweredCount(records[..|records| - 1], k) + (if k in records[|records| - 1].answers then 1 else 0)
  }

  function CorrectCount(records: seq<UserModule>, k: string): nat
    decreases |records|
  {
    if records == [] then 0
    else
      var a := records[|records| - 1].answers;
      CorrectCount(records[..|records| - 1], k) + (if k in a && a[k].correct then 1 else 0)
  }

  /**
   * An element appears in the statistics exactly when some record answered
   * it, and its tally is the number of records that answered it and the
   * number of those whose answer was marked correct.
   */
  lemma {:induction false} StatsMeaning(records: seq<UserModule>, k: string)
    ensures (k in StatsOf(records)) <==> AnsweredCount(records, k) > 0
    ensures StatOf(StatsOf(records), k) == ElementStat(AnsweredCount(records, k), CorrectCount(records, k))
    decreases |records|
  {
    if records != [] {
      StatsMeaning(records[..|records| - 1], k);
    }
  }

  lemma {:induction false} CorrectAtMostAnswered(records: seq<UserModule>, k: string)
    ensures CorrectCount(records, k) <= AnsweredCount(records, k)
    decreases |records|
  {
    if records != [] {
      CorrectAtMostAnswered(records[..|records| - 1], k);
    }
  }

  lemma {:induction false} ScoreSumBounded(records: seq<UserModule>)
    requires forall i :: 0 <= i < |records| ==> 0 <= records[i].score <= 100
    ensures 0 <= ScoreSum(records) <= 100 * |records|
    decreases |records|
  {
    if records != [] {
      ScoreSumBounded(records[..|records| - 1]);
    }
  }

  /**
   * The passed count never exceeds the attempts, and no element is marked
   * correct more often than it was answered or answered more often than
   * there are attempts.
   */
  lemma SummaryCounts(records: seq<UserModule>, threshold: int)
    ensures var s := Summarize(records, threshold);
      && s.totalPassed <= s.totalAttempts
      && (forall k :: k in s.elementStats ==> s.elementStats[k].correct <= s.elementStats[k].attempts <= s.totalAttempts)
  {
    var stats := StatsOf(records);
    forall k | k in stats
      ensures stats[k].correct <= stats[k].attempts <= |records|
    {
      StatsMeaning(records, k);
      CorrectAtMostAnswered(records, k);
    }
  }

  /** When every recorded score is a percentage, so is the average score. */
  lemma AverageScoreBounded(records: seq<UserModule>, threshold: int)
    requires forall i :: 0 <= i < |records| ==> 0 <= records[i].score <= 100
    ensures 0 <= Summarize(records, threshold).averageScore <= 100
  {
    var n := |records|;
    if n > 0 {
      ScoreSumBounded(records);
      var sum := ScoreSum(records);
      var q := GoDiv(sum, n);
      assert sum >= 0;
      assert q >= 0 && Abs(q) == q && Abs(sum) == sum;
      assert q * n <= sum <= 100 * n;
      if q > 100 {
        MulMono(101, q, n);
        assert false;
      }
    }
  }

  /** Records of other modules never enter the statistics. */
  lemma {:induction false} AttemptsAreOfModule(users: seq<User>, moduleID: int)
    ensures forall i :: 0 <= i < |Attempts(users, moduleID)| ==> Attempts(users, moduleID)[i].moduleID == moduleID
    decreases |users|
  {
    if users != [] {
      AttemptsAreOfModule(users[..|users| - 1], moduleID);
      RecordsOfModule(users[|users| - 1].modules, moduleID);
    }
  }

  lemma {:induction false} RecordsOfModule(ms: seq<UserModule>, moduleID: int)
    ensures forall i :: 0 <= i < |RecordsOf(ms, moduleID)| ==> RecordsOf(ms, moduleID)[i].moduleID == moduleID
    decreases |ms|
  {
    if ms != [] {
      RecordsOfModule(ms[..|ms| - 1], moduleID);
    }
  }
}
