/**
 * The older quiz handlers over the same records as the module-attempt
 * handlers. They differ in grading (no content skipping, text credited
 * whenever the question has a pattern, essays and projects never credited),
 * in presentation (stored order, no sorting), in results (no elements), and
 * in analytics (no module lookup, a fixed 70 percent pass mark).
 */
module Quiz {
  import opened Common
  import opened Models
  import opened Grading
  import opened AttemptRecords
  import opened Analytics

  /** The pass mark GetQuizAnalytics assumes for every quiz. */
  const QuizPassMark := 70

  /** What GetQuizResults sends back. */
  datatype QuizResultsView = QuizResultsView(moduleInfo: Module, record: UserModule, passed: bool)

  /** Starts a quiz: its elements in store order, loaded, with answers hidden. */
  method StartQuiz(idParam: string, modules: map<int, Module>, store: seq<ModuleElement>, elements: map<int, Element>)
    returns (r: Result<Session>)
    ensures ParseInt64(idParam).None? ==> r == Fail(BadRequest)
    ensures ParseInt64(idParam).Some? && ParseInt64(idParam).value !in modules ==> r == Fail(NotFound)
    ensures ParseInt64(idParam).Some? && ParseInt64(idParam).value in modules ==>
      var id := ParseInt64(idParam).value;
      r == Ok(Session(ModuleByID(modules, id), Resolved(ElementsOfModule(store, id), elements)))
    ensures r.Ok? ==> forall i :: 0 <= i < |r.value.elements| ==> Sanitized(r.value.elements[i])
  {
    var parsed := ParseInt64(idParam);
    if parsed.None? {
      return Fail(BadRequest);
    }
    var moduleID := parsed.value;
    if moduleID !in modules {
      return Fail(NotFound);
    }
    var theModule := ModuleByID(modules, moduleID);
    var loaded := ResolveElements(ElementsOfModule(store, moduleID), elements);
    r := Ok(Session(theModule, loaded));
  }

  /** Grades a submission under quiz rules and records it; every error leaves the user store as it was. */
  method SubmitQuiz(idParam: string, userParam: string, body: Option<Submission>,
                    modules: map<int, Module>, store: seq<ModuleElement>, elements: map<int, Element>,
                    users: map<int, User>, date: string)
    returns (r: Result<AttemptResult>, users': map<int, User>)
    ensures ParseInt64(idParam).None? || ParseInt64(userParam).None? || body.None? ==> r == Fail(BadRequest)
    ensures ParseInt64(idParam).Some? && ParseInt64(userParam).Some? && body.Some? ==>
      var moduleID, userID := ParseInt64(idParam).value, ParseInt64(userParam).value;
      && (moduleID !in modules || userID !in users ==> r == Fail(NotFound))
      && (moduleID in modules && userID in users ==>
            var g := Graded(QuizRules, ElementsOfModule(store, moduleID), elements, body.value.answers);
            var pct := Percentage(g.score, g.maxScore);
            && r == Ok(AttemptResult(g.score, g.maxScore, modules[moduleID].minPassing, pct >= modules[moduleID].minPassing))
            && users' == Recorded(users, userID, UserModule(userID, moduleID, g.answers, date, pct, body.value.timeSpent)))
    ensures r.Fail? ==> users' == users
  {
    users' := users;
    var parsedModule := ParseInt64(idParam);
    if parsedModule.None? {
      return Fail(BadRequest), users';
    }
    var parsedUser := ParseInt64(userParam);
    if parsedUser.None? {
      return Fail(BadRequest), users';
    }
    if body.None? {
      return Fail(BadRequest), users';
    }
    var moduleID, userID, submission := parsedModule.value, parsedUser.value, body.value;
    if moduleID !in modules {
      return Fail(NotFound), users';
    }
    var theModule := ModuleByID(modules, moduleID);
    if userID !in users {
      return Fail(NotFound), users';
    }
    var user := users[userID];
    var quizElements := ElementsOfModule(store, moduleID);
    var score, maxScore, answers := Grade(QuizRules, quizElements, elements, submission.answers);
    var percentage := Percentage(score, maxScore);
    var passed := percentage >= theModule.minPassing;
    var record := UserModule(userID, moduleID, answers, date, percentage, submission.timeSpent);
    var updated := Upsert(user.modules, record);
    users' := users[userID := user.(modules := updated)];
    r := Ok(AttemptResult(score, maxScore, theModule.minPassing, passed));
  }

  /**
   * Under quiz rules the max score is the number of the module's elements,
   * loaded or not, so content elements and missing elements lower the
   * percentage a learner can reach.
   */
  lemma QuizMaxScore(store: seq<ModuleElement>, moduleID: int, elements: map<int, Element>, answers: map<string, Answer>)
    ensures var g := Graded(QuizRules, ElementsOfModule(store, moduleID), elements, answers);
      && g.maxScore == |ElementsOfModule(store, moduleID)|
      && 0 <= g.score <= g.maxScore
  {
    GradedBounds(QuizRules, ElementsOfModule(store, moduleID), elements, answers);
  }

  /**
   * One content element: quiz rules count it in the max score and never
   * credit it, while module rules skip it and leave a max score of 0.
   */
  lemma ContentOnlyQuiz(answers: map<string, Answer>)
    ensures
      var e := Element(4, "intro", "content", [], "", "", 0, 0);
      var mes := [ModuleElement(1, 2, 4, 0)];
      && Graded(QuizRules, mes, map[4 := e], answers).maxScore == 1
      && Graded(QuizRules, mes, map[4 := e], answers).score == 0
      && Graded(ModuleRules, mes, map[4 := e], answers).maxScore == 0
  {
    var mes := [ModuleElement(1, 2, 4, 0)];
    assert mes[..0] == [];
    assert FormatInt(4) == "4" by {
      assert NatToString(4) == [DigitChar(4)];
    }
  }

  /** Reads a learner's record of a quiz and the module. */
  method GetQuizResults(idParam: string, userParam: string, users: map<int, User>, modules: map<int, Module>)
    returns (r: Result<QuizResultsView>)
    ensures ParseInt64(idParam).None? || ParseInt64(userParam).None? ==> r == Fail(BadRequest)
    ensures ParseInt64(idParam).Some? && ParseInt64(userParam).Some? ==>
      var moduleID, userID := ParseInt64(idParam).value, ParseInt64(userParam).value;
      && (userID !in users ==> r == Fail(NotFound))
      && (userID in users && Lookup(users[userID].modules, moduleID).None? ==> r == Fail(NotFound))
      && (userID in users && Lookup(users[userID].modules, moduleID).Some? && moduleID !in modules ==> r == Fail(NotFound))
      && (userID in users && Lookup(users[userID].modules, moduleID).Some? && moduleID in modules ==>
            var rec := Lookup(users[userID].modules, moduleID).value;
            r == Ok(QuizResultsView(ModuleByID(modules, moduleID), rec, rec.score >= modules[moduleID].minPassing)))
  {
    var parsedModule := ParseInt64(idParam);
    if parsedModule.None? {
      return Fail(BadRequest);
    }
    var parsedUser := ParseInt64(userParam);
    if parsedUser.None? {
      return Fail(BadRequest);
    }
    var moduleID, userID := parsedModule.value, parsedUser.value;
    if userID !in users {
      return Fail(NotFound);
    }
    var found := FindRecord(users[userID].modules, moduleID);
    if found.None? {
      return Fail(NotFound);
    }
    var record := found.value;
    if moduleID !in modules {
      return Fail(NotFound);
    }
    var theModule := ModuleByID(modules, moduleID);
    r := Ok(QuizResultsView(theModule, record, record.score >= theModule.minPassing));
  }

  /** Aggregates every learner's record of the quiz against the fixed pass mark, without looking the module up. */
  method GetQuizAnalytics(idParam: string, allUsers: seq<User>) returns (r: Result<Summary>)
    ensures ParseInt64(idParam).None? ==> r == Fail(BadRequest)
    ensures ParseInt64(idParam).Some? ==> r == Ok(Summarize(Attempts(allUsers, ParseInt64(idParam).value), QuizPassMark))
  {
    var parsed := ParseInt64(idParam);
    if parsed.None? {
      return Fail(BadRequest);
    }
    var summary := Aggregate(allUsers, parsed.value, QuizPassMark);
    r := Ok(summary);
  }

  /** Deletes every one of the learner's records of the quiz's module. */
  method ResetQuiz(idParam: string, userParam: string, users: map<int, User>)
    returns (r: Result<()>, users': map<int, User>)
    ensures ParseInt64(idParam).None? || ParseInt64(userParam).None? ==> r == Fail(BadRequest)
    ensures ParseInt64(idParam).Some? && ParseInt64(userParam).Some? ==>
      var moduleID, userID := ParseInt64(idParam).value, ParseInt64(userParam).value;
      && (userID !in users ==> r == Fail(NotFound))
      && (userID in users ==> r == Ok(()) && users' == Reset(users, userID, moduleID))
    ensures r.Fail? ==> users' == users
  {
    users' := users;
    var parsedModule := ParseInt64(idParam);
    if parsedModule.None? {
      return Fail(BadRequest), users';
    }
    var parsedUser := ParseInt64(userParam);
    if parsedUser.None? {
      return Fail(BadRequest), users';
    }
    var moduleID, userID := parsedModule.value, parsedUser.value;
    if userID !in users {
      return Fail(NotFound), users';
    }
    var user := users[userID];
    var remaining := RemoveModule(user.modules, moduleID);
    users' := users[userID := user.(modules := remaining)];
    r := Ok(());
  }
}
