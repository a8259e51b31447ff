/**
 * The module-attempt handlers: start a module (sorted, sanitised elements),
 * submit and grade it, read a learner's result, aggregate analytics over
 * all learners, and reset an attempt. Path parameters arrive as strings and
 * are parsed as base-10 int64; the stores are passed in as values and the
 * updated user store is returned.
 */
module ModuleAttempt {
  import opened Common
  import opened Models
  import opened Grading
  import opened AttemptRecords
  import opened Analytics
  import opened ElementOrder

  /** What GetModuleResults sends back. */
  datatype ResultsView = ResultsView(moduleInfo: Module, record: UserModule, elements: seq<Element>, passed: bool)

  /** Starts a module: its elements ordered stably by sort key, loaded, with answers hidden. */
  method StartModule(idParam: string, modules: map<int, Module>, store: seq<ModuleElement>, elements: map<int, Element>)
    returns (r: Result<Session>)
    ensures ParseInt64(idParam).None? ==> r == Fail(BadRequest)
    ensures ParseInt64(idParam).Some? && ParseInt64(idParam).value !in modules ==> r == Fail(NotFound)
    ensures ParseInt64(idParam).Some? && ParseInt64(idParam).value in modules ==>
      var id := ParseInt64(idParam).value;
      r == Ok(Session(ModuleByID(modules, id), Resolved(KeySorted(ElementsOfModule(store, id)), elements)))
    ensures r.Ok? ==> forall i :: 0 <= i < |r.value.elements| ==> Sanitized(r.value.elements[i])
  {
    var parsed := ParseInt64(idParam);
    if parsed.None? {
      return Fail(BadRequest);
    }
    var moduleID := parsed.value;
    if moduleID !in modules {
      return Fail(NotFound);
    }
    var theModule := ModuleByID(modules, moduleID);
    var moduleElements := ElementsOfModule(store, moduleID);
    var sorted := new ModuleElement[|moduleElements|];
    for i := 0 to |moduleElements|
      invariant forall k :: 0 <= k < i ==> sorted[k] == moduleElements[k]
    {
      sorted[i] := moduleElements[i];
    }
    assert sorted[..] == moduleElements;
    SortByKey(sorted);
    SortByKeyIsStable(moduleElements, sorted[..]);
    var loaded := ResolveElements(sorted[..], elements);
    r := Ok(Session(theModule, loaded));
  }

  /**
   * Grades a submission under module rules, records it as the learner's
   * record for the module (score stored as a percentage), and returns the raw
   * score. Every error leaves the user store as it was.
   */
  method SubmitModule(idParam: string, userParam: string, body: Option<Submission>,
                      modules: map<int, Module>, store: seq<ModuleElement>, elements: map<int, Element>,
                      users: map<int, User>, date: string)
    returns (r: Result<AttemptResult>, users': map<int, User>)
    ensures ParseInt64(idParam).None? || ParseInt64(userParam).None? || body.None? ==> r == Fail(BadRequest)
    ensures ParseInt64(idParam).Some? && ParseInt64(userParam).Some? && body.Some? ==>
      var moduleID, userID := ParseInt64(idParam).value, ParseInt64(userParam).value;
      && (moduleID !in modules || userID !in users ==> r == Fail(NotFound))
      && (moduleID in modules && userID in users ==>
            var g := Graded(ModuleRules, ElementsOfModule(store, moduleID), elements, body.value.answers);
            var pct := Percentage(g.score, g.maxScore);
            && r == Ok(AttemptResult(g.score, g.maxScore, modules[moduleID].minPassing, pct >= modules[moduleID].minPassing))
            && users' == Recorded(users, userID, UserModule(userID, moduleID, g.answers, date, pct, body.value.timeSpent)))
    ensures r.Fail? ==> users' == users
  {
    users' := users;
    var parsedModule := ParseInt64(idParam);
    if parsedModule.None? {
      return Fail(BadRequest), users';
    }
    var parsedUser := ParseInt64(userParam);
    if parsedUser.None? {
      return Fail(BadRequest), users';
    }
    if body.None? {
      return Fail(BadRequest), users';
    }
    var moduleID, userID, submission := parsedModule.value, parsedUser.value, body.value;
    if moduleID !in modules {
      return Fail(NotFound), users';
    }
    var theModule := ModuleByID(modules, moduleID);
    if userID !in users {
      return Fail(NotFound), users';
    }
    var user := users[userID];
    var moduleElements := ElementsOfModule(store, moduleID);
    var score, maxScore, answers := Grade(ModuleRules, moduleElements, elements, submission.answers);
    var percentage := Percentage(score, maxScore);
    var passed := percentage >= theModule.minPassing;
    var record := UserModule(userID, moduleID, answers, date, percentage, submission.timeSpent);
    var updated := Upsert(user.modules, record);
    users' := users[userID := user.(modules := updated)];
    r := Ok(AttemptResult(score, maxScore, theModule.minPassing, passed));
  }

  /**
   * A recorded submission is what GetModuleResults then finds: its stored
   * score is a percentage in 0..100, and the raw score lies within the max.
   */
  lemma SubmitThenResults(users: map<int, User>, userID: int, moduleID: int,
                          store: seq<ModuleElement>, elements: map<int, Element>, sub: Submission, date: string)
    requires userID in users
    ensures
      var g := Graded(ModuleRules, ElementsOfModule(store, moduleID), elements, sub.answers);
      var pct := Percentage(g.score, g.maxScore);
      var rec := UserModule(userID, moduleID, g.answers, date, pct, sub.timeSpent);
      var after := Recorded(users, userID, rec);
      && Lookup(after[userID].modules, moduleID) == Some(rec)
      && 0 <= g.score <= g.maxScore
      && 0 <= pct <= 100
      && g.answers.Keys == sub.answers.Keys
  {
    var mes := ElementsOfModule(store, moduleID);
    GradedBounds(ModuleRules, mes, elements, sub.answers);
    var g := Graded(ModuleRules, mes, elements, sub.answers);
    var rec := UserModule(userID, moduleID, g.answers, date, Percentage(g.score, g.maxScore), sub.timeSpent);
    UpsertLookup(users[userID].modules, rec);
  }

  /** Reads a learner's record of a module, the module, and its (unstripped) elements. */
  method GetModuleResults(idParam: string, userParam: string, users: map<int, User>,
                          modules: map<int, Module>, store: seq<ModuleElement>, elements: map<int, Element>)
    returns (r: Result<ResultsView>)
    ensures ParseInt64(idParam).None? || ParseInt64(userParam).None? ==> r == Fail(BadRequest)
    ensures ParseInt64(idParam).Some? && ParseInt64(userParam).Some? ==>
      var moduleID, userID := ParseInt64(idParam).value, ParseInt64(userParam).value;
      && (userID !in users ==> r == Fail(NotFound))
      && (userID in users && Lookup(users[userID].modules, moduleID).None? ==> r == Fail(NotFound))
      && (userID in users && Lookup(users[userID].modules, moduleID).Some? && moduleID !in modules ==> r == Fail(NotFound))
      && (userID in users && Lookup(users[userID].modules, moduleID).Some? && moduleID in modules ==>
            var rec := Lookup(users[userID].modules, moduleID).value;
            var loaded := LoadAll(ElementsOfModule(store, moduleID), elements);
            && (loaded.None? ==> r == Fail(InternalError))
            && (loaded.Some? ==> r == Ok(ResultsView(ModuleByID(modules, moduleID), rec, loaded.value, rec.score >= modules[moduleID].minPassing))))
  {
    var parsedModule := ParseInt64(idParam);
    if parsedModule.None? {
      return Fail(BadRequest);
    }
    var parsedUser := ParseInt64(userParam);
    if parsedUser.None? {
      return Fail(BadRequest);
    }
    var moduleID, userID := parsedModule.value, parsedUser.value;
    if userID !in users {
      return Fail(NotFound);
    }
    var found := FindRecord(users[userID].modules, moduleID);
    if found.None? {
      return Fail(NotFound);
    }
    var record := found.value;
    if moduleID !in modules {
      return Fail(NotFound);
    }
    var theModule := ModuleByID(modules, moduleID);
    var loaded := LoadAll(ElementsOfModule(store, moduleID), elements);
    if loaded.None? {
      return Fail(InternalError);
    }
    r := Ok(ResultsView(theModule, record, loaded.value, record.score >= theModule.minPassing));
  }

  /**
   * Aggregates every learner's record of the module (learners in the order
   * the store lists them); passing is judged against the module's own
   * minimum.
   */
  method GetModuleAnalytics(idParam: string, allUsers: seq<User>, modules: map<int, Module>)
    returns (r: Result<Summary>)
    ensures ParseInt64(idParam).None? ==> r == Fail(BadRequest)
    ensures ParseInt64(idParam).Some? && ParseInt64(idParam).value !in modules ==> r == Fail(NotFound)
    ensures ParseInt64(idParam).Some? && ParseInt64(idParam).value in modules ==>
      var id := ParseInt64(idParam).value;
      r == Ok(Summarize(Attempts(allUsers, id), modules[id].minPassing))
  {
    var parsed := ParseInt64(idParam);
    if parsed.None? {
      return Fail(BadRequest);
    }
    var moduleID := parsed.value;
    if moduleID !in modules {
      return Fail(NotFound);
    }
    var summary := Aggregate(allUsers, moduleID, modules[moduleID].minPassing);
    r := Ok(summary);
  }

  /** Deletes every one of the learner's records of the module. */
  method ResetModuleAttempt(idParam: string, userParam: string, users: map<int, User>)
    returns (r: Result<()>, users': map<int, User>)
    ensures ParseInt64(idParam).None? || ParseInt64(userParam).None? ==> r == Fail(BadRequest)
    ensures ParseInt64(idParam).Some? && ParseInt64(userParam).Some? ==>
      var moduleID, userID := ParseInt64(idParam).value, ParseInt64(userParam).value;
      && (userID !in users ==> r == Fail(NotFound))
      && (userID in users ==> r == Ok(()) && users' == Reset(users, userID, moduleID))
    ensures r.Fail? ==> users' == users
  {
    users' := users;
    var parsedModule := ParseInt64(idParam);
    if parsedModule.None? {
      return Fail(BadRequest), users';
    }
    var parsedUser := ParseInt64(userParam);
    if parsedUser.None? {
      return Fail(BadRequest), users';
    }
    var moduleID, userID := parsedModule.value, parsedUser.value;
    if userID !in users {
      return Fail(NotFound), users';
    }
    var user := users[userID];
    var remaining := RemoveModule(user.modules, moduleID);
    users' := users[userID := user.(modules := remaining)];
    r := Ok(());
  }

  /** After a reset the results lookup finds nothing for the module. */
  lemma ResetThenResults(users: map<int, User>, userID: int, moduleID: int)
    requires userID in users
    ensures Lookup(Reset(users, userID, moduleID)[userID].modules, moduleID) == None
    ensures forall u :: u in users && u != userID ==> Reset(users, userID, moduleID)[u] == users[u]
  {
    ResetMeaning(users[userID].modules, moduleID, moduleID + 1);
  }
}
