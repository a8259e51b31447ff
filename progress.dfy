/**
 * Learner progress reports: the overall summary across a learner's
 * enrolments, the per-module report of one course, and the recomputation
 * of an enrolment's grade and dates from the learner's attempt records.
 * The store is stood in for by the user map, the enrolment list, the course
 * map and the module list.
 */
module Progress {
  import opened Common
  import opened Models
  import opened AttemptRecords
  import opened Grading

  /** The store's query for the modules of a course, in store order. */
  function CourseModules(allModules: seq<Module>, courseID: int): (r: seq<Module>)
    ensures forall m :: m in r ==> m in allModules && m.courseID == courseID
  {
    Filter(allModules, (m: Module) => m.courseID == courseID)
  }

  /** The store's query for a learner's enrolments, in store order. */
  function UserCoursesOf(userCourses: seq<UserCourse>, userID: int): (r: seq<UserCourse>)
    ensures forall uc :: uc in r ==> uc in userCourses && uc.userID == userID
  {
    Filter(userCourses, (uc: UserCourse) => uc.userID == userID)
  }

  // ----- counting passed (record, module) pairs -----

  /** 1 when the record is a passing attempt at the module. */
  function Hit(u: UserModule, m: Module): nat {
    if u.moduleID == m.keyID && u.score >= m.minPassing then 1 else 0
  }

  /** Passing pairs of one record with the modules of `mods`. */
  function Row(u: UserModule, mods: seq<Module>): nat
    decreases |mods|
  {
    if mods == [] then 0 else Row(u, mods[..|mods| - 1]) + Hit(u, mods[|mods| - 1])
  }

  /** Passing pairs of the records of `ums` with one module. */
  function Column(ums: seq<UserModule>, m: Module): nat
    decreases |ums|
  {
    if ums == [] then 0 else Column(ums[..|ums| - 1], m) + Hit(ums[|ums| - 1], m)
  }

  /** All passing (record, module) pairs, counted record by record. */
  function PairCount(ums: seq<UserModule>, mods: seq<Module>): nat
    decreases |ums|
  {
    if ums == [] then 0 else PairCount(ums[..|ums| - 1], mods) + Row(ums[|ums| - 1], mods)
  }

  /** The same pairs counted module by module. */
  function ColumnSum(ums: seq<UserModule>, mods: seq<Module>): nat
    decreases |mods|
  {
    if mods == [] then 0 else ColumnSum(ums, mods[..|mods| - 1]) + Column(ums, mods[|mods| - 1])
  }

  lemma {:induction false} PairCountSnocModule(ums: seq<UserModule>, mods: seq<Module>, m: Module)
    ensures PairCount(ums, mods + [m]) == PairCount(ums, mods) + Column(ums, m)
    decreases |ums|
  {
    assert (mods + [m])[..|mods|] == mods;
    if ums != [] {
      PairCountSnocModule(ums[..|ums| - 1], mods, m);
    }
  }

  /** Counting by rows or by columns gives the same number. */
  lemma {:induction false} PairCountByColumns(ums: seq<UserModule>, mods: seq<Module>)
    ensures PairCount(ums, mods) == ColumnSum(ums, mods)
    decreases |mods|
  {
    if mods == [] {
      PairCountNoModules(ums);
    } else {
      var init := mods[..|mods| - 1];
      PairCountByColumns(ums, init);
      PairCountSnocModule(ums, init, mods[|mods| - 1]);
      assert init + [mods[|mods| - 1]] == mods;
    }
  }

  lemma {:induction false} PairCountNoModules(ums: seq<UserModule>)
    ensures PairCount(ums, []) == 0
    decreases |ums|
  {
    if ums != [] {
      PairCountNoModules(ums[..|ums| - 1]);
    }
  }

  lemma {:induction false} ColumnBelowRecords(ums: seq<UserModule>, m: Module)
    ensures Column(ums, m) <= RecordCount(ums, m.keyID)
    decreases |ums|
  {
    if ums != [] {
      ColumnBelowRecords(ums[..|ums| - 1], m);
    }
  }

  lemma {:induction false} ColumnSumBelow(ums: seq<UserModule>, mods: seq<Module>)
    requires forall id :: RecordCount(ums, id) <= 1
    ensures ColumnSum(ums, mods) <= |mods|
    decreases |mods|
  {
    if mods != [] {
      ColumnSumBelow(ums, mods[..|mods| - 1]);
      ColumnBelowRecords(ums, mods[|mods| - 1]);
    }
  }

  /**
   * When a learner has at most one record per module, as recording a
   * submission keeps it, no course counts more completed modules than it has.
   */
  lemma CompletedAtMostModules(ums: seq<UserModule>, mods: seq<Module>)
    requires forall id :: RecordCount(ums, id) <= 1
    ensures PairCount(ums, mods) <= |mods|
  {
    PairCountByColumns(ums, mods);
    ColumnSumBelow(ums, mods);
  }

  /**
   * The nested loop of the overall summary: every passing (record, module)
   * pair raises both the completed and the passed counter, so they agree.
   */
  method CountCompleted(ums: seq<UserModule>, mods: seq<Module>) returns (completed: nat, passed: nat)
    ensures completed == PairCount(ums, mods) && passed == completed
  {
    completed, passed := 0, 0;
    for i := 0 to |ums|
      invariant completed == PairCount(ums[..i], mods) && passed == completed
    {
      assert ums[..i + 1][..i] == ums[..i];
      var row := 0;
      for j := 0 to |mods|
        invariant row == Row(ums[i], mods[..j]) && passed == completed + row
      {
        assert mods[..j + 1][..j] == mods[..j];
        if ums[i].moduleID == mods[j].keyID && ums[i].score >= mods[j].minPassing {
          row := row + 1;
          if ums[i].score >= mods[j].minPassing {
            passed := passed + 1;
          }
        }
      }
      assert mods[..|mods|] == mods;
      completed := completed + row;
    }
    assert ums[..|ums|] == ums;
  }

  // ----- the overall summary -----

  datatype CourseStatus = NotStarted | Finished | InProgress

  /** A zero start date means not started; otherwise a completion date means finished. */
  function StatusOf(startedOn: Time, completedOn: Time): CourseStatus {
    if startedOn == ZeroTime then NotStarted
    else if completedOn != ZeroTime then Finished
    else InProgress
  }

  /** One course of the summary; zero dates stand for the omitted date strings. */
  datatype CourseSummary = CourseSummary(
    courseID: int,
    courseName: string,
    modulesCompleted: nat,
    totalModules: nat,
    progress: int,
    startDate: Time,
    completionDate: Time,
    grade: int)

  datatype UserSummary = UserSummary(
    totalCourses: nat,
    completedCourses: nat,
    inProgressCourses: nat,
    notStartedCourses: nat,
    coursesProgress: seq<CourseSummary>,
    overallProgress: int,
    completedQuizzes: int,
    totalQuizzes: int,
    passedQuizzes: int)

  /** An enrolment contributes a summary when its course loads and has modules. */
  predicate Contributes(uc: UserCourse, courses: map<int, Course>, allModules: seq<Module>) {
    uc.courseID in courses && |CourseModules(allModules, uc.courseID)| > 0
  }

  function SummaryOf(uc: UserCourse, courses: map<int, Course>, allModules: seq<Module>, ums: seq<UserModule>): (s: CourseSummary)
    requires Contributes(uc, courses, allModules)
    ensures s.courseID == uc.courseID && s.courseName == courses[uc.courseID].name
    ensures s.totalModules == |CourseModules(allModules, uc.courseID)| > 0
    ensures s.progress == Percentage(s.modulesCompleted, s.totalModules)
  {
    var course := CourseByID(courses, uc.courseID);
    var mods := CourseModules(allModules, course.keyID);
    var done := PairCount(ums, mods);
    CourseSummary(course.keyID, course.name, done, |mods|, Percentage(done, |mods|), uc.startedOn, uc.completedOn, uc.grade)
  }

  /** The course summaries, in enrolment order, skipping enrolments that do not contribute. */
  function Summaries(ucs: seq<UserCourse>, courses: map<int, Course>, allModules: seq<Module>, ums: seq<UserModule>): (r: seq<CourseSummary>)
    ensures |r| <= |ucs|
    ensures forall k :: 0 <= k < |r| ==> r[k].totalModules > 0 && r[k].progress == Percentage(r[k].modulesCompleted, r[k].totalModules)
    decreases |ucs|
  {
    if ucs == [] then []
    else
      var rest := Summaries(ucs[..|ucs| - 1], courses, allModules, ums);
      var uc := ucs[|ucs| - 1];
      if Contributes(uc, courses, allModules) then rest + [SummaryOf(uc, courses, allModules, ums)] else rest
  }

  /** The summary of some contributing enrolment in `ucs`. */
  ghost predicate SummaryOfSome(p: CourseSummary, ucs: seq<UserCourse>, courses: map<int, Course>, allModules: seq<Module>, ums: seq<UserModule>) {
    exists i :: 0 <= i < |ucs| && Contributes(ucs[i], courses, allModules) && p == SummaryOf(ucs[i], courses, allModules, ums)
  }

  /**
   * Each summary is the summary of one contributing enrolment, so it names
   * that enrolment's course by its key.
   */
  lemma {:induction false} SummariesFromEnrolments(ucs: seq<UserCourse>, courses: map<int, Course>, allModules: seq<Module>, ums: seq<UserModule>)
    ensures forall k :: 0 <= k < |Summaries(ucs, courses, allModules, ums)| ==>
      SummaryOfSome(Summaries(ucs, courses, allModules, ums)[k], ucs, courses, allModules, ums)
    decreases |ucs|
  {
    if ucs != [] {
      var front := ucs[..|ucs| - 1];
      SummariesFromEnrolments(front, courses, allModules, ums);
      var r := Summaries(ucs, courses, allModules, ums);
      var rest := Summaries(front, courses, allModules, ums);
      var last := ucs[|ucs| - 1];
      forall k | 0 <= k < |r|
        ensures SummaryOfSome(r[k], ucs, courses, allModules, ums)
      {
        if k < |rest| {
          assert r[k] == rest[k];
          assert SummaryOfSome(rest[k], front, courses, allModules, ums);
          var i :| 0 <= i < |front| && Contributes(front[i], courses, allModules) && rest[k] == SummaryOf(front[i], courses, allModules, ums);
          assert front[i] == ucs[i];
        } else {
          assert ucs[|ucs| - 1] == last;
        }
      }
    }
  }

  function Done(p: CourseSummary): int { p.modulesCompleted }
  function Size(p: CourseSummary): int { p.totalModules }
  function Pct(p: CourseSummary): int { p.progress }

  function StatusCount(ps: seq<CourseSummary>, st: CourseStatus): nat {
    CountIf(ps, (p: CourseSummary) => StatusOf(p.startDate, p.completionDate) == st)
  }

  lemma SummariesStep(ucs: seq<UserCourse>, i: nat, courses: map<int, Course>, allModules: seq<Module>, ums: seq<UserModule>)
    requires i < |ucs|
    ensures Summaries(ucs[..i + 1], courses, allModules, ums) ==
      if Contributes(ucs[i], courses, allModules)
      then Summaries(ucs[..i], courses, allModules, ums) + [SummaryOf(ucs[i], courses, allModules, ums)]
      else Summaries(ucs[..i], courses, allModules, ums)
  {
    assert ucs[..i + 1][..i] == ucs[..i];
  }

  lemma SummaryAppended(ps: seq<CourseSummary>, s: CourseSummary)
    ensures forall st :: StatusCount(ps + [s], st) == StatusCount(ps, st) + (if StatusOf(s.startDate, s.completionDate) == st then 1 else 0)
    ensures SumOf(ps + [s], Done) == SumOf(ps, Done) + s.modulesCompleted
    ensures SumOf(ps + [s], Size) == SumOf(ps, Size) + s.totalModules
  {
    forall st {
      CountIfSnoc(ps, s, (p: CourseSummary) => StatusOf(p.startDate, p.completionDate) == st);
    }
    SumOfSnoc(ps, s, Done);
    SumOfSnoc(ps, s, Size);
  }

  /** Every course counts under exactly one status, so the three counters add up to the courses counted. */
  lemma {:induction false} StatusPartition(ps: seq<CourseSummary>)
    ensures StatusCount(ps, Finished) + StatusCount(ps, InProgress) + StatusCount(ps, NotStarted) == |ps|
    decreases |ps|
  {
    if ps != [] {
      var front := ps[..|ps| - 1];
      StatusPartition(front);
      SummaryAppended(front, ps[|ps| - 1]);
      assert front + [ps[|ps| - 1]] == ps;
    }
  }

  /**
   * The summary the handler reports: the course total is the number of
   * enrolments, while the status counters, the quiz counters and the
   * course list cover only the contributing enrolments; the overall
   * progress is the truncated mean of the course progresses over all
   * enrolments.
   */
  function UserProgressOf(ucs: seq<UserCourse>, courses: map<int, Course>, allModules: seq<Module>, ums: seq<UserModule>): UserSummary {
    var ps := Summaries(ucs, courses, allModules, ums);
    var done := SumOf(ps, Done);
    UserSummary(
      |ucs|,
      StatusCount(ps, Finished), StatusCount(ps, InProgress), StatusCount(ps, NotStarted),
      ps,
      if |ucs| > 0 then GoDiv(SumOf(ps, Pct), |ucs|) else 0,
      done, SumOf(ps, Size), done)
  }

  /**
   * The status counters of the reported summary add up to the number of
   * courses listed, which is at most the number of enrolments the summary
   * reports as its total.
   */
  lemma UserProgressCounters(ucs: seq<UserCourse>, courses: map<int, Course>, allModules: seq<Module>, ums: seq<UserModule>)
    ensures var u := UserProgressOf(ucs, courses, allModules, ums);
      u.completedCourses + u.inProgressCourses + u.notStartedCourses == |u.coursesProgress| <= u.totalCourses
  {
    StatusPartition(Summaries(ucs, courses, allModules, ums));
  }

  /** Adds one course to the counter of its status: not started, finished or in progress. */
  method CountStatus(ps: seq<CourseSummary>, s: CourseSummary, finished: nat, inProgress: nat, notStarted: nat)
    returns (finished': nat, inProgress': nat, notStarted': nat)
    requires finished == StatusCount(ps, Finished)
    requires inProgress == StatusCount(ps, InProgress)
    requires notStarted == StatusCount(ps, NotStarted)
    ensures finished' == StatusCount(ps + [s], Finished)
    ensures inProgress' == StatusCount(ps + [s], InProgress)
    ensures notStarted' == StatusCount(ps + [s], NotStarted)
  {
    SummaryAppended(ps, s);
    finished', inProgress', notStarted' := finished, inProgress, notStarted;
    var status := StatusOf(s.startDate, s.completionDate);
    if status == NotStarted {
      notStarted' := notStarted + 1;
    } else if status == Finished {
      finished' := finished + 1;
    } else {
      inProgress' := inProgress + 1;
    }
  }

  /** The course loop of the overall summary, with its counters. */
  method SummarizeCourses(ucs: seq<UserCourse>, courses: map<int, Course>, allModules: seq<Module>, ums: seq<UserModule>)
    returns (ps: seq<CourseSummary>, completedCourses: nat, inProgressCourses: nat, notStartedCourses: nat,
             completedQuizzes: int, totalQuizzes: int, passedQuizzes: int)
    ensures ps == Summaries(ucs, courses, allModules, ums)
    ensures completedCourses == StatusCount(ps, Finished)
    ensures inProgressCourses == StatusCount(ps, InProgress)
    ensures notStartedCourses == StatusCount(ps, NotStarted)
    ensures completedQuizzes == SumOf(ps, Done) && passedQuizzes == completedQuizzes
    ensures totalQuizzes == SumOf(ps, Size)
  {
    ps := [];
    completedCourses, inProgressCourses, notStartedCourses := 0, 0, 0;
    totalQuizzes, completedQuizzes, passedQuizzes := 0, 0, 0;
    for i := 0 to |ucs|
      invariant ps == Summaries(ucs[..i], courses, allModules, ums)
      invariant completedCourses == StatusCount(ps, Finished)
      invariant inProgressCourses == StatusCount(ps, InProgress)
      invariant notStartedCourses == StatusCount(ps, NotStarted)
      invariant completedQuizzes == SumOf(ps, Done) && passedQuizzes == completedQuizzes
      invariant totalQuizzes == SumOf(ps, Size)
    {
      SummariesStep(ucs, i, courses, allModules, ums);
      var uc := ucs[i];
      if uc.courseID !in courses {
        continue;
      }
      var course := CourseByID(courses, uc.courseID);
      var modules := CourseModules(allModules, course.keyID);
      var totalModules := |modules|;
      if totalModules == 0 {
        continue;
      }
      var completedModules, passedHere := CountCompleted(ums, modules);
      completedQuizzes := completedQuizzes + completedModules;
      passedQuizzes := passedQuizzes + passedHere;
      totalQuizzes := totalQuizzes + totalModules;
      var courseProgress := Percentage(completedModules, totalModules);
      var summary := CourseSummary(course.keyID, course.name, completedModules, totalModules, courseProgress,
                                   uc.startedOn, uc.completedOn, uc.grade);
      completedCourses, inProgressCourses, notStartedCourses :=
        CountStatus(ps, summary, completedCourses, inProgressCourses, notStartedCourses);
      assert summary == SummaryOf(uc, courses, allModules, ums);
      SummaryAppended(ps, summary);
      ps := ps + [summary];
    }
    assert ucs[..|ucs|] == ucs;
  }

  /** The sum of the course progresses, as the overall-progress loop adds them. */
  method TotalProgress(ps: seq<CourseSummary>) returns (total: int)
    ensures total == SumOf(ps, Pct)
  {
    total := 0;
    for k := 0 to |ps|
      invariant total == SumOf(ps[..k], Pct)
    {
      assert ps[..k + 1] == ps[..k] + [ps[k]];
      SumOfSnoc(ps[..k], ps[k], Pct);
      total := total + ps[k].progress;
    }
    assert ps[..|ps|] == ps;
  }

  method GetUserProgress(userParam: string, users: map<int, User>, userCourses: seq<UserCourse>,
                         courses: map<int, Course>, allModules: seq<Module>)
    returns (r: Result<UserSummary>)
    ensures ParseInt64(userParam).None? ==> r == Fail(BadRequest)
    ensures ParseInt64(userParam).Some? ==>
      var userID := ParseInt64(userParam).value;
      && (userID !in users ==> r == Fail(NotFound))
      && (userID in users ==> r == Ok(UserProgressOf(UserCoursesOf(userCourses, userID), courses, allModules, users[userID].modules)))
  {
    var parsed := ParseInt64(userParam);
    if parsed.None? {
      return Fail(BadRequest);
    }
    var userID := parsed.value;
    if userID !in users {
      return Fail(NotFound);
    }
    var user := users[userID];
    var ucs := UserCoursesOf(userCourses, userID);
    var ps, completedCourses, inProgressCourses, notStartedCourses, completedQuizzes, totalQuizzes, passedQuizzes :=
      SummarizeCourses(ucs, courses, allModules, user.modules);
    var overall := 0;
    if |ucs| > 0 {
      var totalProgress := TotalProgress(ps);
      overall := GoDiv(totalProgress, |ucs|);
    }
    r := Ok(UserSummary(|ucs|, completedCourses, inProgressCourses, notStartedCourses, ps, overall,
                        completedQuizzes, totalQuizzes, passedQuizzes));
  }

  // ----- the report of one course -----

  /** Position of the learner's first enrolment in the course; `|ucs|` when there is none. */
  function EnrolmentIndex(ucs: seq<UserCourse>, userID: int, courseID: int): (i: nat)
    ensures i <= |ucs|
    ensures i < |ucs| ==> ucs[i].userID == userID && ucs[i].courseID == courseID
    ensures forall k :: 0 <= k < i ==> !(ucs[k].userID == userID && ucs[k].courseID == courseID)
    decreases |ucs|
  {
    if ucs == [] then 0
    else if ucs[0].userID == userID && ucs[0].courseID == courseID then 0
    else 1 + EnrolmentIndex(ucs[1..], userID, courseID)
  }

  /** The repository's enrolment lookup as written: `Panic` is the index into an empty result. */
  datatype EnrolmentLookup = Enrolled(uc: UserCourse) | Panic

  /**
   * The lookup as written: the first matching enrolment, indexed without a
   * check, so a learner with no enrolment in the course panics.
   */
  function EnrolmentLookupAsWritten(ucs: seq<UserCourse>, userID: int, courseID: int): (r: EnrolmentLookup)
    ensures r.Panic? <==> forall k :: 0 <= k < |ucs| ==> !(ucs[k].userID == userID && ucs[k].courseID == courseID)
    ensures r.Enrolled? ==> r.uc.userID == userID && r.uc.courseID == courseID
  {
    var e := EnrolmentIndex(ucs, userID, courseID);
    if e == |ucs| then Panic else Enrolled(ucs[e])
  }

  /**
   * A learner who is not enrolled in the course panics the lookup as
   * written, while the handlers here answer 404 on exactly that input: the
   * enrolment index is then the length of the enrolments.
   */
  lemma UnenrolledLearnerPanics(ucs: seq<UserCourse>, userID: int, courseID: int)
    requires forall k :: 0 <= k < |ucs| ==> ucs[k].userID != userID
    ensures EnrolmentLookupAsWritten(ucs, userID, courseID) == Panic
    ensures EnrolmentIndex(ucs, userID, courseID) == |ucs|
  {
  }

  /** One module's line of the course report; zero and empty stand for the omitted fields. */
  datatype ModuleProgress = ModuleProgress(
    moduleID: int,
    moduleName: string,
    completed: bool,
    score: int,
    attemptCount: int,
    dateCompleted: string)

  datatype CourseReport = CourseReport(
    courseID: int,
    courseName: string,
    modulesCompleted: nat,
    totalModules: nat,
    progress: int,
    grade: int,
    startDate: Time,
    completionDate: Time,
    moduleProgress: seq<ModuleProgress>)

  /** The line of module `m`, read from the learner's first record of it. */
  function EntryOf(m: Module, ums: seq<UserModule>): ModuleProgress {
    match Lookup(ums, m.keyID)
    case None => ModuleProgress(m.keyID, m.name, false, 0, 0, "")
    case Some(rec) =>
      var done := rec.score >= m.minPassing;
      ModuleProgress(m.keyID, m.name, done, rec.score, 1, if done then rec.date else "")
  }

  /** Number of completed lines. */
  function CompletedLines(lines: seq<ModuleProgress>): (n: nat)
    ensures n <= |lines|
    decreases |lines|
  {
    if lines == [] then 0
    else CompletedLines(lines[..|lines| - 1]) + (if lines[|lines| - 1].completed then 1 else 0)
  }

  /**
   * Fills the report's module lines by index, one per course module in
   * module order, each from the learner's first record of that module.
   */
  method FillModuleProgress(mods: seq<Module>, ums: seq<UserModule>) returns (lines: array<ModuleProgress>, completed: nat)
    ensures fresh(lines)
    ensures lines.Length == |mods|
    ensures forall i :: 0 <= i < |mods| ==> lines[i] == EntryOf(mods[i], ums)
    ensures completed == CompletedLines(lines[..])
  {
    lines := new ModuleProgress[|mods|](i => ModuleProgress(0, "", false, 0, 0, ""));
    completed := 0;
    for i := 0 to |mods|
      invariant forall k :: 0 <= k < i ==> lines[k] == EntryOf(mods[k], ums)
      invariant completed == CompletedLines(lines[..i])
    {
      var entry := ModuleEntry(mods[i], ums);
      lines[i] := entry;
      assert lines[..i + 1] == lines[..i] + [entry];
      assert lines[..i + 1][..i] == lines[..i];
      if entry.completed {
        completed := completed + 1;
      }
    }
    assert lines[..|mods|] == lines[..];
  }

  /** The line of one module, filled from the learner's first record of it. */
  method ModuleEntry(m: Module, ums: seq<UserModule>) returns (entry: ModuleProgress)
    ensures entry == EntryOf(m, ums)
  {
    entry := ModuleProgress(m.keyID, m.name, false, 0, 0, "");
    var found := FindRecord(ums, m.keyID);
    if found.Some? {
      var rec := found.value;
      entry := entry.(score := rec.score, attemptCount := 1, completed := rec.score >= m.minPassing);
      if entry.completed {
        entry := entry.(dateCompleted := rec.date);
      }
    }
  }

  /**
   * The report of one enrolment: identification and dates from the course and
   * the enrolment, one line per course module, and the integer progress.
   */
  method GetCourseProgress(userParam: string, courseParam: string, users: map<int, User>,
                           userCourses: seq<UserCourse>, courses: map<int, Course>, allModules: seq<Module>)
    returns (r: Result<CourseReport>)
    ensures ParseInt64(userParam).None? || ParseInt64(courseParam).None? ==> r == Fail(BadRequest)
    ensures ParseInt64(userParam).Some? && ParseInt64(courseParam).Some? ==>
      var userID, courseID := ParseInt64(userParam).value, ParseInt64(courseParam).value;
      var e := EnrolmentIndex(userCourses, userID, courseID);
      && (userID !in users || e == |userCourses| || courseID !in courses ==> r == Fail(NotFound))
      && (userID in users && e < |userCourses| && courseID in courses ==>
            var mods := CourseModules(allModules, courseID);
            && r.Ok?
            && r.value.courseID == courseID
            && r.value.courseName == courses[courseID].name
            && r.value.grade == userCourses[e].grade
            && r.value.startDate == userCourses[e].startedOn
            && r.value.completionDate == userCourses[e].completedOn
            && r.value.totalModules == |mods|
            && |r.value.moduleProgress| == |mods|
            && (forall i :: 0 <= i < |mods| ==> r.value.moduleProgress[i] == EntryOf(mods[i], users[userID].modules))
            && r.value.modulesCompleted == CompletedLines(r.value.moduleProgress)
            && r.value.progress == Percentage(r.value.modulesCompleted, |mods|))
  {
    var parsedUser := ParseInt64(userParam);
    if parsedUser.None? {
      return Fail(BadRequest);
    }
    var parsedCourse := ParseInt64(courseParam);
    if parsedCourse.None? {
      return Fail(BadRequest);
    }
    var userID, courseID := parsedUser.value, parsedCourse.value;
    if userID !in users {
      return Fail(NotFound);
    }
    var user := users[userID];
    var e := EnrolmentIndex(userCourses, userID, courseID);
    if e == |userCourses| {
      return Fail(NotFound);
    }
    var userCourse := userCourses[e];
    if courseID !in courses {
      return Fail(NotFound);
    }
    var course := CourseByID(courses, courseID);
    var modules := CourseModules(allModules, courseID);
    var lines, completedModules := FillModuleProgress(modules, user.modules);
    var progress := 0;
    if |modules| > 0 {
      progress := GoDiv(completedModules * 100, |modules|);
    }
    r := Ok(CourseReport(course.keyID, course.name, completedModules, |modules|, progress,
                         userCourse.grade, userCourse.startedOn, userCourse.completedOn, lines[..]));
  }

  /**
   * A course report's lines follow the course's modules one for one; a line
   * is completed exactly when the learner's first record of the module
   * reaches its pass mark, and it counts one attempt exactly when there is
   * such a record; the progress is a percentage of the module count.
   */
  lemma CourseReportMeaning(mods: seq<Module>, ums: seq<UserModule>, i: int)
    requires 0 <= i < |mods|
    ensures var line := EntryOf(mods[i], ums);
      && line.moduleID == mods[i].keyID
      && (line.completed <==> Lookup(ums, mods[i].keyID).Some? && Lookup(ums, mods[i].keyID).value.score >= mods[i].minPassing)
      && (line.attemptCount == 1 <==> exists k :: 0 <= k < |ums| && ums[k].moduleID == mods[i].keyID)
    ensures var lines := seq(|mods|, k requires 0 <= k < |mods| => EntryOf(mods[k], ums));
      0 <= Percentage(CompletedLines(lines), |mods|) <= 100
  {
    var id := mods[i].keyID;
    var f := FirstIndex(ums, id);
    if f == |ums| {
      assert forall k :: 0 <= k < |ums| ==> ums[k].moduleID != id;
    }
  }

  // ----- recomputing an enrolment -----

  /** Some module of `mods` is the record's module and the record reaches its pass mark. */
  function PassesAny(u: UserModule, mods: seq<Module>): bool
    decreases |mods|
  {
    mods != [] && (PassesAny(u, mods[..|mods| - 1]) || Hit(u, mods[|mods| - 1]) == 1)
  }

  /** Records that pass one of the modules: each counts once, whatever the number of modules it matches. */
  function PassingRecords(ums: seq<UserModule>, mods: seq<Module>): (n: nat)
    ensures n <= |ums|
    decreases |ums|
  {
    if ums == [] then 0
    else PassingRecords(ums[..|ums| - 1], mods) + (if PassesAny(ums[|ums| - 1], mods) then 1 else 0)
  }

  /** The scores of those records, summed. */
  function PassingScore(ums: seq<UserModule>, mods: seq<Module>): int
    decreases |ums|
  {
    if ums == [] then 0
    else PassingScore(ums[..|ums| - 1], mods) + (if PassesAny(ums[|ums| - 1], mods) then ums[|ums| - 1].score else 0)
  }

  /** The inner loop: stops at the first module the record passes. */
  method RecordPasses(u: UserModule, mods: seq<Module>) returns (passes: bool)
    ensures passes == PassesAny(u, mods)
  {
    passes := false;
    for j := 0 to |mods|
      invariant passes == PassesAny(u, mods[..j])
    {
      assert mods[..j + 1][..j] == mods[..j];
      if u.moduleID == mods[j].keyID && u.score >= mods[j].minPassing {
        PassesAnyPrefix(u, mods, j + 1);
        return true;
      }
    }
    assert mods[..|mods|] == mods;
  }

  /** Once a prefix passes, the whole list passes. */
  lemma {:induction false} PassesAnyPrefix(u: UserModule, mods: seq<Module>, j: nat)
    requires j <= |mods| && PassesAny(u, mods[..j])
    ensures PassesAny(u, mods)
    decreases |mods| - j
  {
    if j < |mods| {
      assert mods[..j + 1][..j] == mods[..j];
      PassesAnyPrefix(u, mods, j + 1);
    } else {
      assert mods[..j] == mods;
    }
  }

  /** What the recomputation reports: the counts, and the grade of the enrolment after it. */
  datatype ProgressUpdate = ProgressUpdate(completedModules: nat, totalModules: nat, grade: int)

  /**
   * The enrolment after the recomputation: untouched when nothing is passed;
   * otherwise started now if it had not started, graded with the truncated
   * mean score of the passing records, and completed now when every module
   * is passed.
   */
  function Updated(uc: UserCourse, completed: nat, total: nat, scoreSum: int, now: Time): UserCourse {
    if completed == 0 then uc
    else uc.(startedOn := if uc.startedOn == ZeroTime then now else uc.startedOn,
             grade := GoDiv(scoreSum, completed),
             completedOn := if completed == total then now else uc.completedOn)
  }

  /**
   * Recomputes an enrolment from the learner's records; the enrolment list is
   * returned with the first enrolment of the learner in the course replaced.
   */
  method UpdateUserCourseProgress(userParam: string, courseParam: string, users: map<int, User>,
                                  userCourses: seq<UserCourse>, courses: map<int, Course>, allModules: seq<Module>, now: Time)
    returns (r: Result<ProgressUpdate>, userCourses': seq<UserCourse>)
    ensures ParseInt64(userParam).None? || ParseInt64(courseParam).None? ==> r == Fail(BadRequest)
    ensures ParseInt64(userParam).Some? && ParseInt64(courseParam).Some? ==>
      var userID, courseID := ParseInt64(userParam).value, ParseInt64(courseParam).value;
      var e := EnrolmentIndex(userCourses, userID, courseID);
      var mods := CourseModules(allModules, courseID);
      && (e == |userCourses| || courseID !in courses ==> r == Fail(NotFound))
      && (e < |userCourses| && courseID in courses && mods == [] ==> r == Fail(BadRequest))
      && (e < |userCourses| && courseID in courses && mods != [] && userID !in users ==> r == Fail(NotFound))
      && (e < |userCourses| && courseID in courses && mods != [] && userID in users ==>
            var ums := users[userID].modules;
            var done := PassingRecords(ums, mods);
            var uc := Updated(userCourses[e], done, |mods|, PassingScore(ums, mods), now);
            && r == Ok(ProgressUpdate(done, |mods|, uc.grade))
            && userCourses' == userCourses[e := uc])
    ensures r.Fail? ==> userCourses' == userCourses
  {
    userCourses' := userCourses;
    var parsedUser := ParseInt64(userParam);
    if parsedUser.None? {
      return Fail(BadRequest), userCourses';
    }
    var parsedCourse := ParseInt64(courseParam);
    if parsedCourse.None? {
      return Fail(BadRequest), userCourses';
    }
    var userID, courseID := parsedUser.value, parsedCourse.value;
    var e := EnrolmentIndex(userCourses, userID, courseID);
    if e == |userCourses| {
      return Fail(NotFound), userCourses';
    }
    var userCourse := userCourses[e];
    if courseID !in courses {
      return Fail(NotFound), userCourses';
    }
    var modules := CourseModules(allModules, courseID);
    if |modules| == 0 {
      return Fail(BadRequest), userCourses';
    }
    if userID !in users {
      return Fail(NotFound), userCourses';
    }
    var ums := users[userID].modules;
    var totalModules := |modules|;
    var completedModules, totalScore := CountPassing(ums, modules);
    if completedModules > 0 {
      userCourse := ApplyProgress(userCourse, completedModules, totalModules, totalScore, now);
      userCourses' := userCourses[e := userCourse];
    } else {
      assert userCourses[e := userCourse] == userCourses;
    }
    r := Ok(ProgressUpdate(completedModules, totalModules, userCourse.grade));
  }

  /** The loop over the learner's records: how many pass a course module, and their summed scores. */
  method CountPassing(ums: seq<UserModule>, modules: seq<Module>) returns (completedModules: nat, totalScore: int)
    ensures completedModules == PassingRecords(ums, modules)
    ensures totalScore == PassingScore(ums, modules)
  {
    completedModules, totalScore := 0, 0;
    for i := 0 to |ums|
      invariant completedModules == PassingRecords(ums[..i], modules)
      invariant totalScore == PassingScore(ums[..i], modules)
    {
      assert ums[..i + 1][..i] == ums[..i];
      var passes := RecordPasses(ums[i], modules);
      if passes {
        completedModules := completedModules + 1;
        totalScore := totalScore + ums[i].score;
      }
    }
    assert ums[..|ums|] == ums;
  }

  /** The field updates of an enrolment once some module is passed. */
  method ApplyProgress(uc: UserCourse, completed: nat, total: nat, scoreSum: int, now: Time) returns (uc': UserCourse)
    requires completed > 0
    ensures uc' == Updated(uc, completed, total, scoreSum, now)
  {
    uc' := uc;
    if uc'.startedOn == ZeroTime {
      uc' := uc'.(startedOn := now);
    }
    uc' := uc'.(grade := GoDiv(scoreSum, completed));
    if completed == total {
      uc' := uc'.(completedOn := now);
    }
  }

  lemma {:induction false} PassingScoreBounded(ums: seq<UserModule>, mods: seq<Module>)
    requires forall i :: 0 <= i < |ums| ==> 0 <= ums[i].score <= 100
    ensures 0 <= PassingScore(ums, mods) <= 100 * PassingRecords(ums, mods)
    decreases |ums|
  {
    if ums != [] {
      PassingScoreBounded(ums[..|ums| - 1], mods);
    }
  }

  /** A record passing some module is a passing (record, module) pair at least once. */
  lemma {:induction false} PassesAnyRow(u: UserModule, mods: seq<Module>)
    ensures PassesAny(u, mods) <==> Row(u, mods) > 0
    decreases |mods|
  {
    if mods != [] {
      PassesAnyRow(u, mods[..|mods| - 1]);
    }
  }

  /** Counting records once each never exceeds counting every passing pair. */
  lemma {:induction false} PassingAtMostPairs(ums: seq<UserModule>, mods: seq<Module>)
    ensures PassingRecords(ums, mods) <= PairCount(ums, mods)
    decreases |ums|
  {
    if ums != [] {
      PassingAtMostPairs(ums[..|ums| - 1], mods);
      PassesAnyRow(ums[|ums| - 1], mods);
    }
  }

  /**
   * When scores are percentages the recomputed grade is one; when the learner
   * has at most one record per module, the completed count never exceeds the
   * module count; the start date is kept once set; the completion date is set
   * exactly when every module is passed.
   */
  lemma UpdatedMeaning(uc: UserCourse, ums: seq<UserModule>, mods: seq<Module>, now: Time)
    requires forall i :: 0 <= i < |ums| ==> 0 <= ums[i].score <= 100
    requires forall id :: RecordCount(ums, id) <= 1
    ensures var done := PassingRecords(ums, mods);
      var after := Updated(uc, done, |mods|, PassingScore(ums, mods), now);
      && done <= |mods|
      && (done == 0 ==> after == uc)
      && (done > 0 ==> 0 <= after.grade <= 100)
      && (uc.startedOn != ZeroTime ==> after.startedOn == uc.startedOn)
      && (done > 0 && done == |mods| ==> after.completedOn == now)
      && (done < |mods| ==> after.completedOn == uc.completedOn)
  {
    PassingScoreBounded(ums, mods);
    PassingAtMostPairs(ums, mods);
    CompletedAtMostModules(ums, mods);
  }
}
