/**
 * The administrator's statistics: system-wide counts, one learner's totals
 * and one course's enrolment and completion figures. The store is stood in
 * for by the lists the repositories would return.
 */
module AdminStats {
  import opened Common
  import opened Models
  import opened AttemptRecords
  import opened Analytics
  import Progress

  // ----- system statistics -----

  /** Learners holding at least one attempt record. */
  function ActiveCount(users: seq<User>): (n: nat)
    ensures n <= |users|
    decreases |users|
  {
    if users == [] then 0
    else ActiveCount(users[..|users| - 1]) + (if |users[|users| - 1].modules| > 0 then 1 else 0)
  }

  /** Attempt records held across all learners. */
  function RecordTotal(users: seq<User>): nat
    decreases |users|
  {
    if users == [] then 0 else RecordTotal(users[..|users| - 1]) + |users[|users| - 1].modules|
  }

  datatype ModuleKind = QuizModule | ProjectModule | ContentModule

  /** The store's query for the projects submitted against a module. */
  function ProjectsOfModule(projects: seq<Project>, moduleID: int): (r: seq<Project>)
    ensures forall p :: p in r ==> p in projects && p.moduleID == moduleID
  {
    Filter(projects, (p: Project) => p.moduleID == moduleID)
  }

  /** A timed or attempt-limited module is a quiz; else one with submitted projects is a project module; else content. */
  function KindOf(m: Module, projects: seq<Project>): ModuleKind {
    if m.timeLimit > 0 || m.maxAttempts > 0 then QuizModule
    else if |ProjectsOfModule(projects, m.keyID)| > 0 then ProjectModule
    else ContentModule
  }

  function KindCount(modules: seq<Module>, projects: seq<Project>, k: ModuleKind): (n: nat)
    ensures n <= |modules|
    decreases |modules|
  {
    if modules == [] then 0
    else KindCount(modules[..|modules| - 1], projects, k) + (if KindOf(modules[|modules| - 1], projects) == k then 1 else 0)
  }

  datatype SystemStats = SystemStats(
    totalUsers: nat,
    activeUsers: nat,
    totalCourses: nat,
    totalModules: nat,
    quizModules: nat,
    projectModules: nat,
    contentModules: nat,
    completedModules: nat,
    totalElements: nat,
    totalProjects: nat)

  /** Counts the store's entities, the active learners, the records and each kind of module. */
  method GetSystemStats(users: seq<User>, courses: seq<Course>, modules: seq<Module>,
                        elements: seq<Element>, projects: seq<Project>)
    returns (s: SystemStats)
    ensures s.totalUsers == |users| && s.totalCourses == |courses| && s.totalModules == |modules|
    ensures s.totalElements == |elements| && s.totalProjects == |projects|
    ensures s.activeUsers == ActiveCount(users)
    ensures s.completedModules == RecordTotal(users)
    ensures s.quizModules == KindCount(modules, projects, QuizModule)
    ensures s.projectModules == KindCount(modules, projects, ProjectModule)
    ensures s.contentModules == KindCount(modules, projects, ContentModule)
  {
    var activeUsers: nat := 0;
    for i := 0 to |users|
      invariant activeUsers == ActiveCount(users[..i])
    {
      assert users[..i + 1][..i] == users[..i];
      if |users[i].modules| > 0 {
        activeUsers := activeUsers + 1;
      }
    }
    var completedModules: nat := 0;
    for i := 0 to |users|
      invariant completedModules == RecordTotal(users[..i])
    {
      assert users[..i + 1][..i] == users[..i];
      completedModules := completedModules + |users[i].modules|;
    }
    var quiz: nat, project: nat, content: nat := 0, 0, 0;
    for i := 0 to |modules|
      invariant quiz == KindCount(modules[..i], projects, QuizModule)
      invariant project == KindCount(modules[..i], projects, ProjectModule)
      invariant content == KindCount(modules[..i], projects, ContentModule)
    {
      assert modules[..i + 1][..i] == modules[..i];
      var m := modules[i];
      if m.timeLimit > 0 || m.maxAttempts > 0 {
        quiz := quiz + 1;
      } else {
        var ofModule := ProjectsOfModule(projects, m.keyID);
        if |ofModule| > 0 {
          project := project + 1;
        } else {
          content := content + 1;
        }
      }
    }
    assert users[..|users|] == users;
    assert modules[..|modules|] == modules;
    s := SystemStats(|users|, activeUsers, |courses|, |modules|, quiz, project, content,
                     completedModules, |elements|, |projects|);
  }

  /** Every module falls in exactly one of the three kinds. */
  lemma {:induction false} KindsPartition(modules: seq<Module>, projects: seq<Project>)
    ensures KindCount(modules, projects, QuizModule) + KindCount(modules, projects, ProjectModule)
            + KindCount(modules, projects, ContentModule) == |modules|
    decreases |modules|
  {
    if modules != [] {
      KindsPartition(modules[..|modules| - 1], projects);
    }
  }

  /** Each active learner holds at least one record, so there are no more active learners than records. */
  lemma {:induction false} ActiveAtMostRecords(users: seq<User>)
    ensures ActiveCount(users) <= RecordTotal(users)
    decreases |users|
  {
    if users != [] {
      ActiveAtMostRecords(users[..|users| - 1]);
    }
  }

  // ----- one learner's statistics -----

  /** The store's query for the projects a learner submitted. */
  function ProjectsOfUser(projects: seq<Project>, userID: int): (r: seq<Project>)
    ensures forall p :: p in r ==> p in projects && p.userID == userID
  {
    Filter(projects, (p: Project) => p.userID == userID)
  }

  datatype UserStats = UserStats(
    id: int,
    username: string,
    firstname: string,
    lastname: string,
    email: string,
    roles: seq<string>,
    completedModules: nat,
    averageScore: int,
    projectsSubmitted: nat)

  /** The truncated mean score of the records, 0 when there are none. */
  function MeanScore(records: seq<UserModule>): int {
    if |records| > 0 then GoDiv(ScoreSum(records), |records|) else 0
  }

  /** A learner's record count, truncated mean score and number of submitted projects. */
  method GetUserStats(idParam: string, users: map<int, User>, projects: seq<Project>) returns (r: Result<UserStats>)
    ensures ParseInt64(idParam).None? ==> r == Fail(BadRequest)
    ensures ParseInt64(idParam).Some? && ParseInt64(idParam).value !in users ==> r == Fail(NotFound)
    ensures ParseInt64(idParam).Some? && ParseInt64(idParam).value in users ==>
      var userID := ParseInt64(idParam).value;
      var u := users[userID];
      && r.Ok?
      && r.value.id == u.keyID && r.value.roles == u.roles
      && r.value.username == u.username && r.value.firstname == u.firstname
      && r.value.lastname == u.lastname && r.value.email == u.email
      && r.value.completedModules == |u.modules|
      && r.value.averageScore == MeanScore(u.modules)
      && r.value.projectsSubmitted == |ProjectsOfUser(projects, userID)|
  {
    var parsed := ParseInt64(idParam);
    if parsed.None? {
      return Fail(BadRequest);
    }
    var userID := parsed.value;
    if userID !in users {
      return Fail(NotFound);
    }
    var user := users[userID];
    var completedModules := |user.modules|;
    var totalScore := 0;
    for i := 0 to |user.modules|
      invariant totalScore == ScoreSum(user.modules[..i])
    {
      assert user.modules[..i + 1][..i] == user.modules[..i];
      totalScore := totalScore + user.modules[i].score;
    }
    assert user.modules[..|user.modules|] == user.modules;
    var averageScore := 0;
    if completedModules > 0 {
      averageScore := GoDiv(totalScore, completedModules);
    }
    var submitted := ProjectsOfUser(projects, userID);
    r := Ok(UserStats(user.keyID, user.username, user.firstname, user.lastname, user.email, user.roles,
                      completedModules, averageScore, |submitted|));
  }

  /** With scores between `lo` and `hi` the mean lies between them too. */
  lemma MeanScoreBetween(records: seq<UserModule>, lo: nat, hi: int)
    requires |records| > 0
    requires forall i :: 0 <= i < |records| ==> lo <= records[i].score <= hi
    ensures lo <= MeanScore(records) <= hi
  {
    ScoreSumBetween(records, lo, hi);
    var n := |records|;
    var sum := ScoreSum(records);
    MulMono(0, lo, n);
    assert sum >= 0;
    var q := GoDiv(sum, n);
    assert q >= 0 && Abs(q) == q && Abs(sum) == sum;
    assert q * n <= sum < (q + 1) * n;
    if q < lo {
      MulMono(q + 1, lo, n);
      assert false;
    }
    if q > hi {
      MulMono(hi + 1, q, n);
      assert false;
    }
  }

  lemma {:induction false} ScoreSumBetween(records: seq<UserModule>, lo: int, hi: int)
    requires forall i :: 0 <= i < |records| ==> lo <= records[i].score <= hi
    ensures lo * |records| <= ScoreSum(records) <= hi * |records|
    decreases |records|
  {
    if records != [] {
      var n := |records| - 1;
      ScoreSumBetween(records[..n], lo, hi);
      assert lo * |records| == lo * n + lo;
      assert hi * |records| == hi * n + hi;
    }
  }

  // ----- one course's statistics -----

  /** Course modules whose key is `id`. */
  function KeyCount(mods: seq<Module>, id: int): (n: nat)
    ensures n <= |mods|
    decreases |mods|
  {
    if mods == [] then 0 else KeyCount(mods[..|mods| - 1], id) + (if mods[|mods| - 1].keyID == id then 1 else 0)
  }

  /** The record is below the pass mark of some course module it matches. */
  function FailsIn(u: UserModule, mods: seq<Module>): bool
    decreases |mods|
  {
    mods != [] && (FailsIn(u, mods[..|mods| - 1]) || (mods[|mods| - 1].keyID == u.moduleID && u.score < mods[|mods| - 1].minPassing))
  }

  /** Some record matches a course module. */
  function AnyMatch(ums: seq<UserModule>, mods: seq<Module>): bool
    decreases |ums|
  {
    ums != [] && (AnyMatch(ums[..|ums| - 1], mods) || KeyCount(mods, ums[|ums| - 1].moduleID) > 0)
  }

  /** Some record is below the pass mark of a course module it matches. */
  function AnyFail(ums: seq<UserModule>, mods: seq<Module>): bool
    decreases |ums|
  {
    ums != [] && (AnyFail(ums[..|ums| - 1], mods) || FailsIn(ums[|ums| - 1], mods))
  }

  /** A learner counts as enrolled when one of their records is of a course module. */
  predicate Enrolled(u: User, mods: seq<Module>) {
    AnyMatch(u.modules, mods)
  }

  /** An enrolled learner completed the course when the course has modules and no matching record is below its pass mark. */
  predicate CompletedCourse(u: User, mods: seq<Module>) {
    Enrolled(u, mods) && !AnyFail(u.modules, mods) && |mods| > 0
  }

  function EnrolledCount(users: seq<User>, mods: seq<Module>): (n: nat)
    ensures n <= |users|
    decreases |users|
  {
    if users == [] then 0
    else EnrolledCount(users[..|users| - 1], mods) + (if Enrolled(users[|users| - 1], mods) then 1 else 0)
  }

  function CompletedCount(users: seq<User>, mods: seq<Module>): (n: nat)
    decreases |users|
  {
    if users == [] then 0
    else CompletedCount(users[..|users| - 1], mods) + (if CompletedCourse(users[|users| - 1], mods) then 1 else 0)
  }

  /** A counter map read with a missing key counting as zero. */
  function Look(cm: map<int, int>, id: int): int {
    if id in cm then cm[id] else 0
  }

  /** `k` increments of the counter of `id`; no increment leaves the key absent. */
  function BumpBy(cm: map<int, int>, id: int, k: nat): map<int, int> {
    if k == 0 then cm else cm[id := Look(cm, id) + k]
  }

  /** The counters after the records of one learner: each record adds one per course module it matches. */
  function RecordBumps(cm: map<int, int>, ums: seq<UserModule>, mods: seq<Module>): map<int, int>
    decreases |ums|
  {
    if ums == [] then cm
    else
      var u := ums[|ums| - 1];
      BumpBy(RecordBumps(cm, ums[..|ums| - 1], mods), u.moduleID, KeyCount(mods, u.moduleID))
  }

  /** The counters after every learner, starting empty. */
  function Completions(users: seq<User>, mods: seq<Module>): map<int, int>
    decreases |users|
  {
    if users == [] then map[]
    else RecordBumps(Completions(users[..|users| - 1], mods), users[|users| - 1].modules, mods)
  }

  datatype CourseStats = CourseStats(
    courseID: int,
    courseName: string,
    totalModules: nat,
    enrolledUsers: nat,
    completedUsers: nat,
    moduleCompletions: map<int, int>)

  /** The loops over one learner's records and, inside, over the course modules. */
  method ScanUser(ums: seq<UserModule>, mods: seq<Module>, start: map<int, int>)
    returns (userEnrolled: bool, userCompletedAll: bool, cm: map<int, int>)
    ensures userEnrolled == AnyMatch(ums, mods)
    ensures userCompletedAll == !AnyFail(ums, mods)
    ensures cm == RecordBumps(start, ums, mods)
  {
    cm := start;
    userEnrolled, userCompletedAll := false, true;
    for j := 0 to |ums|
      invariant userEnrolled == AnyMatch(ums[..j], mods)
      invariant userCompletedAll == !AnyFail(ums[..j], mods)
      invariant cm == RecordBumps(start, ums[..j], mods)
    {
      assert ums[..j + 1][..j] == ums[..j];
      var matched, failed;
      matched, failed, cm := ScanRecord(ums[j], mods, cm);
      userEnrolled := userEnrolled || matched;
      userCompletedAll := userCompletedAll && !failed;
    }
    assert ums[..|ums|] == ums;
  }

  /** The inner loop over the course modules for one record. */
  method ScanRecord(u: UserModule, mods: seq<Module>, start: map<int, int>)
    returns (matched: bool, failed: bool, cm: map<int, int>)
    ensures matched == (KeyCount(mods, u.moduleID) > 0)
    ensures failed == FailsIn(u, mods)
    ensures cm == BumpBy(start, u.moduleID, KeyCount(mods, u.moduleID))
  {
    matched, failed, cm := false, false, start;
    for k := 0 to |mods|
      invariant matched == (KeyCount(mods[..k], u.moduleID) > 0)
      invariant failed == FailsIn(u, mods[..k])
      invariant cm == BumpBy(start, u.moduleID, KeyCount(mods[..k], u.moduleID))
    {
      assert mods[..k + 1][..k] == mods[..k];
      if u.moduleID == mods[k].keyID {
        matched := true;
        cm := cm[u.moduleID := Look(cm, u.moduleID) + 1];
        if u.score < mods[k].minPassing {
          failed := true;
        }
      }
    }
    assert mods[..|mods|] == mods;
  }

  /**
   * Walks every learner's records against the course modules, counting
   * enrolled and completing learners and, per module, the matching records.
   */
  method GetCourseStats(idParam: string, courses: map<int, Course>, allModules: seq<Module>, users: seq<User>)
    returns (r: Result<CourseStats>)
    ensures ParseInt64(idParam).None? ==> r == Fail(BadRequest)
    ensures ParseInt64(idParam).Some? && ParseInt64(idParam).value !in courses ==> r == Fail(NotFound)
    ensures ParseInt64(idParam).Some? && ParseInt64(idParam).value in courses ==>
      var courseID := ParseInt64(idParam).value;
      var mods := Progress.CourseModules(allModules, courseID);
      r == Ok(CourseStats(courseID, courses[courseID].name, |mods|,
                          EnrolledCount(users, mods), CompletedCount(users, mods), Completions(users, mods)))
  {
    var parsed := ParseInt64(idParam);
    if parsed.None? {
      return Fail(BadRequest);
    }
    var courseID := parsed.value;
    if courseID !in courses {
      return Fail(NotFound);
    }
    var course := CourseByID(courses, courseID);
    var mods := Progress.CourseModules(allModules, courseID);
    var enrolledUsers: nat, completedUsers: nat := 0, 0;
    var cm: map<int, int> := map[];
    for i := 0 to |users|
      invariant enrolledUsers == EnrolledCount(users[..i], mods)
      invariant completedUsers == CompletedCount(users[..i], mods)
      invariant cm == Completions(users[..i], mods)
    {
      assert users[..i + 1][..i] == users[..i];
      var userEnrolled, userCompletedAll;
      userEnrolled, userCompletedAll, cm := ScanUser(users[i].modules, mods, cm);
      if userEnrolled {
        enrolledUsers := enrolledUsers + 1;
        if userCompletedAll && |mods| > 0 {
          completedUsers := completedUsers + 1;
        }
      }
    }
    assert users[..|users|] == users;
    r := Ok(CourseStats(course.keyID, course.name, |mods|, enrolledUsers, completedUsers, cm));
  }

  /** Only enrolled learners complete, so the counts are ordered. */
  lemma {:induction false} CourseCountsOrdered(users: seq<User>, mods: seq<Module>)
    ensures CompletedCount(users, mods) <= EnrolledCount(users, mods) <= |users|
    decreases |users|
  {
    if users != [] {
      CourseCountsOrdered(users[..|users| - 1], mods);
    }
  }

  /** Records of module `id` held across all learners. */
  function RecordsWith(users: seq<User>, id: int): nat
    decreases |users|
  {
    if users == [] then 0 else RecordsWith(users[..|users| - 1], id) + RecordCount(users[|users| - 1].modules, id)
  }

  /** Every counter present is positive. */
  predicate Positive(cm: map<int, int>) {
    forall id :: id in cm ==> cm[id] > 0
  }

  lemma {:induction false} RecordBumpsCount(cm: map<int, int>, ums: seq<UserModule>, mods: seq<Module>, id: int)
    requires Positive(cm)
    ensures Positive(RecordBumps(cm, ums, mods))
    ensures Look(RecordBumps(cm, ums, mods), id) == Look(cm, id) + KeyCount(mods, id) * RecordCount(ums, id)
    decreases |ums|
  {
    if ums != [] {
      var init := ums[..|ums| - 1];
      RecordBumpsCount(cm, init, mods, id);
      if ums[|ums| - 1].moduleID == id {
        MulDist(KeyCount(mods, id), RecordCount(init, id), 1);
      }
    }
  }

  /**
   * A course module's counter is its key's multiplicity among the course
   * modules times the records of it across all learners; a key is present
   * exactly when its counter is positive.
   */
  lemma {:induction false} CompletionsCount(users: seq<User>, mods: seq<Module>, id: int)
    ensures Positive(Completions(users, mods))
    ensures Look(Completions(users, mods), id) == KeyCount(mods, id) * RecordsWith(users, id)
    decreases |users|
  {
    if users != [] {
      var init := users[..|users| - 1];
      CompletionsCount(init, mods, id);
      RecordBumpsCount(Completions(init, mods), users[|users| - 1].modules, mods, id);
      var a, b := RecordsWith(init, id), RecordCount(users[|users| - 1].modules, id);
      assert RecordsWith(users, id) == a + b;
      MulDist(KeyCount(mods, id), a, b);
    }
  }

  /** The store's modules of a course have distinct keys, so each course module is listed once. */
  lemma {:induction false} DistinctKeyCount(mods: seq<Module>, i: int)
    requires forall a, b :: 0 <= a < b < |mods| ==> mods[a].keyID != mods[b].keyID
    requires 0 <= i < |mods|
    ensures KeyCount(mods, mods[i].keyID) == 1
    decreases |mods|
  {
    var init := mods[..|mods| - 1];
    if i == |mods| - 1 {
      KeyCountAbsent(init, mods[i].keyID);
    } else {
      DistinctKeyCount(init, i);
    }
  }

  lemma {:induction false} KeyCountAbsent(mods: seq<Module>, id: int)
    requires forall a :: 0 <= a < |mods| ==> mods[a].keyID != id
    ensures KeyCount(mods, id) == 0
    decreases |mods|
  {
    if mods != [] {
      KeyCountAbsent(mods[..|mods| - 1], id);
    }
  }

  /**
   * With distinct module keys, a course module's counter is the number of
   * records of it across all learners, present exactly when there is one.
   */
  lemma ModuleCompletionsMeaning(users: seq<User>, mods: seq<Module>, i: int)
    requires forall a, b :: 0 <= a < b < |mods| ==> mods[a].keyID != mods[b].keyID
    requires 0 <= i < |mods|
    ensures var cm := Completions(users, mods);
      && Look(cm, mods[i].keyID) == RecordsWith(users, mods[i].keyID)
      && (mods[i].keyID in cm <==> RecordsWith(users, mods[i].keyID) > 0)
  {
    DistinctKeyCount(mods, i);
    CompletionsCount(users, mods, mods[i].keyID);
  }

  /** Only keys of course modules get a counter. */
  lemma ModuleCompletionsKeys(users: seq<User>, mods: seq<Module>, id: int)
    requires forall a :: 0 <= a < |mods| ==> mods[a].keyID != id
    ensures id !in Completions(users, mods)
  {
    KeyCountAbsent(mods, id);
    CompletionsCount(users, mods, id);
  }
}
