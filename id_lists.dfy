/**
 * Id lists kept inside stored entities: a course's list of module ids and
 * a module's list of thread ids. Creating a module (thread) appends its new
 * key to the owner's list; deleting one compacts the list in place. The
 * store is stood in for by maps from datastore key to entity; new keys are
 * inputs.
 */
module IdLists {
  import opened Common
  import opened Models

  /** The ids other than `id`, in their order. */
  function IdsWithout(s: seq<int>, id: int): (r: seq<int>)
    ensures |r| <= |s|
    ensures forall k :: 0 <= k < |r| ==> r[k] != id
    decreases |s|
  {
    if s == [] then [] else IdsWithout(s[..|s| - 1], id) + (if s[|s| - 1] == id then [] else [s[|s| - 1]])
  }

  lemma {:induction false} IdsWithoutConcat(a: seq<int>, b: seq<int>, id: int)
    ensures IdsWithout(a + b, id) == IdsWithout(a, id) + IdsWithout(b, id)
    decreases |b|
  {
    if b == [] {
      assert a + b == a;
    } else {
      IdsWithoutConcat(a, b[..|b| - 1], id);
      assert (a + b)[..|a + b| - 1] == a + b[..|b| - 1];
    }
  }

  /** Every other id survives, and a list without `id` is left as it is. */
  lemma {:induction false} IdsWithoutKeeps(s: seq<int>, id: int)
    ensures forall x :: x in s && x != id ==> x in IdsWithout(s, id)
    ensures id !in s ==> IdsWithout(s, id) == s
    decreases |s|
  {
    if s != [] {
      IdsWithoutKeeps(s[..|s| - 1], id);
      assert s == s[..|s| - 1] + [s[|s| - 1]];
    }
  }

  /**
   * The in-place compaction loop: every id other than `id` is copied, in
   * order, to the next free position `j` at the front. The positions from
   * `j` on are never written and keep what they held.
   */
  method Compact(a: array<int>, id: int) returns (j: nat)
    modifies a
    ensures j <= a.Length
    ensures a[..j] == IdsWithout(old(a[..]), id)
    ensures forall k :: j <= k < a.Length ==> a[k] == old(a[k])
  {
    ghost var before := a[..];
    j := 0;
    for i := 0 to a.Length
      invariant j <= i
      invariant a[..j] == IdsWithout(before[..i], id)
      invariant forall k :: j <= k < a.Length ==> a[k] == before[k]
    {
      assert before[..i + 1][..i] == before[..i];
      if a[i] != id {
        a[j] := a[i];
        j := j + 1;
      }
    }
    assert before[..a.Length] == before;
  }

  /** The list a compaction without truncation leaves: the kept ids, then the stale tail of the old list. */
  function CompactedUntruncated(s: seq<int>, id: int): (r: seq<int>)
    ensures |r| == |s|
  {
    var kept := IdsWithout(s, id);
    kept + s[|kept|..]
  }

  /** Runs the compaction on a copy of the list and returns the kept prefix (truncate) or the whole buffer. */
  method CompactList(s: seq<int>, id: int, truncate: bool) returns (r: seq<int>)
    ensures truncate ==> r == IdsWithout(s, id)
    ensures !truncate ==> r == CompactedUntruncated(s, id)
  {
    var a := new int[|s|](k requires 0 <= k < |s| => s[k]);
    assert a[..] == s;
    var j := Compact(a, id);
    if truncate {
      r := a[..j];
    } else {
      assert a[j..] == s[j..];
      assert a[..] == a[..j] + a[j..];
      r := a[..];
    }
  }

  // ----- modules and their course -----

  /** The course store after appending a new module key to course `courseID`. */
  function WithModule(courses: map<int, Course>, courseID: int, key: int): map<int, Course>
    requires courseID in courses
  {
    courses[courseID := CourseByID(courses, courseID).(modules := courses[courseID].modules + [key])]
  }

  /**
   * Creates a module (None stands for a body that does not decode). A
   * non-empty course parameter overrides the module's course id and the
   * new key is appended to that course's list; a missing course is an
   * internal error after the module has been stored.
   */
  method CreateModule(body: Option<Module>, courseParam: string, courses: map<int, Course>,
                      modules: map<int, Module>, newKey: int)
    returns (r: Result<int>, courses': map<int, Course>, modules': map<int, Module>)
    ensures body.None? ==> r == Fail(BadRequest) && courses' == courses && modules' == modules
    ensures body.Some? && courseParam == [] ==>
      r == Ok(newKey) && courses' == courses && modules' == modules[newKey := body.value]
    ensures body.Some? && courseParam != [] ==>
      var courseID := ParseIntLenient(courseParam);
      && modules' == modules[newKey := body.value.(courseID := courseID)]
      && (courseID !in courses ==> r == Fail(InternalError) && courses' == courses)
      && (courseID in courses ==> r == Ok(newKey) && courses' == WithModule(courses, courseID, newKey))
  {
    courses', modules' := courses, modules;
    if body.None? {
      return Fail(BadRequest), courses', modules';
    }
    var m := body.value;
    if courseParam != [] {
      m := m.(courseID := ParseIntLenient(courseParam));
    }
    modules' := modules[newKey := m];
    if courseParam != [] {
      var courseID := ParseIntLenient(courseParam);
      if courseID !in courses {
        return Fail(InternalError), courses', modules';
      }
      var course := CourseByID(courses, courseID);
      course := course.(modules := course.modules + [newKey]);
      courses' := courses[courseID := course];
    }
    r := Ok(newKey);
  }

  /** The course store as the delete handler leaves it: the filtered course written under the module's key. */
  function DeletedFromCourseAsWritten(courses: map<int, Course>, moduleID: int, courseID: int): map<int, Course>
    requires courseID in courses
  {
    courses[moduleID := CourseByID(courses, courseID).(modules := IdsWithout(courses[courseID].modules, moduleID))]
  }

  /** The course store with the module removed from course `courseID`'s list. */
  function DeletedFromCourse(courses: map<int, Course>, moduleID: int, courseID: int): map<int, Course>
    requires courseID in courses
  {
    courses[courseID := CourseByID(courses, courseID).(modules := IdsWithout(courses[courseID].modules, moduleID))]
  }

  /**
   * The module delete handler as written: the module is deleted, and with a
   * course parameter that course's list is compacted and truncated, but the
   * course is then saved under the module's id.
   */
  method DeleteModuleAsWritten(idParam: string, courseParam: string, courses: map<int, Course>, modules: map<int, Module>)
    returns (r: Result<()>, courses': map<int, Course>, modules': map<int, Module>)
    ensures modules' == modules - {ParseIntLenient(idParam)}
    ensures courseParam == [] ==> r == Ok(()) && courses' == courses
    ensures courseParam != [] ==>
      var courseID := ParseIntLenient(courseParam);
      && (courseID !in courses ==> r == Fail(InternalError) && courses' == courses)
      && (courseID in courses ==> r == Ok(()) && courses' == DeletedFromCourseAsWritten(courses, ParseIntLenient(idParam), courseID))
  {
    var id := ParseIntLenient(idParam);
    modules' := modules - {id};
    courses' := courses;
    if courseParam != [] {
      var courseID := ParseIntLenient(courseParam);
      if courseID !in courses {
        return Fail(InternalError), courses', modules';
      }
      var course := CourseByID(courses, courseID);
      var kept := CompactList(course.modules, id, true);
      course := course.(modules := kept);
      courses' := courses[id := course];
    }
    r := Ok(());
  }

  /** The module delete handler with the course saved under its own id. */
  method DeleteModule(idParam: string, courseParam: string, courses: map<int, Course>, modules: map<int, Module>)
    returns (r: Result<()>, courses': map<int, Course>, modules': map<int, Module>)
    ensures modules' == modules - {ParseIntLenient(idParam)}
    ensures courseParam == [] ==> r == Ok(()) && courses' == courses
    ensures courseParam != [] ==>
      var courseID := ParseIntLenient(courseParam);
      && (courseID !in courses ==> r == Fail(InternalError) && courses' == courses)
      && (courseID in courses ==> r == Ok(()) && courses' == DeletedFromCourse(courses, ParseIntLenient(idParam), courseID))
  {
    var id := ParseIntLenient(idParam);
    modules' := modules - {id};
    courses' := courses;
    if courseParam != [] {
      var courseID := ParseIntLenient(courseParam);
      if courseID !in courses {
        return Fail(InternalError), courses', modules';
      }
      var course := CourseByID(courses, courseID);
      var kept := CompactList(course.modules, id, true);
      course := course.(modules := kept);
      courses' := courses[courseID := course];
    }
    r := Ok(());
  }

  /** Appending an id a list does not hold and then removing it gives the list back. */
  lemma AppendThenRemove(s: seq<int>, id: int)
    requires id !in s
    ensures IdsWithout(s + [id], id) == s
  {
    IdsWithoutConcat(s, [id], id);
    assert [id][..0] == [];
    IdsWithoutKeeps(s, id);
  }

  /**
   * After the corrected delete the course lists no occurrence of the module,
   * keeps its other modules, and no other course changes.
   */
  lemma DeletedFromCourseMeaning(courses: map<int, Course>, moduleID: int, courseID: int)
    requires courseID in courses
    ensures var after := DeletedFromCourse(courses, moduleID, courseID);
      && after.Keys == courses.Keys
      && moduleID !in after[courseID].modules
      && (forall x :: x in courses[courseID].modules && x != moduleID ==> x in after[courseID].modules)
      && (forall c :: c in courses && c != courseID ==> after[c] == courses[c])
  {
    var kept := IdsWithout(courses[courseID].modules, moduleID);
    IdsWithoutKeeps(courses[courseID].modules, moduleID);
    assert forall k :: 0 <= k < |kept| ==> kept[k] != moduleID;
  }

  /**
   * Creating a module in a course and deleting it again restores the course
   * store, except that the course now carries its own key as its id (both
   * handlers save the course as the by-id getter returned it).
   */
  lemma CreateThenDeleteModule(courses: map<int, Course>, courseID: int, key: int)
    requires courseID in courses && key !in courses[courseID].modules
    ensures DeletedFromCourse(WithModule(courses, courseID, key), key, courseID)
      == courses[courseID := CourseByID(courses, courseID)]
    ensures courses[courseID].keyID == courseID ==>
      DeletedFromCourse(WithModule(courses, courseID, key), key, courseID) == courses
  {
    AppendThenRemove(courses[courseID].modules, key);
  }

  /**
   * The handler as written leaves the course's list untouched and overwrites
   * the entity stored under the module's key with a copy of the course.
   */
  lemma DeleteModuleWrongKey()
    ensures var course := Course(5, "Anatomy", [9, 10], 1, true, "Medicine");
      var after := DeletedFromCourseAsWritten(map[5 := course], 9, 5);
      && after[5].modules == [9, 10]
      && 9 in after && after[9].modules == [10] && after[9].keyID == 5
  {
    var s := [9, 10];
    assert s[..1] == [9];
    assert IdsWithout([9], 9) == [] by {
      assert [9][..0] == [];
    }
  }

  // ----- threads and their module -----

  /** The module store after appending a new thread key to module `moduleID`. */
  function WithThread(modules: map<int, Module>, moduleID: int, key: int): map<int, Module>
    requires moduleID in modules
  {
    modules[moduleID := ModuleByID(modules, moduleID).(threadIDs := modules[moduleID].threadIDs + [key])]
  }

  /**
   * Creates a thread (None stands for a body that does not decode). A
   * non-empty module parameter overrides the thread's module id and the new
   * key is appended to that module's thread list.
   */
  method CreateThread(body: Option<Thread>, moduleParam: string, modules: map<int, Module>,
                      threads: map<int, Thread>, newKey: int)
    returns (r: Result<int>, modules': map<int, Module>, threads': map<int, Thread>)
    ensures body.None? ==> r == Fail(BadRequest) && modules' == modules && threads' == threads
    ensures body.Some? && moduleParam == [] ==>
      r == Ok(newKey) && modules' == modules && threads' == threads[newKey := body.value]
    ensures body.Some? && moduleParam != [] ==>
      var moduleID := ParseIntLenient(moduleParam);
      && threads' == threads[newKey := body.value.(moduleID := moduleID)]
      && (moduleID !in modules ==> r == Fail(InternalError) && modules' == modules)
      && (moduleID in modules ==> r == Ok(newKey) && modules' == WithThread(modules, moduleID, newKey))
  {
    modules', threads' := modules, threads;
    if body.None? {
      return Fail(BadRequest), modules', threads';
    }
    var thread := body.value;
    if moduleParam != [] {
      thread := thread.(moduleID := ParseIntLenient(moduleParam));
    }
    threads' := threads[newKey := thread];
    if moduleParam != [] {
      var moduleID := ParseIntLenient(moduleParam);
      if moduleID !in modules {
        return Fail(InternalError), modules', threads';
      }
      var owner := ModuleByID(modules, moduleID);
      owner := owner.(threadIDs := owner.threadIDs + [newKey]);
      modules' := modules[moduleID := owner];
    }
    r := Ok(newKey);
  }

  /** The module store as the thread delete handler leaves it: the untruncated list, under the thread's key. */
  function DeletedFromModuleAsWritten(modules: map<int, Module>, threadID: int, moduleID: int): map<int, Module>
    requires moduleID in modules
  {
    modules[threadID := ModuleByID(modules, moduleID).(threadIDs := CompactedUntruncated(modules[moduleID].threadIDs, threadID))]
  }

  /** The module store with the thread removed from module `moduleID`'s list. */
  function DeletedFromModule(modules: map<int, Module>, threadID: int, moduleID: int): map<int, Module>
    requires moduleID in modules
  {
    modules[moduleID := ModuleByID(modules, moduleID).(threadIDs := IdsWithout(modules[moduleID].threadIDs, threadID))]
  }

  /**
   * The thread delete handler as written: the thread is deleted and, with a
   * module parameter, the module's thread list is compacted but not
   * truncated, and the module is saved under the thread's id.
   */
  method DeleteThreadAsWritten(idParam: string, moduleParam: string, modules: map<int, Module>, threads: map<int, Thread>)
    returns (r: Result<()>, modules': map<int, Module>, threads': map<int, Thread>)
    ensures threads' == threads - {ParseIntLenient(idParam)}
    ensures moduleParam == [] ==> r == Ok(()) && modules' == modules
    ensures moduleParam != [] ==>
      var moduleID := ParseIntLenient(moduleParam);
      && (moduleID !in modules ==> r == Fail(InternalError) && modules' == modules)
      && (moduleID in modules ==> r == Ok(()) && modules' == DeletedFromModuleAsWritten(modules, ParseIntLenient(idParam), moduleID))
  {
    var id := ParseIntLenient(idParam);
    threads' := threads - {id};
    modules' := modules;
    if moduleParam != [] {
      var moduleID := ParseIntLenient(moduleParam);
      if moduleID !in modules {
        return Fail(InternalError), modules', threads';
      }
      var owner := ModuleByID(modules, moduleID);
      var buffer := CompactList(owner.threadIDs, id, false);
      owner := owner.(threadIDs := buffer);
      modules' := modules[id := owner];
    }
    r := Ok(());
  }

  /** The thread delete handler with the list truncated and the module saved under its own id. */
  method DeleteThread(idParam: string, moduleParam: string, modules: map<int, Module>, threads: map<int, Thread>)
    returns (r: Result<()>, modules': map<int, Module>, threads': map<int, Thread>)
    ensures threads' == threads - {ParseIntLenient(idParam)}
    ensures moduleParam == [] ==> r == Ok(()) && modules' == modules
    ensures moduleParam != [] ==>
      var moduleID := ParseIntLenient(moduleParam);
      && (moduleID !in modules ==> r == Fail(InternalError) && modules' == modules)
      && (moduleID in modules ==> r == Ok(()) && modules' == DeletedFromModule(modules, ParseIntLenient(idParam), moduleID))
  {
    var id := ParseIntLenient(idParam);
    threads' := threads - {id};
    modules' := modules;
    if moduleParam != [] {
      var moduleID := ParseIntLenient(moduleParam);
      if moduleID !in modules {
        return Fail(InternalError), modules', threads';
      }
      var owner := ModuleByID(modules, moduleID);
      var kept := CompactList(owner.threadIDs, id, true);
      owner := owner.(threadIDs := kept);
      modules' := modules[moduleID := owner];
    }
    r := Ok(());
  }

  /**
   * After the corrected delete the module lists no occurrence of the thread
   * and keeps its other threads; no other module changes.
   */
  lemma DeletedFromModuleMeaning(modules: map<int, Module>, threadID: int, moduleID: int)
    requires moduleID in modules
    ensures var after := DeletedFromModule(modules, threadID, moduleID);
      && after.Keys == modules.Keys
      && threadID !in after[moduleID].threadIDs
      && (forall x :: x in modules[moduleID].threadIDs && x != threadID ==> x in after[moduleID].threadIDs)
      && (forall m :: m in modules && m != moduleID ==> after[m] == modules[m])
  {
    IdsWithoutKeeps(modules[moduleID].threadIDs, threadID);
    var after := DeletedFromModule(modules, threadID, moduleID);
    assert forall k :: 0 <= k < |after[moduleID].threadIDs| ==> after[moduleID].threadIDs[k] != threadID;
  }

  /**
   * Creating a thread in a module and deleting it again restores the module
   * store, except that the module now carries its own key as its id.
   */
  lemma CreateThenDeleteThread(modules: map<int, Module>, moduleID: int, key: int)
    requires moduleID in modules && key !in modules[moduleID].threadIDs
    ensures DeletedFromModule(WithThread(modules, moduleID, key), key, moduleID)
      == modules[moduleID := ModuleByID(modules, moduleID)]
    ensures modules[moduleID].keyID == moduleID ==>
      DeletedFromModule(WithThread(modules, moduleID, key), key, moduleID) == modules
  {
    AppendThenRemove(modules[moduleID].threadIDs, key);
  }

  /**
   * Without truncation the list keeps its length and its stale tail: deleting
   * the last thread of [8, 7] leaves [8, 7], so the deleted thread stays listed.
   */
  lemma StaleTailKeepsDeletedThread()
    ensures CompactedUntruncated([8, 7], 7) == [8, 7]
    ensures 7 in CompactedUntruncated([8, 7], 7)
    ensures IdsWithout([8, 7], 7) == [8]
  {
    var s := [8, 7];
    assert s[..1] == [8];
    assert [8][..0] == [];
    assert IdsWithout([8], 7) == [8];
  }
}
