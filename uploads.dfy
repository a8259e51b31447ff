/**
 * Project file uploads: the size and extension check on an uploaded file,
 * the content type a stored file is served with, the file type listed for
 * a project, and the patching of a learner's module answers when a project
 * is uploaded or deleted. Files on disk are not modelled: the stored file
 * name is an input, and the store is stood in for by maps and sequences.
 */
module Uploads {
  import opened Common
  import opened Models
  import opened GoText
  import opened AttemptRecords
  import opened Grading

  /** The largest accepted upload, 10 << 20 bytes. */
  const MaxUploadSize: int := 10 * 1024 * 1024

  const AllowedExtensions: set<string> := {".pdf", ".doc", ".docx", ".txt", ".jpg", ".jpeg", ".png", ".gif",
                                           ".zip", ".rar", ".7z", ".mp4", ".mov", ".avi", ".mp3", ".wav"}

  const OctetStream: string := "application/octet-stream"

  /** The header of an uploaded file: its client-side name and its size. */
  datatype FileHeader = FileHeader(filename: string, size: int)

  /** The lower-cased extension of a file name. */
  function LowerExt(name: string): (e: string)
    ensures |e| <= |name|
  {
    ToLower(Ext(name))
  }

  /** The upload check: None when the file is accepted, else the reason it is refused. */
  function ValidateFile(h: FileHeader): (r: Option<string>)
    ensures r.None? <==> h.size <= MaxUploadSize && LowerExt(h.filename) in AllowedExtensions
  {
    if h.size > MaxUploadSize then Some("file too large: maximum size is 10MB")
    else if LowerExt(h.filename) !in AllowedExtensions then Some("file type not allowed: " + LowerExt(h.filename))
    else None
  }

  /**
   * The size limit is inclusive, and for a name ending in "." and a suffix
   * without '.' or '/', the check depends only on that suffix, in any case.
   */
  lemma ValidateFileBounds(stem: string, x: string)
    requires forall k :: 0 <= k < |x| ==> x[k] != '.' && x[k] != '/'
    ensures ValidateFile(FileHeader(stem + "." + x, MaxUploadSize)).None? <==> ToLower("." + x) in AllowedExtensions
    ensures ValidateFile(FileHeader(stem + "." + x, MaxUploadSize + 1)).Some?
  {
    ExtOfSuffix(stem, x);
  }

  /** The content type of a lower-cased extension. */
  function TypeOfExt(e: string): (t: string)
    ensures t != OctetStream ==> e in AllowedExtensions
  {
    if e == ".pdf" then "application/pdf"
    else if e == ".doc" || e == ".docx" then "application/msword"
    else if e == ".txt" then "text/plain"
    else if e == ".jpg" || e == ".jpeg" then "image/jpeg"
    else if e == ".png" then "image/png"
    else if e == ".gif" then "image/gif"
    else if e == ".mp4" then "video/mp4"
    else if e == ".mov" then "video/quicktime"
    else if e == ".mp3" then "audio/mpeg"
    else if e == ".wav" then "audio/wav"
    else if e == ".zip" then "application/zip"
    else OctetStream
  }

  /** The content type a stored file is served with, by its lower-cased extension. */
  function ContentType(path: string): (t: string)
    ensures t != OctetStream ==> ValidateFile(FileHeader(path, 0)).None?
  {
    TypeOfExt(LowerExt(path))
  }

  /**
   * Three of the accepted extensions have no content type of their own and
   * are served as a plain byte stream, like any unknown extension.
   */
  lemma ArchivesServedAsBytes(stem: string, x: string)
    requires x == "rar" || x == "7z" || x == "avi"
    ensures ValidateFile(FileHeader(stem + "." + x, MaxUploadSize)).None?
    ensures ContentType(stem + "." + x) == OctetStream
  {
    LowerExtOfSuffix(stem, x);
    ServedAsBytes("." + x);
  }

  /** A name ending in a lower-case extension has that extension. */
  lemma LowerExtOfSuffix(stem: string, x: string)
    requires forall k :: 0 <= k < |x| ==> '0' <= x[k] <= '9' || 'a' <= x[k] <= 'z'
    ensures LowerExt(stem + "." + x) == "." + x
  {
    ExtOfSuffix(stem, x);
    NoUpperUnchanged("." + x);
  }

  lemma ServedAsBytes(e: string)
    requires e == ".rar" || e == ".7z" || e == ".avi"
    ensures e in AllowedExtensions && TypeOfExt(e) == OctetStream
  {
  }

  /** Text without upper-case letters is its own lower-case form. */
  lemma NoUpperUnchanged(s: string)
    requires forall k :: 0 <= k < |s| ==> s[k] == '.' || '0' <= s[k] <= '9' || 'a' <= s[k] <= 'z'
    ensures ToLower(s) == s
  {
  }

  /** The listed file type: the extension without its dot, or empty. */
  function FileType(path: string): (t: string)
    ensures Ext(path) == [] ==> t == []
    ensures Ext(path) != [] ==> Ext(path) == "." + t
    ensures forall k :: 0 <= k < |t| ==> t[k] != '.' && t[k] != '/'
  {
    var e := Ext(path);
    if e == [] then [] else e[1..]
  }

  /** The file type of a name ending in "." and a suffix without '.' or '/' is that suffix. */
  lemma FileTypeOfSuffix(stem: string, x: string)
    requires x != []
    requires forall k :: 0 <= k < |x| ==> x[k] != '.' && x[k] != '/'
    ensures FileType(stem + "." + x) == x
  {
    ExtOfSuffix(stem, x);
  }

  // ----- the answer map on upload -----

  /** The answer key of an element: its id in decimal. */
  function AnswerKey(e: Element): string {
    FormatInt(e.keyID)
  }

  predicate IsProjectElement(e: Element) {
    e.elementType == "project" || e.elementType == "file"
  }

  /** An answer slot a new project may take: empty, or holding no project. */
  predicate Claimable(answers: map<string, Answer>, k: string) {
    k !in answers || answers[k].projectID == 0
  }

  /** The answer recorded for an uploaded project, approved until reviewed. */
  function Submission(projectID: int): Answer {
    Answer([], "", "", projectID, true)
  }

  /** The answer keys of the project and file elements among `elems`. */
  function ProjectKeys(elems: seq<Element>): set<string> {
    set i | 0 <= i < |elems| && IsProjectElement(elems[i]) :: AnswerKey(elems[i])
  }

  datatype Patch = Patch(answers: map<string, Answer>, updated: bool)

  /**
   * The pass over the module's elements: every project or file element
   * whose slot is still claimable when it is reached gets the submission,
   * and `updated` records that one did.
   */
  function Patched(answers: map<string, Answer>, elems: seq<Element>, projectID: int): (p: Patch)
    ensures answers.Keys <= p.answers.Keys
    ensures !p.updated ==> p.answers == answers
    decreases |elems|
  {
    if elems == [] then Patch(answers, false)
    else
      var prev := Patched(answers, elems[..|elems| - 1], projectID);
      var e := elems[|elems| - 1];
      if IsProjectElement(e) && Claimable(prev.answers, AnswerKey(e)) then
        Patch(prev.answers[AnswerKey(e) := Submission(projectID)], true)
      else
        prev
  }

  lemma ProjectKeysSnoc(elems: seq<Element>)
    requires elems != []
    ensures var e := elems[|elems| - 1];
      ProjectKeys(elems) == ProjectKeys(elems[..|elems| - 1]) + (if IsProjectElement(e) then {AnswerKey(e)} else {})
  {
    var front := elems[..|elems| - 1];
    forall k | k in ProjectKeys(front) ensures k in ProjectKeys(elems) {
      var i :| 0 <= i < |front| && IsProjectElement(front[i]) && AnswerKey(front[i]) == k;
      assert elems[i] == front[i];
    }
  }

  /**
   * The pass keeps every answer that holds a project and touches no key
   * outside the project and file elements' keys.
   */
  lemma {:induction false} PatchedKeeps(answers: map<string, Answer>, elems: seq<Element>, projectID: int)
    ensures var p := Patched(answers, elems, projectID);
      && (forall k :: k in answers && answers[k].projectID != 0 ==> p.answers[k] == answers[k])
      && (forall k :: k !in ProjectKeys(elems) ==> (k in p.answers <==> k in answers) && (k in answers ==> p.answers[k] == answers[k]))
    decreases |elems|
  {
    if elems != [] {
      PatchedKeeps(answers, elems[..|elems| - 1], projectID);
      ProjectKeysSnoc(elems);
    }
  }

  /** Every project or file element whose slot was claimable before the pass holds the submission after it. */
  lemma {:induction false} PatchedClaims(answers: map<string, Answer>, elems: seq<Element>, projectID: int)
    ensures var p := Patched(answers, elems, projectID);
      forall i :: 0 <= i < |elems| && IsProjectElement(elems[i]) && Claimable(answers, AnswerKey(elems[i])) ==>
        AnswerKey(elems[i]) in p.answers && p.answers[AnswerKey(elems[i])] == Submission(projectID)
    decreases |elems|
  {
    if elems != [] {
      var front := elems[..|elems| - 1];
      PatchedClaims(answers, front, projectID);
      PatchedKeeps(answers, front, projectID);
      var p := Patched(answers, elems, projectID);
      forall i | 0 <= i < |elems| && IsProjectElement(elems[i]) && Claimable(answers, AnswerKey(elems[i]))
        ensures AnswerKey(elems[i]) in p.answers && p.answers[AnswerKey(elems[i])] == Submission(projectID)
      {
        if i < |front| {
          assert elems[i] == front[i];
        }
      }
    }
  }

  /** The pass reports an update exactly when some project or file element had a claimable slot. */
  lemma {:induction false} PatchedUpdated(answers: map<string, Answer>, elems: seq<Element>, projectID: int)
    ensures Patched(answers, elems, projectID).updated <==>
      exists i :: 0 <= i < |elems| && IsProjectElement(elems[i]) && Claimable(answers, AnswerKey(elems[i]))
    decreases |elems|
  {
    if elems != [] {
      var front := elems[..|elems| - 1];
      var e := elems[|elems| - 1];
      PatchedUpdated(answers, front, projectID);
      PatchedKeeps(answers, front, projectID);
      var prev := Patched(answers, front, projectID);
      if exists i :: 0 <= i < |front| && IsProjectElement(front[i]) && Claimable(answers, AnswerKey(front[i])) {
        var i :| 0 <= i < |front| && IsProjectElement(front[i]) && Claimable(answers, AnswerKey(front[i]));
        assert elems[i] == front[i];
      } else if !(IsProjectElement(e) && Claimable(answers, AnswerKey(e))) {
        forall i | 0 <= i < |elems| && IsProjectElement(elems[i])
          ensures !Claimable(answers, AnswerKey(elems[i]))
        {
          if i < |front| {
            assert elems[i] == front[i];
          }
        }
      }
    }
  }

  /** The element pass of the upload handler, one element at a time. */
  method PatchAnswers(answers: map<string, Answer>, elems: seq<Element>, projectID: int)
    returns (answers': map<string, Answer>, updated: bool)
    ensures Patch(answers', updated) == Patched(answers, elems, projectID)
  {
    answers', updated := answers, false;
    for i := 0 to |elems|
      invariant Patch(answers', updated) == Patched(answers, elems[..i], projectID)
    {
      assert elems[..i + 1][..i] == elems[..i];
      var key := AnswerKey(elems[i]);
      if IsProjectElement(elems[i]) && (key !in answers' || answers'[key].projectID == 0) {
        answers' := answers'[key := Submission(projectID)];
        updated := true;
      }
    }
    assert elems[..|elems|] == elems;
  }

  /** The slot used when no element slot was taken. */
  function FallbackKey(moduleID: int): string {
    "project_" + FormatInt(moduleID)
  }

  /**
   * The answers after an upload: the element pass when the elements loaded,
   * and the fallback slot when that pass took no slot.
   */
  function UploadAnswers(answers: map<string, Answer>, loaded: Option<seq<Element>>, moduleID: int, projectID: int): map<string, Answer> {
    var p := if loaded.Some? then Patched(answers, loaded.value, projectID) else Patch(answers, false);
    if p.updated then p.answers else p.answers[FallbackKey(moduleID) := Submission(projectID)]
  }

  /** Some project or file element of the loaded elements has a claimable slot. */
  predicate ElementSlotFree(answers: map<string, Answer>, loaded: Option<seq<Element>>) {
    loaded.Some? &&
    exists i :: 0 <= i < |loaded.value| && IsProjectElement(loaded.value[i]) && Claimable(answers, AnswerKey(loaded.value[i]))
  }

  /**
   * An upload always records the submission somewhere, and an answer that
   * holds a project is kept unless it sits in the fallback slot. When an
   * element slot is free, the element pass alone decides the answers: every
   * free element slot holds the submission and no key outside the elements'
   * keys changes, the fallback slot included. Only when no element slot is
   * free is the submission written to the fallback slot, and then nothing
   * else changes.
   */
  lemma UploadAnswersMeaning(answers: map<string, Answer>, loaded: Option<seq<Element>>, moduleID: int, projectID: int)
    ensures var after := UploadAnswers(answers, loaded, moduleID, projectID);
      && (exists k :: k in after && after[k] == Submission(projectID))
      && (forall k :: k in answers && answers[k].projectID != 0 && k != FallbackKey(moduleID) ==> k in after && after[k] == answers[k])
    ensures var after := UploadAnswers(answers, loaded, moduleID, projectID);
      ElementSlotFree(answers, loaded) ==>
        && after == Patched(answers, loaded.value, projectID).answers
        && (forall i :: 0 <= i < |loaded.value| && IsProjectElement(loaded.value[i]) && Claimable(answers, AnswerKey(loaded.value[i])) ==>
              AnswerKey(loaded.value[i]) in after && after[AnswerKey(loaded.value[i])] == Submission(projectID))
        && (forall k :: k !in ProjectKeys(loaded.value) ==> (k in after <==> k in answers) && (k in answers ==> after[k] == answers[k]))
    ensures !ElementSlotFree(answers, loaded) ==>
      UploadAnswers(answers, loaded, moduleID, projectID) == answers[FallbackKey(moduleID) := Submission(projectID)]
  {
    var after := UploadAnswers(answers, loaded, moduleID, projectID);
    if loaded.Some? {
      PatchedKeeps(answers, loaded.value, projectID);
      PatchedUpdated(answers, loaded.value, projectID);
      PatchedClaims(answers, loaded.value, projectID);
    }
    if loaded.Some? && Patched(answers, loaded.value, projectID).updated {
      var elems := loaded.value;
      var i :| 0 <= i < |elems| && IsProjectElement(elems[i]) && Claimable(answers, AnswerKey(elems[i]));
      assert after[AnswerKey(elems[i])] == Submission(projectID);
    } else {
      assert after[FallbackKey(moduleID)] == Submission(projectID);
    }
  }

  /** The learner's records after an upload: the first record of the module is patched; with none, nothing changes. */
  function UploadedRecords(ms: seq<UserModule>, loaded: Option<seq<Element>>, moduleID: int, projectID: int): (r: seq<UserModule>)
    ensures |r| == |ms|
  {
    var i := FirstIndex(ms, moduleID);
    if i == |ms| then ms
    else ms[i := ms[i].(answers := UploadAnswers(ms[i].answers, loaded, moduleID, projectID))]
  }

  /** The record search of the upload and delete handlers: the position of the first record of the module. */
  method FirstRecordIndex(ms: seq<UserModule>, moduleID: int) returns (i: nat)
    ensures i == FirstIndex(ms, moduleID)
    ensures i < |ms| ==> ms[i].moduleID == moduleID
  {
    i := 0;
    while i < |ms|
      invariant 0 <= i <= |ms|
      invariant forall k :: 0 <= k < i ==> ms[k].moduleID != moduleID
    {
      if ms[i].moduleID == moduleID {
        FirstIsAt(ms, moduleID, i);
        return;
      }
      i := i + 1;
    }
  }

  /** The patch of one record's answers on upload: the element pass, then the fallback slot if it took none. */
  method UploadRecordAnswers(answers: map<string, Answer>, loaded: Option<seq<Element>>, moduleID: int, projectID: int)
    returns (answers': map<string, Answer>)
    ensures answers' == UploadAnswers(answers, loaded, moduleID, projectID)
  {
    var updated := false;
    answers' := answers;
    if loaded.Some? {
      answers', updated := PatchAnswers(answers, loaded.value, projectID);
    }
    if !updated {
      answers' := answers'[FallbackKey(moduleID) := Submission(projectID)];
    }
  }

  /** The text fields of the upload form. */
  datatype UploadForm = UploadForm(userId: string, moduleId: string, courseId: string, name: string, description: string)

  /** The stored path of an uploaded file: the generated name with the original extension. */
  function StoredPath(storedName: string, filename: string): string {
    "/uploads/projects/" + storedName + Ext(filename)
  }

  /**
   * The upload handler. Missing form fields, a missing file (None) and a
   * refused file are bad requests; otherwise the project is stored under
   * `newKey` and, when the learner exists and has a record of the module,
   * that record's answers are patched.
   */
  method UploadProject(form: UploadForm, file: Option<FileHeader>, storedName: string,
                       projects: map<int, Project>, users: map<int, User>,
                       store: seq<ModuleElement>, elements: map<int, Element>, newKey: int)
    returns (r: Result<int>, projects': map<int, Project>, users': map<int, User>)
    ensures form.userId == [] || form.moduleId == [] || form.courseId == [] || form.name == [] || file.None? ==>
      r == Fail(BadRequest) && projects' == projects && users' == users
    ensures file.Some? && ValidateFile(file.value).Some? ==> r == Fail(BadRequest) && projects' == projects && users' == users
    ensures r.Ok? ==>
      var userID, moduleID := ParseIntLenient(form.userId), ParseIntLenient(form.moduleId);
      && r.value == newKey
      && projects' == projects[newKey := Project(0, form.name, form.description, StoredPath(storedName, file.value.filename),
                                                 userID, ParseIntLenient(form.courseId), moduleID)]
      && (userID !in users ==> users' == users)
      && (userID in users ==> users' == users[userID := users[userID].(modules :=
            UploadedRecords(users[userID].modules, LoadAll(ElementsOfModule(store, moduleID), elements), moduleID, newKey))])
    ensures r.Ok? <==> form.userId != [] && form.moduleId != [] && form.courseId != [] && form.name != [] &&
                       file.Some? && ValidateFile(file.value).None?
  {
    projects', users' := projects, users;
    if form.userId == [] || form.moduleId == [] || form.courseId == [] || form.name == [] {
      return Fail(BadRequest), projects', users';
    }
    var userID := ParseIntLenient(form.userId);
    var moduleID := ParseIntLenient(form.moduleId);
    var courseID := ParseIntLenient(form.courseId);
    if file.None? {
      return Fail(BadRequest), projects', users';
    }
    if ValidateFile(file.value).Some? {
      return Fail(BadRequest), projects', users';
    }
    var path := StoredPath(storedName, file.value.filename);
    projects' := projects[newKey := Project(0, form.name, form.description, path, userID, courseID, moduleID)];
    if userID in users {
      var loaded := LoadAll(ElementsOfModule(store, moduleID), elements);
      var modules := UploadUserRecords(users[userID].modules, loaded, moduleID, newKey);
      users' := users[userID := users[userID].(modules := modules)];
    }
    r := Ok(newKey);
  }

  /** The learner's records after the upload: the first record of the module, if any, has its answers patched. */
  method UploadUserRecords(ms: seq<UserModule>, loaded: Option<seq<Element>>, moduleID: int, projectID: int)
    returns (ms': seq<UserModule>)
    ensures ms' == UploadedRecords(ms, loaded, moduleID, projectID)
  {
    ms' := ms;
    var i := FirstRecordIndex(ms, moduleID);
    if i < |ms| {
      var m := ms[i];
      var answers := UploadRecordAnswers(m.answers, loaded, moduleID, projectID);
      ms' := ms[i := m.(answers := answers)];
    }
  }

  // ----- the answer map on delete -----

  /** The answers with every reference to the project removed. */
  function WithoutProject(answers: map<string, Answer>, projectID: int): (r: map<string, Answer>)
    ensures forall k :: k in r ==> r[k].projectID != projectID
    ensures forall k :: k in answers && answers[k].projectID != projectID ==> k in r && r[k] == answers[k]
    ensures r.Keys <= answers.Keys
  {
    map k | k in answers && answers[k].projectID != projectID :: answers[k]
  }

  /**
   * The delete pass over the answer map, in any order of its keys: every
   * answer of the project is removed, and `removed` says whether there was one.
   */
  method RemoveProjectAnswers(answers: map<string, Answer>, projectID: int)
    returns (answers': map<string, Answer>, removed: bool)
    ensures answers' == WithoutProject(answers, projectID)
    ensures removed <==> exists k :: k in answers && answers[k].projectID == projectID
  {
    answers', removed := answers, false;
    var todo := answers.Keys;
    while todo != {}
      invariant todo <= answers.Keys
      invariant answers' == map k | k in answers && (k in todo || answers[k].projectID != projectID) :: answers[k]
      invariant removed <==> exists k :: k in answers && k !in todo && answers[k].projectID == projectID
      decreases todo
    {
      var k :| k in todo;
      if answers[k].projectID == projectID {
        answers' := answers' - {k};
        removed := true;
      }
      todo := todo - {k};
    }
  }

  /**
   * The delete handler: an unreadable id is a bad request and an unknown
   * project not found; otherwise the project is removed and, for a project
   * with a positive learner and module, the learner's first record of the
   * module loses every answer of the project, the learner being rewritten
   * only when one was removed.
   */
  method DeleteProject(idParam: string, projects: map<int, Project>, users: map<int, User>)
    returns (r: Result<()>, projects': map<int, Project>, users': map<int, User>)
    ensures ParseInt64(idParam).None? ==> r == Fail(BadRequest) && projects' == projects && users' == users
    ensures ParseInt64(idParam).Some? && ParseInt64(idParam).value !in projects ==>
      r == Fail(NotFound) && projects' == projects && users' == users
    ensures ParseInt64(idParam).Some? && ParseInt64(idParam).value in projects ==>
      var id := ParseInt64(idParam).value;
      var p := projects[id];
      && r == Ok(())
      && projects' == projects - {id}
      && (p.userID > 0 && p.moduleID > 0 && p.userID in users ==>
           users' == users[p.userID := users[p.userID].(modules := DeletedRecords(users[p.userID].modules, p.moduleID, id))])
      && (!(p.userID > 0 && p.moduleID > 0 && p.userID in users) ==> users' == users)
  {
    projects', users' := projects, users;
    var parsed := ParseInt64(idParam);
    if parsed.None? {
      return Fail(BadRequest), projects', users';
    }
    var id := parsed.value;
    if id !in projects {
      return Fail(NotFound), projects', users';
    }
    var project := projects[id];
    projects' := projects - {id};
    if project.userID > 0 && project.moduleID > 0 && project.userID in users {
      var user := users[project.userID];
      var i := FirstIndex(user.modules, project.moduleID);
      if i < |user.modules| {
        var kept, removed := RemoveProjectAnswers(user.modules[i].answers, id);
        if removed {
          users' := users[project.userID := user.(modules := user.modules[i := user.modules[i].(answers := kept)])];
        } else {
          assert WithoutProject(user.modules[i].answers, id) == user.modules[i].answers;
          assert user.modules[i := user.modules[i]] == user.modules;
          assert users[project.userID := user] == users;
        }
      }
    }
    r := Ok(());
  }

  /** The learner's records after a delete: the first record of the module loses the project's answers. */
  function DeletedRecords(ms: seq<UserModule>, moduleID: int, projectID: int): (r: seq<UserModule>)
    ensures |r| == |ms|
  {
    var i := FirstIndex(ms, moduleID);
    if i == |ms| then ms else ms[i := ms[i].(answers := WithoutProject(ms[i].answers, projectID))]
  }

  /**
   * After a delete, the first record of the module references the project
   * nowhere, keeps every other answer it had and gains none, and is
   * otherwise unchanged; every other record is as it was.
   */
  lemma DeletedRecordsMeaning(ms: seq<UserModule>, moduleID: int, projectID: int)
    ensures var after := DeletedRecords(ms, moduleID, projectID);
      var i := FirstIndex(ms, moduleID);
      && (i < |ms| ==> forall k :: k in after[i].answers ==> after[i].answers[k].projectID != projectID)
      && (i < |ms| ==> forall k :: k in ms[i].answers && ms[i].answers[k].projectID != projectID ==>
            k in after[i].answers && after[i].answers[k] == ms[i].answers[k])
      && (i < |ms| ==> after[i].answers.Keys <= ms[i].answers.Keys && after[i] == ms[i].(answers := after[i].answers))
      && (forall j :: 0 <= j < |ms| && j != i ==> after[j] == ms[j])
  {
  }

  /** An upload followed by the delete of the same project leaves no answer of it in the module's first record. */
  lemma UploadThenDelete(ms: seq<UserModule>, loaded: Option<seq<Element>>, moduleID: int, projectID: int)
    ensures var after := DeletedRecords(UploadedRecords(ms, loaded, moduleID, projectID), moduleID, projectID);
      var i := FirstIndex(ms, moduleID);
      && (i < |ms| ==> forall k :: k in after[i].answers ==> after[i].answers[k].projectID != projectID)
      && (i < |ms| ==> forall k ::
            (k in ms[i].answers && ms[i].answers[k].projectID != 0 && ms[i].answers[k].projectID != projectID && k != FallbackKey(moduleID))
            ==> k in after[i].answers && after[i].answers[k] == ms[i].answers[k])
      && (forall j :: 0 <= j < |ms| && j != i ==> after[j] == ms[j])
  {
    var up := UploadedRecords(ms, loaded, moduleID, projectID);
    var i := FirstIndex(ms, moduleID);
    if i < |ms| {
      UploadAnswersMeaning(ms[i].answers, loaded, moduleID, projectID);
      FirstIsAt(up, moduleID, i);
    }
  }
}
