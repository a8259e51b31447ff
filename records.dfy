/**
 * A learner's list of module attempt records (`User.Modules`): the lookup of
 * a module's record, the replace-or-append that records a submission, and
 * the filter that resets a module. Shared by the module-attempt and quiz
 * handlers.
 */
module AttemptRecords {
  import opened Common
  import opened Models

  /** Position of the first record of module `moduleID`; `|ms|` when there is none. */
  function FirstIndex(ms: seq<UserModule>, moduleID: int): (i: nat)
    ensures i <= |ms|
    ensures i < |ms| ==> ms[i].moduleID == moduleID
    ensures forall k :: 0 <= k < i ==> ms[k].moduleID != moduleID
    decreases |ms|
  {
    if ms == [] then 0
    else if ms[0].moduleID == moduleID then 0
    else 1 + FirstIndex(ms[1..], moduleID)
  }

  /** The first record of module `moduleID`, if any. */
  function Lookup(ms: seq<UserModule>, moduleID: int): Option<UserModule> {
    var i := FirstIndex(ms, moduleID);
    if i < |ms| then Some(ms[i]) else None
  }

  /** The lookup loop of GetModuleResults / GetQuizResults: first match wins. */
  method FindRecord(ms: seq<UserModule>, moduleID: int) returns (r: Option<UserModule>)
    ensures r == Lookup(ms, moduleID)
    ensures r.None? <==> forall k :: 0 <= k < |ms| ==> ms[k].moduleID != moduleID
    ensures r.Some? ==> r.value in ms && r.value.moduleID == moduleID
  {
    r := None;
    var i := 0;
    while i < |ms|
      invariant 0 <= i <= |ms|
      invariant forall k :: 0 <= k < i ==> ms[k].moduleID != moduleID
    {
      if ms[i].moduleID == moduleID {
        r := Some(ms[i]);
        break;
      }
      i := i + 1;
    }
  }

  /** `ms` with the first record of `rec`'s module replaced by `rec`, or `rec` appended. */
  function Upserted(ms: seq<UserModule>, rec: UserModule): seq<UserModule> {
    var i := FirstIndex(ms, rec.moduleID);
    if i < |ms| then ms[i := rec] else ms + [rec]
  }

  /** The update loop of SubmitModule / SubmitQuiz. */
  method Upsert(ms: seq<UserModule>, rec: UserModule) returns (out: seq<UserModule>)
    ensures out == Upserted(ms, rec)
  {
    out := ms;
    var found := false;
    var i := 0;
    while i < |ms|
      invariant 0 <= i <= |ms|
      invariant forall k :: 0 <= k < i ==> ms[k].moduleID != rec.moduleID
      invariant out == ms && !found
    {
      if ms[i].moduleID == rec.moduleID {
        out := ms[i := rec];
        found := true;
        break;
      }
      i := i + 1;
    }
    if !found {
      out := ms + [rec];
    }
  }

  /** The records of other modules than `moduleID`, in order. */
  function Without(ms: seq<UserModule>, moduleID: int): (r: seq<UserModule>)
    ensures |r| <= |ms|
    ensures forall k :: 0 <= k < |r| ==> r[k].moduleID != moduleID && r[k] in ms
    decreases |ms|
  {
    if ms == [] then []
    else
      var rest := Without(ms[..|ms| - 1], moduleID);
      if ms[|ms| - 1].moduleID != moduleID then rest + [ms[|ms| - 1]] else rest
  }

  /** The filter of ResetModuleAttempt / ResetQuiz. */
  method RemoveModule(ms: seq<UserModule>, moduleID: int) returns (out: seq<UserModule>)
    ensures out == Without(ms, moduleID)
  {
    out := [];
    for i := 0 to |ms|
      invariant out == Without(ms[..i], moduleID)
    {
      assert ms[..i + 1][..i] == ms[..i];
      if ms[i].moduleID != moduleID {
        out := out + [ms[i]];
      }
    }
    assert ms[..|ms|] == ms;
  }

  /** Number of records of module `moduleID`. */
  function RecordCount(ms: seq<UserModule>, moduleID: int): (n: nat)
    ensures n <= |ms|
    decreases |ms|
  {
    if ms == [] then 0
    else RecordCount(ms[..|ms| - 1], moduleID) + (if ms[|ms| - 1].moduleID == moduleID then 1 else 0)
  }

  lemma {:induction false} WithoutConcat(a: seq<UserModule>, b: seq<UserModule>, moduleID: int)
    ensures Without(a + b, moduleID) == Without(a, moduleID) + Without(b, moduleID)
    decreases |b|
  {
    if b == [] {
      assert a + b == a;
    } else {
      assert (a + b)[..|a + b| - 1] == a + b[..|b| - 1];
      WithoutConcat(a, b[..|b| - 1], moduleID);
    }
  }

  lemma {:induction false} RecordCountConcat(a: seq<UserModule>, b: seq<UserModule>, moduleID: int)
    ensures RecordCount(a + b, moduleID) == RecordCount(a, moduleID) + RecordCount(b, moduleID)
    decreases |b|
  {
    if b == [] {
      assert a + b == a;
    } else {
      assert (a + b)[..|a + b| - 1] == a + b[..|b| - 1];
      RecordCountConcat(a, b[..|b| - 1], moduleID);
    }
  }

  /** When the module has no record, removing it changes nothing. */
  lemma {:induction false} WithoutAbsent(ms: seq<UserModule>, moduleID: int)
    requires forall k :: 0 <= k < |ms| ==> ms[k].moduleID != moduleID
    ensures Without(ms, moduleID) == ms
    decreases |ms|
  {
    if ms != [] {
      WithoutAbsent(ms[..|ms| - 1], moduleID);
    }
  }

  /**
   * Resetting a module leaves no record of it, keeps the records of every
   * other module in order, and a second reset changes nothing.
   */
  lemma ResetMeaning(ms: seq<UserModule>, moduleID: int, other: int)
    requires other != moduleID
    ensures Lookup(Without(ms, moduleID), moduleID) == None
    ensures RecordCount(Without(ms, moduleID), moduleID) == 0
    ensures RecordCount(Without(ms, moduleID), other) == RecordCount(ms, other)
    ensures Without(Without(ms, moduleID), moduleID) == Without(ms, moduleID)
  {
    var w := Without(ms, moduleID);
    WithoutAbsent(w, moduleID);
    CountAbsent(w, moduleID);
    WithoutKeepsCount(ms, moduleID, other);
  }

  lemma {:induction false} CountAbsent(ms: seq<UserModule>, moduleID: int)
    requires forall k :: 0 <= k < |ms| ==> ms[k].moduleID != moduleID
    ensures RecordCount(ms, moduleID) == 0
    decreases |ms|
  {
    if ms != [] {
      CountAbsent(ms[..|ms| - 1], moduleID);
    }
  }

  lemma {:induction false} WithoutKeepsCount(ms: seq<UserModule>, moduleID: int, other: int)
    requires other != moduleID
    ensures RecordCount(Without(ms, moduleID), other) == RecordCount(ms, other)
    decreases |ms|
  {
    if ms != [] {
      var front, x := ms[..|ms| - 1], ms[|ms| - 1];
      WithoutKeepsCount(front, moduleID, other);
      var rest := Without(front, moduleID);
      if x.moduleID != moduleID {
        assert (rest + [x])[..|rest|] == rest;
      }
    }
  }

  /** After a submission is recorded, looking the module up yields exactly the new record. */
  lemma UpsertLookup(ms: seq<UserModule>, rec: UserModule)
    ensures Lookup(Upserted(ms, rec), rec.moduleID) == Some(rec)
  {
    FirstIsAt(Upserted(ms, rec), rec.moduleID, FirstIndex(ms, rec.moduleID));
  }

  /** Recording the same submission twice is the same as recording it once. */
  lemma UpsertIdempotent(ms: seq<UserModule>, rec: UserModule)
    ensures Upserted(Upserted(ms, rec), rec) == Upserted(ms, rec)
  {
    FirstIsAt(Upserted(ms, rec), rec.moduleID, FirstIndex(ms, rec.moduleID));
  }

  /** Recording a submission leaves the records of every other module as they were, in order. */
  lemma UpsertKeepsOthers(ms: seq<UserModule>, rec: UserModule)
    ensures Without(Upserted(ms, rec), rec.moduleID) == Without(ms, rec.moduleID)
  {
    var id := rec.moduleID;
    var i := FirstIndex(ms, id);
    if i < |ms| {
      var pre, post := ms[..i], ms[i + 1..];
      assert ms == pre + [ms[i]] + post;
      assert Upserted(ms, rec) == pre + [rec] + post;
      WithoutConcat(pre + [ms[i]], post, id);
      WithoutConcat(pre, [ms[i]], id);
      WithoutConcat(pre + [rec], post, id);
      WithoutConcat(pre, [rec], id);
      assert [ms[i]][..0] == [] && [rec][..0] == [];
    } else {
      WithoutConcat(ms, [rec], id);
      assert [rec][..0] == [];
    }
  }

  /** A module with at most one record has exactly one after a submission is recorded. */
  lemma UpsertSingleRecord(ms: seq<UserModule>, rec: UserModule)
    requires RecordCount(ms, rec.moduleID) <= 1
    ensures RecordCount(Upserted(ms, rec), rec.moduleID) == 1
  {
    var id := rec.moduleID;
    var i := FirstIndex(ms, id);
    RecordCountAbsent(ms[..i], id);
    if i < |ms| {
      var pre, post := ms[..i], ms[i + 1..];
      assert ms == pre + [ms[i]] + post;
      assert Upserted(ms, rec) == pre + [rec] + post;
      RecordCountConcat(pre + [ms[i]], post, id);
      RecordCountConcat(pre, [ms[i]], id);
      RecordCountConcat(pre + [rec], post, id);
      RecordCountConcat(pre, [rec], id);
      assert [ms[i]][..0] == [] && [rec][..0] == [];
    } else {
      assert ms[..i] == ms;
      RecordCountConcat(ms, [rec], id);
      assert [rec][..0] == [];
    }
  }

  /** If position `i` holds the module and nothing before it does, it is the first. */
  lemma {:induction false} FirstIsAt(ms: seq<UserModule>, moduleID: int, i: nat)
    requires i < |ms| && ms[i].moduleID == moduleID
    requires forall k :: 0 <= k < i ==> ms[k].moduleID != moduleID
    ensures FirstIndex(ms, moduleID) == i
    decreases i
  {
    if i > 0 {
      FirstIsAt(ms[1..], moduleID, i - 1);
    }
  }

  lemma {:induction false} RecordCountAbsent(ms: seq<UserModule>, moduleID: int)
    requires forall k :: 0 <= k < |ms| ==> ms[k].moduleID != moduleID
    ensures RecordCount(ms, moduleID) == 0
    decreases |ms|
  {
    if ms != [] {
      RecordCountAbsent(ms[..|ms| - 1], moduleID);
    }
  }

  /** Recording a submission and then resetting the module leaves only the other modules' records. */
  lemma SubmitThenReset(ms: seq<UserModule>, rec: UserModule)
    ensures Without(Upserted(ms, rec), rec.moduleID) == Without(ms, rec.moduleID)
    ensures Lookup(Without(Upserted(ms, rec), rec.moduleID), rec.moduleID) == None
  {
    UpsertKeepsOthers(ms, rec);
    ResetMeaning(ms, rec.moduleID, rec.moduleID + 1);
  }

  /** The learner store after recording `rec` for user `userID`. */
  function Recorded(users: map<int, User>, userID: int, rec: UserModule): map<int, User>
    requires userID in users
  {
    users[userID := users[userID].(modules := Upserted(users[userID].modules, rec))]
  }

  /**
   * The learner store after a reset: the learner's records of other modules
   * remain in order, none of this module's.
   */
  function Reset(users: map<int, User>, userID: int, moduleID: int): map<int, User>
    requires userID in users
  {
    users[userID := users[userID].(modules := Without(users[userID].modules, moduleID))]
  }
}
