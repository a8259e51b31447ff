/**
 * The department list: an in-memory list of names held by the handler,
 * listed with their positions as ids, extended by a trimmed name that is
 * new up to letter case, and shortened by deleting one position.
 */
module Departments {
  import opened Common
  import opened GoText

  /** A department as listed: its current position and its name. */
  datatype Department = Department(id: int, name: string)

  /** No two names lower-case alike. */
  predicate NoCaseDuplicates(ds: seq<string>) {
    forall a, b :: 0 <= a < b < |ds| ==> ToLower(ds[a]) != ToLower(ds[b])
  }

  /** Some name of the list lower-cases like `name`. */
  predicate Taken(ds: seq<string>, name: string) {
    exists k :: 0 <= k < |ds| && ToLower(ds[k]) == ToLower(name)
  }

  const Defaults: seq<string> := ["Medicine", "Biology", "Chemistry", "Nursing", "Public Health",
                                  "Research Methodology", "Healthcare Management"]

  class DepartmentHandler {
    var departments: seq<string>

    /** Starts with the seven default departments. */
    constructor()
      ensures departments == Defaults
    {
      departments := Defaults;
    }

    /** Lists every department with its position as its id. */
    method GetAllDepartments() returns (list: seq<Department>)
      ensures |list| == |departments|
      ensures forall i :: 0 <= i < |list| ==> list[i] == Department(i, departments[i])
    {
      var objects := new Department[|departments|](i => Department(0, ""));
      for i := 0 to |departments|
        invariant forall k :: 0 <= k < i ==> objects[k] == Department(k, departments[k])
      {
        objects[i] := Department(i, departments[i]);
      }
      list := objects[..];
    }

    /**
     * Adds a department (None stands for a body that does not decode): the
     * name is trimmed, must not be empty and must be new up to letter case;
     * it is appended and its id is the last position.
     */
    method AddDepartment(body: Option<string>) returns (r: Result<Department>)
      modifies this
      ensures body.None? ==> r == Fail(BadRequest) && departments == old(departments)
      ensures body.Some? && TrimSpace(body.value) == [] ==> r == Fail(BadRequest) && departments == old(departments)
      ensures body.Some? && TrimSpace(body.value) != [] && Taken(old(departments), TrimSpace(body.value)) ==>
        r == Fail(Conflict) && departments == old(departments)
      ensures body.Some? && TrimSpace(body.value) != [] && !Taken(old(departments), TrimSpace(body.value)) ==>
        && departments == old(departments) + [TrimSpace(body.value)]
        && r == Ok(Department(|departments| - 1, TrimSpace(body.value)))
      ensures NoCaseDuplicates(old(departments)) ==> NoCaseDuplicates(departments)
    {
      if body.None? {
        return Fail(BadRequest);
      }
      var name := TrimSpace(body.value);
      if name == [] {
        return Fail(BadRequest);
      }
      for k := 0 to |departments|
        invariant forall j :: 0 <= j < k ==> ToLower(departments[j]) != ToLower(name)
      {
        if ToLower(departments[k]) == ToLower(name) {
          return Fail(Conflict);
        }
      }
      departments := departments + [name];
      r := Ok(Department(|departments| - 1, name));
    }

    /**
     * Deletes the department at a position given as text: empty or
     * unreadable text is a bad request and a position outside the list is
     * not found; otherwise that one name is removed.
     */
    method DeleteDepartment(idParam: string) returns (r: Result<()>)
      modifies this
      ensures idParam == [] || ScanInt(idParam).None? ==> r == Fail(BadRequest) && departments == old(departments)
      ensures idParam != [] && ScanInt(idParam).Some? ==>
        var id := ScanInt(idParam).value;
        && (id < 0 || id >= |old(departments)| ==> r == Fail(NotFound) && departments == old(departments))
        && (0 <= id < |old(departments)| ==> r == Ok(()) && departments == old(departments)[..id] + old(departments)[id + 1..])
    {
      if idParam == [] {
        r := Fail(BadRequest);
      } else {
        var scanned := ScanInt(idParam);
        if scanned.None? {
          r := Fail(BadRequest);
        } else if scanned.value < 0 || scanned.value >= |departments| {
          r := Fail(NotFound);
        } else {
          var id := scanned.value;
          departments := departments[..id] + departments[id + 1..];
          r := Ok(());
        }
      }
    }
  }

  /** The seven defaults are distinct up to letter case. */
  lemma DefaultsDistinct()
    ensures NoCaseDuplicates(Defaults)
  {
    var heads := "mbcnprh";
    forall i | 0 <= i < |Defaults|
      ensures |ToLower(Defaults[i])| > 0 && ToLower(Defaults[i])[0] == heads[i]
    {
      assert |Defaults[i]| > 0 && ToLower(Defaults[i])[0] == LowerChar(Defaults[i][0]);
    }
    assert forall a, b :: 0 <= a < b < |heads| ==> heads[a] != heads[b];
  }

  /**
   * Deleting a position keeps the names before it in place, shifts the ones
   * after it down by one (so their ids drop by one), and keeps the list free
   * of case duplicates.
   */
  lemma DeleteShifts(ds: seq<string>, id: int)
    requires 0 <= id < |ds|
    ensures var after := ds[..id] + ds[id + 1..];
      && |after| == |ds| - 1
      && (forall k :: 0 <= k < id ==> after[k] == ds[k])
      && (forall k :: id <= k < |after| ==> after[k] == ds[k + 1])
      && (NoCaseDuplicates(ds) ==> NoCaseDuplicates(after))
  {
    var after := ds[..id] + ds[id + 1..];
    if NoCaseDuplicates(ds) {
      forall a, b | 0 <= a < b < |after|
        ensures ToLower(after[a]) != ToLower(after[b])
      {
        var a', b' := if a < id then a else a + 1, if b < id then b else b + 1;
        assert after[a] == ds[a'] && after[b] == ds[b'];
      }
    }
  }
}
