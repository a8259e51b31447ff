/**
 * The role key of RoleHandler.GetRoleKey: each of a user's role names is
 * looked up by name and its `NumericValue` added to a running total. The
 * lookup error is discarded and the result dereferenced, so a name missing
 * from the role table is a nil dereference; `None` stands for that panic.
 */
module Roles {
  import opened Common
  import opened Models
  import opened Bitwise

  /** The role store's by-name query: the first role with that name. */
  function FindRole(store: seq<Role>, name: string): (r: Option<Role>)
    ensures r.Some? ==> r.value in store && r.value.name == name
    ensures r.None? <==> forall i :: 0 <= i < |store| ==> store[i].name != name
    decreases |store|
  {
    if store == [] then None
    else if store[0].name == name then Some(store[0])
    else FindRole(store[1..], name)
  }

  /** The role key of `names`: the sum of their values, or `None` when some name has no role. */
  function RoleKeyOf(names: seq<string>, store: seq<Role>): Option<int>
    decreases |names|
  {
    if names == [] then Some(0)
    else
      var rest := RoleKeyOf(names[..|names| - 1], store);
      var role := FindRole(store, names[|names| - 1]);
      if rest.Some? && role.Some? then Some(rest.value + role.value.numericValue) else None
  }

  /** The accumulator loop of GetRoleKey. */
  method GetRoleKey(names: seq<string>, store: seq<Role>) returns (key: Option<int>)
    ensures key == RoleKeyOf(names, store)
    ensures key.None? <==> exists i :: 0 <= i < |names| && FindRole(store, names[i]).None?
  {
    var roleKey := 0;
    for i := 0 to |names|
      invariant RoleKeyOf(names[..i], store) == Some(roleKey)
      invariant forall k :: 0 <= k < i ==> FindRole(store, names[k]).Some?
    {
      assert names[..i + 1][..i] == names[..i];
      var role := FindRole(store, names[i]);
      if role.None? {
        MissingRoleSticks(names, store, i);
        return None;
      }
      roleKey := roleKey + role.value.numericValue;
    }
    assert names[..|names|] == names;
    key := Some(roleKey);
  }

  /** Once a prefix hits a missing role, the whole list has none. */
  lemma MissingRoleSticks(names: seq<string>, store: seq<Role>, i: nat)
    requires i < |names| && FindRole(store, names[i]).None?
    ensures RoleKeyOf(names, store) == None
  {
    RoleKeyConcat(names[..i + 1], names[i + 1..], store);
    assert names == names[..i + 1] + names[i + 1..];
    assert names[..i + 1][..i] == names[..i];
  }

  function AddKeys(a: Option<int>, b: Option<int>): Option<int> {
    if a.Some? && b.Some? then Some(a.value + b.value) else None
  }

  /** The key of a concatenation combines the keys of the parts. */
  lemma {:induction false} RoleKeyConcat(a: seq<string>, b: seq<string>, store: seq<Role>)
    ensures RoleKeyOf(a + b, store) == AddKeys(RoleKeyOf(a, store), RoleKeyOf(b, store))
    decreases |b|
  {
    if b == [] {
      assert a + b == a;
    } else {
      assert (a + b)[..|a + b| - 1] == a + b[..|b| - 1];
      RoleKeyConcat(a, b[..|b| - 1], store);
    }
  }

  lemma MultisetRemoveAt(b: seq<string>, j: nat)
    requires j < |b|
    ensures b == b[..j] + [b[j]] + b[j + 1..]
    ensures multiset(b[..j] + b[j + 1..]) == multiset(b) - multiset{b[j]}
  {
    assert b == b[..j] + [b[j]] + b[j + 1..];
    assert multiset(b) == multiset(b[..j]) + multiset{b[j]} + multiset(b[j + 1..]);
  }

  /** Moving one name to the end of the list does not change the key. */
  lemma RoleKeyMoveLast(pre: seq<string>, x: string, post: seq<string>, store: seq<Role>)
    ensures RoleKeyOf(pre + [x] + post, store) == RoleKeyOf(pre + post + [x], store)
  {
    RoleKeyConcat(pre + [x], post, store);
    RoleKeyConcat(pre, [x], store);
    RoleKeyConcat(pre + post, [x], store);
    RoleKeyConcat(pre, post, store);
  }

  /**
   * The key does not depend on the order of the names: any rearrangement of
   * the list has the same key.
   */
  lemma {:induction false} RoleKeyPermutation(a: seq<string>, b: seq<string>, store: seq<Role>)
    requires multiset(a) == multiset(b)
    ensures RoleKeyOf(a, store) == RoleKeyOf(b, store)
    decreases |a|
  {
    if a == [] {
      assert |b| == |multiset(b)| == 0;
    } else {
      var init, x := a[..|a| - 1], a[|a| - 1];
      assert a == init + [x];
      assert multiset(init) == multiset(a) - multiset{x};
      assert x in multiset(b);
      var j :| 0 <= j < |b| && b[j] == x;
      var pre, post := b[..j], b[j + 1..];
      MultisetRemoveAt(b, j);
      RoleKeyPermutation(init, pre + post, store);
      RoleKeyMoveLast(pre, x, post, store);
      RoleKeyConcat(init, [x], store);
      RoleKeyConcat(pre + post, [x], store);
    }
  }

  /** A name listed twice is counted twice. */
  lemma RoleKeyDuplicate(name: string, store: seq<Role>)
    requires FindRole(store, name).Some?
    ensures RoleKeyOf([name, name], store) == Some(2 * FindRole(store, name).value.numericValue)
  {
    var v := FindRole(store, name).value.numericValue;
    assert [name][..0] == [];
    assert RoleKeyOf([name], store) == Some(v);
    assert [name, name][..1] == [name];
  }

  /** The sum of role values, read as bits: the OR of the parts' bits when they are disjoint. */
  function OrOf(values: seq<nat>): nat
    decreases |values|
  {
    if values == [] then 0 else BitOr(OrOf(values[..|values| - 1]), values[|values| - 1])
  }

  function Total(values: seq<nat>): nat
    decreases |values|
  {
    if values == [] then 0 else Total(values[..|values| - 1]) + values[|values| - 1]
  }

  /** The values of `names`, in order, when every name has a role with a non-negative value. */
  predicate HasValues(names: seq<string>, store: seq<Role>, values: seq<nat>) {
    && |values| == |names|
    && forall i :: 0 <= i < |names| ==>
         FindRole(store, names[i]).Some? && FindRole(store, names[i]).value.numericValue == values[i]
  }

  lemma {:induction false} RoleKeyIsTotal(names: seq<string>, store: seq<Role>, values: seq<nat>)
    requires HasValues(names, store, values)
    ensures RoleKeyOf(names, store) == Some(Total(values))
    decreases |names|
  {
    if names != [] {
      RoleKeyIsTotal(names[..|names| - 1], store, values[..|values| - 1]);
    }
  }

  /** Values that are pairwise bit-disjoint. */
  predicate PairwiseDisjoint(values: seq<nat>) {
    forall i, j :: 0 <= i < |values| && 0 <= j < |values| && i != j ==> BitAnd(values[i], values[j]) == 0
  }

  /** The union misses `c` exactly when every value misses it. */
  lemma {:induction false} OrOfMisses(values: seq<nat>, c: nat)
    ensures BitAnd(OrOf(values), c) == 0 <==> forall i :: 0 <= i < |values| ==> BitAnd(values[i], c) == 0
    decreases |values|
  {
    if values != [] {
      var init := values[..|values| - 1];
      OrOfMisses(init, c);
      OrMisses(OrOf(init), values[|values| - 1], c);
    }
  }

  /** Pairwise-disjoint values sum to their bitwise OR. */
  lemma {:induction false} DisjointTotalIsOr(values: seq<nat>)
    requires PairwiseDisjoint(values)
    ensures Total(values) == OrOf(values)
    decreases |values|
  {
    if values != [] {
      var init, last := values[..|values| - 1], values[|values| - 1];
      assert PairwiseDisjoint(init);
      DisjointTotalIsOr(init);
      OrOfMisses(init, last);
      forall i | 0 <= i < |init|
        ensures BitAnd(init[i], last) == 0
      {
        assert values[i] == init[i];
        assert i != |values| - 1;
      }
      DisjointSumIsOr(OrOf(init), last);
    }
  }

  /** Distinct exponents give pairwise-disjoint powers of two. */
  lemma DistinctPowersDisjoint(values: seq<nat>, exps: seq<nat>)
    requires |values| == |exps|
    requires forall i :: 0 <= i < |values| ==> values[i] == Pow2(exps[i])
    requires forall i, j :: 0 <= i < j < |exps| ==> exps[i] != exps[j]
    ensures PairwiseDisjoint(values)
  {
    forall i, j | 0 <= i < |values| && 0 <= j < |values| && i != j
      ensures BitAnd(values[i], values[j]) == 0
    {
      PowersDisjoint(exps[i], exps[j]);
    }
  }

  /**
   * When the user's roles are distinct single bits, as the role table's
   * convention intends, the role key is their bitwise OR, and it meets a
   * permission level exactly when one of the roles does.
   */
  lemma DistinctBitRoles(names: seq<string>, store: seq<Role>, values: seq<nat>, exps: seq<nat>, level: nat)
    requires HasValues(names, store, values)
    requires |exps| == |values| && forall i :: 0 <= i < |values| ==> values[i] == Pow2(exps[i])
    requires forall i, j :: 0 <= i < j < |exps| ==> exps[i] != exps[j]
    ensures RoleKeyOf(names, store) == Some(OrOf(values))
    ensures BitAnd(OrOf(values), level) != 0 <==> exists i :: 0 <= i < |values| && BitAnd(values[i], level) != 0
  {
    RoleKeyIsTotal(names, store, values);
    DistinctPowersDisjoint(values, exps);
    DisjointTotalIsOr(values);
    OrOfMisses(values, level);
  }
}
