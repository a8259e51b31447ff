/**
 * The property pages' script helpers: their query-string reader, which
 * drops the literal value "null", and the list of the distinct values one
 * attribute takes over a list of properties. A property is a map from
 * attribute names to values; a missing attribute reads as None
 * (undefined).
 */
module BlueHelpers {
  import opened Common
  import opened QueryString

  /** The reader needs an '=' in every parameter; without one its value is undefined and the replace throws. */
  predicate AllPairs(ps: seq<string>) {
    forall i :: 0 <= i < |ps| ==> '=' in ps[i]
  }

  /** The object the parameters build: each value with '+' read as a space, except the value "null", which is skipped. */
  function BlueParams(ps: seq<string>): map<string, string>
    requires AllPairs(ps)
    decreases |ps|
  {
    if ps == [] then map[]
    else
      var el := ps[|ps| - 1];
      var prev := BlueParams(ps[..|ps| - 1]);
      var value := PlusToSpace(ValuePart(el).value);
      if value != "null" then prev[NamePart(el) := value] else prev
  }

  method GetParamsFromRequest(parameters: seq<string>) returns (paramObj: map<string, string>)
    requires |parameters| > 0 && parameters[0] != [] ==> AllPairs(parameters)
    ensures |parameters| == 0 || parameters[0] == [] ==> paramObj == map[]
    ensures |parameters| > 0 && parameters[0] != [] ==> paramObj == BlueParams(parameters)
  {
    paramObj := map[];
    if |parameters| > 0 && parameters[0] != [] {
      for i := 0 to |parameters|
        invariant paramObj == BlueParams(parameters[..i])
      {
        assert parameters[..i + 1][..i] == parameters[..i];
        var el := parameters[i];
        var value := PlusToSpace(ValuePart(el).value);
        if value != "null" {
          paramObj := paramObj[NamePart(el) := value];
        }
      }
      assert parameters[..|parameters|] == parameters;
    }
  }

  /**
   * No name maps to "null" or holds a '+', and a name maps to the value of
   * its last parameter whenever that value is not "null".
   */
  lemma BlueParamsMeaning(ps: seq<string>)
    requires AllPairs(ps)
    ensures forall k :: k in BlueParams(ps) ==> BlueParams(ps)[k] != "null" && '+' !in BlueParams(ps)[k]
    ensures forall i ::
      (0 <= i < |ps| && PlusToSpace(ValuePart(ps[i]).value) != "null" && (forall j :: i < j < |ps| ==> NamePart(ps[j]) != NamePart(ps[i])))
      ==> NamePart(ps[i]) in BlueParams(ps) && BlueParams(ps)[NamePart(ps[i])] == PlusToSpace(ValuePart(ps[i]).value)
  {
    NoNullValues(ps);
    forall i | 0 <= i < |ps| && PlusToSpace(ValuePart(ps[i]).value) != "null" &&
      (forall j :: i < j < |ps| ==> NamePart(ps[j]) != NamePart(ps[i]))
      ensures NamePart(ps[i]) in BlueParams(ps) && BlueParams(ps)[NamePart(ps[i])] == PlusToSpace(ValuePart(ps[i]).value)
    {
      LastValueWins(ps, i);
    }
  }

  lemma FrontPairs(ps: seq<string>)
    requires AllPairs(ps) && ps != []
    ensures AllPairs(ps[..|ps| - 1])
  {
    var front := ps[..|ps| - 1];
    assert forall i :: 0 <= i < |front| ==> front[i] == ps[i];
  }

  lemma {:induction false} NoNullValues(ps: seq<string>)
    requires AllPairs(ps)
    ensures forall k :: k in BlueParams(ps) ==> BlueParams(ps)[k] != "null" && '+' !in BlueParams(ps)[k]
    decreases |ps|
  {
    if ps != [] {
      FrontPairs(ps);
      NoNullValues(ps[..|ps| - 1]);
    }
  }

  lemma {:induction false} LastValueWins(ps: seq<string>, i: nat)
    requires AllPairs(ps) && i < |ps|
    requires PlusToSpace(ValuePart(ps[i]).value) != "null"
    requires forall j :: i < j < |ps| ==> NamePart(ps[j]) != NamePart(ps[i])
    ensures NamePart(ps[i]) in BlueParams(ps) && BlueParams(ps)[NamePart(ps[i])] == PlusToSpace(ValuePart(ps[i]).value)
    decreases |ps|
  {
    var front := ps[..|ps| - 1];
    FrontPairs(ps);
    if i < |front| {
      assert front[i] == ps[i];
      assert forall j :: i < j < |front| ==> front[j] == ps[j];
      LastValueWins(front, i);
      assert NamePart(ps[|ps| - 1]) != NamePart(ps[i]);
    }
  }

  /** A parameter whose value is "null" leaves an earlier value of its name in place. */
  lemma NullKeepsEarlier(name: string, v: string)
    requires '=' !in name && '=' !in v && '+' !in v && v != "null"
    ensures BlueParams([name + "=" + v, name + "=" + "null"]) == map[name := v]
  {
    var first, second := name + "=" + v, name + "=" + "null";
    PairParts(name, v);
    PairParts(name, "null");
    NoPlusUnchanged(v);
    NoPlusUnchanged("null");
    ParamRecorded([], first);
    assert [] + [first] == [first];
    assert AllPairs([first]);
    ParamSkipped([first], second);
    assert [first] + [second] == [first, second];
  }

  lemma PairParts(name: string, v: string)
    requires '=' !in name && '=' !in v
    ensures '=' in name + "=" + v
    ensures NamePart(name + "=" + v) == name && ValuePart(name + "=" + v) == Some(v)
  {
    var el := name + "=" + v;
    assert el[|name|] == '=';
    SplitPair(name, v, "");
    assert el == name + "=" + v + "";
  }

  lemma NoPlusUnchanged(s: string)
    requires '+' !in s
    ensures PlusToSpace(s) == s
  {
  }

  lemma AppendPairs(front: seq<string>, el: string)
    requires AllPairs(front) && '=' in el
    ensures AllPairs(front + [el]) && (front + [el])[..|front|] == front && (front + [el])[|front|] == el
  {
    var ps := front + [el];
    assert forall i :: 0 <= i < |front| ==> ps[i] == front[i];
    assert ps[..|front|] == front;
  }

  /** One more parameter whose value is not "null" is recorded under its name. */
  lemma ParamRecorded(front: seq<string>, el: string)
    requires AllPairs(front) && '=' in el && PlusToSpace(ValuePart(el).value) != "null"
    ensures AllPairs(front + [el])
    ensures BlueParams(front + [el]) == BlueParams(front)[NamePart(el) := PlusToSpace(ValuePart(el).value)]
  {
    AppendPairs(front, el);
  }

  /** One more parameter whose value is "null" changes nothing. */
  lemma ParamSkipped(front: seq<string>, el: string)
    requires AllPairs(front) && '=' in el && PlusToSpace(ValuePart(el).value) == "null"
    ensures AllPairs(front + [el])
    ensures BlueParams(front + [el]) == BlueParams(front)
  {
    AppendPairs(front, el);
  }

  // ----- getFromProperties -----

  /** An attribute's value in one property, None when the property lacks it. */
  type Value = Option<string>

  /** The values one attribute takes, property by property. */
  function Column(props: seq<map<string, string>>, attr: string): (vs: seq<Value>)
    ensures |vs| == |props|
    ensures forall i :: 0 <= i < |props| ==> vs[i] == (if attr in props[i] then Some(props[i][attr]) else None)
  {
    seq(|props|, i requires 0 <= i < |props| => if attr in props[i] then Some(props[i][attr]) else None)
  }

  /** The values in order of first occurrence, each once. */
  function Distinct(vs: seq<Value>): (r: seq<Value>)
    ensures forall v :: v in r <==> v in vs
    decreases |vs|
  {
    if vs == [] then []
    else
      var prev := Distinct(vs[..|vs| - 1]);
      assert forall v :: v in vs <==> v in vs[..|vs| - 1] || v == vs[|vs| - 1];
      if vs[|vs| - 1] in prev then prev else prev + [vs[|vs| - 1]]
  }

  /** The collecting loop: a value is pushed unless the list already includes it. */
  method GetFromProperties(allProperties: seq<map<string, string>>, attrName: string) returns (attrArray: seq<Value>)
    ensures attrArray == Distinct(Column(allProperties, attrName))
  {
    var vs := Column(allProperties, attrName);
    attrArray := [];
    for i := 0 to |allProperties|
      invariant attrArray == Distinct(vs[..i])
    {
      assert vs[..i + 1][..i] == vs[..i];
      var v := if attrName in allProperties[i] then Some(allProperties[i][attrName]) else None;
      if v !in attrArray {
        attrArray := attrArray + [v];
      }
    }
    assert vs[..|vs|] == vs;
  }

  /** The position of the first occurrence of `v`, or |vs|. */
  function FirstAt(vs: seq<Value>, v: Value): (i: nat)
    ensures i <= |vs|
    ensures i < |vs| ==> vs[i] == v
    ensures forall k :: 0 <= k < i ==> vs[k] != v
    decreases |vs|
  {
    if vs == [] then 0 else if vs[0] == v then 0 else 1 + FirstAt(vs[1..], v)
  }

  lemma FirstAtPrefix(vs: seq<Value>, n: nat, v: Value)
    requires n <= |vs| && v in vs[..n]
    ensures FirstAt(vs[..n], v) == FirstAt(vs, v)
  {
    var i := FirstAt(vs[..n], v);
    assert vs[..n][i] == vs[i];
  }

  /**
   * The distinct values hold no value twice and list the values in the
   * order of their first occurrence.
   */
  lemma {:induction false} DistinctOrder(vs: seq<Value>)
    ensures forall a, b :: 0 <= a < b < |Distinct(vs)| ==> FirstAt(vs, Distinct(vs)[a]) < FirstAt(vs, Distinct(vs)[b])
    decreases |vs|
  {
    if vs != [] {
      var front := vs[..|vs| - 1];
      var x := vs[|vs| - 1];
      DistinctOrder(front);
      var prev := Distinct(front);
      var r := Distinct(vs);
      assert front == vs[..|vs| - 1];
      forall v | v in prev
        ensures FirstAt(front, v) == FirstAt(vs, v) && FirstAt(vs, v) < |front|
      {
        FirstAtPrefix(vs, |front|, v);
      }
      if x !in prev {
        assert x !in front;
        assert FirstAt(vs, x) == |front|;
      }
      forall a, b | 0 <= a < b < |r|
        ensures FirstAt(vs, r[a]) < FirstAt(vs, r[b])
      {
        assert r[a] == prev[a] && prev[a] in prev;
        if b < |prev| {
          assert r[b] == prev[b] && prev[b] in prev;
          assert FirstAt(front, prev[a]) < FirstAt(front, prev[b]);
        }
      }
    }
  }

  /** Consequently no value is listed twice. */
  lemma DistinctHasNoRepeats(vs: seq<Value>)
    ensures var r := Distinct(vs);
      forall a, b :: 0 <= a < b < |r| ==> r[a] != r[b]
  {
    DistinctOrder(vs);
  }
}
