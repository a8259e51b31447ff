/**
 * The pieces of a query-string parameter "name=value" the page scripts
 * read with `el.split("=")` and a destructuring of the first two parts:
 * the name is the text before the first '=', and the value the text
 * between the first and the second '=', missing (undefined) when there is
 * no '=' at all.
 */
module QueryString {
  import opened Common

  /** The position of the first `c` in `s`, or |s|. */
  function IndexOf(s: string, c: char): (i: nat)
    ensures i <= |s|
    ensures i < |s| ==> s[i] == c
    ensures forall k :: 0 <= k < i ==> s[k] != c
    decreases |s|
  {
    if s == [] then 0
    else if s[0] == c then 0
    else 1 + IndexOf(s[1..], c)
  }

  /** The first part of the split. */
  function NamePart(el: string): (name: string)
    ensures |name| <= |el| && name == el[..|name|]
    ensures '=' !in name
  {
    el[..IndexOf(el, '=')]
  }

  /** The second part of the split, None when `el` holds no '='. */
  function ValuePart(el: string): (value: Option<string>)
    ensures value.None? <==> '=' !in el
    ensures value.Some? ==> '=' !in value.value
    ensures value.Some? ==>
      |NamePart(el)| + 1 + |value.value| <= |el| && el[..|NamePart(el)| + 1 + |value.value|] == NamePart(el) + "=" + value.value
  {
    var i := IndexOf(el, '=');
    if i == |el| then None
    else
      var rest := el[i + 1..];
      var v := rest[..IndexOf(rest, '=')];
      assert el[..i + 1 + |v|] == el[..i] + "=" + v;
      Some(v)
  }

  /** A name, a '=', a value and anything after a second '=' split back into that name and value. */
  lemma SplitPair(name: string, value: string, tail: string)
    requires '=' !in name && '=' !in value
    ensures NamePart(name + "=" + value + tail) == name
    ensures tail == [] || tail[0] == '=' ==> ValuePart(name + "=" + value + tail) == Some(value)
  {
    NameOfPair(name, value + tail);
    assert name + "=" + value + tail == name + "=" + (value + tail);
    if tail == [] || tail[0] == '=' {
      ValueOfPair(name, value, tail);
    }
  }

  lemma NameOfPair(name: string, rest: string)
    requires '=' !in name
    ensures IndexOf(name + "=" + rest, '=') == |name| && NamePart(name + "=" + rest) == name
  {
    var el := name + "=" + rest;
    assert forall k :: 0 <= k < |name| ==> el[k] == name[k];
    IndexOfAt(el, '=', |name|);
    assert el[..|name|] == name;
  }

  lemma ValueOfPair(name: string, value: string, tail: string)
    requires '=' !in name && '=' !in value && (tail == [] || tail[0] == '=')
    ensures ValuePart(name + "=" + value + tail) == Some(value)
  {
    var el := name + "=" + value + tail;
    NameOfPair(name, value + tail);
    assert el == name + "=" + (value + tail);
    var rest := el[|name| + 1..];
    assert rest == value + tail;
    assert forall k :: 0 <= k < |value| ==> rest[k] == value[k];
    IndexOfAt(rest, '=', |value|);
    assert rest[..|value|] == value;
  }

  /** The first occurrence is where `c` occurs with no `c` before it. */
  lemma IndexOfAt(s: string, c: char, i: nat)
    requires i <= |s| && (i < |s| ==> s[i] == c)
    requires forall k :: 0 <= k < i ==> s[k] != c
    ensures IndexOf(s, c) == i
  {
  }

  /** `value.replace(/\+/g, " ")`. */
  function PlusToSpace(s: string): (r: string)
    ensures |r| == |s| && '+' !in r
    ensures forall k :: 0 <= k < |s| ==> r[k] == (if s[k] == '+' then ' ' else s[k])
  {
    seq(|s|, k requires 0 <= k < |s| => if s[k] == '+' then ' ' else s[k])
  }
}
