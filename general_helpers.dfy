/**
 * The course pages' script helpers: the query-string reader of the page
 * router and the bodies of the template helpers that pick CSS classes,
 * shorten titles, size text areas and format quiz timers. JavaScript
 * truthiness is modelled explicitly: an absent optional argument is None,
 * and a string is truthy when it is not empty.
 */
module GeneralHelpers {
  import opened Common
  import opened QueryString

  /** What one parameter contributes: its value with '+' read as a space, or null (None) for a missing or empty value. */
  function ParamValue(el: string): (v: Option<string>)
    ensures v.Some? ==> v.value != [] && '+' !in v.value
    ensures v.None? <==> ValuePart(el).None? || ValuePart(el).value == []
  {
    var value := ValuePart(el);
    if value.Some? && value.value != [] then Some(PlusToSpace(value.value)) else None
  }

  /** The object the parameters build, each one written over the earlier ones of its name. */
  function Params(ps: seq<string>): map<string, Option<string>>
    decreases |ps|
  {
    if ps == [] then map[]
    else Params(ps[..|ps| - 1])[NamePart(ps[|ps| - 1]) := ParamValue(ps[|ps| - 1])]
  }

  /**
   * The router's parameter reader: nothing unless the first parameter is a
   * non-empty string, otherwise every parameter in order.
   */
  method GetParamsFromRequest(parameters: seq<string>) returns (paramObj: map<string, Option<string>>)
    ensures |parameters| == 0 || parameters[0] == [] ==> paramObj == map[]
    ensures |parameters| > 0 && parameters[0] != [] ==> paramObj == Params(parameters)
  {
    paramObj := map[];
    if |parameters| > 0 && parameters[0] != [] {
      for i := 0 to |parameters|
        invariant paramObj == Params(parameters[..i])
      {
        assert parameters[..i + 1][..i] == parameters[..i];
        var el := parameters[i];
        var name, value := NamePart(el), ValuePart(el);
        if value.Some? && value.value != [] {
          paramObj := paramObj[name := Some(PlusToSpace(value.value))];
        } else {
          paramObj := paramObj[name := None];
        }
      }
      assert parameters[..|parameters|] == parameters;
    }
  }

  /** The object has one key per parameter name. */
  lemma {:induction false} ParamsKeys(ps: seq<string>)
    ensures forall k :: k in Params(ps) <==> exists i :: 0 <= i < |ps| && NamePart(ps[i]) == k
    decreases |ps|
  {
    if ps != [] {
      var front := ps[..|ps| - 1];
      ParamsKeys(front);
      forall k | k in Params(ps)
        ensures exists i :: 0 <= i < |ps| && NamePart(ps[i]) == k
      {
        if k != NamePart(ps[|ps| - 1]) {
          assert k in Params(front);
          var i :| 0 <= i < |front| && NamePart(front[i]) == k;
          assert ps[i] == front[i];
        }
      }
      forall k | exists i :: 0 <= i < |ps| && NamePart(ps[i]) == k
        ensures k in Params(ps)
      {
        var i :| 0 <= i < |ps| && NamePart(ps[i]) == k;
        if i < |front| {
          assert front[i] == ps[i];
        }
      }
    }
  }

  /** Each name maps to what the last parameter of that name contributes. */
  lemma {:induction false} ParamsLastWins(ps: seq<string>)
    ensures forall i :: 0 <= i < |ps| && (forall j :: i < j < |ps| ==> NamePart(ps[j]) != NamePart(ps[i])) ==>
      NamePart(ps[i]) in Params(ps) && Params(ps)[NamePart(ps[i])] == ParamValue(ps[i])
    decreases |ps|
  {
    if ps != [] {
      var front := ps[..|ps| - 1];
      ParamsLastWins(front);
      forall i | 0 <= i < |front| && (forall j :: i < j < |ps| ==> NamePart(ps[j]) != NamePart(ps[i]))
        ensures NamePart(ps[i]) in Params(ps) && Params(ps)[NamePart(ps[i])] == ParamValue(ps[i])
      {
        assert front[i] == ps[i];
        assert forall j :: i < j < |front| ==> front[j] == ps[j];
      }
    }
  }

  /**
   * Only the text between the first and the second '=' is kept, with '+'
   * read as a space; a parameter with nothing after its '=', or without
   * '=', has no value.
   */
  lemma ValueStopsAtSecondEquals(name: string, value: string, tail: string)
    requires '=' !in name && '=' !in value && value != [] && (tail == [] || tail[0] == '=')
    ensures ParamValue(name + "=" + value + tail) == Some(PlusToSpace(value))
    ensures ParamValue(name + "=") == None && ParamValue(name) == None
  {
    SplitPair(name, value, tail);
    SplitPair(name, "", "");
    assert name + "=" + "" + "" == name + "=";
  }

  // ----- template helpers -----

  // ----- JavaScript strings -----

  /** A UTF-16 code unit: `length` and `substring` of a JavaScript string count these. */
  type CodeUnit = u: int | 0 <= u < 0x1_0000

  /** The code units of one code point: the code point itself below U+10000, otherwise a surrogate pair. */
  function Units(c: char): (u: seq<CodeUnit>)
    ensures c as int < 0x1_0000 ==> u == [c as int]
    ensures c as int >= 0x1_0000 ==> |u| == 2
  {
    var n := c as int;
    if n < 0x1_0000 then [n]
    else [0xD800 + (n - 0x1_0000) / 0x400, 0xDC00 + (n - 0x1_0000) % 0x400]
  }

  /** A surrogate pair is a high and a low surrogate that decode back to the code point. */
  lemma UnitsDecode(c: char)
    requires c as int >= 0x1_0000
    ensures var u := Units(c);
      && 0xD800 <= u[0] < 0xDC00 && 0xDC00 <= u[1] < 0xE000
      && (u[0] as int - 0xD800) * 0x400 + (u[1] as int - 0xDC00) + 0x1_0000 == c as int
  {
  }

  /** The number of code points above U+FFFF, each of which takes two code units. */
  function AstralCount(s: string): (n: nat)
    ensures n <= |s|
    decreases |s|
  {
    if s == [] then 0
    else AstralCount(s[..|s| - 1]) + (if s[|s| - 1] as int >= 0x1_0000 then 1 else 0)
  }

  /** The UTF-16 form of a text, which is what a JavaScript string holds. */
  function Utf16(s: string): (u: seq<CodeUnit>)
    ensures |u| == |s| + AstralCount(s)
    decreases |s|
  {
    if s == [] then [] else Utf16(s[..|s| - 1]) + Units(s[|s| - 1])
  }

  /** Encoding one more code point appends its code units. */
  lemma Utf16Snoc(s: string, c: char)
    ensures Utf16(s + [c]) == Utf16(s) + Units(c)
  {
    assert (s + [c])[..|s|] == s;
  }

  /** Encoding distributes over concatenation. */
  lemma {:induction false} Utf16Concat(a: string, b: string)
    ensures Utf16(a + b) == Utf16(a) + Utf16(b)
    decreases |b|
  {
    if b == [] {
      assert a + b == a;
    } else {
      var front, last := b[..|b| - 1], b[|b| - 1];
      Utf16Concat(a, front);
      assert b == front + [last];
      assert a + b == (a + front) + [last];
      Utf16Snoc(a + front, last);
      Utf16Snoc(front, last);
      ConcatAssoc(Utf16(a), Utf16(front), Units(last));
    }
  }

  /** A run of `n` copies of a code point above U+FFFF takes 2n code units. */
  lemma {:induction false} AstralRun(c: char, n: nat)
    requires c as int >= 0x1_0000
    ensures |Utf16(seq(n, _ => c))| == 2 * n
    decreases n
  {
    if n > 0 {
      AstralRun(c, n - 1);
      assert seq(n, _ => c)[..n - 1] == seq(n - 1, _ => c);
    }
  }

  // ----- template helpers -----

  /** limitLength: at most 22 code units are kept, with "..." appended when any were cut. */
  function LimitLength(s: seq<CodeUnit>): (r: seq<CodeUnit>)
    ensures |r| <= 25
    ensures |s| <= 22 ==> r == s
    ensures |s| > 22 ==> |r| == 25 && r[..22] == s[..22] && r[22..] == Utf16("...")
  {
    if |s| > 22 then s[..22] + Utf16("...") else s
  }

  /** Shortening a shortened title changes nothing. */
  lemma LimitLengthIdempotent(s: seq<CodeUnit>)
    ensures LimitLength(LimitLength(s)) == LimitLength(s)
  {
    var r := LimitLength(s);
    if |s| > 22 {
      assert r[..22] + Utf16("...") == r;
    }
  }

  /**
   * For a text without code points above U+FFFF, code units are characters:
   * a title of up to 22 characters stays, a longer one keeps 22 characters
   * and gains "...".
   */
  lemma LimitLengthOfPlainText(s: string)
    requires AstralCount(s) == 0
    ensures LimitLength(Utf16(s)) == Utf16(if |s| > 22 then s[..22] + "..." else s)
  {
    if |s| > 22 {
      assert s == s[..22] + s[22..];
      Utf16Concat(s[..22], s[22..]);
      Utf16Concat(s[..22], "...");
    }
  }

  /** Twelve emoji are 24 code units, so the title is cut after eleven of them. */
  lemma AstralTitleCut(c: char)
    requires c as int >= 0x1_0000
    ensures LimitLength(Utf16(seq(12, _ => c))) == Utf16(seq(11, _ => c) + "...")
  {
    AstralRun(c, 11);
    assert seq(12, _ => c)[..11] == seq(11, _ => c);
    Utf16Concat(seq(11, _ => c), "...");
  }

  /** A cut through a surrogate pair keeps its high surrogate alone, as `substring` does. */
  lemma CutThroughPair(c: char)
    requires c as int >= 0x1_0000
    ensures var r := LimitLength(Utf16("a" + seq(11, _ => c)));
      |r| == 25 && 0xD800 <= r[21] < 0xDC00
  {
    var t := "a" + seq(11, _ => c);
    AstralRun(c, 10);
    assert t[..|t| - 1] == "a" + seq(10, _ => c);
    assert seq(11, _ => c)[..10] == seq(10, _ => c);
    Utf16Concat("a", seq(10, _ => c));
    UnitsDecode(c);
  }

  /** hideButton: the class hiding a quiz navigation button on the first, last or non-last element. */
  function HideButton(button: string, current: int, total: int): (c: string)
    ensures c == "d-none" || c == ""
    ensures button == "previous" ==> (c == "d-none" <==> current == 1)
    ensures button == "next" ==> (c == "d-none" <==> current == total)
    ensures button == "done" ==> (c == "d-none" <==> current != total)
    ensures button != "previous" && button != "next" && button != "done" ==> c == ""
  {
    if button == "previous" then (if current == 1 then "d-none" else "")
    else if button == "next" then (if current == total then "d-none" else "")
    else if button == "done" then (if current != total then "d-none" else "")
    else ""
  }

  /** On every element exactly one of the "next" and "done" buttons shows. */
  lemma NextOrDone(current: int, total: int)
    ensures (HideButton("next", current, total) == "") != (HideButton("done", current, total) == "")
  {
  }

  /** hideIf and hideIfNot. */
  function HideIf(b: bool): (c: string)
    ensures c == (if b then "d-none" else "")
  {
    if b then "d-none" else ""
  }

  function HideIfNot(b: bool): (c: string)
    ensures c == HideIf(!b)
  {
    if !b then "d-none" else ""
  }

  /** An optional helper argument is truthy when present and not empty. */
  predicate Truthy(s: Option<string>) {
    s.Some? && s.value != []
  }

  /** `a == s` against an optional argument: an absent argument equals no string. */
  predicate EqualsArg(a: string, s: Option<string>) {
    s == Some(a)
  }

  /** hideIfNotEqual: hidden unless the first string equals the second or a truthy third. */
  function HideIfNotEqual(a: string, b: string, c: Option<string>): (cls: string)
    ensures cls == "" <==> a == b || (Truthy(c) && EqualsArg(a, c))
    ensures cls == "" || cls == "d-none"
  {
    if a != b then
      if Truthy(c) then (if !EqualsArg(a, c) then "d-none" else "")
      else "d-none"
    else ""
  }

  /** hideIfEqual: hidden when the first string equals the second and, when a truthy third is given, that one too. */
  function HideIfEqual(a: string, b: string, c: Option<string>): (cls: string)
    ensures cls == "d-none" <==> a == b && (!Truthy(c) || EqualsArg(a, c))
    ensures cls == "" || cls == "d-none"
  {
    if a == b then
      if Truthy(c) then (if EqualsArg(a, c) then "d-none" else "")
      else "d-none"
    else ""
  }

  /** selectedIfEqual: "selected" when the first string equals the second or the third. */
  function SelectedIfEqual(a: string, b: string, c: Option<string>): (s: string)
    ensures s == "selected" <==> a == b || EqualsArg(a, c)
    ensures s == "" || s == "selected"
  {
    if a == b || EqualsArg(a, c) then "selected" else ""
  }

  /**
   * Without a third argument hideIfEqual and hideIfNotEqual hide exactly
   * the opposite cases; with a truthy third argument an option shown by
   * hideIfNotEqual is exactly one marked selected.
   */
  lemma EqualityHelpersAgree(a: string, b: string, c: Option<string>)
    ensures !Truthy(c) ==> (HideIfEqual(a, b, c) == "d-none" <==> HideIfNotEqual(a, b, c) == "")
    ensures Truthy(c) ==> (HideIfNotEqual(a, b, c) == "" <==> SelectedIfEqual(a, b, c) == "selected")
  {
  }

  /** Math.ceil(n / d) for a positive divisor. */
  function CeilDiv(n: nat, d: nat): (q: nat)
    requires d > 0
    ensures q * d >= n
    ensures q > 0 ==> (q - 1) * d < n
  {
    (n + d - 1) / d
  }

  /** calculateRows: 4 rows for empty text, else one row per 45 code units, rounded up. */
  function CalculateRows(s: seq<CodeUnit>): (rows: nat)
    ensures s == [] ==> rows == 4
    ensures s != [] ==> rows >= 1 && rows * 45 >= |s| && (rows - 1) * 45 < |s|
  {
    if s == [] then 4 else CeilDiv(|s|, 45)
  }

  /** calculateRowsShort: 2 rows for empty text, else one row per 37 code units, rounded up. */
  function CalculateRowsShort(s: seq<CodeUnit>): (rows: nat)
    ensures s == [] ==> rows == 2
    ensures s != [] ==> rows >= 1 && rows * 37 >= |s| && (rows - 1) * 37 < |s|
  {
    if s == [] then 2 else CeilDiv(|s|, 37)
  }

  /** Twenty-three emoji are 46 code units: two rows, where their 23 characters would fit one. */
  lemma AstralRows(c: char)
    requires c as int >= 0x1_0000
    ensures CalculateRows(Utf16(seq(23, _ => c))) == 2
    ensures CalculateRowsShort(Utf16(seq(23, _ => c))) == 2
  {
    AstralRun(c, 23);
  }

  /** JavaScript's `%`: the remainder takes the sign of the dividend. */
  function JsRem(a: int, d: int): (r: int)
    requires d > 0
    ensures -d < r < d
    ensures a >= 0 ==> r == a % d
  {
    if a >= 0 then a % d else -((-a) % d)
  }

  /** toLocaleString with at least two integer digits, for a value of magnitude below 100. */
  function TwoDigits(n: int): (s: string)
    requires -100 < n < 100
    ensures n >= 0 ==> |s| == 2 && AllDigits(s) && DigitsValue(s) == n
    ensures n < 0 ==> |s| == 3 && s[0] == '-' && AllDigits(s[1..]) && DigitsValue(s[1..]) == -n
  {
    var m := Abs(n);
    var digits := [DigitChar(m / 10), DigitChar(m % 10)];
    assert digits[..1][..0] == [];
    assert DigitsValue(digits) == DigitsValue(digits[..1]) * 10 + m % 10;
    (if n < 0 then "-" else "") + digits
  }

  /**
   * secondsToMMSS: the whole minutes (rounded down), a colon, and the
   * remainder of the division as two digits. The remainder takes the sign of
   * the count, and toLocaleString prints a negative zero with its sign, so
   * every negative count ends in a minus sign and the two digits of the
   * remainder's magnitude: -60 is "-1:-00".
   */
  function SecondsToMMSS(seconds: int): (t: string)
    ensures var m := FormatInt(seconds / 60);
      && |t| >= |m| + 3 && t[..|m|] == m && t[|m|] == ':'
      && (seconds >= 0 ==>
            |t| == |m| + 3 && AllDigits(t[|m| + 1..]) && DigitsValue(t[|m| + 1..]) == seconds % 60)
      && (seconds < 0 ==>
            |t| == |m| + 4 && t[|m| + 1] == '-' && AllDigits(t[|m| + 2..]) && DigitsValue(t[|m| + 2..]) == (-seconds) % 60)
  {
    var m := FormatInt(seconds / 60);
    var rem := JsRem(seconds, 60);
    var ss := if seconds < 0 && rem == 0 then "-" + TwoDigits(0) else TwoDigits(rem);
    var t := m + ":" + ss;
    assert t[..|m|] == m && t[|m| + 1..] == ss;
    assert seconds < 0 ==> t[|m| + 2..] == ss[1..];
    t
  }

  /** A negative whole number of minutes keeps the sign of its zero seconds. */
  lemma NegativeWholeMinute()
    ensures SecondsToMMSS(-60) == "-1:-00"
    ensures SecondsToMMSS(-61) == "-2:-01"
  {
  }

  /**
   * For a non-negative count of seconds the text reads back as minutes and
   * two-digit seconds that give the count again.
   */
  lemma MMSSReadsBack(seconds: nat)
    requires seconds <= MaxInt64
    ensures var t, i := SecondsToMMSS(seconds), |FormatInt(seconds / 60)|;
      && |t| == i + 3 && t[i] == ':'
      && ParseInt64(t[..i]) == Some(seconds / 60)
      && AllDigits(t[i + 1..])
      && ParseInt64(t[..i]).value * 60 + DigitsValue(t[i + 1..]) == seconds
  {
    var m := FormatInt(seconds / 60);
    var t := SecondsToMMSS(seconds);
    var i := |m|;
    FormatParseRoundTrip(seconds / 60);
    assert t[..i] == m;
    var ss := t[i + 1..];
    assert ss == TwoDigits(seconds % 60);
    assert ss[..1][..0] == [];
    assert ss[..1] == [ss[0]];
    assert DigitsValue(ss) == DigitsValue(ss[..1]) * 10 + (ss[1] as int - '0' as int);
  }
}
