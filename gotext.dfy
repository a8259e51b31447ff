/**
 * The Go standard-library text functions the handlers rely on:
 * strings.TrimSpace, strings.ToLower, fmt.Sscanf with a single "%d" verb
 * and path/filepath.Ext. Strings are sequences of Unicode code points.
 */
module GoText {
  import opened Common

  /** unicode.IsSpace: the white-space code points of Latin-1 and the other Unicode spaces. */
  predicate IsSpace(c: char) {
    c == ' ' || ('\t' <= c <= '\r') || c == '\U{85}' || c == '\U{A0}' || c == '\U{1680}'
    || ('\U{2000}' <= c <= '\U{200A}') || c == '\U{2028}' || c == '\U{2029}' || c == '\U{202F}'
    || c == '\U{205F}' || c == '\U{3000}'
  }

  /** The number of white-space code points the text starts with. */
  function LeadingSpaces(s: string): (n: nat)
    ensures n <= |s|
    ensures forall k :: 0 <= k < n ==> IsSpace(s[k])
    ensures n < |s| ==> !IsSpace(s[n])
    decreases |s|
  {
    if s != [] && IsSpace(s[0]) then 1 + LeadingSpaces(s[1..]) else 0
  }

  /** The length of the text without the white space it ends with. */
  function TrailingStart(s: string): (n: nat)
    ensures n <= |s|
    ensures forall k :: n <= k < |s| ==> IsSpace(s[k])
    ensures n > 0 ==> !IsSpace(s[n - 1])
    decreases |s|
  {
    if s != [] && IsSpace(s[|s| - 1]) then TrailingStart(s[..|s| - 1]) else |s|
  }

  /** Drops the leading white space. */
  function TrimLeft(s: string): (r: string)
    ensures |r| <= |s| && r == s[|s| - |r|..]
    ensures forall k :: 0 <= k < |s| - |r| ==> IsSpace(s[k])
    ensures r != [] ==> !IsSpace(r[0])
  {
    s[LeadingSpaces(s)..]
  }

  /** Drops the trailing white space. */
  function TrimRight(s: string): (r: string)
    ensures |r| <= |s| && r == s[..|r|]
    ensures forall k :: |r| <= k < |s| ==> IsSpace(s[k])
    ensures r != [] ==> !IsSpace(r[|r| - 1])
  {
    s[..TrailingStart(s)]
  }

  /** strings.TrimSpace. */
  function TrimSpace(s: string): string {
    TrimRight(TrimLeft(s))
  }

  /**
   * The trimmed text is a slice of the input with only white space cut off
   * either side, and neither starts nor ends with white space.
   */
  lemma TrimSpaceMeaning(s: string)
    ensures var r, i := TrimSpace(s), |s| - |TrimLeft(s)|;
      && i + |r| <= |s| && r == s[i..i + |r|]
      && (forall k :: 0 <= k < i ==> IsSpace(s[k]))
      && (forall k :: i + |r| <= k < |s| ==> IsSpace(s[k]))
      && (r != [] ==> !IsSpace(r[0]) && !IsSpace(r[|r| - 1]))
  {
    TrimSlice(s);
    TrimEnds(s);
  }

  lemma TrimSlice(s: string)
    ensures var r, i := TrimSpace(s), |s| - |TrimLeft(s)|;
      && i + |r| <= |s| && r == s[i..i + |r|]
      && (forall k :: 0 <= k < i ==> IsSpace(s[k]))
      && (forall k :: i + |r| <= k < |s| ==> IsSpace(s[k]))
  {
    var i := LeadingSpaces(s);
    var l := s[i..];
    var j := TrailingStart(l);
    assert TrimSpace(s) == l[..j];
    SliceOfSuffix(s, i, j);
    SpacesOfSuffix(s, i, j);
  }

  lemma SliceOfSuffix(s: string, i: nat, j: nat)
    requires i + j <= |s|
    ensures s[i..][..j] == s[i..i + j]
  {
  }

  lemma SpacesOfSuffix(s: string, i: nat, j: nat)
    requires i + j <= |s| && forall k :: j <= k < |s| - i ==> IsSpace(s[i..][k])
    ensures forall k :: i + j <= k < |s| ==> IsSpace(s[k])
  {
    forall k | i + j <= k < |s|
      ensures IsSpace(s[k])
    {
      assert s[k] == s[i..][k - i];
    }
  }

  lemma TrimEnds(s: string)
    ensures var r := TrimSpace(s); r != [] ==> !IsSpace(r[0]) && !IsSpace(r[|r| - 1])
  {
    var l := TrimLeft(s);
    var r := TrimRight(l);
    if r != [] {
      assert r[0] == l[0];
    }
  }

  /** The trimmed text is empty exactly when the input is all white space. */
  lemma TrimSpaceEmpty(s: string)
    ensures TrimSpace(s) == [] <==> forall k :: 0 <= k < |s| ==> IsSpace(s[k])
  {
    TrimSpaceMeaning(s);
  }

  /** Trimming twice is trimming once. */
  lemma TrimSpaceIdempotent(s: string)
    ensures TrimSpace(TrimSpace(s)) == TrimSpace(s)
  {
    var r := TrimSpace(s);
    TrimSpaceMeaning(s);
    if r != [] {
      assert TrimLeft(r) == r;
      assert TrimRight(r) == r;
    }
  }

  /**
   * The upper-case halves of the alternating pairs whose lower case is the
   * next code point: even code points in Latin Extended-A (U+0100-U+012F,
   * U+0132-U+0137, U+014A-U+0177), Greek and Coptic (U+0370-U+0373,
   * U+0376-U+0377, U+03D8-U+03EF) and Cyrillic (U+0460-U+0481,
   * U+048A-U+04BF, U+04D0-U+052F); odd ones in U+0139-U+0148,
   * U+0179-U+017E and U+04C1-U+04CE; and U+03F7 and U+03FA.
   */
  predicate PairedUpper(n: int) {
    || ((|| 0x100 <= n <= 0x12F || 0x132 <= n <= 0x137 || 0x14A <= n <= 0x177
         || 0x370 <= n <= 0x373 || 0x376 <= n <= 0x377 || 0x3D8 <= n <= 0x3EF
         || 0x460 <= n <= 0x481 || 0x48A <= n <= 0x4BF || 0x4D0 <= n <= 0x52F) && n % 2 == 0)
    || ((0x139 <= n <= 0x148 || 0x179 <= n <= 0x17E || 0x4C1 <= n <= 0x4CE) && n % 2 == 1)
    || n == 0x3F7 || n == 0x3FA
  }

  /**
   * The code points that unicode.ToLower changes, in the blocks this model
   * covers: Basic Latin, Latin-1 Supplement, Latin Extended-A
   * (U+0100-U+017F), Greek and Coptic (U+0370-U+03FF), Cyrillic
   * (U+0400-U+04FF) and Cyrillic Supplement (U+0500-U+052F). Every other
   * code point is left as it is.
   */
  predicate HasLower(c: char) {
    var n := c as int;
    || 0x41 <= n <= 0x5A
    || (0xC0 <= n <= 0xDE && n != 0xD7)
    || PairedUpper(n)
    || n == 0x130 || n == 0x178
    || n == 0x37F || n == 0x386 || 0x388 <= n <= 0x38A || n == 0x38C || 0x38E <= n <= 0x38F
    || (0x391 <= n <= 0x3AB && n != 0x3A2)
    || n == 0x3CF || n == 0x3F4 || n == 0x3F9 || 0x3FD <= n <= 0x3FF
    || 0x400 <= n <= 0x42F || n == 0x4C0
  }

  /** unicode.ToLower: the simple lower-case mapping of one code point. */
  function LowerChar(c: char): (d: char)
    ensures 'A' <= c <= 'Z' ==> d as int == c as int + 32
    ensures c as int < 0x41 || 0x5A < c as int < 0xC0 ==> d == c
  {
    var n := c as int;
    if 0x41 <= n <= 0x5A || (0xC0 <= n <= 0xDE && n != 0xD7) || (0x391 <= n <= 0x3AB && n != 0x3A2) || 0x410 <= n <= 0x42F then
      (n + 32) as char
    else if PairedUpper(n) then (n + 1) as char
    else if n == 0x130 then 'i'
    else if n == 0x178 then '\U{FF}'
    else if n == 0x37F then '\U{3F3}'
    else if n == 0x386 then '\U{3AC}'
    else if 0x388 <= n <= 0x38A then (n + 37) as char
    else if n == 0x38C then '\U{3CC}'
    else if 0x38E <= n <= 0x38F then (n + 63) as char
    else if n == 0x3CF then '\U{3D7}'
    else if n == 0x3F4 then '\U{3B8}'
    else if n == 0x3F9 then '\U{3F2}'
    else if 0x3FD <= n <= 0x3FF then (n - 130) as char
    else if 0x400 <= n <= 0x40F then (n + 80) as char
    else if n == 0x4C0 then '\U{4CF}'
    else c
  }

  /**
   * A code point changes exactly when it has a lower-case form, and the
   * result never has one of its own.
   */
  lemma LowerCharMeaning(c: char)
    ensures LowerChar(c) != c <==> HasLower(c)
    ensures !HasLower(LowerChar(c))
  {
  }

  /** strings.ToLower, one code point at a time. */
  function ToLower(s: string): (r: string)
    ensures |r| == |s|
  {
    seq(|s|, i requires 0 <= i < |s| => LowerChar(s[i]))
  }

  /**
   * The lower-cased text has no letter with a lower-case form left, and it
   * differs from the input exactly at the letters that have one.
   */
  lemma ToLowerMeaning(s: string)
    ensures forall i :: 0 <= i < |s| ==> !HasLower(ToLower(s)[i]) && (ToLower(s)[i] == s[i] <==> !HasLower(s[i]))
  {
    forall i | 0 <= i < |s|
      ensures !HasLower(ToLower(s)[i]) && (ToLower(s)[i] == s[i] <==> !HasLower(s[i]))
    {
      LowerCharMeaning(s[i]);
    }
  }

  /** Lower-casing twice is lower-casing once, so lower-cased names compare as a case-insensitive key. */
  lemma ToLowerIdempotent(s: string)
    ensures ToLower(ToLower(s)) == ToLower(s)
  {
    var r := ToLower(s);
    forall i | 0 <= i < |s|
      ensures LowerChar(r[i]) == r[i]
    {
      LowerCharMeaning(s[i]);
      LowerCharMeaning(r[i]);
    }
  }

  /** Names that differ only in the case of ASCII letters lower-case alike. */
  lemma CaseVariantsCollide()
    ensures ToLower("Public Health") == ToLower("PUBLIC health")
  {
  }

  /** The dotted capital I lower-cases to a plain 'i', so ".Z\u0130P" is ".zip". */
  lemma DottedCapitalI()
    ensures ToLower(".Z\U{130}P") == ".zip"
  {
  }

  /** Greek and Cyrillic names that differ only in letter case lower-case alike. */
  lemma GreekCyrillicVariantsCollide()
    ensures ToLower("\U{391}\U{3B8}\U{3AE}\U{3BD}\U{3B1}") == ToLower("\U{3B1}\U{398}\U{389}\U{39D}\U{391}")
    ensures ToLower("\U{41C}\U{438}\U{440}") == ToLower("\U{43C}\U{418}\U{420}")
  {
  }

  /**
   * Letters outside the basic alphabets lower-case too: Ukrainian GHE WITH
   * UPTURN, Khakas CHE, SCHWA, the Greek THETA SYMBOL and capital YOT.
   */
  lemma OutlyingCapitalsLowered()
    ensures ToLower("\U{490}\U{4C3}\U{4D8}") == "\U{491}\U{4C4}\U{4D9}"
    ensures ToLower("\U{3F4}\U{37F}") == "\U{3B8}\U{3F3}"
  {
  }

  // ----- fmt.Sscanf(s, "%d", &n) -----

  /**
   * The skipping of leading space before a number: any white space but a
   * newline, which is an error in this mode; None stands for that error.
   */
  function SkipBlanks(s: string): (r: Option<string>)
    ensures r.Some? ==> |r.value| <= |s| && r.value == s[|s| - |r.value|..]
    ensures r.Some? && r.value != [] ==> !IsSpace(r.value[0])
    decreases |s|
  {
    if s == [] then Some(s)
    else if s[0] == '\n' then None
    else if IsSpace(s[0]) then SkipBlanks(s[1..])
    else Some(s)
  }

  /** The longest run of decimal digits at the start. */
  function DigitRun(s: string): (r: string)
    ensures |r| <= |s| && r == s[..|r|] && AllDigits(r)
    ensures |r| < |s| ==> !IsDigit(s[|r|])
    decreases |s|
  {
    if s != [] && IsDigit(s[0]) then [s[0]] + DigitRun(s[1..]) else []
  }

  /** The token the "%d" verb reads: an optional sign and the digits after it. */
  function NumberToken(s: string): string {
    if s != [] && (s[0] == '+' || s[0] == '-') then [s[0]] + DigitRun(s[1..]) else DigitRun(s)
  }

  /**
   * fmt.Sscanf(s, "%d", &n) into a 64-bit int: leading blanks skipped, an
   * optional sign and at least one digit read, the rest of the input
   * ignored, and a value out of range an error (None).
   */
  function ScanInt(s: string): (r: Option<int>)
    ensures r.Some? ==> MinInt64 <= r.value <= MaxInt64
  {
    match SkipBlanks(s)
    case None => None
    case Some(rest) => ParseInt64(NumberToken(rest))
  }

  lemma {:induction false} DigitRunAll(s: string)
    requires AllDigits(s)
    ensures DigitRun(s) == s
    decreases |s|
  {
    if s != [] {
      DigitRunAll(s[1..]);
    }
  }

  /** Where the strict parse succeeds, the scan reads the same value. */
  lemma ScanAgreesWithParse(s: string)
    requires ParseInt64(s).Some?
    ensures ScanInt(s) == ParseInt64(s)
  {
    assert s != [];
    assert SkipBlanks(s) == Some(s);
    if s[0] == '+' || s[0] == '-' {
      DigitRunAll(s[1..]);
      assert [s[0]] + s[1..] == s;
    } else {
      DigitRunAll(s);
    }
  }

  /** Unlike the strict parse, the scan skips leading blanks and ignores trailing text, but stops at a newline. */
  lemma ScanIsLenient()
    ensures ScanInt(" 3rd") == Some(3)
    ensures ParseInt64(" 3rd") == None
    ensures ScanInt("\n3") == None
  {
    ScanReadsPrefix();
    assert !IsDigit(" 3rd"[0]);
    assert SkipBlanks("\n3") == None;
  }

  lemma ScanReadsPrefix()
    ensures ScanInt(" 3rd") == Some(3)
  {
    SkipsOneBlank();
    ReadsOneDigit();
    assert ParseInt64("3") == Some(3) by {
      assert DigitsValue("3") == 3;
    }
  }

  lemma SkipsOneBlank()
    ensures SkipBlanks(" 3rd") == Some("3rd")
  {
    assert " 3rd"[1..] == "3rd";
    assert IsSpace(' ') && !IsSpace('3');
  }

  lemma ReadsOneDigit()
    ensures NumberToken("3rd") == "3"
  {
    assert "3rd"[1..] == "rd";
    assert DigitRun("rd") == [];
  }

  // ----- path/filepath.Ext -----

  /**
   * filepath.Ext: the suffix from the last '.' of the final path element,
   * or "" when that element has no '.'.
   */
  function Ext(path: string): (e: string)
    ensures |e| <= |path|
    ensures e == [] || (e[0] == '.' && e == path[|path| - |e|..])
    ensures forall k :: 0 <= k < |e| ==> e[k] != '/'
    ensures forall k :: 1 <= k < |e| ==> e[k] != '.'
    decreases |path|
  {
    if path == [] || path[|path| - 1] == '/' then []
    else if path[|path| - 1] == '.' then ['.']
    else
      var e := Ext(path[..|path| - 1]);
      if e == [] then [] else e + [path[|path| - 1]]
  }

  /** Without a '.' in the final element there is no extension. */
  lemma {:induction false} ExtNone(path: string)
    requires forall k :: 0 <= k < |path| ==> path[k] != '.'
    ensures Ext(path) == []
    decreases |path|
  {
    if path != [] && path[|path| - 1] != '/' {
      ExtNone(path[..|path| - 1]);
    }
  }

  /** A file name ending in `"." + x`, where x has no '.' or '/', has the extension `"." + x`. */
  lemma {:induction false} ExtOfSuffix(stem: string, x: string)
    requires forall k :: 0 <= k < |x| ==> x[k] != '.' && x[k] != '/'
    ensures Ext(stem + "." + x) == "." + x
    decreases |x|
  {
    var p := stem + "." + x;
    if x == [] {
      assert p[|p| - 1] == '.';
    } else {
      var init := x[..|x| - 1];
      ExtOfSuffix(stem, init);
      assert p[..|p| - 1] == stem + "." + init;
      assert "." + init + [x[|x| - 1]] == "." + x;
    }
  }
}
