// Value types shared by every module, and the handful of Python string
// built-ins the application leans on: str.strip, str.upper/str.lower,
// the `in` substring test, str.split, int() on text and str() of an int.
module Common {

  datatype Option<T> = None | Some(value: T) {
    /** Python's `x or default` when x is absent. */
    function GetOr(default: T): T
    {
      if Some? then value else default
    }
  }

  /** Python truthiness of an optional string: None and "" are falsy. */
  predicate Truthy(v: Option<string>)
  {
    v.Some? && v.value != ""
  }

  /** `d.get(key)` on a string-keyed dictionary. */
  function Get<V>(d: map<string, V>, key: string): (r: Option<V>)
    ensures r.Some? <==> key in d
    ensures r.Some? ==> r.value == d[key]
  {
    if key in d then Some(d[key]) else None
  }

  /** `d.get(key, default)`. */
  function GetOrDefault(d: map<string, string>, key: string, default: string): (r: string)
    ensures key in d ==> r == d[key]
    ensures key !in d ==> r == default
  {
    if key in d then d[key] else default
  }

  /** `float(text)`, an oracle; None is the ValueError it raises. */
  type FloatParser = string -> Option<real>

  // ---------------------------------------------------------------------
  // Whitespace and str.strip
  // ---------------------------------------------------------------------

  /** The characters Python's str.isspace accepts, which str.strip and int()
      remove: \t to \r, the four separators \x1c to \x1f, the space, NEL,
      and the Unicode space separators and line and paragraph separators. */
  predicate IsSpace(c: char)
  {
    ('\t' <= c <= '\r') || ('\U{1C}' <= c <= '\U{1F}') || c == ' ' || c == '\U{85}' || c == '\U{A0}' ||
    c == '\U{1680}' || ('\U{2000}' <= c <= '\U{200A}') || c == '\U{2028}' || c == '\U{2029}' ||
    c == '\U{202F}' || c == '\U{205F}' || c == '\U{3000}'
  }

  predicate AllSpace(s: string)
  {
    forall k :: 0 <= k < |s| ==> IsSpace(s[k])
  }

  /** A string with no surrounding whitespace, i.e. one str.strip leaves alone. */
  predicate Stripped(s: string)
  {
    s == [] || (!IsSpace(s[0]) && !IsSpace(s[|s| - 1]))
  }

  /** str.strip(): whitespace removed from both ends, and nothing else. */
  function Trim(s: string): (r: string)
    ensures Stripped(r) && |r| <= |s|
    ensures Stripped(s) ==> r == s
    decreases |s|
  {
    if s == [] then s
    else if IsSpace(s[0]) then Trim(s[1..])
    else if IsSpace(s[|s| - 1]) then Trim(s[..|s| - 1])
    else s
  }

  /** r is s[i..j], with only whitespace before and after it. */
  predicate SpaceBounded(s: string, r: string, i: nat, j: nat)
  {
    i <= j <= |s| && r == s[i..j] && AllSpace(s[..i]) && AllSpace(s[j..])
  }

  lemma SpaceBoundedFront(s: string, r: string, i: nat, j: nat)
    requires |s| > 0 && IsSpace(s[0]) && SpaceBounded(s[1..], r, i, j)
    ensures SpaceBounded(s, r, i + 1, j + 1)
  {
    assert s[1..][i..j] == s[i + 1..j + 1];
    assert s[..i + 1] == [s[0]] + s[1..][..i];
    assert s[j + 1..] == s[1..][j..];
  }

  lemma SpaceBoundedBack(s: string, r: string, i: nat, j: nat)
    requires |s| > 0 && IsSpace(s[|s| - 1]) && SpaceBounded(s[..|s| - 1], r, i, j)
    ensures SpaceBounded(s, r, i, j)
  {
    var u := s[..|s| - 1];
    assert u[i..j] == s[i..j];
    assert u[..i] == s[..i];
    assert s[j..] == u[j..] + [s[|s| - 1]];
  }

  /** What strip removes is whitespace only, from the two ends: the result is
      a slice of the input with only whitespace before and after it. With
      Stripped, no more whitespace could have been removed. */
  lemma {:induction false} TrimInfix(s: string)
    ensures exists i: nat, j: nat :: SpaceBounded(s, Trim(s), i, j)
    decreases |s|
  {
    if s == [] {
      assert SpaceBounded(s, Trim(s), 0, 0);
    } else if IsSpace(s[0]) {
      TrimInfix(s[1..]);
      var i: nat, j: nat :| SpaceBounded(s[1..], Trim(s[1..]), i, j);
      SpaceBoundedFront(s, Trim(s[1..]), i, j);
      assert SpaceBounded(s, Trim(s), i + 1, j + 1);
    } else if IsSpace(s[|s| - 1]) {
      TrimInfix(s[..|s| - 1]);
      var i: nat, j: nat :| SpaceBounded(s[..|s| - 1], Trim(s[..|s| - 1]), i, j);
      SpaceBoundedBack(s, Trim(s[..|s| - 1]), i, j);
      assert SpaceBounded(s, Trim(s), i, j);
    } else {
      assert s[..0] == [] && s[|s|..] == [] && s[0..|s|] == s;
      assert SpaceBounded(s, Trim(s), 0, |s|);
    }
  }

  // ---------------------------------------------------------------------
  // Case mapping (ASCII only) and substring search
  // ---------------------------------------------------------------------

  function LowerChar(c: char): char
  {
    if 'A' <= c <= 'Z' then (c as int + 32) as char else c
  }

  function UpperChar(c: char): char
  {
    if 'a' <= c <= 'z' then (c as int - 32) as char else c
  }

  function Lower(s: string): (r: string)
    ensures |r| == |s| && forall i :: 0 <= i < |s| ==> r[i] == LowerChar(s[i])
  {
    seq(|s|, i requires 0 <= i < |s| => LowerChar(s[i]))
  }

  function Upper(s: string): (r: string)
    ensures |r| == |s| && forall i :: 0 <= i < |s| ==> r[i] == UpperChar(s[i])
  {
    seq(|s|, i requires 0 <= i < |s| => UpperChar(s[i]))
  }

  predicate StartsWith(s: string, prefix: string)
  {
    |prefix| <= |s| && s[..|prefix|] == prefix
  }

  /** Python's `needle in hay` for strings. */
  predicate Contains(hay: string, needle: string)
  {
    exists i :: 0 <= i <= |hay| && StartsWith(hay[i..], needle)
  }

  /** The ORM's `icontains` lookup: a substring test after folding ASCII case. */
  predicate IContains(hay: string, needle: string)
  {
    Contains(Lower(hay), Lower(needle))
  }

  lemma EmptyContained(hay: string)
    ensures Contains(hay, "")
  {
    assert StartsWith(hay[0..], "");
  }

  // ---------------------------------------------------------------------
  // str.split(sep) for a one-character separator
  // ---------------------------------------------------------------------

  function Split(s: string, sep: char): (parts: seq<string>)
    ensures |parts| >= 1
  {
    if s == [] then [""]
    else
      var rest := Split(s[1..], sep);
      if s[0] == sep then [""] + rest else [[s[0]] + rest[0]] + rest[1..]
  }

  lemma {:induction false} SplitNoSep(s: string, sep: char)
    requires sep !in s
    ensures Split(s, sep) == [s]
  {
    if s != [] {
      SplitNoSep(s[1..], sep);
      assert [s[0]] + s[1..] == s;
    }
  }

  lemma {:induction false} SplitAtFirst(a: string, sep: char, b: string)
    requires sep !in a
    ensures Split(a + [sep] + b, sep) == [a] + Split(b, sep)
  {
    if a == [] {
      assert a + [sep] + b == [sep] + b;
      assert ([sep] + b)[1..] == b;
    } else {
      SplitAtFirst(a[1..], sep, b);
      assert (a + [sep] + b)[1..] == a[1..] + [sep] + b;
      assert [a[0]] + a[1..] == a;
    }
  }

  // ---------------------------------------------------------------------
  // Decimal digits: int() on text and str() of an int
  // ---------------------------------------------------------------------

  predicate IsDigit(c: char)
  {
    '0' <= c <= '9'
  }

  predicate AllDigits(s: string)
  {
    forall i :: 0 <= i < |s| ==> IsDigit(s[i])
  }

  function DigitChar(d: nat): (c: char)
    requires d < 10
    ensures IsDigit(c) && c as int - '0' as int == d
  {
    ('0' as int + d) as char
  }

  /** The value of a string of decimal digits, most significant first. */
  function DigitsValue(s: string): nat
    requires AllDigits(s)
  {
    if s == [] then 0 else DigitsValue(s[..|s| - 1]) * 10 + (s[|s| - 1] as int - '0' as int)
  }

  /** str(n) for a natural number: the shortest decimal spelling. */
  function NatToString(n: nat): (r: string)
    ensures |r| >= 1 && AllDigits(r) && DigitsValue(r) == n
    ensures r[0] == '0' ==> n == 0
    ensures (n < 10 <==> |r| == 1) && (n < 100 ==> |r| <= 2)
  {
    if n < 10 then [DigitChar(n)]
    else
      var p := NatToString(n / 10);
      var r := p + [DigitChar(n % 10)];
      assert r[..|r| - 1] == p;
      r
  }

  /** str(i) for any Python int. */
  function IntToString(i: int): (r: string)
    ensures i >= 0 ==> r == NatToString(i)
    ensures i < 0 ==> r == "-" + NatToString(-i)
  {
    if i < 0 then "-" + NatToString(-i) else NatToString(i)
  }

  lemma {:induction false} LeadingZero(s: string)
    requires AllDigits(s)
    ensures AllDigits("0" + s) && DigitsValue("0" + s) == DigitsValue(s)
  {
    if s != [] {
      var t := "0" + s;
      assert t[..|t| - 1] == "0" + s[..|s| - 1];
      LeadingZero(s[..|s| - 1]);
    }
  }

  /** int(s) for text: surrounding whitespace, an optional sign, then at least
      one decimal digit. None is the ValueError. */
  function ParseInt(s: string): (r: Option<int>)
    ensures r.Some? ==> Trim(s) != ""
    ensures var t := Trim(s);
      r.Some? <==> (|t| >= 1 && AllDigits(t)) || (|t| >= 2 && (t[0] == '-' || t[0] == '+') && AllDigits(t[1..]))
    ensures var t := Trim(s); |t| >= 1 && AllDigits(t) ==> r == Some(DigitsValue(t))
    ensures var t := Trim(s); |t| >= 2 && t[0] == '-' && AllDigits(t[1..]) ==> r == Some(-(DigitsValue(t[1..]) as int))
    ensures var t := Trim(s); |t| >= 2 && t[0] == '+' && AllDigits(t[1..]) ==> r == Some(DigitsValue(t[1..]))
  {
    var t := Trim(s);
    if |t| >= 2 && (t[0] == '-' || t[0] == '+') && AllDigits(t[1..]) then
      var v: int := DigitsValue(t[1..]);
      Some(if t[0] == '-' then -v else v)
    else if |t| >= 1 && AllDigits(t) then Some(DigitsValue(t))
    else None
  }

  lemma ParseDigits(s: string)
    requires |s| >= 1 && AllDigits(s)
    ensures ParseInt(s) == Some(DigitsValue(s))
  {
    assert IsDigit(s[0]) && IsDigit(s[|s| - 1]);
    var t := Trim(s);
    assert t == s;
    assert !(t[0] == '-' || t[0] == '+');
  }

  lemma ParseMinus(t: string)
    requires Stripped(t) && |t| >= 2 && t[0] == '-' && AllDigits(t[1..])
    ensures ParseInt(t) == Some(-(DigitsValue(t[1..]) as int))
  {
    assert Trim(t) == t;
  }

  lemma MinusDigits(d: string)
    requires |d| >= 1 && AllDigits(d)
    ensures var r := "-" + d; Stripped(r) && |r| >= 2 && r[0] == '-' && r[1..] == d
  {
    var r := "-" + d;
    assert r[1..] == d;
    assert IsDigit(d[|d| - 1]);
    assert r[|r| - 1] == d[|d| - 1];
  }

  lemma ParseIntOfString(i: int)
    ensures ParseInt(IntToString(i)) == Some(i)
  {
    if i < 0 {
      var n := NatToString(-i);
      MinusDigits(n);
      ParseMinus(IntToString(i));
    } else {
      ParseDigits(NatToString(i));
    }
  }
}
