/**
 * The few pieces of Python string handling the JSON servers rely on:
 * `f"{n}"`, `str.strip()`, `str.isdigit()`, `int(s)` and the id lists
 * `[int(x.strip()) for x in s.split(",") if x.strip().isdigit()]`.
 */
module PyText {
  import opened Wrappers
  import opened Seqs

  /**
   * The characters `str.isspace()` accepts and `str.strip()` removes:
   * ASCII 9-13 and 28-32 (the file, group, record and unit separators
   * included), and the Unicode spaces and line separators.
   */
  predicate IsSpace(c: char)
  {
    var n := c as int;
    || 9 <= n <= 13 || 28 <= n <= 32 || n == 0x85 || n == 0xA0 || n == 0x1680
    || 0x2000 <= n <= 0x200A || n == 0x2028 || n == 0x2029 || n == 0x202F || n == 0x205F || n == 0x3000
  }

  /** The ASCII whitespace `int()` skips around a number; the separators 28-31 are not among it. */
  predicate IsIntSpace(c: char)
  {
    c == ' ' || c == '\t' || c == '\n' || c == '\r' || c as int == 11 || c as int == 12
  }

  /** Which whitespace a trim removes: that of `str.strip()` or that of `int()`. */
  datatype Spaces = StrSpaces | IntSpaces

  predicate Space(k: Spaces, c: char)
  {
    match k
    case StrSpaces => IsSpace(c)
    case IntSpaces => IsIntSpace(c)
  }

  function StripLeft(s: string, k: Spaces): (r: string)
    ensures |r| <= |s|
    ensures r == [] || !Space(k, r[0])
  {
    if s != [] && Space(k, s[0]) then StripLeft(s[1..], k) else s
  }

  function StripRight(s: string, k: Spaces): (r: string)
    ensures |r| <= |s| && r == s[..|r|]
    ensures r == [] || !Space(k, r[|r| - 1])
  {
    if s != [] && Space(k, s[|s| - 1]) then StripRight(s[..|s| - 1], k) else s
  }

  /** `s` without the leading and trailing whitespace of kind `k`. */
  function Trim(s: string, k: Spaces): (r: string)
    ensures |r| <= |s|
    ensures r == [] || (!Space(k, r[0]) && !Space(k, r[|r| - 1]))
  {
    var l := StripLeft(s, k);
    var r := StripRight(l, k);
    assert r != [] ==> r[0] == l[0];
    r
  }

  /** `s.strip()`: `s` without leading and trailing whitespace. */
  function Strip(s: string): (r: string)
    ensures |r| <= |s|
    ensures r == [] || (!IsSpace(r[0]) && !IsSpace(r[|r| - 1]))
  {
    Trim(s, StrSpaces)
  }

  predicate IsDigit(c: char) { '0' <= c <= '9' }

  /** `s.isdigit()` for ASCII digits: non-empty and digits only. */
  predicate IsDigits(s: string)
  {
    |s| > 0 && forall i :: 0 <= i < |s| ==> IsDigit(s[i])
  }

  function DigitChar(d: nat): (c: char)
    requires d < 10
    ensures IsDigit(c) && c as int - '0' as int == d
  {
    ('0' as int + d) as char
  }

  /** The value of a string of decimal digits. */
  function DigitsValue(s: string): nat
    requires forall i :: 0 <= i < |s| ==> IsDigit(s[i])
  {
    if s == [] then 0
    else
      assert IsDigit(s[|s| - 1]);
      DigitsValue(s[..|s| - 1]) * 10 + (s[|s| - 1] as int - '0' as int)
  }

  /** `f"{n}"`: the decimal digits of `n`, which read back as `n`. */
  function Decimal(n: nat): (r: string)
    ensures IsDigits(r) && DigitsValue(r) == n
    ensures r[0] == '0' ==> n == 0
  {
    if n < 10 then [DigitChar(n)]
    else
      var r := Decimal(n / 10) + [DigitChar(n % 10)];
      assert r[..|r| - 1] == Decimal(n / 10);
      r
  }

  /** Digits are not whitespace of either kind, so a string of digits strips to itself. */
  lemma StripDigits(d: string)
    requires IsDigits(d)
    ensures Strip(d) == d && Trim(d, IntSpaces) == d
  {
    assert IsDigit(d[0]) && IsDigit(d[|d| - 1]);
    StripNoSpace(d, StrSpaces);
    StripNoSpace(d, IntSpaces);
  }

  /** A string that neither starts nor ends with whitespace is left as it is. */
  lemma {:induction false} StripNoSpace(s: string, k: Spaces)
    requires s == [] || (!Space(k, s[0]) && !Space(k, s[|s| - 1]))
    ensures Trim(s, k) == s
  {
  }

  /** Whitespace around a string that neither starts nor ends with it is exactly what is removed. */
  lemma {:induction false} StripSurrounding(pre: string, s: string, post: string, k: Spaces)
    requires forall i :: 0 <= i < |pre| ==> Space(k, pre[i])
    requires forall i :: 0 <= i < |post| ==> Space(k, post[i])
    requires s == [] || (!Space(k, s[0]) && !Space(k, s[|s| - 1]))
    ensures Trim(pre + s + post, k) == s
  {
    assert pre + s + post == pre + (s + post);
    if s == [] {
      assert s + post == post;
      StripLeftSpaces(pre + post, [], k);
      assert pre + post + [] == pre + post;
    } else {
      StripLeftSpaces(pre, s + post, k);
      StripRightSpaces(s, post, k);
    }
  }

  lemma {:induction false} StripLeftSpaces(pre: string, s: string, k: Spaces)
    requires forall i :: 0 <= i < |pre| ==> Space(k, pre[i])
    requires s == [] || !Space(k, s[0])
    ensures StripLeft(pre + s, k) == s
  {
    if pre != [] {
      assert (pre + s)[1..] == pre[1..] + s;
      StripLeftSpaces(pre[1..], s, k);
    } else {
      assert pre + s == s;
    }
  }

  lemma {:induction false} StripRightSpaces(s: string, post: string, k: Spaces)
    requires forall i :: 0 <= i < |post| ==> Space(k, post[i])
    requires s == [] || !Space(k, s[|s| - 1])
    ensures StripRight(s + post, k) == s
  {
    if post != [] {
      var n := |post| - 1;
      assert (s + post)[..|s + post| - 1] == s + post[..n];
      StripRightSpaces(s, post[..n], k);
    } else {
      assert s + post == s;
    }
  }

  /**
   * `int(s)`: surrounding whitespace, an optional sign and decimal digits;
   * `None` where Python raises `ValueError`.
   */
  function ParseInt(s: string): (r: Option<int>)
  {
    var t := Trim(s, IntSpaces);
    if |t| > 0 && (t[0] == '-' || t[0] == '+') && IsDigits(t[1..]) then
      Some(if t[0] == '-' then -(DigitsValue(t[1..]) as int) else DigitsValue(t[1..]))
    else if IsDigits(t) then Some(DigitsValue(t))
    else None
  }

  /** `int(f"{n}")` gives the number back. */
  lemma ParseIntOfDecimal(n: nat)
    ensures ParseInt(Decimal(n)) == Some(n)
  {
    var d := Decimal(n);
    StripDigits(d);
    assert d[0] != '-' && d[0] != '+';
  }

  /** `int(f"-{n}")` gives the negated number back. */
  lemma ParseIntOfNegativeDecimal(n: nat)
    ensures ParseInt("-" + Decimal(n)) == Some(-(n as int))
  {
    var d := Decimal(n);
    var m := "-" + d;
    assert m[|m| - 1] == d[|d| - 1] && IsDigit(d[|d| - 1]);
    StripNoSpace(m, IntSpaces);
    assert m[1..] == d;
  }

  /** `int(x.strip())` for every token whose stripped form is all digits, in order. */
  function DigitTokens(tokens: seq<string>): (ids: seq<nat>)
    ensures |ids| <= |tokens|
  {
    if tokens == [] then []
    else
      var t := Strip(tokens[0]);
      (if IsDigits(t) then [DigitsValue(t)] else []) + DigitTokens(tokens[1..])
  }

  /** `[int(x.strip()) for x in s.split(",") if x.strip().isdigit()]`. */
  function CommaIds(s: string): (ids: seq<nat>)
  {
    DigitTokens(Split(s, ','))
  }

  function Decimals(ids: seq<nat>): (r: seq<string>)
    ensures |r| == |ids| && forall k :: 0 <= k < |ids| ==> r[k] == Decimal(ids[k])
  {
    if ids == [] then [] else [Decimal(ids[0])] + Decimals(ids[1..])
  }

  lemma {:induction false} DigitTokensOfDecimals(ids: seq<nat>)
    ensures DigitTokens(Decimals(ids)) == ids
  {
    if ids != [] {
      var d := Decimal(ids[0]);
      StripDigits(d);
      assert Decimals(ids)[1..] == Decimals(ids[1..]);
      DigitTokensOfDecimals(ids[1..]);
    }
  }

  /** A comma-separated list of decimal ids parses back to exactly those ids. */
  lemma CommaIdsOfJoin(ids: seq<nat>)
    ensures CommaIds(Join(Decimals(ids), ',')) == ids
  {
    if ids == [] {
      assert Split([], ',') == [[]];
    } else {
      var parts := Decimals(ids);
      forall k | 0 <= k < |parts|
        ensures ',' !in parts[k]
      {
        assert IsDigits(parts[k]);
      }
      SplitOfJoin(parts, ',');
      DigitTokensOfDecimals(ids);
    }
  }

  /** The comprehension over the split pieces distributes over concatenation: the ids of the pieces of `a` come before those of `b`. */
  lemma {:induction false} DigitTokensAppend(a: seq<string>, b: seq<string>)
    ensures DigitTokens(a + b) == DigitTokens(a) + DigitTokens(b)
  {
    if a != [] {
      var t := Strip(a[0]);
      var first := if IsDigits(t) then [DigitsValue(t)] else [];
      assert (a + b)[0] == a[0] && (a + b)[1..] == a[1..] + b;
      assert DigitTokens(a + b) == first + DigitTokens(a[1..] + b);
      DigitTokensAppend(a[1..], b);
      assert DigitTokens(a) == first + DigitTokens(a[1..]);
    } else {
      assert a + b == b;
    }
  }

  /**
   * A file separator (character 28) before a digit: `strip()` removes it,
   * so the id list of the body holds 5, while `int()` of the same text
   * fails.
   */
  lemma SeparatorStripped()
    ensures CommaIds([28 as char, '5']) == [5]
    ensures ParseInt([28 as char, '5']) == None
  {
    var s := [28 as char, '5'];
    assert Split(s, ',') == [s];
    StripSurrounding([28 as char], "5", [], StrSpaces);
    assert [28 as char] + "5" + [] == s;
    assert DigitsValue("5") == 5 by {
      assert "5"[..0] == [];
    }
    assert Trim(s, IntSpaces) == s;
  }
}
