/**
 * The JavaScript string operations the page relies on, over `string` =
 * `seq<char>`: ASCII `toLowerCase`, `trim`, `includes`, `Array.join`, the
 * `replace(/\D/g, '')` digit filter of the blood-pressure inputs and
 * `parseInt` on a leading run of decimal digits.
 */
module Text {

  // ---------------------------------------------------------------------
  // Lower-casing
  // ---------------------------------------------------------------------

  /** `toLowerCase` on one character, restricted to the ASCII letters. */
  function LowerChar(c: char): char
  {
    if 'A' <= c <= 'Z' then (c as int - 'A' as int + 'a' as int) as char else c
  }

  /** `s.toLowerCase()`, character by character. */
  function Lower(s: string): (r: string)
    ensures |r| == |s|
    ensures forall i :: 0 <= i < |s| ==> r[i] == LowerChar(s[i])
  {
    seq(|s|, i requires 0 <= i < |s| => LowerChar(s[i]))
  }

  /** Lower-casing distributes over concatenation. */
  lemma LowerConcat(a: string, b: string)
    ensures Lower(a + b) == Lower(a) + Lower(b)
  {
    var l, r := Lower(a + b), Lower(a) + Lower(b);
    forall i | 0 <= i < |l|
      ensures l[i] == r[i]
    {
      if i < |a| {
        assert (a + b)[i] == a[i] && r[i] == Lower(a)[i];
      } else {
        assert (a + b)[i] == b[i - |a|] && r[i] == Lower(b)[i - |a|];
      }
    }
    assert |l| == |r|;
  }

  /** Lower-casing commutes with taking a slice. */
  lemma LowerSlice(s: string, i: int, j: int)
    requires 0 <= i <= j <= |s|
    ensures Lower(s[i..j]) == Lower(s)[i..j]
  {
    var l, r := Lower(s[i..j]), Lower(s)[i..j];
    forall k | 0 <= k < |l|
      ensures l[k] == r[k]
    {
      assert s[i..j][k] == s[i + k];
    }
  }

  // ---------------------------------------------------------------------
  // White space and `trim`
  // ---------------------------------------------------------------------

  /** A closed range of code points. */
  datatype Range = Range(lo: int, hi: int)

  /**
   * The white-space and line-terminator code points `trim` removes
   * (ECMAScript's WhiteSpace and LineTerminator): tab, line feed through
   * carriage return, space, no-break space, the other space separators,
   * the line and paragraph separators, and the byte-order mark.
   */
  const WHITE_SPACE: seq<Range> := [
    Range(0x09, 0x0D), Range(0x20, 0x20), Range(0xA0, 0xA0), Range(0x1680, 0x1680),
    Range(0x2000, 0x200A), Range(0x2028, 0x2029), Range(0x202F, 0x202F), Range(0x205F, 0x205F),
    Range(0x3000, 0x3000), Range(0xFEFF, 0xFEFF)
  ]

  /** Code point `n` lies in one of `ranges`. */
  predicate InRanges(n: int, ranges: seq<Range>)
  {
    ranges != [] && ((ranges[0].lo <= n <= ranges[0].hi) || InRanges(n, ranges[1..]))
  }

  predicate IsSpace(c: char)
  {
    InRanges(c as int, WHITE_SPACE)
  }

  /** The scan finds `n` exactly when some range holds it. */
  lemma {:induction false} InRangesIff(n: int, ranges: seq<Range>)
    ensures InRanges(n, ranges) <==> exists k :: 0 <= k < |ranges| && ranges[k].lo <= n <= ranges[k].hi
  {
    if ranges != [] {
      InRangesIff(n, ranges[1..]);
      assert forall k :: 1 <= k < |ranges| ==> ranges[1..][k - 1] == ranges[k];
    }
  }

  /** The space character is white space. */
  lemma SpaceIsSpace()
    ensures IsSpace(' ')
  {
    InRangesIff(' ' as int, WHITE_SPACE);
    assert WHITE_SPACE[1].lo <= ' ' as int <= WHITE_SPACE[1].hi;
  }

  /** No printable ASCII character (letters, digits, punctuation) is white space. */
  lemma PrintableNotSpace(c: char)
    requires '!' <= c <= '~'
    ensures !IsSpace(c)
  {
    InRangesIff(c as int, WHITE_SPACE);
  }

  /** Every character of `s` is white space; `s.trim()` is then falsy. */
  predicate IsBlank(s: string)
  {
    forall i :: 0 <= i < |s| ==> IsSpace(s[i])
  }

  /** `trimStart`: the longest suffix of `s` that does not start with white space. */
  function TrimStart(s: string): (r: string)
    ensures |r| <= |s| && r == s[|s| - |r|..]
    ensures r == [] || !IsSpace(r[0])
    ensures forall i :: 0 <= i < |s| - |r| ==> IsSpace(s[i])
  {
    if s != [] && IsSpace(s[0]) then TrimStart(s[1..]) else s
  }

  /** `trimEnd`: the longest prefix of `s` that does not end with white space. */
  function TrimEnd(s: string): (r: string)
    ensures |r| <= |s| && r == s[..|r|]
    ensures r == [] || !IsSpace(r[|r| - 1])
    ensures forall i :: |r| <= i < |s| ==> IsSpace(s[i])
  {
    if s != [] && IsSpace(s[|s| - 1]) then TrimEnd(s[..|s| - 1]) else s
  }

  /** `s.trim()`: drops the leading and the trailing white space, keeps the rest. */
  function Trim(s: string): (r: string)
    ensures r == [] <==> IsBlank(s)
    ensures r != [] ==> !IsSpace(r[0]) && !IsSpace(r[|r| - 1])
    ensures IsSubstringAt(s, r, |s| - |TrimStart(s)|)
    ensures forall i :: 0 <= i < |s| - |TrimStart(s)| ==> IsSpace(s[i])
    ensures forall i :: |s| - |TrimStart(s)| + |r| <= i < |s| ==> IsSpace(s[i])
  {
    TrimFacts(s);
    TrimEnd(TrimStart(s))
  }

  /** What `Trim` promises, for the composition of the two one-sided trims. */
  lemma TrimFacts(s: string)
    ensures TrimEnd(TrimStart(s)) == [] <==> IsBlank(s)
    ensures IsSubstringAt(s, TrimEnd(TrimStart(s)), |s| - |TrimStart(s)|)
    ensures forall i :: 0 <= i < |s| - |TrimStart(s)| ==> IsSpace(s[i])
    ensures forall i :: |s| - |TrimStart(s)| + |TrimEnd(TrimStart(s))| <= i < |s| ==> IsSpace(s[i])
  {
    TrimIsSlice(s, TrimStart(s), TrimEnd(TrimStart(s)));
    TrimBlank(s, TrimStart(s), TrimEnd(TrimStart(s)));
    TrimTrailing(s, TrimStart(s), TrimEnd(TrimStart(s)));
  }

  lemma TrimTrailing(s: string, t: string, r: string)
    requires |t| <= |s| && t == s[|s| - |t|..]
    requires |r| <= |t|
    requires forall i :: |r| <= i < |t| ==> IsSpace(t[i])
    ensures forall i :: |s| - |t| + |r| <= i < |s| ==> IsSpace(s[i])
  {
    forall i | |s| - |t| + |r| <= i < |s|
      ensures IsSpace(s[i])
    {
      assert s[i] == t[i - (|s| - |t|)];
    }
  }

  lemma TrimIsSlice(s: string, t: string, r: string)
    requires |t| <= |s| && t == s[|s| - |t|..]
    requires |r| <= |t| && r == t[..|r|]
    ensures IsSubstringAt(s, r, |s| - |t|)
  {
    var a := |s| - |t|;
    assert s[a..a + |r|] == s[a..][..|r|];
  }

  lemma TrimBlank(s: string, t: string, r: string)
    requires |t| <= |s| && t == s[|s| - |t|..]
    requires t == [] || !IsSpace(t[0])
    requires forall i :: 0 <= i < |s| - |t| ==> IsSpace(s[i])
    requires |r| <= |t| && r == t[..|r|]
    requires forall i :: |r| <= i < |t| ==> IsSpace(t[i])
    ensures r == [] <==> IsBlank(s)
  {
    if r != [] {
      assert s[|s| - |t|] == r[0];
    }
  }

  /** A string without white space at either end is its own `trim`. */
  lemma TrimOfTrimmed(s: string)
    requires s == [] || (!IsSpace(s[0]) && !IsSpace(s[|s| - 1]))
    ensures Trim(s) == s
  {
  }

  /** One white-space character before one other character is trimmed away. */
  lemma TrimPadded(space: char, c: char)
    requires IsSpace(space) && !IsSpace(c)
    ensures Trim([space, c]) == [c]
  {
    assert [space, c][1..] == [c];
    assert TrimStart([c]) == [c];
    assert TrimStart([space, c]) == [c];
    assert TrimEnd([c]) == [c];
  }

  // ---------------------------------------------------------------------
  // `includes`
  // ---------------------------------------------------------------------

  /** `sub` occurs in `s` starting at index `i`. */
  predicate IsSubstringAt(s: string, sub: string, i: int)
  {
    0 <= i && i + |sub| <= |s| && s[i..i + |sub|] == sub
  }

  /** `s.includes(sub)`, scanning the start positions from left to right. */
  predicate Contains(s: string, sub: string)
    decreases |s|
  {
    if |sub| > |s| then false
    else if s[..|sub|] == sub then true
    else Contains(s[1..], sub)
  }

  /** The scan finds `sub` exactly when `sub` occurs at some position of `s`. */
  lemma {:induction false} ContainsIff(s: string, sub: string)
    ensures Contains(s, sub) <==> exists i :: IsSubstringAt(s, sub, i)
    decreases |s|
  {
    if |sub| > |s| {
    } else if s[..|sub|] == sub {
      assert IsSubstringAt(s, sub, 0);
    } else {
      ContainsIff(s[1..], sub);
      if i :| IsSubstringAt(s, sub, i) {
        assert i != 0;
        assert s[1..][i - 1..i - 1 + |sub|] == s[i..i + |sub|];
        assert IsSubstringAt(s[1..], sub, i - 1);
      }
      if j :| IsSubstringAt(s[1..], sub, j) {
        assert s[1..][j..j + |sub|] == s[j + 1..j + 1 + |sub|];
        assert IsSubstringAt(s, sub, j + 1);
      }
    }
  }

  /** An occurrence at a known position makes `includes` true. */
  lemma ContainsAt(s: string, sub: string, i: int)
    requires IsSubstringAt(s, sub, i)
    ensures Contains(s, sub)
  {
    ContainsIff(s, sub);
  }

  /** Every string includes itself. */
  lemma ContainsSelf(s: string)
    ensures Contains(s, s)
  {
    assert s[0..|s|] == s;
    ContainsAt(s, s, 0);
  }

  /** Every string includes the empty string. */
  lemma ContainsEmpty(s: string)
    ensures Contains(s, [])
  {
    assert s[0..0] == [];
    ContainsAt(s, [], 0);
  }

  /** A string includes each of its suffixes. */
  lemma ContainsSuffix(a: string, b: string)
    ensures Contains(a + b, b)
  {
    assert (a + b)[|a|..|a| + |b|] == b;
    ContainsAt(a + b, b, |a|);
  }

  /**
   * If `t` occurs in `s` at `k` and `s`'s lower-cased form includes `x`,
   * then so does `s`'s: a substring's occurrences are occurrences of the whole.
   */
  lemma ContainsThroughLower(s: string, t: string, k: int, x: string)
    requires IsSubstringAt(s, t, k)
    requires Contains(Lower(t), x)
    ensures Contains(Lower(s), x)
  {
    ContainsIff(Lower(t), x);
    var i :| IsSubstringAt(Lower(t), x, i);
    LowerSlice(s, k, k + |t|);
    SubstringOfSubstring(Lower(s), Lower(t), k, x, i);
    ContainsAt(Lower(s), x, k + i);
  }

  /** An occurrence inside an occurrence is an occurrence in the whole string. */
  lemma SubstringOfSubstring(s: string, t: string, k: int, x: string, i: int)
    requires IsSubstringAt(s, t, k)
    requires IsSubstringAt(t, x, i)
    ensures IsSubstringAt(s, x, k + i)
  {
    var w := s[k + i..k + i + |x|];
    forall j | 0 <= j < |x|
      ensures w[j] == x[j]
    {
      assert x[j] == t[i + j];
      assert t[i + j] == s[k + i + j];
    }
  }

  // ---------------------------------------------------------------------
  // `Array.prototype.join`
  // ---------------------------------------------------------------------

  /** `xs.join(sep)`. */
  function Join(xs: seq<string>, sep: string): string
  {
    if xs == [] then "" else if |xs| == 1 then xs[0] else xs[0] + sep + Join(xs[1..], sep)
  }

  /** Two or more pieces are joined with the separator between them. */
  lemma JoinSeparated(xs: seq<string>, sep: string)
    ensures |xs| > 1 ==> Contains(Join(xs, sep), sep)
  {
    if |xs| > 1 {
      var r := Join(xs, sep);
      assert r == xs[0] + sep + Join(xs[1..], sep);
      assert r[|xs[0]|..|xs[0]| + |sep|] == sep;
      ContainsAt(r, sep, |xs[0]|);
    }
  }

  /** Appending a piece to a non-empty list adds the separator and the piece at the end of the joined text. */
  lemma {:induction false} JoinAppend(xs: seq<string>, x: string, sep: string)
    ensures xs != [] ==> Join(xs + [x], sep) == Join(xs, sep) + sep + x
  {
    if |xs| == 1 {
      assert (xs + [x])[1..] == [x];
    } else if |xs| > 1 {
      assert (xs + [x])[0] == xs[0] && (xs + [x])[1..] == xs[1..] + [x];
      JoinAppend(xs[1..], x, sep);
      assert Join(xs + [x], sep) == xs[0] + sep + (Join(xs[1..], sep) + sep + x);
    }
  }

  // ---------------------------------------------------------------------
  // Digits, the `\D` filter and `parseInt`
  // ---------------------------------------------------------------------

  predicate IsDigit(c: char)
  {
    '0' <= c <= '9'
  }

  predicate AllDigits(s: string)
  {
    forall i :: 0 <= i < |s| ==> IsDigit(s[i])
  }

  /** `s.replace(/\D/g, '')`: the decimal digits of `s`, in order. */
  function KeepDigits(s: string): (r: string)
    ensures AllDigits(r)
    ensures |r| <= |s|
    ensures AllDigits(s) ==> r == s
  {
    if s == [] then [] else (if IsDigit(s[0]) then [s[0]] else []) + KeepDigits(s[1..])
  }

  /** A single character is kept exactly when it is a digit. */
  lemma KeepDigitsOne(c: char)
    ensures KeepDigits([c]) == if IsDigit(c) then [c] else []
  {
    assert [c][1..] == [];
  }

  /** Filtering two pieces in a row gives the two filtered pieces in a row. */
  lemma {:induction false} KeepDigitsAppend(a: string, b: string)
    ensures KeepDigits(a + b) == KeepDigits(a) + KeepDigits(b)
  {
    if a != [] {
      assert (a + b)[0] == a[0] && (a + b)[1..] == a[1..] + b;
      var head := if IsDigit(a[0]) then [a[0]] else [];
      assert KeepDigits(a + b) == head + KeepDigits(a[1..] + b);
      assert KeepDigits(a) == head + KeepDigits(a[1..]);
      KeepDigitsAppend(a[1..], b);
      assert head + (KeepDigits(a[1..]) + KeepDigits(b)) == (head + KeepDigits(a[1..])) + KeepDigits(b);
    } else {
      assert a + b == b;
    }
  }

  /**
   * The filter works piece by piece: a single character is kept exactly
   * when it is a digit, and the pieces are joined in their order, so the
   * result is the digits of the text in the order they were typed.
   */
  lemma KeepDigitsConcat(a: string, b: string)
    ensures KeepDigits(a + b) == KeepDigits(a) + KeepDigits(b)
    ensures forall c :: KeepDigits([c]) == if IsDigit(c) then [c] else []
  {
    KeepDigitsAppend(a, b);
    forall c
      ensures KeepDigits([c]) == if IsDigit(c) then [c] else []
    {
      KeepDigitsOne(c);
    }
  }

  /** The longest prefix of `s` made of digits. */
  function LeadingDigits(s: string): (r: string)
    ensures |r| <= |s| && r == s[..|r|]
    ensures AllDigits(r)
    ensures |r| < |s| ==> !IsDigit(s[|r|])
  {
    if s != [] && IsDigit(s[0]) then [s[0]] + LeadingDigits(s[1..]) else []
  }

  function DigitValue(c: char): nat
    requires IsDigit(c)
  {
    c as int - '0' as int
  }

  /** The number a string of decimal digits denotes (most significant first). */
  function DigitsValue(ds: string): nat
    requires AllDigits(ds)
  {
    if ds == [] then 0 else 10 * DigitsValue(ds[..|ds| - 1]) + DigitValue(ds[|ds| - 1])
  }

  /** A JavaScript number as `parseInt` can produce it here: NaN or a non-negative integer. */
  datatype Number = NaN | Int(value: nat)

  /**
   * `parseInt(s)` for strings whose number starts at the first character:
   * the value of the leading run of digits, NaN when there is none.
   */
  function ParseInt(s: string): (n: Number)
    ensures n.NaN? <==> s == [] || !IsDigit(s[0])
  {
    var ds := LeadingDigits(s);
    if ds == [] then NaN else Int(DigitsValue(ds))
  }

  /** `n >= bound` in JavaScript: every comparison with NaN is false. */
  predicate AtLeast(n: Number, bound: int)
  {
    n.Int? && n.value >= bound
  }

  function DigitChar(d: nat): (c: char)
    requires d < 10
    ensures IsDigit(c) && DigitValue(c) == d
  {
    ('0' as int + d) as char
  }

  /** The decimal rendering of `n`, without leading zeros. */
  function Decimal(n: nat): (s: string)
    ensures s != [] && AllDigits(s)
  {
    if n < 10 then [DigitChar(n)] else Decimal(n / 10) + [DigitChar(n % 10)]
  }

  /** Reading back a decimal rendering gives the number. */
  lemma {:induction false} DecimalValue(n: nat)
    ensures DigitsValue(Decimal(n)) == n
  {
    if n >= 10 {
      DecimalValue(n / 10);
      var s := Decimal(n);
      assert s[..|s| - 1] == Decimal(n / 10);
    }
  }

  /** The leading digit run of `ds + tail` is `ds` when `tail` starts with a non-digit. */
  lemma {:induction false} LeadingDigitsThen(ds: string, tail: string)
    requires AllDigits(ds)
    requires tail == [] || !IsDigit(tail[0])
    ensures LeadingDigits(ds + tail) == ds
  {
    if ds != [] {
      assert (ds + tail)[1..] == ds[1..] + tail;
      LeadingDigitsThen(ds[1..], tail);
    }
  }

  /**
   * `parseInt` reads any non-empty run of digits, leading zeros included,
   * as the number it denotes, and stops at the first non-digit after it:
   * `parseInt("0190x") == 190`.
   */
  lemma ParseDigits(ds: string, tail: string)
    requires AllDigits(ds) && ds != []
    requires tail == [] || !IsDigit(tail[0])
    ensures ParseInt(ds + tail) == Int(DigitsValue(ds))
  {
    LeadingDigitsThen(ds, tail);
  }

  /**
   * `parseInt` reads back a decimal rendering, and stops at the first
   * non-digit after it: `parseInt("180a") == 180`.
   */
  lemma ParseDecimal(n: nat, tail: string)
    requires tail == [] || !IsDigit(tail[0])
    ensures ParseInt(Decimal(n) + tail) == Int(n)
  {
    ParseDigits(Decimal(n), tail);
    DecimalValue(n);
  }
}
