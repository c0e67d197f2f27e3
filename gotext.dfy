/**
 * The parts of Go's `strings` and `strconv` packages that the chart core calls,
 * on strings of Unicode characters (Go strings are UTF-8 bytes; the model works
 * on the decoded characters). Integers are Go's `int` on a 64-bit platform.
 */
module GoText {
  import opened Results

  // ---------------------------------------------------------------------------
  // White space: unicode.IsSpace and strings.TrimSpace
  // ---------------------------------------------------------------------------

  /** unicode.IsSpace: the characters with Unicode's White_Space property. */
  predicate IsSpace(c: char): (b: bool)
    ensures b ==> !IsDigit(c) && c != '+' && c != '-'
  {
    var x := c as int;
    (0x09 <= x <= 0x0D) || x == 0x20 || x == 0x85 || x == 0xA0 || x == 0x1680 ||
    (0x2000 <= x <= 0x200A) || x == 0x2028 || x == 0x2029 || x == 0x202F ||
    x == 0x205F || x == 0x3000
  }

  predicate AllSpace(s: string) {
    forall k :: 0 <= k < |s| ==> IsSpace(s[k])
  }

  /** A text that neither starts nor ends with white space. */
  predicate Trimmed(s: string) {
    s == [] || (!IsSpace(s[0]) && !IsSpace(s[|s| - 1]))
  }

  /** strings.TrimLeftFunc(s, unicode.IsSpace) */
  function TrimLeft(s: string): (r: string)
    ensures |r| <= |s| && r == s[|s| - |r|..]
    ensures r == [] || !IsSpace(r[0])
    ensures forall k :: 0 <= k < |s| - |r| ==> IsSpace(s[k])
  {
    if s != [] && IsSpace(s[0]) then
      var r := TrimLeft(s[1..]);
      assert forall k :: 1 <= k < |s| ==> s[k] == s[1..][k - 1];
      r
    else s
  }

  /** strings.TrimRightFunc(s, unicode.IsSpace) */
  function TrimRight(s: string): (r: string)
    ensures |r| <= |s| && r == s[..|r|]
    ensures r == [] || !IsSpace(r[|r| - 1])
    ensures forall k :: |r| <= k < |s| ==> IsSpace(s[k])
  {
    if s != [] && IsSpace(s[|s| - 1]) then
      TrimRight(s[..|s| - 1])
    else s
  }

  /** strings.TrimSpace: `s` without its leading and trailing white space. */
  function TrimSpace(s: string): (r: string)
    ensures Trimmed(r)
    ensures |r| <= |s|
  {
    TrimRight(TrimLeft(s))
  }

  lemma {:induction false} TrimLeftPadded(pre: string, u: string)
    requires AllSpace(pre)
    ensures TrimLeft(pre + u) == TrimLeft(u)
  {
    if pre != [] {
      assert (pre + u)[0] == pre[0] && IsSpace(pre[0]);
      assert (pre + u)[1..] == pre[1..] + u;
      TrimLeftPadded(pre[1..], u);
    } else {
      assert pre + u == u;
    }
  }

  lemma {:induction false} TrimRightPadded(u: string, post: string)
    requires AllSpace(post)
    ensures TrimRight(u + post) == TrimRight(u)
  {
    if post != [] {
      var post' := post[..|post| - 1];
      assert (u + post)[|u + post| - 1] == post[|post| - 1] && IsSpace(post[|post| - 1]);
      assert (u + post)[..|u + post| - 1] == u + post';
      TrimRightPadded(u, post');
    } else {
      assert u + post == u;
    }
  }

  /**
   * TrimSpace takes away exactly the white space around a text: any padding of
   * white space around a text that does not itself start or end with white
   * space trims back to that text.
   */
  lemma TrimSpacePadded(pre: string, t: string, post: string)
    requires AllSpace(pre) && AllSpace(post) && Trimmed(t)
    ensures TrimSpace(pre + t + post) == t
  {
    assert pre + t + post == pre + (t + post);
    TrimLeftPadded(pre, t + post);
    var l := TrimLeft(t + post);
    if t == [] {
      assert t + post == post + [];
      TrimLeftPadded(post, []);
    } else {
      assert l == t + post;
    }
    TrimRightPadded(t, post);
  }

  /** Trimming twice is trimming once. */
  lemma TrimSpaceIdempotent(s: string)
    ensures TrimSpace(TrimSpace(s)) == TrimSpace(s)
  {
    var t := TrimSpace(s);
    TrimSpacePadded([], t, []);
    assert [] + t + [] == t;
  }

  // ---------------------------------------------------------------------------
  // Substrings: strings.Index, strings.Contains, strings.Replace(s, old, new, 1)
  // ---------------------------------------------------------------------------

  /** `sub` occurs in `s` starting at index `i`. */
  predicate OccursAt(s: string, sub: string, i: int) {
    0 <= i <= |s| - |sub| && s[i..i + |sub|] == sub
  }

  /** `i` is the first index at which `sub` occurs in `s`. */
  predicate FirstOccursAt(s: string, sub: string, i: int) {
    OccursAt(s, sub, i) && forall j :: 0 <= j < i ==> !OccursAt(s, sub, j)
  }

  /** The first index at or after `k` where `sub` occurs in `s`, or -1. */
  function IndexFrom(s: string, sub: string, k: nat): (r: int)
    requires k <= |s|
    ensures r == -1 || (k <= r && OccursAt(s, sub, r))
    ensures forall j :: k <= j && (r == -1 || j < r) ==> !OccursAt(s, sub, j)
    decreases |s| - k
  {
    if OccursAt(s, sub, k) then k
    else if k == |s| then -1
    else IndexFrom(s, sub, k + 1)
  }

  /** strings.Index: the first index of `sub` in `s`, or -1 when it does not occur. */
  function Index(s: string, sub: string): (r: int)
    ensures r == -1 <==> forall j :: !OccursAt(s, sub, j)
    ensures r != -1 ==> FirstOccursAt(s, sub, r)
  {
    IndexFrom(s, sub, 0)
  }

  /** strings.Contains */
  function Contains(s: string, sub: string): (r: bool)
    ensures r <==> exists i :: OccursAt(s, sub, i)
  {
    Index(s, sub) >= 0
  }

  /**
   * strings.Replace(s, old, new, 1): the first occurrence of `pattern` (Go's `old`), if any, is
   * replaced by `replacement`; everything before and after it is kept.
   */
  function ReplaceFirst(s: string, pattern: string, replacement: string): (r: string)
    ensures !Contains(s, pattern) ==> r == s
    ensures forall i :: FirstOccursAt(s, pattern, i) ==> r == s[..i] + replacement + s[i + |pattern|..]
  {
    var i := Index(s, pattern);
    if i < 0 then s else s[..i] + replacement + s[i + |pattern|..]
  }

  /** A same-length replacement by a different text changes `s` exactly when `pattern` occurs in it. */
  lemma ReplaceFirstChanges(s: string, pattern: string, replacement: string)
    requires |pattern| == |replacement| && pattern != replacement
    ensures ReplaceFirst(s, pattern, replacement) != s <==> Contains(s, pattern)
  {
    if Contains(s, pattern) {
      var i := Index(s, pattern);
      var r := ReplaceFirst(s, pattern, replacement);
      assert r[i..i + |replacement|] == replacement;
      assert s[i..i + |pattern|] == pattern;
    }
  }

  // ---------------------------------------------------------------------------
  // Decimal integers: strconv.Atoi and strconv.Itoa (also fmt's %d)
  // ---------------------------------------------------------------------------

  const MaxUint64: int := 0xFFFF_FFFF_FFFF_FFFF
  const MaxInt64: int := 0x7FFF_FFFF_FFFF_FFFF
  const MinInt64: int := -0x8000_0000_0000_0000

  /** strconv.ErrSyntax and strconv.ErrRange. */
  datatype NumError = ErrSyntax | ErrRange

  predicate IsDigit(c: char) {
    '0' <= c <= '9'
  }

  predicate AllDigits(s: string) {
    forall k :: 0 <= k < |s| ==> IsDigit(s[k])
  }

  function DigitValue(c: char): (d: int)
    requires IsDigit(c)
    ensures 0 <= d <= 9
  {
    c as int - '0' as int
  }

  /** The value of the digits `s` read after an already accumulated value `acc`. */
  function Accumulate(acc: int, s: string): int
    requires AllDigits(s)
    decreases |s|
  {
    if s == [] then acc else Accumulate(acc * 10 + DigitValue(s[0]), s[1..])
  }

  /** The value of a string of decimal digits. */
  function DigitsValue(s: string): int
    requires AllDigits(s)
  {
    Accumulate(0, s)
  }

  /**
   * The digit loop of strconv.ParseUint in base 10 with 64 bits: each character must
   * be a digit (else ErrSyntax) and the running value must stay within 64 bits
   * (else ErrRange); whichever fails first is reported.
   */
  function ScanDigits(s: string, acc: nat): (r: Result<nat, NumError>)
    ensures r.Ok? ==> acc <= r.value
    ensures r.Ok? && s != [] ==> r.value <= MaxUint64
  {
    if s == [] then Ok(acc)
    else if !IsDigit(s[0]) then Err(ErrSyntax)
    else if acc * 10 + DigitValue(s[0]) > MaxUint64 then Err(ErrRange)
    else ScanDigits(s[1..], acc * 10 + DigitValue(s[0]))
  }

  /** The text after an optional leading sign. */
  function Unsigned(s: string): string {
    if |s| > 0 && (s[0] == '+' || s[0] == '-') then s[1..] else s
  }

  /**
   * strconv.Atoi with a 64-bit int: an optional sign followed by at least one
   * decimal digit and nothing else (no white space, no underscores); a value
   * outside the int range is ErrRange.
   */
  function Atoi(s: string): (r: Result<int, NumError>)
    ensures r.Ok? ==> MinInt64 <= r.value <= MaxInt64
    ensures s == [] || Unsigned(s) == [] ==> r == Err(ErrSyntax)
  {
    if s == [] then Err(ErrSyntax)
    else
      var neg := s[0] == '-';
      var body := Unsigned(s);
      if body == [] then Err(ErrSyntax)
      else match ScanDigits(body, 0)
        case Err(e) => Err(e)
        case Ok(u) =>
          if !neg && u > MaxInt64 then Err(ErrRange)
          else if neg && u > -MinInt64 then Err(ErrRange)
          else Ok(if neg then -(u as int) else u as int)
  }

  /** A text that starts with neither a sign nor a digit is a syntax error. */
  lemma AtoiRejectsLeadingNonDigit(s: string)
    requires |s| > 0 && s[0] != '+' && s[0] != '-' && !IsDigit(s[0])
    ensures Atoi(s) == Err(ErrSyntax)
  {
    assert Unsigned(s) == s;
    assert ScanDigits(s, 0) == Err(ErrSyntax);
  }

  /** The text of an integer as Atoi accepts it, read with unbounded precision. */
  predicate IsIntegerText(s: string) {
    |Unsigned(s)| > 0 && AllDigits(Unsigned(s))
  }

  function IntegerValue(s: string): int
    requires IsIntegerText(s)
  {
    var v := DigitsValue(Unsigned(s));
    if s[0] == '-' then -v else v
  }

  lemma {:induction false} AccumulateGrows(acc: int, s: string)
    requires 0 <= acc && AllDigits(s)
    ensures Accumulate(acc, s) >= acc
    decreases |s|
  {
    if s != [] {
      AccumulateGrows(acc * 10 + DigitValue(s[0]), s[1..]);
    }
  }

  lemma {:induction false} ScanDigitsValue(s: string, acc: nat)
    requires acc <= MaxUint64
    ensures ScanDigits(s, acc).Ok? <==> AllDigits(s) && Accumulate(acc, s) <= MaxUint64
    ensures ScanDigits(s, acc).Ok? ==> ScanDigits(s, acc).value == Accumulate(acc, s)
  {
    if s != [] {
      if IsDigit(s[0]) {
        var acc' := acc * 10 + DigitValue(s[0]);
        var allDigits := AllDigits(s[1..]);
        assert AllDigits(s) <==> allDigits by {
          if allDigits {
            forall k | 0 <= k < |s| ensures IsDigit(s[k]) {
              if k > 0 { assert s[k] == s[1..][k - 1]; }
            }
          }
        }
        if acc' > MaxUint64 {
          if allDigits { AccumulateGrows(acc', s[1..]); }
        } else {
          ScanDigitsValue(s[1..], acc');
        }
      }
    }
  }

  /** Atoi accepts exactly the integer texts whose value fits an int, and returns that value. */
  lemma AtoiValue(s: string)
    ensures Atoi(s).Ok? <==> IsIntegerText(s) && MinInt64 <= IntegerValue(s) <= MaxInt64
    ensures Atoi(s).Ok? ==> Atoi(s).value == IntegerValue(s)
  {
    var body := Unsigned(s);
    if s != [] && body != [] {
      ScanDigitsValue(body, 0);
      if AllDigits(body) {
        AccumulateGrows(0, body);
      }
    }
  }

  /** ParseUint's digit loop never reports a syntax error on a text of digits only. */
  lemma {:induction false} DigitsNoSyntax(s: string, acc: nat)
    requires AllDigits(s)
    ensures ScanDigits(s, acc) != Err(ErrSyntax)
    decreases |s|
  {
    if s != [] && acc * 10 + DigitValue(s[0]) <= MaxUint64 {
      assert AllDigits(s[1..]) by {
        forall k | 0 <= k < |s[1..]| ensures IsDigit(s[1..][k]) {
          assert s[1..][k] == s[k + 1];
        }
      }
      DigitsNoSyntax(s[1..], acc * 10 + DigitValue(s[0]));
    }
  }

  /** An integer text whose value lies outside the int range is a range error, not a syntax error. */
  lemma AtoiRangeError(s: string)
    requires IsIntegerText(s) && !(MinInt64 <= IntegerValue(s) <= MaxInt64)
    ensures Atoi(s) == Err(ErrRange)
  {
    AtoiValue(s);
    DigitsNoSyntax(Unsigned(s), 0);
    assert s != [] && Unsigned(s) != [];
    match ScanDigits(Unsigned(s), 0)
    case Err(e) =>
      assert e == ErrRange;
    case Ok(u) =>
  }

  /** Atoi fails on any text holding white space: position texts are not trimmed. */
  lemma AtoiRejectsSpace(s: string, i: int)
    requires 0 <= i < |s| && IsSpace(s[i])
    ensures Atoi(s).Err?
  {
    AtoiValue(s);
  }

  function DigitChar(d: int): (c: char)
    requires 0 <= d <= 9
    ensures IsDigit(c) && DigitValue(c) == d
  {
    ('0' as int + d) as char
  }

  /** The decimal digits of `n`, most significant first, with no leading zero. */
  function Decimal(n: nat): (r: string)
    ensures |r| > 0 && AllDigits(r)
    ensures |r| > 1 ==> r[0] != '0'
  {
    if n < 10 then [DigitChar(n)] else Decimal(n / 10) + [DigitChar(n % 10)]
  }

  /** strconv.Itoa and fmt's %d verb. */
  function Itoa(n: int): (r: string)
    ensures |r| > 0 && IsIntegerText(r)
    ensures r[0] == '-' <==> n < 0
  {
    if n < 0 then "-" + Decimal(-n) else Decimal(n)
  }

  lemma {:induction false} AccumulateAppend(acc: int, s: string, c: char)
    requires AllDigits(s) && IsDigit(c)
    ensures AllDigits(s + [c])
    ensures Accumulate(acc, s + [c]) == Accumulate(acc, s) * 10 + DigitValue(c)
    decreases |s|
  {
    if s != [] {
      assert (s + [c])[1..] == s[1..] + [c];
      AccumulateAppend(acc * 10 + DigitValue(s[0]), s[1..], c);
    }
  }

  lemma {:induction false} DecimalValue(n: nat)
    ensures DigitsValue(Decimal(n)) == n
  {
    if n >= 10 {
      var c := DigitChar(n % 10);
      DecimalValue(n / 10);
      AccumulateAppend(0, Decimal(n / 10), c);
      assert Decimal(n) == Decimal(n / 10) + [c];
      assert n / 10 * 10 + n % 10 == n;
    } else {
      assert Decimal(n) == [DigitChar(n)];
      assert Accumulate(0, Decimal(n)) == Accumulate(DigitValue(DigitChar(n)), []);
    }
  }

  /** Atoi reads back every int that Itoa writes. */
  lemma AtoiItoa(n: int)
    requires MinInt64 <= n <= MaxInt64
    ensures Atoi(Itoa(n)) == Ok(n)
  {
    var s := Itoa(n);
    var m := if n < 0 then -n else n;
    DecimalValue(m);
    if n < 0 {
      assert Unsigned(s) == Decimal(m);
    } else {
      assert IsDigit(s[0]);
      assert Unsigned(s) == Decimal(m);
    }
    AtoiValue(s);
  }
}
