/**
 * The short-code codec (apps/api/src/utils/base62.ts): integers to Base62 strings and back.
 *
 * JavaScript numbers are doubles. The codec is written over integers, and two lemmas show that the double
 * arithmetic of the code computes exactly these integers on the range the code accepts.
 */
module Base62 {
  import opened Types

  const DIGITS: string := "0123456789"
  const LOWER: string := "abcdefghijklmnopqrstuvwxyz"
  const UPPER: string := "ABCDEFGHIJKLMNOPQRSTUVWXYZ"
  const ALPHABET: string := DIGITS + LOWER + UPPER

  const BASE: nat := 62
  const MAX_SAFE_INTEGER: int := 0x1F_FFFF_FFFF_FFFF

  datatype CodecError = OutOfRange | Empty | ForeignCharacter | Overflow

  // ---------------------------------------------------------------- digits

  function CharOf(d: nat): (c: char)
    requires d < BASE
    ensures c == ALPHABET[d]
  {
    if d < 10 then DIGITS[d] else if d < 36 then LOWER[d - 10] else UPPER[d - 36]
  }

  /** ALPHABET.indexOf(c) */
  function IndexOf(c: char): (d: int)
    ensures d == -1 || (0 <= d < BASE && CharOf(d) == c)
    ensures d == -1 ==> c !in ALPHABET
  {
    if '0' <= c <= '9' then c as int - '0' as int
    else if 'a' <= c <= 'z' then 10 + (c as int - 'a' as int)
    else if 'A' <= c <= 'Z' then 36 + (c as int - 'A' as int)
    else
      assert c !in ALPHABET by {
        if c in ALPHABET {
          AlphabetRanges(c);
        }
      }
      -1
  }

  lemma CharRanges()
    ensures forall d :: 0 <= d < 10 ==> DIGITS[d] as int == '0' as int + d
    ensures forall d :: 0 <= d < 26 ==> LOWER[d] as int == 'a' as int + d
    ensures forall d :: 0 <= d < 26 ==> UPPER[d] as int == 'A' as int + d
  {
  }

  lemma AlphabetRanges(c: char)
    requires c in ALPHABET
    ensures '0' <= c <= '9' || 'a' <= c <= 'z' || 'A' <= c <= 'Z'
  {
    CharRanges();
    assert c in DIGITS || c in LOWER || c in UPPER;
  }

  lemma IndexOfChar(d: nat)
    requires d < BASE
    ensures IndexOf(CharOf(d)) == d
  {
    CharRanges();
  }

  predicate Accepted(code: string) {
    forall i :: 0 <= i < |code| ==> IndexOf(code[i]) != -1
  }

  // ---------------------------------------------------------------- the codec as functions

  /** The digits of n, most significant first. */
  function Encode(n: nat): string {
    if n < BASE then [CharOf(n)] else Encode(n / BASE) + [CharOf(n % BASE)]
  }

  function Value(code: string): nat
    requires Accepted(code)
  {
    if code == "" then 0 else Value(code[..|code| - 1]) * BASE + IndexOf(code[|code| - 1])
  }

  /** Positional notation: what stands to the left counts 62 times as much for every digit to its right. */
  lemma {:induction false} ValueIsPositional(a: string, b: string)
    requires Accepted(a) && Accepted(b)
    ensures Accepted(a + b) && Value(a + b) == Value(a) * Pow62(|b|) + Value(b)
  {
    if b == "" {
      assert a + b == a;
    } else {
      ValueIsPositional(a, b[..|b| - 1]);
      PositionalStep(a, b[..|b| - 1], b[|b| - 1]);
      assert b == b[..|b| - 1] + [b[|b| - 1]];
    }
  }

  lemma PositionalStep(a: string, b: string, c: char)
    requires Accepted(a) && Accepted(b) && Accepted(a + b) && IndexOf(c) != -1
    requires Value(a + b) == Value(a) * Pow62(|b|) + Value(b)
    ensures Accepted(b + [c]) && Accepted(a + (b + [c]))
    ensures Value(a + (b + [c])) == Value(a) * Pow62(|b + [c]|) + Value(b + [c])
  {
    OneMoreDigit(b, c);
    OneMoreDigit(a + b, c);
    assert a + (b + [c]) == (a + b) + [c];
    ShiftedSum(Value(a), Pow62(|b|), Value(b), IndexOf(c), Value(a + b), Pow62(|b + [c]|));
  }

  lemma OneMoreDigit(code: string, c: char)
    requires Accepted(code) && IndexOf(c) != -1
    ensures Accepted(code + [c]) && Value(code + [c]) == Value(code) * BASE + IndexOf(c)
  {
    assert (code + [c])[..|code + [c]| - 1] == code;
  }

  lemma ShiftedSum(x: int, p: int, y: int, d: int, left: int, q: int)
    requires left == x * p + y && q == BASE * p
    ensures left * BASE + d == x * q + (y * BASE + d)
  {
    assert x * q == BASE * (x * p);
  }

  function Pow62(k: nat): nat {
    if k == 0 then 1 else BASE * Pow62(k - 1)
  }

  /** No superfluous leading zero. */
  predicate Canonical(code: string) {
    code != "" && (|code| > 1 ==> code[0] != '0')
  }

  /** Decoding an encoded number gives it back, and the encoding is the canonical one. */
  lemma {:induction false} DecodeOfEncode(n: nat)
    ensures Accepted(Encode(n)) && Value(Encode(n)) == n && Canonical(Encode(n))
    ensures n > 0 ==> Encode(n)[0] != '0'
  {
    IndexOfChar(n % BASE);
    CharRanges();
    if n < BASE {
      IndexOfChar(n);
      assert Encode(n)[..0] == "";
    } else {
      DecodeOfEncode(n / BASE);
      var code := Encode(n);
      assert code[..|code| - 1] == Encode(n / BASE);
      assert code[0] == Encode(n / BASE)[0];
    }
  }

  lemma {:induction false} ValuePositive(code: string)
    requires Accepted(code) && code != "" && code[0] != '0'
    ensures Value(code) > 0
  {
    if |code| == 1 {
      CharRanges();
      assert code[..0] == "";
      assert IndexOf(code[0]) != 0;
    } else {
      ValuePositive(code[..|code| - 1]);
    }
  }

  lemma EncodeStep(n: nat, v: nat, d: nat)
    requires v > 0 && d < BASE && n == v * BASE + d
    ensures Encode(n) == Encode(v) + [CharOf(d)]
  {
    assert n / BASE == v && n % BASE == d;
  }

  lemma SplitLast(code: string)
    requires code != ""
    ensures code == code[..|code| - 1] + [code[|code| - 1]]
    ensures Accepted(code) ==> Accepted(code[..|code| - 1])
  {
  }

  lemma EncodeOfDecodeStep(code: string)
    requires Accepted(code) && Canonical(code) && |code| > 1
    requires Encode(Value(code[..|code| - 1])) == code[..|code| - 1]
    ensures Encode(Value(code)) == code
  {
    var init, last := code[..|code| - 1], code[|code| - 1];
    SplitLast(code);
    ValuePositive(init);
    EncodeStep(Value(code), Value(init), IndexOf(last));
  }

  /** Encoding a decoded string gives it back whenever it has no superfluous leading zero. */
  lemma {:induction false} EncodeOfDecode(code: string)
    requires Accepted(code) && Canonical(code)
    ensures Encode(Value(code)) == code
  {
    if |code| == 1 {
      assert code[..0] == "";
      assert code == [code[0]];
    } else {
      EncodeOfDecode(code[..|code| - 1]);
      EncodeOfDecodeStep(code);
    }
  }

  /** A string survives decoding and encoding exactly when it has no superfluous leading zero. */
  lemma RoundTripIffCanonical(code: string)
    requires Accepted(code) && code != ""
    ensures Encode(Value(code)) == code <==> Canonical(code)
  {
    DecodeOfEncode(Value(code));
    if Canonical(code) {
      EncodeOfDecode(code);
    }
  }

  /** The length is the least k >= 1 with n < 62^k. */
  lemma {:induction false} EncodeLength(n: nat)
    ensures var k := |Encode(n)|;
            k >= 1 && n < Pow62(k) && (k > 1 ==> Pow62(k - 1) <= n)
  {
    if n >= BASE {
      EncodeLength(n / BASE);
      var k := |Encode(n / BASE)|;
      assert n / BASE + 1 <= Pow62(k);
      assert n < BASE * (n / BASE + 1);
      assert Pow62(k - 1) <= n / BASE || k == 1;
      assert BASE * (n / BASE) <= n;
    }
  }

  lemma {:induction false} PrefixIsSmaller(code: string, i: nat)
    requires Accepted(code) && i <= |code|
    ensures Accepted(code[..i]) && Value(code[..i]) <= Value(code)
    decreases |code| - i
  {
    if i < |code| {
      PrefixIsSmaller(code, i + 1);
      assert code[..i + 1][..i] == code[..i];
    } else {
      assert code[..i] == code;
    }
  }

  // ---------------------------------------------------------------- the code

  method EncodeBase62(value: int) returns (r: Result<string, CodecError>)
    ensures r == if 0 <= value <= MAX_SAFE_INTEGER then Ok(Encode(value)) else Err(OutOfRange)
  {
    if value < 0 || value > MAX_SAFE_INTEGER {
      return Err(OutOfRange);
    }
    if value == 0 {
      return Ok([ALPHABET[0]]);
    }
    var rest := value;
    var out := "";
    while rest > 0
      invariant rest >= 0
      invariant rest > 0 ==> Encode(value) == Encode(rest) + out
      invariant rest == 0 ==> Encode(value) == out
    {
      var digit := ALPHABET[rest % BASE];
      assert digit == CharOf(rest % BASE);
      out := [digit] + out;
      rest := rest / BASE;
    }
    return Ok(out);
  }

  /**
   * Succeeds exactly on non-empty alphabet strings whose value is a safe integer. On a failure the error names
   * what the scan met first: a foreign character, or a prefix beyond the safe range.
   */
  method DecodeBase62(code: string) returns (r: Result<nat, CodecError>)
    ensures code == "" <==> r == Err(Empty)
    ensures r.Ok? <==> code != "" && Accepted(code) && Value(code) <= MAX_SAFE_INTEGER
    ensures r.Ok? ==> r.value == Value(code)
    ensures r == Err(ForeignCharacter) ==>
      exists i :: 0 <= i < |code| && IndexOf(code[i]) == -1 && Accepted(code[..i]) && Value(code[..i]) <= MAX_SAFE_INTEGER
    ensures r == Err(Overflow) ==>
      exists i :: 0 <= i <= |code| && Accepted(code[..i]) && Value(code[..i]) > MAX_SAFE_INTEGER
    ensures r != Err(OutOfRange)
  {
    if |code| == 0 {
      return Err(Empty);
    }
    var value := 0;
    for i := 0 to |code|
      invariant Accepted(code[..i]) && value == Value(code[..i]) <= MAX_SAFE_INTEGER
    {
      var digit := IndexOf(code[i]);
      if digit == -1 {
        return Err(ForeignCharacter);
      }
      assert code[..i + 1][..i] == code[..i];
      assert Accepted(code[..i + 1]);
      value := value * BASE + digit;
      if value > MAX_SAFE_INTEGER {
        if Accepted(code) {
          PrefixIsSmaller(code, i + 1);
        }
        return Err(Overflow);
      }
    }
    assert code[..|code|] == code;
    return Ok(value);
  }

  // ---------------------------------------------------------------- double arithmetic

  /** Spacing of doubles around q >= 1; below 2 it is 2^-52. */
  ghost function Spacing(q: real): real
    requires q >= 0.0
    decreases q.Floor
  {
    if q < 2.0 then 1.0 / 4503599627370496.0 else 2.0 * Spacing(q / 2.0)
  }

  ghost function Pow2Real(k: nat): real {
    if k == 0 then 1.0 else 2.0 * Pow2Real(k - 1)
  }

  /** d is q rounded to the nearest double: within half the spacing, and q itself when q is a safe integer. */
  ghost predicate Nearest(q: real, d: real)
    requires q >= 0.0
  {
    && -(Spacing(q) / 2.0) <= d - q <= Spacing(q) / 2.0
    && (q == q.Floor as real && q.Floor <= MAX_SAFE_INTEGER ==> d == q)
  }

  lemma {:induction false} SpacingBound(q: real, k: nat)
    requires 0.0 <= q < Pow2Real(k + 1)
    ensures Spacing(q) <= Pow2Real(k) / 4503599627370496.0
  {
    if q < 2.0 {
      PowAtLeastOne(k);
    } else {
      assert k > 0;
      SpacingBound(q / 2.0, k - 1);
    }
  }

  lemma {:induction false} PowAtLeastOne(k: nat)
    ensures Pow2Real(k) >= 1.0
  {
    if k > 0 {
      PowAtLeastOne(k - 1);
    }
  }

  lemma PowConstants()
    ensures Pow2Real(47) == 140737488355328.0 && Pow2Real(48) == 281474976710656.0
  {
    assert Pow2Real(8) == 256.0;
    assert Pow2Real(16) == 256.0 * Pow2Real(8);
    assert Pow2Real(24) == 256.0 * Pow2Real(16);
    assert Pow2Real(32) == 256.0 * Pow2Real(24);
    assert Pow2Real(40) == 256.0 * Pow2Real(32);
    assert Pow2Real(47) == 128.0 * Pow2Real(40);
  }

  /** Math.floor(rest / 62) on a double quotient is exact integer division for every safe integer. */
  lemma FloorOfQuotientIsExact(n: nat, d: real)
    requires n <= MAX_SAFE_INTEGER
    requires Nearest(n as real / 62.0, d)
    ensures d.Floor == n / BASE
  {
    var q := n as real / 62.0;
    var m, r := n / BASE, n % BASE;
    assert n == m * BASE + r;
    assert q == m as real + r as real / 62.0;
    PowConstants();
    assert q < Pow2Real(48);
    SpacingBound(q, 47);
    assert Spacing(q) <= 1.0 / 32.0;
    if r == 0 {
      assert q == m as real && q.Floor == m;
    } else {
      assert 1.0 / 62.0 <= r as real / 62.0 <= 61.0 / 62.0;
      assert m as real < d < m as real + 1.0;
    }
  }

  /**
   * The decoder's `value * 62 + digit` in doubles, for any monotone rounding that is exact up to 2^53: the
   * safe-integer test on the rounded result accepts exactly when the exact result is safe, and it is then exact.
   */
  lemma DecodeStepIsExact(round: int -> int, v: nat, digit: nat)
    requires forall a, b :: a <= b ==> round(a) <= round(b)
    requires forall n :: 0 <= n <= MAX_SAFE_INTEGER + 1 ==> round(n) == n
    requires v <= MAX_SAFE_INTEGER && digit < BASE
    ensures var t := round(round(v * BASE) + digit);
            && (t <= MAX_SAFE_INTEGER <==> v * BASE + digit <= MAX_SAFE_INTEGER)
            && (v * BASE + digit <= MAX_SAFE_INTEGER ==> t == v * BASE + digit)
  {
    var limit := MAX_SAFE_INTEGER + 1;
    assert round(limit) == limit;
    if v * BASE + digit > MAX_SAFE_INTEGER {
      if v * BASE <= limit {
        assert round(v * BASE) == v * BASE;
        assert round(limit) <= round(v * BASE + digit);
      } else {
        assert round(limit) <= round(v * BASE);
        assert round(limit) <= round(round(v * BASE) + digit);
      }
    }
  }
}
