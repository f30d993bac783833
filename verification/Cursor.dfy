/**
 * The opaque list cursor (`encodeCursor` and `decodeCursor` in apps/api/src/validators/url.validator.ts):
 * base64url of "url:<id>", as in section 5 of RFC 4648, written without padding.
 *
 * The text is ASCII, so its characters and its UTF-8 bytes coincide.
 */
module Cursor {
  import opened Types

  const MAX_SAFE_INTEGER: nat := 0x1F_FFFF_FFFF_FFFF
  const PREFIX: string := "url:"

  // ---------------------------------------------------------------- the alphabet

  type Sextet = n: nat | n < 64

  type Byte = n: nat | n < 256

  /** A–Z, a–z, 0–9, '-', '_'. */
  function CharOf(v: Sextet): char {
    if v < 26 then 'A' + v as char
    else if v < 52 then 'a' + (v - 26) as char
    else if v < 62 then '0' + (v - 52) as char
    else if v == 62 then '-'
    else '_'
  }

  /** The decoder also reads the letters '+' and '/' of plain base64. */
  function SextetOf(c: char): Option<Sextet> {
    if 'A' <= c <= 'Z' then Some(c as int - 'A' as int)
    else if 'a' <= c <= 'z' then Some(c as int - 'a' as int + 26)
    else if '0' <= c <= '9' then Some(c as int - '0' as int + 52)
    else if c == '-' || c == '+' then Some(62)
    else if c == '_' || c == '/' then Some(63)
    else None
  }

  const UPPER: string := "ABCDEFGHIJKLMNOPQRSTUVWXYZ"
  const LOWER: string := "abcdefghijklmnopqrstuvwxyz"
  const OTHERS: string := "0123456789-_"

  /** The alphabet of section 5 of RFC 4648, in its order. */
  lemma CharIsRfc(v: Sextet)
    ensures |UPPER + LOWER + OTHERS| == 64 && CharOf(v) == (UPPER + LOWER + OTHERS)[v]
  {
    if v < 26 {
      assert UPPER[v] as int == 'A' as int + v;
    } else if v < 52 {
      assert LOWER[v - 26] as int == 'a' as int + (v - 26);
    } else if v < 62 {
      assert OTHERS[v - 52] as int == '0' as int + (v - 52);
    }
  }

  lemma SextetOfChar(v: Sextet)
    ensures SextetOf(CharOf(v)) == Some(v)
  {
  }

  /** The decoder reads exactly that alphabet, and '+' and '/' for its last two characters. */
  lemma SextetIsIndex(c: char, v: Sextet)
    ensures SextetOf(c) == Some(v) <==> c == CharOf(v) || (c == '+' && v == 62) || (c == '/' && v == 63)
  {
  }

  // ---------------------------------------------------------------- base64url

  /** Three bytes make four sextets; one or two left over make two or three. */
  function ToSextets(b: seq<Byte>): seq<Sextet> {
    if |b| == 0 then []
    else if |b| == 1 then [b[0] / 4, b[0] % 4 * 16]
    else if |b| == 2 then [b[0] / 4, b[0] % 4 * 16 + b[1] / 16, b[1] % 16 * 4]
    else [b[0] / 4, b[0] % 4 * 16 + b[1] / 16, b[1] % 16 * 4 + b[2] / 64, b[2] % 64] + ToSextets(b[3..])
  }

  function First(a: Sextet, b: Sextet): Byte {
    a * 4 + b / 16
  }

  function Second(b: Sextet, c: Sextet): Byte {
    b % 16 * 16 + c / 4
  }

  function Third(c: Sextet, d: Sextet): Byte {
    c % 4 * 64 + d
  }

  /** Bits that do not fill a byte are dropped. */
  function ToBytes(v: seq<Sextet>): seq<Byte> {
    if |v| <= 1 then []
    else if |v| == 2 then [First(v[0], v[1])]
    else if |v| == 3 then [First(v[0], v[1]), Second(v[1], v[2])]
    else [First(v[0], v[1]), Second(v[1], v[2]), Third(v[2], v[3])] + ToBytes(v[4..])
  }

  function Print(v: seq<Sextet>): string {
    if v == [] then "" else [CharOf(v[0])] + Print(v[1..])
  }

  /** Characters outside the alphabet are skipped. */
  function Scan(s: string): seq<Sextet> {
    if s == "" then []
    else (if SextetOf(s[0]).Some? then [SextetOf(s[0]).value] else []) + Scan(s[1..])
  }

  lemma {:induction false} ScanOfPrint(v: seq<Sextet>)
    ensures Scan(Print(v)) == v && |Print(v)| == |v|
  {
    if v != [] {
      SextetOfChar(v[0]);
      ScanOfPrint(v[1..]);
      assert Print(v)[1..] == Print(v[1..]);
    }
  }

  lemma GroupRoundTrip(a: Byte, b: Byte, c: Byte)
    ensures First(a / 4, a % 4 * 16 + b / 16) == a
    ensures Second(a % 4 * 16 + b / 16, b % 16 * 4 + c / 64) == b
    ensures Third(b % 16 * 4 + c / 64, c % 64) == c
  {
  }

  lemma {:induction false} BytesOfSextets(b: seq<Byte>)
    ensures ToBytes(ToSextets(b)) == b
  {
    if |b| == 1 {
      GroupRoundTrip(b[0], 0, 0);
    } else if |b| == 2 {
      GroupRoundTrip(b[0], b[1], 0);
    } else if |b| >= 3 {
      GroupRoundTrip(b[0], b[1], b[2]);
      BytesOfSextets(b[3..]);
      assert ToSextets(b)[4..] == ToSextets(b[3..]);
      assert b == [b[0], b[1], b[2]] + b[3..];
    }
  }

  /** The 24 bits of three bytes, most significant first, are those of their four sextets; missing bits are zero. */
  lemma SextetsAreTheBits(b: seq<Byte>)
    ensures var v := ToSextets(b);
            && (|b| == 1 ==> |v| == 2 && v[0] as int * 64 + v[1] == b[0] as int * 16)
            && (|b| == 2 ==> |v| == 3 && (v[0] as int * 64 + v[1]) * 64 + v[2] == (b[0] as int * 256 + b[1]) * 4)
            && (|b| >= 3 ==>
                  && |v| >= 4 && ((v[0] as int * 64 + v[1]) * 64 + v[2]) * 64 + v[3] == (b[0] as int * 256 + b[1]) * 256 + b[2]
                  && v[4..] == ToSextets(b[3..]))
  {
  }

  /** So every group of three bytes, wherever it stands, and the rest at the end. */
  lemma {:induction false} SextetsOfGroup(b: seq<Byte>, i: nat)
    requires 3 * i <= |b|
    ensures 4 * i <= |ToSextets(b)| && ToSextets(b)[4 * i..] == ToSextets(b[3 * i..])
    ensures var v, g := ToSextets(b), b[3 * i..];
            && (|g| >= 3 ==>
                  && 4 * i + 4 <= |v|
                  && ((v[4 * i] as int * 64 + v[4 * i + 1]) * 64 + v[4 * i + 2]) * 64 + v[4 * i + 3]
                     == (g[0] as int * 256 + g[1]) * 256 + g[2])
            && (|g| == 2 ==>
                  && |v| == 4 * i + 3
                  && (v[4 * i] as int * 64 + v[4 * i + 1]) * 64 + v[4 * i + 2] == (g[0] as int * 256 + g[1]) * 4)
            && (|g| == 1 ==> |v| == 4 * i + 2 && v[4 * i] as int * 64 + v[4 * i + 1] == g[0] as int * 16)
            && (|g| == 0 ==> |v| == 4 * i)
  {
    SextetsAreTheBits(b[3 * i..]);
    if i == 0 {
      assert b[0..] == b && ToSextets(b)[0..] == ToSextets(b);
    } else {
      SextetsAreTheBits(b);
      SextetsOfGroup(b[3..], i - 1);
      assert b[3..][3 * (i - 1)..] == b[3 * i..];
      assert ToSextets(b)[4..][4 * (i - 1)..] == ToSextets(b)[4 * i..];
      assert forall k :: 0 <= k < |ToSextets(b)| - 4 * i ==> ToSextets(b)[4 * i..][k] == ToSextets(b)[4 * i + k];
    }
  }

  /** Each sextet is printed as its character of the alphabet. */
  lemma {:induction false} PrintSpells(v: seq<Sextet>)
    ensures |Print(v)| == |v| && forall i :: 0 <= i < |v| ==> Print(v)[i] == (UPPER + LOWER + OTHERS)[v[i]]
  {
    if v != [] {
      PrintSpells(v[1..]);
      CharIsRfc(v[0]);
      forall i | 0 <= i < |v| ensures Print(v)[i] == (UPPER + LOWER + OTHERS)[v[i]] {
        if i > 0 {
          assert Print(v)[i] == Print(v[1..])[i - 1] && v[i] == v[1..][i - 1];
        }
      }
    }
  }

  /** Decoding puts the bits together again; those that do not fill a byte are dropped. */
  lemma BytesAreTheBits(v: seq<Sextet>)
    ensures var b := ToBytes(v);
            && (|v| <= 1 ==> b == [])
            && (|v| == 2 ==> |b| == 1 && b[0] == (v[0] as int * 64 + v[1]) / 16)
            && (|v| == 3 ==> |b| == 2 && b[0] as int * 256 + b[1] == ((v[0] as int * 64 + v[1]) * 64 + v[2]) / 4)
            && (|v| >= 4 ==>
                  && |b| >= 3 && (b[0] as int * 256 + b[1]) * 256 + b[2] == ((v[0] as int * 64 + v[1]) * 64 + v[2]) * 64 + v[3]
                  && b[3..] == ToBytes(v[4..]))
  {
  }

  lemma {:induction false} SextetsLength(b: seq<Byte>)
    ensures 3 * |ToSextets(b)| <= 4 * |b| + 2
  {
    if |b| >= 3 {
      SextetsLength(b[3..]);
    }
  }

  // ---------------------------------------------------------------- decimal numbers

  predicate IsDigit(c: char) {
    '0' <= c <= '9'
  }

  predicate AllDigits(s: string) {
    forall c <- s :: IsDigit(c)
  }

  /** String(n) */
  function Digits(n: nat): (s: string)
    ensures s != "" && AllDigits(s)
  {
    var last := ['0' + (n % 10) as char];
    if n < 10 then last else Digits(n / 10) + last
  }

  function DigitValue(c: char): nat
    requires IsDigit(c)
  {
    c as int - '0' as int
  }

  /** Number(s) before rounding; rounding moves no value across the safe range. */
  function Value(s: string): nat
    requires AllDigits(s)
  {
    if s == "" then 0 else Value(s[..|s| - 1]) * 10 + DigitValue(s[|s| - 1])
  }

  lemma {:induction false} ValueOfDigits(n: nat)
    ensures Value(Digits(n)) == n
  {
    var s := Digits(n);
    if n < 10 {
      assert s[..|s| - 1] == "";
    } else {
      ValueOfDigits(n / 10);
      assert s[..|s| - 1] == Digits(n / 10);
    }
  }

  function Pow10(k: nat): nat {
    if k == 0 then 1 else 10 * Pow10(k - 1)
  }

  lemma {:induction false} DigitsLength(n: nat, k: nat)
    requires k >= 1 && n < Pow10(k)
    ensures |Digits(n)| <= k
  {
    if n >= 10 {
      assert k > 1;
      DigitsLength(n / 10, k - 1);
    }
  }

  // ---------------------------------------------------------------- cursors

  predicate Ascii(s: string) {
    forall i :: 0 <= i < |s| ==> s[i] as int < 128
  }

  function ByteOf(c: char): Byte
    requires c as int < 128
  {
    c as int
  }

  function AsBytes(s: string): seq<Byte>
    requires Ascii(s)
  {
    seq(|s|, i requires 0 <= i < |s| => ByteOf(s[i]))
  }

  function Text(id: nat): (s: string)
    ensures Ascii(s)
  {
    var digits := Digits(id);
    assert forall i :: 0 <= i < |digits| ==> IsDigit(digits[i]);
    PREFIX + digits
  }

  function EncodeCursor(id: nat): string {
    Print(ToSextets(AsBytes(Text(id))))
  }

  /** The bytes are the ASCII text s. */
  predicate Spells(b: seq<Byte>, s: string) {
    |b| == |s| && forall i :: 0 <= i < |s| ==> b[i] == s[i] as int
  }

  /** /^url:(\d+)$/ on the decoded text: the digits, if it matches. */
  function MatchedDigits(b: seq<Byte>): (digits: Option<string>)
    ensures digits.Some? ==> digits.value != "" && AllDigits(digits.value) && Spells(b, PREFIX + digits.value)
  {
    if |b| > |PREFIX| && Spells(b[..|PREFIX|], PREFIX) && forall x <- b[|PREFIX|..] :: '0' as int <= x <= '9' as int then
      var rest := b[|PREFIX|..];
      var digits := seq(|rest|, i requires 0 <= i < |rest| => assert rest[i] in rest; rest[i] as char);
      assert forall i :: 0 <= i < |PREFIX| ==> b[i] == b[..|PREFIX|][i];
      assert AllDigits(digits) by {
        forall c | c in digits ensures IsDigit(c) {
          var i :| 0 <= i < |digits| && digits[i] == c;
          assert rest[i] in rest;
        }
      }
      Some(digits)
    else None
  }

  function DecodeCursor(cursor: string): Option<nat> {
    var digits := MatchedDigits(ToBytes(Scan(cursor)));
    if digits.None? then None
    else
      var id := Value(digits.value);
      if 1 <= id <= MAX_SAFE_INTEGER then Some(id) else None
  }

  lemma SpelledTail(b: seq<Byte>, s: string)
    requires Spells(b, PREFIX + s)
    ensures Spells(b[..|PREFIX|], PREFIX) && Spells(b[|PREFIX|..], s)
  {
    forall i | 0 <= i < |s| ensures b[|PREFIX|..][i] == s[i] as int {
      assert b[|PREFIX| + i] == (PREFIX + s)[|PREFIX| + i] as int;
    }
    assert forall i :: 0 <= i < |PREFIX| ==> b[..|PREFIX|][i] == b[i] == (PREFIX + s)[i] as int;
  }

  lemma SpellsSame(b: seq<Byte>, s: string, t: string)
    requires Spells(b, s) && Spells(b, t)
    ensures s == t
  {
    forall i | 0 <= i < |s| ensures s[i] == t[i] {
      assert s[i] as int == t[i] as int;
    }
  }

  lemma MatchFinds(b: seq<Byte>, s: string)
    requires s != "" && AllDigits(s) && Spells(b, PREFIX + s)
    ensures MatchedDigits(b) == Some(s)
  {
    SpelledTail(b, s);
    var rest := b[|PREFIX|..];
    forall x | x in rest ensures '0' as int <= x <= '9' as int {
      var i :| 0 <= i < |rest| && rest[i] == x;
      assert IsDigit(s[i]);
    }
    var found := MatchedDigits(b).value;
    SpelledTail(b, found);
    SpellsSame(rest, found, s);
  }

  lemma DigitsOfCursor(id: nat)
    ensures MatchedDigits(ToBytes(Scan(EncodeCursor(id)))) == Some(Digits(id))
  {
    var b := AsBytes(Text(id));
    ScanOfPrint(ToSextets(b));
    BytesOfSextets(b);
    MatchFinds(b, Digits(id));
  }

  /**
   * A cursor decodes to the id it was made from exactly when that id is a positive safe integer; other ids make
   * cursors that are refused.
   */
  lemma DecodeOfEncode(id: nat)
    ensures DecodeCursor(EncodeCursor(id)) == if 1 <= id <= MAX_SAFE_INTEGER then Some(id) else None
  {
    DigitsOfCursor(id);
    ValueOfDigits(id);
  }

  /** Cursors of such ids are well within the 200 characters the query accepts. */
  lemma CursorLength(id: nat)
    requires id <= MAX_SAFE_INTEGER
    ensures |EncodeCursor(id)| <= 27
  {
    ScanOfPrint(ToSextets(AsBytes(Text(id))));
    SextetsLength(AsBytes(Text(id)));
    assert Pow10(16) > MAX_SAFE_INTEGER by {
      assert Pow10(4) == 10_000;
      assert Pow10(8) == 10_000 * Pow10(4);
      assert Pow10(12) == 10_000 * Pow10(8);
      assert Pow10(16) == 10_000 * Pow10(12);
    }
    DigitsLength(id, 16);
  }

  /** Different ids have different cursors. */
  lemma CursorsAreDistinct(a: nat, b: nat)
    requires EncodeCursor(a) == EncodeCursor(b)
    ensures a == b
  {
    DigitsOfCursor(a);
    DigitsOfCursor(b);
    ValueOfDigits(a);
    ValueOfDigits(b);
  }

  /** Whatever is accepted spells "url:" and the digits of a positive safe integer. */
  lemma AcceptedCursors(cursor: string, id: nat)
    ensures DecodeCursor(cursor) == Some(id) <==>
              exists s: string :: s != "" && AllDigits(s) && Spells(ToBytes(Scan(cursor)), "url:" + s)
                                  && Value(s) == id && 1 <= id <= MAX_SAFE_INTEGER
  {
    var b := ToBytes(Scan(cursor));
    if s: string :| s != "" && AllDigits(s) && Spells(b, PREFIX + s) && Value(s) == id && 1 <= id <= MAX_SAFE_INTEGER {
      MatchFinds(b, s);
    }
  }
}
