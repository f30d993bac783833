/**
 * Random short codes by rejection sampling (apps/api/src/utils/base62.ts, `generateRandomCode`).
 *
 * The random source is a parameter: the buffers successive randomBytes calls return. A run that uses them all
 * up without finishing is reported as Err; the code would draw another buffer.
 */
module RandomCode {
  import opened Types
  import opened Base62

  type Byte = b: int | 0 <= b < 256
  type Digit = d: int | 0 <= d < 62

  datatype CodeError = BadLength | Exhausted

  /** 256 - 256 % 62, the largest multiple of 62 that fits in a byte. */
  const THRESHOLD: int := 248

  /** The accepted bytes of a stream, in order. */
  function Kept(bytes: seq<Byte>): seq<Byte> {
    if bytes == [] then []
    else Kept(bytes[..|bytes| - 1]) + (if bytes[|bytes| - 1] < THRESHOLD then [bytes[|bytes| - 1]] else [])
  }

  /** The characters a block of accepted bytes stands for. */
  function Letters(bytes: seq<Byte>): (code: string)
    ensures |code| == |bytes|
    ensures forall i :: 0 <= i < |bytes| ==> code[i] == CharOf(bytes[i] % BASE)
  {
    seq(|bytes|, i requires 0 <= i < |bytes| => CharOf(bytes[i] % BASE))
  }

  function Concat(buffers: seq<seq<Byte>>): seq<Byte> {
    if buffers == [] then [] else Concat(buffers[..|buffers| - 1]) + buffers[|buffers| - 1]
  }

  lemma {:induction false} KeptConcat(a: seq<Byte>, b: seq<Byte>)
    ensures Kept(a + b) == Kept(a) + Kept(b)
  {
    if b == [] {
      assert a + b == a;
    } else {
      KeptConcat(a, b[..|b| - 1]);
      assert (a + b)[..|a + b| - 1] == a + b[..|b| - 1];
    }
  }

  lemma LettersConcat(a: seq<Byte>, b: seq<Byte>)
    ensures Letters(a + b) == Letters(a) + Letters(b)
  {
  }

  function First(bytes: seq<Byte>, n: nat): seq<Byte> {
    if n <= |bytes| then bytes[..n] else bytes
  }

  /** The inner loop: take accepted bytes of one buffer until the code is complete. */
  method Fill(out: string, bytes: seq<Byte>, length: nat) returns (filled: string)
    requires |out| <= length
    ensures filled == out + Letters(First(Kept(bytes), length - |out|))
  {
    filled := out;
    var i := 0;
    while i < |bytes| && |filled| < length
      invariant 0 <= i <= |bytes| && |filled| <= length
      invariant filled == out + Letters(Kept(bytes[..i]))
    {
      var b := bytes[i];
      assert bytes[..i + 1][..i] == bytes[..i];
      if b < THRESHOLD {
        LettersConcat(Kept(bytes[..i]), [b]);
        filled := filled + [CharOf(b % BASE)];
      }
      i := i + 1;
    }
    KeptConcat(bytes[..i], bytes[i..]);
    assert bytes[..i] + bytes[i..] == bytes;
    if i == |bytes| {
      assert bytes[..i] == bytes;
    }
    assert First(Kept(bytes), length - |out|) == Kept(bytes[..i]);
  }

  lemma FirstConcat(a: seq<Byte>, b: seq<Byte>, n: nat)
    requires |a| < n
    ensures First(a + b, n) == a + First(b, n - |a|)
  {
  }

  lemma {:induction false} ConcatSplit(buffers: seq<seq<Byte>>, n: nat)
    requires n <= |buffers|
    ensures Concat(buffers) == Concat(buffers[..n]) + Concat(buffers[n..])
    decreases |buffers|
  {
    if n == |buffers| {
      assert buffers[..n] == buffers && buffers[n..] == [];
    } else {
      var init := buffers[..|buffers| - 1];
      ConcatSplit(init, n);
      assert init[..n] == buffers[..n];
      assert buffers[n..][..|buffers| - n - 1] == init[n..];
    }
  }

  function KeptOf(buffers: seq<seq<Byte>>): seq<Byte> {
    Kept(Concat(buffers))
  }

  lemma KeptPrefix(buffers: seq<seq<Byte>>, n: nat)
    requires n <= |buffers|
    ensures KeptOf(buffers[..n]) <= KeptOf(buffers)
  {
    ConcatSplit(buffers, n);
    KeptConcat(Concat(buffers[..n]), Concat(buffers[n..]));
  }

  lemma KeptNext(buffers: seq<seq<Byte>>, n: nat)
    requires n < |buffers|
    ensures KeptOf(buffers[..n + 1]) == KeptOf(buffers[..n]) + Kept(buffers[n])
  {
    assert buffers[..n + 1][..n] == buffers[..n];
    KeptConcat(Concat(buffers[..n]), buffers[n]);
  }

  /** What one more buffer adds to an incomplete code. */
  lemma OneMoreBuffer(buffers: seq<seq<Byte>>, drawn: nat, length: nat)
    requires drawn < |buffers| && |KeptOf(buffers[..drawn])| < length
    ensures var kept := KeptOf(buffers[..drawn]);
            && First(kept, length) == kept
            && Letters(First(KeptOf(buffers[..drawn + 1]), length))
               == Letters(kept) + Letters(First(Kept(buffers[drawn]), length - |kept|))
  {
    KeptNext(buffers, drawn);
    var kept := KeptOf(buffers[..drawn]);
    FirstConcat(kept, Kept(buffers[drawn]), length);
    LettersConcat(kept, First(Kept(buffers[drawn]), length - |kept|));
  }

  /** A code complete after some buffers is the code of the whole stream. */
  lemma CodeComplete(buffers: seq<seq<Byte>>, drawn: nat, length: nat)
    requires drawn <= |buffers|
    ensures length <= |KeptOf(buffers[..drawn])| ==>
              length <= |KeptOf(buffers)| && KeptOf(buffers)[..length] == First(KeptOf(buffers[..drawn]), length)
    ensures drawn == |buffers| ==> KeptOf(buffers[..drawn]) == KeptOf(buffers)
  {
    KeptPrefix(buffers, drawn);
    assert buffers[..|buffers|] == buffers;
  }

  /**
   * The code is the first `length` accepted bytes of the concatenated stream, reduced mod 62: how the stream
   * was cut into buffers does not show. It fails only on a bad length or when the buffers given hold too few
   * accepted bytes, and it draws no buffer beyond the one that completes the code.
   */
  method GenerateRandomCode(length: int, buffers: seq<seq<Byte>>) returns (r: Result<string, CodeError>, drawn: nat)
    ensures drawn <= |buffers|
    ensures length <= 0 ==> r == Err(BadLength) && drawn == 0
    ensures length > 0 ==>
      r == if length <= |KeptOf(buffers)| then Ok(Letters(KeptOf(buffers)[..length])) else Err(Exhausted)
    ensures r.Ok? ==> drawn > 0 && |KeptOf(buffers[..drawn - 1])| < length <= |KeptOf(buffers[..drawn])|
  {
    if length <= 0 {
      return Err(BadLength), 0;
    }
    var out := "";
    drawn := 0;
    ghost var kept, before := KeptOf(buffers[..0]), 0;
    while |out| < length && drawn < |buffers|
      invariant drawn <= |buffers| && kept == KeptOf(buffers[..drawn])
      invariant out == Letters(First(kept, length))
      invariant |out| == length ==> drawn > 0 && before == |KeptOf(buffers[..drawn - 1])| < length
      decreases |buffers| - drawn
    {
      OneMoreBuffer(buffers, drawn, length);
      out := Fill(out, buffers[drawn], length);
      before := |kept|;
      drawn := drawn + 1;
      kept := KeptOf(buffers[..drawn]);
    }
    CodeComplete(buffers, drawn, length);
    return if |out| == length then Ok(out) else Err(Exhausted), drawn;
  }

  // ---------------------------------------------------------------- uniformity

  /** The remainders a block of bytes stands for; the code spells them in the alphabet. */
  function Remainders(bytes: seq<Byte>): (ds: seq<Digit>)
    ensures |ds| == |bytes|
  {
    if bytes == [] then [] else [bytes[0] % BASE] + Remainders(bytes[1..])
  }

  function Spell(ds: seq<Digit>): (code: string)
    ensures |code| == |ds|
  {
    seq(|ds|, i requires 0 <= i < |ds| => CharOf(ds[i]))
  }

  function DigitsOf(code: string): (ds: seq<Digit>)
    requires Accepted(code)
    ensures |ds| == |code| && Spell(ds) == code
  {
    seq(|code|, i requires 0 <= i < |code| => IndexOf(code[i]))
  }

  lemma {:induction false} LettersSpellRemainders(bytes: seq<Byte>)
    ensures Letters(bytes) == Spell(Remainders(bytes))
  {
    if bytes != [] {
      LettersSpellRemainders(bytes[1..]);
      assert forall i :: 1 <= i < |bytes| ==> Letters(bytes)[i] == Letters(bytes[1..])[i - 1];
      assert forall i :: 1 <= i < |bytes| ==> Remainders(bytes)[i] == Remainders(bytes[1..])[i - 1];
    }
  }

  predicate AllKept(bytes: seq<Byte>) {
    forall i :: 0 <= i < |bytes| ==> bytes[i] < THRESHOLD
  }

  ghost function Row(h: Byte, tails: set<seq<Byte>>): set<seq<Byte>> {
    set rest | rest in tails :: [h] + rest
  }

  /** The accepted byte blocks with the given remainders: four choices for each. */
  ghost function Blocks(ds: seq<Digit>): set<seq<Byte>>
  {
    if ds == [] then {[]}
    else
      var d: int, tails := ds[0], Blocks(ds[1..]);
      Row(d, tails) + Row(d + 62, tails) + Row(d + 124, tails) + Row(d + 186, tails)
  }

  lemma RowMember(h: Byte, tails: set<seq<Byte>>, block: seq<Byte>)
    ensures block in Row(h, tails) <==> block != [] && block[0] == h && block[1..] in tails
  {
    if block != [] && block[0] == h && block[1..] in tails {
      assert block == [h] + block[1..];
    }
  }

  lemma FourBytes(d: Digit, b: Byte)
    ensures b < THRESHOLD && b % BASE == d <==> b == d || b == d + 62 || b == d + 124 || b == d + 186
  {
  }

  /** Blocks(ds) is exactly the set of accepted blocks whose remainders are ds. */
  lemma {:induction false} BlocksAreThePreimages(ds: seq<Digit>, block: seq<Byte>)
    ensures block in Blocks(ds) <==> AllKept(block) && Remainders(block) == ds
  {
    if ds == [] {
    } else {
      var d: int, tails := ds[0], Blocks(ds[1..]);
      RowMember(d, tails, block);
      RowMember(d + 62, tails, block);
      RowMember(d + 124, tails, block);
      RowMember(d + 186, tails, block);
      if block != [] {
        FourBytes(ds[0], block[0]);
        BlocksAreThePreimages(ds[1..], block[1..]);
        assert AllKept(block) <==> block[0] < THRESHOLD && AllKept(block[1..]);
        assert Remainders(block) == ds <==> block[0] % BASE == ds[0] && Remainders(block[1..]) == ds[1..] by {
          assert ds == [ds[0]] + ds[1..];
        }
      }
    }
  }

  lemma {:induction false} RowSize(h: Byte, tails: set<seq<Byte>>)
    ensures |Row(h, tails)| == |tails|
  {
    if tails == {} {
      assert Row(h, tails) == {};
    } else {
      var t :| t in tails;
      RowSize(h, tails - {t});
      RowMember(h, tails - {t}, [h] + t);
      assert ([h] + t)[1..] == t;
      assert Row(h, tails) == Row(h, tails - {t}) + {[h] + t};
    }
  }

  lemma RowsDisjoint(g: Byte, h: Byte, tails: set<seq<Byte>>)
    requires g != h
    ensures Row(g, tails) !! Row(h, tails)
  {
    forall block ensures !(block in Row(g, tails) && block in Row(h, tails)) {
      RowMember(g, tails, block);
      RowMember(h, tails, block);
    }
  }

  function Pow4(n: nat): nat {
    if n == 0 then 1 else 4 * Pow4(n - 1)
  }

  lemma {:induction false} BlocksCount(ds: seq<Digit>)
    ensures |Blocks(ds)| == Pow4(|ds|)
  {
    if ds != [] {
      var d: int, tails := ds[0], Blocks(ds[1..]);
      BlocksCount(ds[1..]);
      RowSize(d, tails);
      RowSize(d + 62, tails);
      RowSize(d + 124, tails);
      RowSize(d + 186, tails);
      RowsDisjoint(d, d + 62, tails);
      RowsDisjoint(d, d + 124, tails);
      RowsDisjoint(d, d + 186, tails);
      RowsDisjoint(d + 62, d + 124, tails);
      RowsDisjoint(d + 62, d + 186, tails);
      RowsDisjoint(d + 124, d + 186, tails);
      var two := Row(d, tails) + Row(d + 62, tails);
      assert |two| == 2 * |tails|;
      var three := two + Row(d + 124, tails);
      assert |three| == 3 * |tails|;
      assert Blocks(ds) == three + Row(d + 186, tails);
    }
  }

  lemma {:induction false} SpellInjective(a: seq<Digit>, b: seq<Digit>)
    requires Spell(a) == Spell(b)
    ensures a == b
  {
    forall i | 0 <= i < |a| ensures a[i] == b[i] {
      assert Spell(a)[i] == Spell(b)[i];
      IndexOfChar(a[i]);
      IndexOfChar(b[i]);
    }
  }

  /**
   * No modulo bias: for every code of length n there is a set of exactly 4^n byte blocks, and it is the set of
   * all accepted blocks of length n that the generator turns into that code.
   */
  lemma EveryCodeEquallyLikely(code: string) returns (blocks: set<seq<Byte>>)
    requires Accepted(code)
    ensures |blocks| == Pow4(|code|)
    ensures forall block: seq<Byte> :: block in blocks <==> AllKept(block) && Letters(block) == code
  {
    var ds := DigitsOf(code);
    blocks := Blocks(ds);
    BlocksCount(ds);
    forall block: seq<Byte> ensures block in blocks <==> AllKept(block) && Letters(block) == code {
      BlocksAreThePreimages(ds, block);
      LettersSpellRemainders(block);
      if Letters(block) == code {
        SpellInjective(Remainders(block), ds);
      }
    }
  }
}
