/** The Internet checksum of section 3.1 of RFC 791, as the capture writer computes it. */
module Checksum {
  type byte = x: int | 0 <= x < 256

  const WORD := 0x1_0000
  const U32 := 0x1_0000_0000

  /** Sum of the big-endian 16-bit words; an odd last byte counts as the high half of a word. */
  function WordSum(b: seq<byte>): nat {
    if |b| == 0 then 0
    else if |b| == 1 then b[0] * 256
    else b[0] * 256 + b[1] + WordSum(b[2..])
  }

  /** Ones' complement folding: carries are added back until the sum fits a word. */
  function Fold(n: nat): (r: nat)
    ensures r < WORD
  {
    if n < WORD then n else Fold(n % WORD + n / WORD)
  }

  /** Folding keeps the value modulo 65535 and never turns a positive sum into zero. */
  lemma {:induction false} FoldKeeps(n: nat)
    ensures Fold(n) % 0xFFFF == n % 0xFFFF && (n > 0 ==> Fold(n) > 0)
  {
    if n >= WORD {
      var m := n % WORD + n / WORD;
      FoldKeeps(m);
      CarryIsFree(n / WORD, n % WORD);
    }
  }

  lemma CarryIsFree(hi: nat, lo: nat)
    ensures (hi * WORD + lo) % 0xFFFF == (hi + lo) % 0xFFFF
  {
    var q, r := (hi + lo) / 0xFFFF, (hi + lo) % 0xFFFF;
    assert hi * WORD + lo == (q + hi) * 0xFFFF + r;
    Remainder(hi * WORD + lo, q + hi, r);
  }

  lemma Remainder(n: nat, q: nat, r: nat)
    requires n == q * 0xFFFF + r && r < 0xFFFF
    ensures n % 0xFFFF == r
  {
  }

  /** A receiver that sums the words together with the complement gets all ones. */
  lemma ComplementVerifies(s: nat)
    requires s > 0
    ensures Fold(s + (0xFFFF - Fold(s))) == 0xFFFF
  {
    FoldKeeps(s);
    MultipleOfAllOnes(s, Fold(s));
    FoldKeeps(s + (0xFFFF - Fold(s)));
  }

  lemma MultipleOfAllOnes(s: nat, f: nat)
    requires 0 < f <= 0xFFFF && f % 0xFFFF == s % 0xFFFF
    ensures (s + (0xFFFF - f)) % 0xFFFF == 0
  {
    var q, t := s / 0xFFFF, s % 0xFFFF;
    if f == 0xFFFF {
      Remainder(s, q, 0);
    } else {
      assert f == t;
      Remainder(s + (0xFFFF - f), q + 1, 0);
    }
  }

  lemma {:induction false} WordSumBound(b: seq<byte>)
    ensures WordSum(b) <= (|b| + 1) / 2 * 0xFFFF
  {
    if |b| > 1 {
      WordSumBound(b[2..]);
    }
  }

  function WithWord(b: seq<byte>, at: nat, v: nat): (c: seq<byte>)
    requires at + 2 <= |b| && v < WORD
  {
    b[..at] + [v / 256, v % 256] + b[at + 2..]
  }

  /** Writing a word over a zero word at an even place adds it to the sum. */
  lemma {:induction false} WordSumPut(b: seq<byte>, at: nat, v: nat)
    requires at % 2 == 0 && at + 2 <= |b| && b[at] == 0 && b[at + 1] == 0 && v < WORD
    ensures WordSum(WithWord(b, at, v)) == WordSum(b) + v
  {
    if at == 0 {
      assert WithWord(b, at, v)[2..] == b[2..];
    } else {
      WordSumPut(b[2..], at - 2, v);
      assert WithWord(b, at, v)[2..] == WithWord(b[2..], at - 2, v);
    }
  }

  /** A receiver accepts b, with the words of a pseudo header counted in: the sum is all ones. */
  ghost predicate Verifies(pseudo: seq<byte>, b: seq<byte>) {
    Fold(WordSum(pseudo) + WordSum(b)) == 0xFFFF
  }

  ghost predicate IsComplement(sum: nat, pseudo: seq<byte>, b: seq<byte>) {
    sum == 0xFFFF - Fold(WordSum(pseudo) + WordSum(b))
  }

  /** The complement of the sum, written over the zero checksum word, makes the whole verify. */
  lemma ChecksumVerifies(pseudo: seq<byte>, b: seq<byte>, at: nat, sum: nat)
    requires at % 2 == 0 && at + 2 <= |b| && b[at] == 0 && b[at + 1] == 0
    requires 0 < WordSum(b) && sum < WORD && IsComplement(sum, pseudo, b)
    ensures Verifies(pseudo, WithWord(b, at, sum))
  {
    WordSumPut(b, at, sum);
    ComplementVerifies(WordSum(pseudo) + WordSum(b));
  }

  lemma {:induction false} WordSumPositive(b: seq<byte>, at: nat)
    requires at < |b| && b[at] > 0
    ensures WordSum(b) > 0
  {
    if at >= 2 {
      WordSumPositive(b[2..], at - 2);
    }
  }

  /** Add the words of b to a 32-bit accumulator. */
  method SumWords(b: seq<byte>, acc: nat) returns (out: nat)
    requires acc < U32
    ensures out == (acc + WordSum(b)) % U32
  {
    out := acc;
    ghost var total: nat := acc;
    var i := 0;
    while i + 1 < |b|
      invariant i <= |b| && i % 2 == 0
      invariant out == total % U32 && total + WordSum(b[i..]) == acc + WordSum(b)
    {
      FirstWord(b, i);
      out, total :=
        Add32(out, b[i] as int * 256 + b[i + 1] as int, total), total + (b[i] as int * 256 + b[i + 1] as int);
      i := i + 2;
    }
    LastWord(b, i);
    if |b| % 2 == 1 {
      out := Add32(out, b[|b| - 1] as int * 256, total);
    }
  }

  /** A 32-bit addition, where total is the sum that does not wrap. */
  function Add32(acc: nat, w: nat, ghost total: nat): (sum: nat)
    requires acc == total % U32
    ensures sum == (total + w) % U32
  {
    WrapLater(total, w);
    (acc + w) % U32
  }

  lemma FirstWord(b: seq<byte>, i: nat)
    requires i + 1 < |b|
    ensures WordSum(b[i..]) == b[i] as int * 256 + b[i + 1] as int + WordSum(b[i + 2..])
  {
    assert b[i..][2..] == b[i + 2..];
  }

  lemma LastWord(b: seq<byte>, i: nat)
    requires i <= |b| && i + 1 >= |b| && i % 2 == 0
    ensures WordSum(b[i..]) == if |b| % 2 == 1 then b[|b| - 1] as int * 256 else 0
  {
    if |b| % 2 == 1 {
      assert b[i..] == [b[|b| - 1]];
    } else {
      assert b[i..] == [];
    }
  }

  lemma WrapLater(x: nat, y: nat)
    ensures (x % U32 + y) % U32 == (x + y) % U32
  {
    assert x == x / U32 * U32 + x % U32;
    var q, r := (x % U32 + y) / U32, (x % U32 + y) % U32;
    assert x + y == (x / U32 + q) * U32 + r;
  }

  lemma NoWrap(p: nat, s: nat)
    requires p + s < U32
    ensures (p % U32 + s) % U32 == p + s
  {
  }

  /** Fold the carries and complement. */
  method Finish(acc: nat) returns (r: nat)
    ensures r == 0xFFFF - Fold(acc)
  {
    var a: nat := acc;
    while a / WORD != 0
      invariant Fold(a) == Fold(acc)
      decreases a
    {
      a := a % WORD + a / WORD;
    }
    r := 0xFFFF - a;
  }

  method IpChecksum(b: seq<byte>) returns (sum: nat)
    requires |b| < WORD
    ensures sum < WORD && IsComplement(sum, [], b)
  {
    WordSumBound(b);
    NoWrap(0, WordSum(b));
    var acc := SumWords(b, 0);
    sum := Finish(acc);
  }
}
