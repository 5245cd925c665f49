/** Variable-length integers: what section 5.2.2 of the WebAssembly Core Specification 1.0 allows, and
    the specification's encoders. */
module Leb128 {
  import opened Values
  import opened Numbers

  /** Reading an integer from the front of some bytes: its value and length, or that the bytes end too
      early, or that the first `length` of them begin no integer of that size. */
  datatype Leb = Found(value: int, length: nat) | Short | Malformed(length: nat)

  function Pow2(n: nat): (p: nat)
    ensures p > 0
  {
    if n == 0 then 1 else 2 * Pow2(n - 1)
  }

  /** A continuation byte in front of a shorter encoding. */
  function Continued(n: U8, rest: Leb): Leb {
    match rest
    case Found(m, k) => Found(0x80 * m + (n - 0x80), k + 1)
    case Short => Short
    case Malformed(k) => Malformed(k + 1)
  }

  /** `uN` for `N = bits`. */
  function Unsigned(bits: nat, bs: seq<U8>): (r: Leb)
    decreases bits
    ensures !r.Short? ==> 1 <= r.length <= |bs|
  {
    if bs == [] then Short
    else
      var n := bs[0];
      if n < 0x80 then (if n < Pow2(bits) then Found(n, 1) else Malformed(1))
      else if bits > 7 then Continued(n, Unsigned(bits - 7, bs[1..]))
      else Malformed(1)
  }

  /** `sN` for `N = bits`. */
  function Signed(bits: nat, bs: seq<U8>): (r: Leb)
    requires bits > 0
    decreases bits
    ensures !r.Short? ==> 1 <= r.length <= |bs|
  {
    if bs == [] then Short
    else
      var n := bs[0];
      if n < 0x40 then (if n < Pow2(bits - 1) then Found(n, 1) else Malformed(1))
      else if n < 0x80 then (if n >= 0x80 - Pow2(bits - 1) then Found(n - 0x80, 1) else Malformed(1))
      else if bits > 7 then Continued(n, Signed(bits - 7, bs[1..]))
      else Malformed(1)
  }

  // ----- encoders -----

  function EncodeUnsigned(v: nat): seq<U8>
    decreases v
  {
    if v < 0x80 then [v] else [v % 0x80 + 0x80] + EncodeUnsigned(v / 0x80)
  }

  function EncodeSigned(v: int): seq<U8>
    decreases if v < 0 then -v else v
  {
    if -0x40 <= v < 0x40 then [v % 0x80] else [v % 0x80 + 0x80] + EncodeSigned(v / 0x80)
  }

  lemma PowSeven(bits: nat)
    requires bits >= 7
    ensures Pow2(bits) == 0x80 * Pow2(bits - 7)
  {
    assert Pow2(bits) == 2 * Pow2(bits - 1) == 4 * Pow2(bits - 2) == 8 * Pow2(bits - 3) == 16 * Pow2(bits - 4);
    assert Pow2(bits - 4) == 2 * Pow2(bits - 5) == 4 * Pow2(bits - 6) == 8 * Pow2(bits - 7);
  }

  lemma {:induction false} PowGrows(a: nat, b: nat)
    requires a <= b
    ensures Pow2(a) <= Pow2(b)
    decreases b
  {
    if a < b { PowGrows(a, b - 1); }
  }

  lemma SmallPows(a: nat)
    ensures a <= 7 ==> Pow2(a) <= 0x80
    ensures a <= 6 ==> Pow2(a) <= 0x40
  {
    assert Pow2(6) == 0x40 && Pow2(7) == 0x80 by { PowSeven(7); }
    if a <= 6 {
      PowGrows(a, 6);
    }
  }

  /** Reading back what the encoder wrote, whatever follows it. */
  lemma {:induction false} UnsignedRoundTrip(bits: nat, v: nat, more: seq<U8>)
    requires v < Pow2(bits)
    ensures Unsigned(bits, EncodeUnsigned(v) + more) == Found(v, |EncodeUnsigned(v)|)
    decreases v
  {
    if v >= 0x80 {
      SmallPows(bits);
      PowSeven(bits);
      UnsignedRoundTrip(bits - 7, v / 0x80, more);
      assert (EncodeUnsigned(v) + more)[1..] == EncodeUnsigned(v / 0x80) + more;
    }
  }

  lemma {:induction false} SignedRoundTrip(bits: nat, v: int, more: seq<U8>)
    requires bits > 0 && 0 - Pow2(bits - 1) <= v < Pow2(bits - 1)
    ensures Signed(bits, EncodeSigned(v) + more) == Found(v, |EncodeSigned(v)|)
    decreases if v < 0 then -v else v
  {
    if !(-0x40 <= v < 0x40) {
      SmallPows(bits - 1);
      PowSeven(bits - 1);
      SignedRoundTrip(bits - 7, v / 0x80, more);
      assert (EncodeSigned(v) + more)[1..] == EncodeSigned(v / 0x80) + more;
    }
  }

  /** Every value that is found fits its type. */
  lemma {:induction false} UnsignedFits(bits: nat, bs: seq<U8>)
    requires Unsigned(bits, bs).Found?
    ensures 0 <= Unsigned(bits, bs).value < Pow2(bits)
    decreases bits
  {
    if bs[0] >= 0x80 {
      PowSeven(bits);
      UnsignedFits(bits - 7, bs[1..]);
    }
  }

  lemma {:induction false} SignedFits(bits: nat, bs: seq<U8>)
    requires bits > 0 && Signed(bits, bs).Found?
    ensures 0 - Pow2(bits - 1) <= Signed(bits, bs).value < Pow2(bits - 1)
    decreases bits
  {
    if bs[0] >= 0x80 {
      PowSeven(bits - 1);
      SignedFits(bits - 7, bs[1..]);
    }
  }

  // ----- by positions -----

  /** The first `k` bytes are one encoding: every byte but the last carries the continuation bit. */
  predicate Ends(bs: seq<U8>, k: int) {
    1 <= k <= |bs| && bs[k - 1] < 0x80 && forall i :: 0 <= i < k - 1 ==> bs[i] >= 0x80
  }

  /** The seven-bit digits, lowest first. */
  function Digits(bs: seq<U8>): nat { if bs == [] then 0 else bs[0] % 0x80 + 0x80 * Digits(bs[1..]) }

  /** The same with the sign in bit 6 of the last byte. */
  function SignedDigits(bs: seq<U8>): int
    requires bs != []
  {
    if |bs| == 1 then (if bs[0] % 0x80 < 0x40 then bs[0] % 0x80 else bs[0] % 0x80 - 0x80)
    else bs[0] % 0x80 + 0x80 * SignedDigits(bs[1..])
  }

  predicate AllContinue(bs: seq<U8>) { forall i :: 0 <= i < |bs| ==> bs[i] >= 0x80 }

  lemma EndsLater(bs: seq<U8>, k: int)
    requires bs != [] && bs[0] >= 0x80 && k >= 1
    ensures Ends(bs, k) <==> Ends(bs[1..], k - 1)
    ensures 2 <= k <= |bs| ==> bs[..k][1..] == bs[1..][..k - 1]
    ensures AllContinue(bs) <==> AllContinue(bs[1..])
  {
    if Ends(bs[1..], k - 1) {
      forall i | 0 <= i < k - 1 ensures bs[i] >= 0x80 { if i > 0 { assert bs[1..][i - 1] == bs[i]; } }
    }
    if AllContinue(bs[1..]) {
      forall i | 0 <= i < |bs| ensures bs[i] >= 0x80 { if i > 0 { assert bs[1..][i - 1] == bs[i]; } }
    }
  }

  lemma EndsFirst(bs: seq<U8>, k: int)
    requires bs != [] && bs[0] < 0x80
    ensures Ends(bs, k) <==> k == 1
    ensures bs[..1] == [bs[0]] && bs[..1][1..] == []
  {
  }

  /** Exactly the encodings of at most the allowed length whose digits fit the width are read, as their
      digits; and reading comes to the end exactly when every byte asks for another that is allowed. */
  lemma {:induction false} UnsignedExactly(bits: nat, bs: seq<U8>, v: int, k: nat)
    requires bits > 0
    ensures Unsigned(bits, bs) == Found(v, k) <==>
              Ends(bs, k) && 7 * (k - 1) < bits && v == Digits(bs[..k]) && Digits(bs[..k]) < Pow2(bits)
    ensures Unsigned(bits, bs) == Short <==> AllContinue(bs) && (bs == [] || 7 * |bs| < bits)
    decreases bits
  {
    if bs != [] && bs[0] < 0x80 {
      EndsFirst(bs, k);
    } else if bs != [] {
      if k >= 1 { EndsLater(bs, k); } else { EndsLater(bs, 1); }
      if bits > 7 {
        PowSeven(bits);
        UnsignedExactly(bits - 7, bs[1..], (v - (bs[0] - 0x80)) / 0x80, if k == 0 then 0 else k - 1);
      }
    }
  }

  lemma {:induction false} SignedExactly(bits: nat, bs: seq<U8>, v: int, k: nat)
    requires bits > 0
    ensures Signed(bits, bs) == Found(v, k) <==>
              && Ends(bs, k) && 7 * (k - 1) < bits && v == SignedDigits(bs[..k])
              && 0 - Pow2(bits - 1) <= SignedDigits(bs[..k]) < Pow2(bits - 1)
    ensures Signed(bits, bs) == Short <==> AllContinue(bs) && (bs == [] || 7 * |bs| < bits)
    decreases bits
  {
    if bs != [] && bs[0] < 0x80 {
      EndsFirst(bs, k);
    } else if bs != [] {
      if k >= 1 { EndsLater(bs, k); } else { EndsLater(bs, 1); }
      if bits > 7 {
        PowSeven(bits - 1);
        SignedExactly(bits - 7, bs[1..], (v - (bs[0] - 0x80)) / 0x80, if k == 0 then 0 else k - 1);
      }
    }
  }

  // ----- reading byte by byte -----

  /** After `k` continuation bytes that contribute `acc`, with `unit` the weight of the next byte. */
  function After(acc: int, unit: nat, k: nat, rest: Leb): Leb {
    match rest
    case Found(m, n) => Found(unit * m + acc, k + n)
    case Short => Short
    case Malformed(n) => Malformed(k + n)
  }

  lemma AfterNone(r: Leb)
    ensures After(0, 1, 0, r) == r
  {
  }

  /** One more continuation byte. */
  lemma AfterMore(acc: int, unit: nat, k: nat, n: U8, rest: Leb)
    requires n >= 0x80
    ensures After(acc, unit, k, Continued(n, rest)) == After(acc + unit * (n - 0x80), 0x80 * unit, k + 1, rest)
  {
    if rest.Found? {
      Distribute(unit, rest.value, n - 0x80);
    }
  }

  lemma UnsignedMore(bits: nat, acc: int, unit: nat, k: nat, bs: seq<U8>)
    requires k < |bs| && bs[k] >= 0x80 && bits > 7
    ensures After(acc, unit, k, Unsigned(bits, bs[k..]))
         == After(acc + unit * (bs[k] - 0x80), 0x80 * unit, k + 1, Unsigned(bits - 7, bs[k + 1..]))
  {
    assert bs[k..][0] == bs[k] && bs[k..][1..] == bs[k + 1..];
    AfterMore(acc, unit, k, bs[k], Unsigned(bits - 7, bs[k + 1..]));
  }

  lemma UnsignedLast(bits: nat, acc: int, unit: nat, k: nat, bs: seq<U8>)
    requires k < |bs| && bs[k] < 0x80
    ensures After(acc, unit, k, Unsigned(bits, bs[k..]))
         == if bs[k] < Pow2(bits) then Found(unit * bs[k] + acc, k + 1) else Malformed(k + 1)
  {
    assert bs[k..][0] == bs[k];
  }

  lemma SignedMore(bits: nat, acc: int, unit: nat, k: nat, bs: seq<U8>)
    requires k < |bs| && bs[k] >= 0x80 && bits > 7
    ensures After(acc, unit, k, Signed(bits, bs[k..]))
         == After(acc + unit * (bs[k] - 0x80), 0x80 * unit, k + 1, Signed(bits - 7, bs[k + 1..]))
  {
    assert bs[k..][0] == bs[k] && bs[k..][1..] == bs[k + 1..];
    AfterMore(acc, unit, k, bs[k], Signed(bits - 7, bs[k + 1..]));
  }

  lemma SignedLast(bits: nat, acc: int, unit: nat, k: nat, bs: seq<U8>)
    requires k < |bs| && bs[k] < 0x80 && bits > 0
    ensures var n := bs[k];
            After(acc, unit, k, Signed(bits, bs[k..])) ==
            if n < 0x40 && n < Pow2(bits - 1) then Found(unit * n + acc, k + 1)
            else if n >= 0x40 && n >= 0x80 - Pow2(bits - 1) then Found(unit * (n - 0x80) + acc, k + 1)
            else Malformed(k + 1)
  {
    assert bs[k..][0] == bs[k];
  }

  // ----- sign extension -----

  /** A number of `bits` bits as a two's complement integer. */
  function Wrap(bits: nat, x: int): int
    requires bits > 0
  {
    var u := x % Pow2(bits);
    if u < Pow2(bits - 1) then u else u - Pow2(bits)
  }

  /** Shifting left and then arithmetically right by `k` places in a signed type of `bits` bits. */
  function ShiftPair(bits: nat, k: nat, x: nat): int
    requires bits > 0
  {
    Wrap(bits, x * Pow2(k)) / Pow2(k)
  }

  lemma {:induction false} PowSum(a: nat, b: nat)
    ensures Pow2(a + b) == Pow2(a) * Pow2(b)
    decreases b
  {
    if b > 0 {
      PowSum(a, b - 1);
      assert Pow2(a) * (2 * Pow2(b - 1)) == 2 * (Pow2(a) * Pow2(b - 1));
    }
  }

  /** The two shifts extend the sign of a number that has `bits - k` bits. */
  lemma ShiftPairExtends(bits: nat, k: nat, x: nat)
    requires k < bits && x < Pow2(bits - k)
    ensures ShiftPair(bits, k, x) == if x < Pow2(bits - k - 1) then x else x - Pow2(bits - k)
  {
    hide Pow2;
    var (p, q, h) := (Pow2(k), Pow2(bits - k), Pow2(bits - k - 1));
    PowSum(bits - k, k);
    PowSum(bits - k - 1, k);
    assert bits - k + k == bits && bits - k - 1 + k == bits - 1;
    MulLess(x, q, p);
    MulLess(x, h, p);
    MulNat(x, p);
    InRange(x * p, q * p);
    MulDiv(x, p);
    MulDiv(x - q, p);
    assert x * p - q * p == (x - q) * p;
  }

  lemma InRange(u: nat, w: nat)
    requires u < w
    ensures u % w == u
  {
  }

  function CountOnes(n: nat): nat { if n == 0 then 0 else n % 2 + CountOnes(n / 2) }
}
