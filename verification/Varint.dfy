/**
  The varint codec of core/src/sync/negentropy/varint.rs: base-128 digits, most
  significant first, bit eight set on every byte except the last.
 */
module Varint {
  import opened Base

  /** The digits of `n` that are followed by another digit. */
  function HighDigits(n: nat): seq<byte> {
    if n == 0 then [] else HighDigits(n / 128) + [128 + n % 128]
  }

  /** The encoding of `n`. */
  function Encode(n: nat): seq<byte> {
    HighDigits(n / 128) + [n % 128]
  }

  /** `n >> (7 * i)`. */
  function Shift(n: nat, i: nat): nat {
    if i == 0 then n else Shift(n, i - 1) / 128
  }

  /** Number of significant bits, `64 - leading_zeros`. */
  function BitLen(n: nat): nat {
    if n == 0 then 0 else 1 + BitLen(n / 2)
  }

  /** Number of base-128 digits, at least one. */
  function DigitCount(n: nat): nat {
    if n < 128 then 1 else 1 + DigitCount(n / 128)
  }

  function Pow128(i: nat): nat {
    if i == 0 then 1 else 128 * Pow128(i - 1)
  }

  lemma BitLenPerDigit(n: nat)
    requires n >= 128
    ensures BitLen(n) == 7 + BitLen(n / 128)
  {
    var h := n / 2 / 2 / 2;
    assert BitLen(n) == 1 + BitLen(n / 2) == 2 + BitLen(n / 2 / 2) == 3 + BitLen(h);
    assert BitLen(h) == 1 + BitLen(h / 2) == 2 + BitLen(h / 2 / 2) == 3 + BitLen(h / 2 / 2 / 2);
    assert h / 2 / 2 / 2 / 2 == n / 128;
  }

  /** The source's digit count, `bits.div_ceil(7)`, is the number of base-128 digits. */
  lemma {:induction false} BitsToDigits(n: nat)
    requires n > 0
    ensures (BitLen(n) + 6) / 7 == DigitCount(n)
  {
    if n < 128 {
      BitLenSmall(n);
    } else {
      BitLenPerDigit(n);
      BitsToDigits(n / 128);
    }
  }

  lemma BitLenSmall(n: nat)
    requires 0 < n < 128
    ensures 1 <= BitLen(n) <= 7
  {
    var h := n / 2 / 2 / 2;
    assert BitLen(n) <= 1 + BitLen(n / 2) <= 2 + BitLen(n / 2 / 2) <= 3 + BitLen(h);
    assert BitLen(h) <= 1 + BitLen(h / 2) <= 2 + BitLen(h / 2 / 2) <= 3 + BitLen(h / 2 / 2 / 2);
    assert h / 2 / 2 / 2 <= 1;
  }

  lemma {:induction false} ShiftOut(n: nat, i: nat)
    ensures Shift(n, i + 1) == Shift(n / 128, i)
  {
    if i > 0 {
      ShiftOut(n, i - 1);
    }
  }

  lemma {:induction false} ShiftAllDigits(n: nat)
    ensures Shift(n, DigitCount(n)) == 0
  {
    if n >= 128 {
      ShiftOut(n, DigitCount(n / 128));
      ShiftAllDigits(n / 128);
    } else {
      assert Shift(n, 1) == Shift(n, 0) / 128;
    }
  }

  /** Appends the encoding of `n` to `out`, digit by digit from the top. */
  method Write(n: u64, out: seq<byte>) returns (written: seq<byte>)
    ensures written == out + Encode(n)
  {
    written := out;
    if n == 0 {
      assert HighDigits(0) == [];
      return out + [0];
    }
    var digits := (BitLen(n) + 6) / 7;
    BitsToDigits(n);
    ShiftAllDigits(n);
    var i := digits;
    while i > 0
      invariant 0 <= i <= digits
      invariant written == out + if i > 0 then HighDigits(Shift(n, i)) else Encode(n)
    {
      i := i - 1;
      var digit: byte := Shift(n, i) % 128;
      ghost var before := written;
      written := written + [if i == 0 then digit else digit + 128];
      assert Shift(n, i + 1) == Shift(n, i) / 128;
      if i > 0 {
        ShiftPositive(n, i);
      }
    }
  }

  lemma {:induction false} ShiftPositive(n: nat, i: nat)
    requires i < DigitCount(n) && n > 0
    ensures Shift(n, i) > 0
  {
    if i > 0 {
      ShiftOut(n, i - 1);
      ShiftPositive(n / 128, i - 1);
    }
  }

  /** The decoder as a recursion on the input, carrying the accumulated value. */
  function ReadFrom(res: u64, input: seq<byte>): (r: Result<(u64, seq<byte>), SyncError>)
    ensures r.Ok? ==> |r.value.1| < |input| && r.value.1 == input[|input| - |r.value.1|..]
    decreases |input|
  {
    if input == [] then Err(Malformed("varint ends prematurely"))
    else if res > U64_MAX / 128 then Err(Malformed("varint overflows u64"))
    else
      var res' := res * 128 + input[0] % 128;
      if input[0] < 128 then Ok((res', input[1..])) else ReadFrom(res', input[1..])
  }

  function ReadSpec(input: seq<byte>): Result<(u64, seq<byte>), SyncError> {
    ReadFrom(0, input)
  }

  /** Decodes a varint from the front of `input`, returning the rest. */
  method Read(input: seq<byte>) returns (r: Result<(u64, seq<byte>), SyncError>)
    ensures r == ReadSpec(input)
  {
    var res: u64 := 0;
    var cursor := input;
    while true
      invariant ReadSpec(input) == ReadFrom(res, cursor)
      decreases |cursor|
    {
      if cursor == [] {
        return Err(Malformed("varint ends prematurely"));
      }
      var b := cursor[0];
      if res > U64_MAX / 128 {
        return Err(Malformed("varint overflows u64"));
      }
      res := res * 128 + b % 128;
      cursor := cursor[1..];
      if b < 128 {
        return Ok((res, cursor));
      }
    }
  }

  /** The number a digit string denotes, with no bound on its size. */
  function Value(s: seq<byte>): nat {
    if s == [] then 0 else Value(s[..|s| - 1]) * 128 + s[|s| - 1] % 128
  }

  /** The first byte without the continuation bit is at `k`. */
  ghost predicate EndsAt(input: seq<byte>, k: nat) {
    k < |input| && input[k] < 128 && forall j :: 0 <= j < k ==> input[j] >= 128
  }

  function ValueFrom(res: nat, s: seq<byte>): nat
    decreases |s|
  {
    if s == [] then res else ValueFrom(res * 128 + s[0] % 128, s[1..])
  }

  lemma {:induction false} ValueFromSnoc(res: nat, s: seq<byte>, d: byte)
    ensures ValueFrom(res, s + [d]) == ValueFrom(res, s) * 128 + d % 128
    decreases |s|
  {
    if s != [] {
      assert (s + [d])[1..] == s[1..] + [d];
      ValueFromSnoc(res * 128 + s[0] % 128, s[1..], d);
    } else {
      assert (s + [d])[1..] == [];
    }
  }

  lemma {:induction false} ValueFromZero(s: seq<byte>)
    ensures ValueFrom(0, s) == Value(s)
  {
    if s != [] {
      var n := |s| - 1;
      assert s == s[..n] + [s[n]];
      ValueFromZero(s[..n]);
      ValueFromSnoc(0, s[..n], s[n]);
    }
  }

  lemma {:induction false} ValueFromGrows(res: nat, s: seq<byte>)
    ensures ValueFrom(res, s) >= res
    ensures s != [] ==> ValueFrom(res, s) >= res * 128
    decreases |s|
  {
    if s != [] {
      ValueFromGrows(res * 128 + s[0] % 128, s[1..]);
    }
  }

  lemma {:induction false} ReadFromExact(res: u64, input: seq<byte>, k: nat)
    requires EndsAt(input, k)
    ensures ReadFrom(res, input) ==
            if ValueFrom(res, input[..k + 1]) < U64_LIMIT
            then Ok((ValueFrom(res, input[..k + 1]), input[k + 1..]))
            else Err(Malformed("varint overflows u64"))
    decreases k
  {
    var s := input[..k + 1];
    ValueFromGrows(res, s);
    if res <= U64_MAX / 128 {
      var res' := res * 128 + input[0] % 128;
      assert s[1..] == input[1..][..k];
      if k > 0 {
        ReadFromExact(res', input[1..], k - 1);
        assert input[1..][k..] == input[k + 1..];
      }
    }
  }

  /**
    A digit string is accepted exactly when the number it denotes is below 2^64,
    and then that number and the bytes after the string are returned.
   */
  lemma ReadAccepts(input: seq<byte>, k: nat)
    requires EndsAt(input, k)
    ensures ReadSpec(input).Ok? <==> Value(input[..k + 1]) < U64_LIMIT
    ensures ReadSpec(input).Ok? ==> ReadSpec(input).value == (Value(input[..k + 1]), input[k + 1..])
  {
    ReadFromExact(0, input, k);
    ValueFromZero(input[..k + 1]);
  }

  /** Without a final digit there is nothing to accept. */
  lemma {:induction false} ReadRejectsUnterminated(res: u64, input: seq<byte>)
    requires forall k: nat :: !EndsAt(input, k)
    ensures ReadFrom(res, input).Err?
    decreases |input|
  {
    if input != [] {
      assert !EndsAt(input, 0);
      forall k: nat ensures !EndsAt(input[1..], k) {
        assert !EndsAt(input, k + 1);
      }
      if res <= U64_MAX / 128 {
        ReadRejectsUnterminated(res * 128 + input[0] % 128, input[1..]);
      }
    }
  }

  lemma {:induction false} HighDigitsShape(n: nat)
    ensures forall j :: 0 <= j < |HighDigits(n)| ==> HighDigits(n)[j] >= 128
    ensures Value(HighDigits(n)) == n
  {
    if n > 0 {
      HighDigitsShape(n / 128);
      assert HighDigits(n)[..|HighDigits(n)| - 1] == HighDigits(n / 128);
    }
  }

  lemma {:induction false} EncodeLength(n: nat)
    ensures |Encode(n)| == DigitCount(n)
  {
    if n >= 128 {
      EncodeLength(n / 128);
    }
  }

  /** Decoding an encoded number gives it back and leaves what followed. */
  lemma RoundTrip(n: u64, rest: seq<byte>)
    ensures ReadSpec(Encode(n) + rest) == Ok((n, rest))
  {
    var input := Encode(n) + rest;
    var k := |Encode(n)| - 1;
    HighDigitsShape(n / 128);
    assert EndsAt(input, k);
    assert input[..k + 1] == Encode(n);
    assert Encode(n)[..k] == HighDigits(n / 128);
    assert input[k + 1..] == rest;
    ReadAccepts(input, k);
  }

  /** No digit string for the same number is shorter than the encoding. */
  lemma {:induction false} Minimal(s: seq<byte>)
    requires s != []
    ensures |Encode(Value(s))| <= |s|
  {
    EncodeLength(Value(s));
    var t := s[..|s| - 1];
    if t != [] {
      Minimal(t);
      EncodeLength(Value(t));
    } else {
      assert Value(t) == 0;
    }
  }

  lemma {:induction false} LengthBound(n: nat, k: nat)
    requires k > 0 && n < Pow128(k)
    ensures |Encode(n)| <= k
  {
    EncodeLength(n);
    if n >= 128 {
      LengthBound(n / 128, k - 1);
      EncodeLength(n / 128);
    }
  }

  /** Every u64 takes between one and ten bytes. */
  lemma U64Length(n: u64)
    ensures 1 <= |Encode(n)| <= 10
  {
    assert Pow128(10) > U64_LIMIT;
    LengthBound(n, 10);
  }
}
