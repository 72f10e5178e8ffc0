/** Little-endian integers, and parsers that hand on what they did not read. */
module Bytes {
  import opened Types

  type byte = x: int | 0 <= x < 256

  /** What a parser makes of the front of some bytes. */
  datatype Parsed<+T> = Bad | Got(value: T, rest: seq<byte>) {
    predicate IsFailure() {
      Bad?
    }

    function PropagateFailure<U>(): Parsed<U>
      requires Bad?
    {
      Bad
    }

    function Extract(): (T, seq<byte>)
      requires Got?
    {
      (value, rest)
    }
  }

  /** The number of values of `n` bytes. */
  function Span(n: nat): (r: nat)
    ensures r > 0
  {
    if n == 0 then 1 else 256 * Span(n - 1)
  }

  /** The `n` low bytes of `v`, lowest first. */
  function ToLE(n: nat, v: nat): (s: seq<byte>)
    ensures |s| == n
  {
    if n == 0 then [] else [v % 256] + ToLE(n - 1, v / 256)
  }

  function FromLE(s: seq<byte>): nat {
    if s == [] then 0 else s[0] + 256 * FromLE(s[1..])
  }

  lemma {:induction false} FromToLE(n: nat, v: nat)
    requires v < Span(n)
    ensures FromLE(ToLE(n, v)) == v
  {
    if n > 0 {
      FromToLE(n - 1, v / 256);
      assert ToLE(n, v)[1..] == ToLE(n - 1, v / 256);
    }
  }

  lemma {:induction false} ToFromLE(s: seq<byte>)
    ensures FromLE(s) < Span(|s|) && ToLE(|s|, FromLE(s)) == s
  {
    if s != [] {
      ToFromLE(s[1..]);
      assert FromLE(s) % 256 == s[0] && FromLE(s) / 256 == FromLE(s[1..]);
    }
  }

  lemma Spans()
    ensures Span(4) == U32_LIMIT && Span(8) == U64_LIMIT
  {
    assert Span(2) == 0x1_0000 && Span(3) == 0x100_0000 && Span(4) == 0x1_0000_0000;
    assert Span(5) == 0x100_0000_0000 && Span(6) == 0x1_0000_0000_0000;
  }

  function PutU32(v: u32): (s: seq<byte>)
    ensures |s| == 4
  {
    ToLE(4, v)
  }

  function PutU64(v: u64): (s: seq<byte>)
    ensures |s| == 8
  {
    ToLE(8, v)
  }

  function U32Of(s: seq<byte>): u32
    requires |s| == 4
  {
    ToFromLE(s);
    Spans();
    FromLE(s)
  }

  function U64Of(s: seq<byte>): u64
    requires |s| == 8
  {
    ToFromLE(s);
    Spans();
    FromLE(s)
  }

  /** The `n` bytes from `at` on are those of `v`, the lowest first. */
  predicate Field(s: seq<byte>, at: nat, n: nat, v: nat) {
    at + n <= |s| && forall i :: 0 <= i < n ==> s[at + i] == v / Span(i) % 256
  }

  lemma DivideTwice(v: nat, k: nat)
    requires k > 0
    ensures v / 256 / k == v / (256 * k)
  {
    var q, r := v / 256, v % 256;
    var p, u := q / k, q % k;
    assert p * (256 * k) == 256 * (p * k) && q == p * k + u;
    Quotient(v, 256 * k, p, 256 * u + r);
  }

  /** Integers are written with the lowest byte first. */
  lemma {:induction false} ToLEField(n: nat, v: nat)
    ensures Field(ToLE(n, v), 0, n, v)
  {
    if n > 0 {
      ToLEField(n - 1, v / 256);
      forall i | 0 < i < n ensures ToLE(n, v)[i] == v / Span(i) % 256 {
        assert ToLE(n, v)[i] == ToLE(n - 1, v / 256)[0 + (i - 1)];
        DivideTwice(v, Span(i - 1));
      }
    }
  }

  /** Writing and reading integers are inverse. */
  lemma U32RoundTrip(v: u32)
    ensures U32Of(PutU32(v)) == v
  {
    Spans();
    FromToLE(4, v);
  }

  lemma U64RoundTrip(v: u64)
    ensures U64Of(PutU64(v)) == v
  {
    Spans();
    FromToLE(8, v);
  }

  lemma U32Bytes(s: seq<byte>)
    requires |s| == 4
    ensures PutU32(U32Of(s)) == s
  {
    ToFromLE(s);
  }

  lemma U64Bytes(s: seq<byte>)
    requires |s| == 8
    ensures PutU64(U64Of(s)) == s
  {
    ToFromLE(s);
  }
}
