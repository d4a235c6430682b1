/** Fixed-width little-endian integers, and readers that consume bytes from the front or fail. */
module Wire {

  type Byte = x: int | 0 <= x < 256

  function Limit(width: nat): nat {
    if width == 0 then 1 else 256 * Limit(width - 1)
  }

  /** The low `width` bytes of n, as a cast to that width keeps them. */
  function Put(n: nat, width: nat): (b: seq<Byte>)
    ensures |b| == width
  {
    if width == 0 then [] else [n % 256] + Put(n / 256, width - 1)
  }

  function Get(b: seq<Byte>): nat {
    if b == [] then 0 else b[0] + 256 * Get(b[1..])
  }

  lemma {:induction false} GetPut(n: nat, width: nat)
    requires n < Limit(width)
    ensures Get(Put(n, width)) == n
  {
    if width > 0 {
      GetPut(n / 256, width - 1);
      assert Put(n, width)[1..] == Put(n / 256, width - 1);
    }
  }

  datatype Error = SizeOutOfBounds | NotASnapshot | ChecksumMismatch | Truncated | InvalidNumber | StringOutOfBounds
                 | UnsupportedVersion | ByteOrderDiffers | ContextDiffers | LayoutDiffers | InconsistentHistogram
                 | BoundaryCountDiffers | BoundariesNotIncreasing | TooManyKeys | EmptyKey | MetadataOutOfRange
                 | TrailingData

  /** A reader's answer: a value and the bytes after it, or why it stopped. */
  datatype Read<+T> = Fail(error: Error) | Done(value: T, rest: seq<Byte>)
  {
    predicate IsFailure() {
      Fail?
    }

    function PropagateFailure<U>(): Read<U>
      requires IsFailure()
    {
      Fail(error)
    }

    function Extract(): (T, seq<Byte>)
      requires !IsFailure()
    {
      (value, rest)
    }
  }

  /** Write an integer in front of the bytes that follow it. */
  function PutInt(n: nat, width: nat, rest: seq<Byte>): seq<Byte> {
    Put(n, width) + rest
  }

  function GetInt(data: seq<Byte>, width: nat): Read<nat> {
    if |data| < width then Fail(Truncated) else Done(Get(data[..width]), data[width..])
  }

  lemma {:induction false} GetsInt(n: nat, width: nat, rest: seq<Byte>)
    requires n < Limit(width)
    ensures GetInt(PutInt(n, width, rest), width) == Done(n, rest)
  {
    GetPut(n, width);
    assert PutInt(n, width, rest)[..width] == Put(n, width);
    assert PutInt(n, width, rest)[width..] == rest;
  }

  const TWO_32 := 0x1_0000_0000
  const TWO_64 := 0x1_0000_0000_0000_0000

  /** Two's complement, as a signed field of 32 or 64 bits is stored. */
  function Unsigned32(n: int): nat {
    n % TWO_32
  }

  function Unsigned64(n: int): nat {
    n % TWO_64
  }

  function Signed32(u: nat): int {
    if 2 * u < TWO_32 then u else u - TWO_32
  }

  function Signed64(u: nat): int {
    if 2 * u < TWO_64 then u else u - TWO_64
  }

  lemma SignedUnsigned(n: int)
    ensures -TWO_32 <= 2 * n < TWO_32 ==> Unsigned32(n) < TWO_32 && Signed32(Unsigned32(n)) == n
    ensures -TWO_64 <= 2 * n < TWO_64 ==> Unsigned64(n) < TWO_64 && Signed64(Unsigned64(n)) == n
  {
  }

  /** Signed 64-bit arithmetic keeps the low 64 bits of its result. */
  function Wrap64(n: int): int {
    Signed64(Unsigned64(n))
  }

  /** A value a signed 64-bit field can hold. */
  predicate Fits64(n: int) {
    -TWO_64 <= 2 * n < TWO_64
  }

  lemma WrapExact(n: int)
    ensures Fits64(Wrap64(n))
    ensures Wrap64(n) == n <==> Fits64(n)
  {
    SignedUnsigned(n);
  }

  /** Subtracting a wrapped difference gives back what was subtracted. */
  lemma WrapBack(at: int, x: int)
    requires Fits64(x)
    ensures Wrap64(at - Wrap64(at - x)) == x
  {
    var d := at - x;
    assert d == TWO_64 * (d / TWO_64) + d % TWO_64;
    var k := if 2 * (d % TWO_64) < TWO_64 then d / TWO_64 else d / TWO_64 + 1;
    assert Wrap64(d) == d - TWO_64 * k;
    WrapShift(x, k);
    SignedUnsigned(x);
  }

  lemma WrapShift(x: int, k: int)
    ensures Unsigned64(x + TWO_64 * k) == Unsigned64(x)
  {
    var y := x + TWO_64 * k;
    assert x == TWO_64 * (x / TWO_64) + x % TWO_64;
    assert y == TWO_64 * (x / TWO_64 + k) + x % TWO_64;
    Remainder(y, x / TWO_64 + k, x % TWO_64);
  }

  lemma Remainder(y: int, q: int, r: int)
    requires y == TWO_64 * q + r && 0 <= r < TWO_64
    ensures y % TWO_64 == r
  {
  }

  /** An unsigned 64-bit count after one more. */
  function Next64(n: nat): nat {
    (n + 1) % TWO_64
  }

  /** A length-prefixed string; the length field keeps 32 bits. */
  function PutString(s: seq<Byte>, rest: seq<Byte>): seq<Byte> {
    PutInt(|s|, 4, s + rest)
  }

  function GetString(data: seq<Byte>, limit: nat): Read<seq<Byte>> {
    var (size, d) :- GetInt(data, 4);
    if size > limit || |d| < size then Fail(StringOutOfBounds) else Done(d[..size], d[size..])
  }

  lemma GetsString(s: seq<Byte>, limit: nat, rest: seq<Byte>)
    requires |s| < Limit(4)
    ensures GetString(PutString(s, rest), limit) == if |s| <= limit then Done(s, rest) else Fail(StringOutOfBounds)
  {
    GetsInt(|s|, 4, s + rest);
    assert (s + rest)[..|s|] == s && (s + rest)[|s|..] == rest;
  }

  // ----- repetition -----

  type Getter<!T> = seq<Byte> -> Read<T>
  type Putter<!T> = (T, seq<Byte>) -> seq<Byte>

  function PutMany<T>(put: Putter<T>, xs: seq<T>, rest: seq<Byte>): seq<Byte> {
    if xs == [] then rest else put(xs[0], PutMany(put, xs[1..], rest))
  }

  function GetMany<T>(get: Getter<T>, data: seq<Byte>, n: nat): Read<seq<T>>
    decreases n
  {
    if n == 0 then Done([], data)
    else
      var (x, d) :- get(data);
      var (xs, d) :- GetMany(get, d, n - 1);
      Done([x] + xs, d)
  }

  /** A reader that undoes its writer on each item undoes it on the list. */
  lemma {:induction false} GetsMany<T>(put: Putter<T>, get: Getter<T>, xs: seq<T>, rest: seq<Byte>)
    requires forall x, d :: x in xs ==> get(put(x, d)) == Done(x, d)
    ensures GetMany(get, PutMany(put, xs, rest), |xs|) == Done(xs, rest)
  {
    if xs != [] {
      GetsMany(put, get, xs[1..], rest);
      assert xs == [xs[0]] + xs[1..];
    }
  }

  /** What a reader guarantees of one item holds of every item of the list. */
  lemma {:induction false} ManyRead<T>(get: Getter<T>, ok: T -> bool, data: seq<Byte>, n: nat)
    requires forall d :: get(d).Done? ==> ok(get(d).value)
    ensures var r := GetMany(get, data, n);
            r.Done? ==> |r.value| == n && forall x :: x in r.value ==> ok(x)
    decreases n
  {
    if n > 0 && get(data).Done? {
      ManyRead(get, ok, get(data).rest, n - 1);
    }
  }

  /** FNV-1a steps over the bytes, from the program's own starting value. */
  function Fnv1a(data: seq<Byte>): (h: bv64) {
    if data == [] then 1469598103934665603
    else (Fnv1a(data[..|data| - 1]) ^ (data[|data| - 1] as bv64)) * 1099511628211
  }

  function Checksum(data: seq<Byte>): nat {
    Fnv1a(data) as nat
  }
}
