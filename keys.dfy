/**
 * Record keys of the store: `itob` in internal/collector/collector.go writes
 * `uint64(v)` into 8 bytes, most significant byte first
 * (`binary.BigEndian.PutUint64`). The store keeps keys in `bytes.Compare`
 * order, which is what the /metrics cursor walks.
 */
module Keys {

  const Two64: int := 0x1_0000_0000_0000_0000

  /** Go's int64. */
  type Int64 = v: int | -0x8000_0000_0000_0000 <= v < 0x8000_0000_0000_0000

  type Byte = b: int | 0 <= b < 256

  /** `uint64(v)`: the two's-complement bits of `v` read as unsigned. */
  function U64(v: Int64): (u: nat)
    ensures u < Two64
    ensures 0 <= v ==> u == v
    ensures v < 0 ==> u == v + Two64
  {
    v % Two64
  }

  function Pow256(k: nat): (p: nat)
    ensures 1 <= p
  {
    if k == 0 then 1 else 256 * Pow256(k - 1)
  }

  /** Byte `i` of `u` written big-endian into `n` bytes: `byte(u >> (8 * (n - 1 - i)))`. */
  function BigEndian(u: nat, n: nat): (b: seq<Byte>)
    ensures |b| == n
  {
    seq(n, i requires 0 <= i < n => (u / Pow256(n - 1 - i)) % 256)
  }

  /** `binary.BigEndian.Uint64`: the number the bytes spell, most significant first. */
  function BigEndianValue(b: seq<Byte>): nat {
    if b == [] then 0 else b[0] * Pow256(|b| - 1) + BigEndianValue(b[1..])
  }

  /** The key `itob(v)` produces. */
  function Encode(v: Int64): seq<Byte> {
    BigEndian(U64(v), 8)
  }

  /** `bytes.Compare(a, b) < 0`. */
  predicate LexLess(a: seq<Byte>, b: seq<Byte>) {
    if a == [] then b != []
    else b != [] && (a[0] < b[0] || (a[0] == b[0] && LexLess(a[1..], b[1..])))
  }

  /** `itob`: a fresh 8-byte buffer filled the way `PutUint64` fills it. */
  method Itob(v: Int64) returns (b: array<Byte>)
    ensures fresh(b) && b.Length == 8
    ensures b[..] == Encode(v)
  {
    var u := U64(v);
    b := new Byte[8];
    b[0] := (u / 0x100_0000_0000_0000) % 256;
    b[1] := (u / 0x1_0000_0000_0000) % 256;
    b[2] := (u / 0x100_0000_0000) % 256;
    b[3] := (u / 0x1_0000_0000) % 256;
    b[4] := (u / 0x100_0000) % 256;
    b[5] := (u / 0x1_0000) % 256;
    b[6] := (u / 0x100) % 256;
    b[7] := u % 256;
    Pow256Values();
  }

  lemma Pow256Values()
    ensures Pow256(0) == 1 && Pow256(1) == 0x100 && Pow256(2) == 0x1_0000
    ensures Pow256(3) == 0x100_0000 && Pow256(4) == 0x1_0000_0000
    ensures Pow256(5) == 0x100_0000_0000 && Pow256(6) == 0x1_0000_0000_0000
    ensures Pow256(7) == 0x100_0000_0000_0000 && Pow256(8) == Two64
  {
  }

  lemma Distrib(x: int, y: int, z: int)
    ensures (x + y) * z == x * z + y * z
  {
  }

  lemma MulNonneg(x: int, y: int)
    requires 0 <= x && 0 <= y
    ensures 0 <= x * y
  {
  }

  /** Division with remainder has one answer. */
  lemma ModUnique(u: int, d: int, q: int, r: int)
    requires 0 < d && 0 <= r < d && u == q * d + r
    ensures u / d == q && u % d == r
  {
    var q', r' := u / d, u % d;
    assert u == q' * d + r';
    if q > q' {
      var k := q - q' - 1;
      Distrib(q' + 1, k, d);
      Distrib(q', 1, d);
      MulNonneg(k, d);
      assert false;
    } else if q < q' {
      var k := q' - q - 1;
      Distrib(q + 1, k, d);
      Distrib(q, 1, d);
      MulNonneg(k, d);
      assert false;
    }
  }

  /** Splitting off the top byte of a remainder: `u mod 256p` is its byte above `p` and `u mod p`. */
  lemma ModSplit(u: nat, p: nat)
    requires 0 < p
    ensures ((u / p) % 256) * p + u % p == u % (256 * p)
  {
    var q, r := u / p, u % p;
    var q1, q0 := q / 256, q % 256;
    assert u == q * p + r;
    assert q == q1 * 256 + q0;
    Distrib(q1 * 256, q0, p);
    assert q * p == q1 * (256 * p) + q0 * p;
    MulNonneg(255 - q0, p);
    Distrib(q0, 255 - q0, p);
    assert q0 * p <= 255 * p;
    ModUnique(u, 256 * p, q1, q0 * p + r);
  }

  lemma BigEndianTail(u: nat, n: nat)
    requires 0 < n
    ensures BigEndian(u, n)[0] == (u / Pow256(n - 1)) % 256
    ensures BigEndian(u, n)[1..] == BigEndian(u, n - 1)
  {
  }

  /** Reading the bytes back gives `u` modulo the width. */
  lemma {:induction false} BigEndianRoundTrip(u: nat, n: nat)
    ensures BigEndianValue(BigEndian(u, n)) == u % Pow256(n)
  {
    if n > 0 {
      var p := Pow256(n - 1);
      BigEndianTail(u, n);
      BigEndianRoundTrip(u, n - 1);
      ModSplit(u, p);
    }
  }

  /** Comparing `a * p + b` with `c * p + d` when `b` and `d` are below `p` compares `(a, b)` with `(c, d)`. */
  lemma PairOrder(a: nat, b: nat, c: nat, d: nat, p: nat)
    requires b < p && d < p
    ensures a * p + b < c * p + d <==> a < c || (a == c && b < d)
  {
    if a < c {
      assert (a + 1) * p <= c * p;
    } else if c < a {
      assert (c + 1) * p <= a * p;
    }
  }

  /** Byte order of two big-endian encodings is the order of the encoded values. */
  lemma {:induction false} BigEndianOrder(u: nat, w: nat, n: nat)
    ensures LexLess(BigEndian(u, n), BigEndian(w, n)) <==> u % Pow256(n) < w % Pow256(n)
  {
    if n > 0 {
      var p := Pow256(n - 1);
      BigEndianTail(u, n);
      BigEndianTail(w, n);
      BigEndianOrder(u, w, n - 1);
      ModSplit(u, p);
      ModSplit(w, p);
      PairOrder((u / p) % 256, u % p, (w / p) % 256, w % p, p);
    }
  }

  /** `itob` always yields eight bytes, and `BigEndian.Uint64` recovers `uint64(v)`. */
  lemma ItobRoundTrip(v: Int64)
    ensures |Encode(v)| == 8
    ensures BigEndianValue(Encode(v)) == U64(v)
  {
    BigEndianRoundTrip(U64(v), 8);
    Pow256Values();
    ModUnique(U64(v), Two64, 0, U64(v));
  }

  /**
   * For non-negative timestamps, key order is time order: the store's last
   * key is the newest record and each step back is an older one.
   */
  lemma ItobOrder(a: Int64, b: Int64)
    requires 0 <= a && 0 <= b
    ensures LexLess(Encode(a), Encode(b)) <==> a < b
  {
    BigEndianOrder(U64(a), U64(b), 8);
    Pow256Values();
    ModUnique(a, Two64, 0, a);
    ModUnique(b, Two64, 0, b);
  }

  /** Why the order needs non-negative keys: the key of -1 sorts after the key of 0. */
  lemma NegativeSortsLast()
    ensures -1 < 0 && LexLess(Encode(0), Encode(-1)) && !LexLess(Encode(-1), Encode(0))
  {
    BigEndianOrder(U64(0), U64(-1), 8);
    BigEndianOrder(U64(-1), U64(0), 8);
    Pow256Values();
    ModUnique(U64(-1), Two64, 0, U64(-1));
    ModUnique(0, Two64, 0, 0);
  }
}
