/** Byte strings, the truncated hash and the hash-chain step of the Hellman
    time-memory tradeoff (main.py:6-11, 27, 52, 57). */
module HashChain {

  newtype byte = b: int | 0 <= b < 256

  type Bytes = seq<byte>

  /** Length in bytes of a full SHA-512 digest. */
  const DigestSize: nat := 64

  /** Python's `len(range(n))`: the number of iterations of `for _ in range(n)`. */
  function Count(n: int): (c: nat)
    ensures n >= 0 ==> c == n
    ensures n < 0 ==> c == 0
  {
    if n < 0 then 0 else n
  }

  /** Python's slice `d[-nb:]` for a non-negative `nb`: the last `nb` bytes,
      except that `nb == 0` (`d[-0:] == d[0:]`) and `nb > len(d)` give all of `d`. */
  function Truncate(d: Bytes, nb: nat): (t: Bytes)
    ensures |t| == if 0 < nb <= |d| then nb else |d|
    ensures forall i :: 0 <= i < |t| ==> t[i] == d[|d| - |t| + i]
  {
    if 0 < nb <= |d| then d[|d| - nb..] else d
  }

  /** `R(x, r)`: the chain value followed by the table's mask. */
  function Reduce(x: Bytes, r: Bytes): (c: Bytes)
    ensures |c| == |x| + |r|
    ensures c[..|x|] == x && c[|x|..] == r
  {
    x + r
  }

  /** The hash primitive (SHA-512 in the source, an opaque function here) and
      the number of trailing digest bytes that are kept (`n_bytes`). */
  datatype Hasher = Hasher(full: Bytes -> Bytes, nBytes: nat) {

    /** `get_sha512(m)[-n_bytes:]` */
    function Apply(m: Bytes): (t: Bytes)
      ensures IsDigest(full) && 0 < nBytes <= DigestSize ==> |t| == nBytes

    {
      Truncate(full(m), nBytes)
    }
  }

  /** The primitive returns a full 64-byte digest on every input. */
  ghost predicate IsDigest(full: Bytes -> Bytes) {
    forall m :: |full(m)| == DigestSize
  }

  /** One chain step `get_sha512(R(x, r))[-n_bytes:]`: a 64-byte digest
      keeps `n_bytes` bytes, or all 64 when `n_bytes` is 0 or too large. */
  function Step(h: Hasher, r: Bytes, x: Bytes): (y: Bytes)
    ensures IsDigest(h.full) && 0 < h.nBytes <= DigestSize ==> |y| == h.nBytes
    ensures IsDigest(h.full) && (h.nBytes == 0 || h.nBytes > DigestSize) ==> |y| == DigestSize
  {
    h.Apply(Reduce(x, r))
  }

  /** `n` chain steps from `x` under mask `r`. */
  function Chain(h: Hasher, r: Bytes, x: Bytes, n: nat): (y: Bytes)
    ensures n > 0 && IsDigest(h.full) && 0 < h.nBytes <= DigestSize ==> |y| == h.nBytes
  {
    if n == 0 then x else Step(h, r, Chain(h, r, x, n - 1))
  }

  /** With `n_bytes == 0` the step keeps the whole digest (`d[-0:]` is all of `d`);
      with `1 <= n_bytes <= 64` it keeps exactly `n_bytes` trailing bytes. */
  lemma StepLength(h: Hasher, r: Bytes, x: Bytes)
    requires IsDigest(h.full)
    ensures h.nBytes == 0 ==> Step(h, r, x) == h.full(Reduce(x, r))
    ensures 0 < h.nBytes <= DigestSize ==>
              |Step(h, r, x)| == h.nBytes &&
              Step(h, r, x) == h.full(Reduce(x, r))[DigestSize - h.nBytes..]
  {
  }

  /** Chains compose: `a` steps followed by `b` steps are `a + b` steps. */
  lemma {:induction false} ChainAdd(h: Hasher, r: Bytes, x: Bytes, a: nat, b: nat)
    ensures Chain(h, r, Chain(h, r, x, a), b) == Chain(h, r, x, a + b)
  {
    if b > 0 {
      ChainAdd(h, r, x, a, b - 1);
      calc {
        Chain(h, r, Chain(h, r, x, a), b);
        Step(h, r, Chain(h, r, Chain(h, r, x, a), b - 1));
        Step(h, r, Chain(h, r, x, a + b - 1));
      }
    }
  }
}
