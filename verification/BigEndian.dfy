/** Fixed-width big-endian numbers, as encoding/binary writes and reads them. */
module BigEndian {
  import opened Common

  /** How many numbers fit in k bytes. */
  function Span(k: nat): nat {
    if k == 0 then 1 else 256 * Span(k - 1)
  }

  lemma {:induction false} SpanGrows(k: nat)
    requires k > 0
    ensures Span(k) >= 256
    ensures k > 1 ==> Span(k) >= 65536
  {
    if k > 1 { SpanGrows(k - 1); }
  }

  function Bytes(n: nat, k: nat): (b: seq<Byte>)
    requires n < Span(k)
    ensures |b| == k
  {
    if k == 0 then [] else Bytes(n / 256, k - 1) + [n % 256]
  }

  function Number(b: seq<Byte>): nat {
    if b == [] then 0 else 256 * Number(b[..|b| - 1]) + b[|b| - 1]
  }

  lemma {:induction false} NumberFits(b: seq<Byte>)
    ensures Number(b) < Span(|b|)
  {
    if b != [] { NumberFits(b[..|b| - 1]); }
  }

  lemma {:induction false} NumberOfBytes(n: nat, k: nat)
    requires n < Span(k)
    ensures Number(Bytes(n, k)) == n
  {
    if k > 0 {
      NumberOfBytes(n / 256, k - 1);
      assert Bytes(n, k)[..k - 1] == Bytes(n / 256, k - 1);
    }
  }

  lemma {:induction false} BytesOfNumber(b: seq<Byte>)
    ensures Number(b) < Span(|b|) && Bytes(Number(b), |b|) == b
  {
    NumberFits(b);
    if b != [] {
      BytesOfNumber(b[..|b| - 1]);
      assert b == b[..|b| - 1] + [b[|b| - 1]];
    }
  }

  /** The order bytes.Compare puts on equal-length strings: the first difference decides. */
  predicate Precedes(a: seq<Byte>, b: seq<Byte>)
    requires |a| == |b|
  {
    exists i :: 0 <= i < |a| && a[..i] == b[..i] && a[i] < b[i]
  }

  /** It is the order of the numbers, so identifiers of 32 bytes may be compared as numbers. */
  lemma {:induction false} PrecedesIsLess(a: seq<Byte>, b: seq<Byte>)
    requires |a| == |b|
    ensures Precedes(a, b) <==> Number(a) < Number(b)
  {
    if a == [] { return; }
    var n := |a| - 1;
    var p, q := a[..n], b[..n];
    PrecedesIsLess(p, q);
    if Precedes(a, b) {
      var i :| 0 <= i < |a| && a[..i] == b[..i] && a[i] < b[i];
      if i < n {
        assert p[..i] == a[..i] && q[..i] == b[..i];
        assert Precedes(p, q);
      }
    }
    if Number(a) < Number(b) {
      if Precedes(p, q) {
        var i :| 0 <= i < n && p[..i] == q[..i] && p[i] < q[i];
        assert p[..i] == a[..i] && q[..i] == b[..i];
      } else {
        assert Number(p) == Number(q);
        BytesOfNumber(p);
        BytesOfNumber(q);
        assert a[..n] == b[..n] && a[n] < b[n];
      }
    }
  }
}
