/** The byte strings of the secure channel: the signed transcripts, whose parts are joined
    by a separator, and the nonces, which spell a sequence number out. */
module Transcript {
  import opened Arith
  import opened Bytes

  const BAR: u8 := 124

  // ---------- joined parts ----------

  function Join(parts: seq<Bytes>): Bytes {
    if parts == [] then []
    else if |parts| == 1 then parts[0]
    else parts[0] + [BAR] + Join(parts[1..])
  }

  lemma {:induction false} JoinSnoc(parts: seq<Bytes>, p: Bytes)
    requires parts != []
    ensures Join(parts + [p]) == Join(parts) + [BAR] + p
  {
    assert (parts + [p])[1..] == parts[1..] + [p];
    if |parts| > 1 {
      JoinSnoc(parts[1..], p);
      var tail := Join(parts[1..]);
      assert parts[0] + [BAR] + (tail + [BAR] + p) == (parts[0] + [BAR] + tail) + [BAR] + p;
    } else {
      assert (parts + [p])[1..] == [p];
    }
  }

  lemma JoinSix(a: Bytes, b: Bytes, c: Bytes, d: Bytes, e: Bytes, f: Bytes)
    ensures Join([a, b, c, d, e, f]) == a + [BAR] + b + [BAR] + c + [BAR] + d + [BAR] + e + [BAR] + f
  {
    JoinSnoc([a], b);
    JoinSnoc([a, b], c);
    JoinSnoc([a, b, c], d);
    JoinSnoc([a, b, c, d], e);
    JoinSnoc([a, b, c, d, e], f);
    assert [a] + [b] == [a, b] && [a, b] + [c] == [a, b, c] && [a, b, c] + [d] == [a, b, c, d];
    assert [a, b, c, d] + [e] == [a, b, c, d, e] && [a, b, c, d, e] + [f] == [a, b, c, d, e, f];
  }

  method JoinParts(parts: seq<Bytes>) returns (out: Bytes)
    ensures out == Join(parts)
  {
    out := [];
    for idx := 0 to |parts|
      invariant out == Join(parts[..idx])
    {
      assert parts[..idx + 1] == parts[..idx] + [parts[idx]];
      if idx > 0 {
        JoinSnoc(parts[..idx], parts[idx]);
        out := out + [BAR];
      }
      out := out + parts[idx];
    }
    assert parts[..|parts|] == parts;
  }

  /** The lengths of all parts but one determine the last. */
  lemma {:induction false} JoinFixesLength(xs: seq<Bytes>, ys: seq<Bytes>, i: nat)
    requires i < |xs| == |ys| && |Join(xs)| == |Join(ys)|
    requires forall j :: 0 <= j < |xs| && j != i ==> |xs[j]| == |ys[j]|
    ensures |xs[i]| == |ys[i]|
  {
    if i == 0 {
      JoinLength(xs[1..], ys[1..]);
    } else {
      JoinFixesLength(xs[1..], ys[1..], i - 1);
    }
  }

  lemma {:induction false} JoinLength(xs: seq<Bytes>, ys: seq<Bytes>)
    requires |xs| == |ys| && forall j :: 0 <= j < |xs| ==> |xs[j]| == |ys[j]|
    ensures |Join(xs)| == |Join(ys)|
  {
    if |xs| > 1 { JoinLength(xs[1..], ys[1..]); }
  }

  /** Parts of the same lengths are read back from the joined string. */
  lemma {:induction false} JoinInjective(xs: seq<Bytes>, ys: seq<Bytes>)
    requires |xs| == |ys| && forall j :: 0 <= j < |xs| ==> |xs[j]| == |ys[j]|
    requires Join(xs) == Join(ys)
    ensures xs == ys
  {
    if |xs| > 0 {
      var n := |xs[0]|;
      assert xs[0] == Join(xs)[..n] && ys[0] == Join(ys)[..n];
      if |xs| > 1 {
        assert Join(xs[1..]) == Join(xs)[n + 1..] && Join(ys[1..]) == Join(ys)[n + 1..];
        JoinInjective(xs[1..], ys[1..]);
      }
      assert xs == [xs[0]] + xs[1..] && ys == [ys[0]] + ys[1..];
    }
  }

  // ---------- nonces ----------

  /** The last `n` big-endian digits of a number. */
  function BigEndian(n: nat, v: nat): (b: Bytes)
    ensures |b| == n
  {
    if n == 0 then [] else BigEndian(n - 1, v / 256) + [v % 256]
  }

  /** The digit in front of the last `n`. */
  lemma {:induction false} BigEndianFront(n: nat, v: nat)
    ensures BigEndian(n + 1, v) == [v / Pow256(n) % 256] + BigEndian(n, v)
  {
    if n > 0 {
      BigEndianFront(n - 1, v / 256);
      DivDiv(v, 256, Pow256(n - 1));
    }
  }

  lemma {:induction false} BigEndianRoundTrip(n: nat, v: nat)
    requires v < Pow256(n)
    ensures BE(BigEndian(n, v)) == v
  {
    if n > 0 {
      BigEndianRoundTrip(n - 1, v / 256);
      var b := BigEndian(n, v);
      assert b[..|b| - 1] == BigEndian(n - 1, v / 256);
    }
  }

  datatype NonceResult = Unsupported | Overflow | Nonce(bytes: Bytes)

  /** The nonce spells the sequence number out in big-endian order; a number that does not
      fit is an error, never cut off. */
  method SeqToNonce(seqNo: u64, nonceLen: nat) returns (r: NonceResult)
    ensures r == if nonceLen == 0 || nonceLen > 16 then Unsupported
                 else if seqNo >= Pow256(nonceLen) then Overflow
                 else Nonce(BigEndian(nonceLen, seqNo))
  {
    if nonceLen == 0 || nonceLen > 16 { return Unsupported; }
    var out := new u8[nonceLen](_ => 0);
    var value: nat := seqNo;
    for idx := 0 to nonceLen
      invariant value == seqNo / Pow256(idx)
      invariant out[nonceLen - idx..] == BigEndian(idx, seqNo)
    {
      var offset := nonceLen - 1 - idx;
      BigEndianFront(idx, seqNo);
      DivDiv256(seqNo, idx);
      out[offset] := value % 256;
      assert out[offset..] == [out[offset]] + out[offset + 1..];
      value := value / 256;
    }
    FitsWhen(seqNo, nonceLen);
    if value != 0 { return Overflow; }
    assert out[..] == out[0..];
    return Nonce(out[..]);
  }

  lemma DivDiv256(v: nat, n: nat)
    ensures v / Pow256(n) / 256 == v / Pow256(n + 1)
  {
    DivDiv(v, Pow256(n), 256);
    assert Pow256(n + 1) == Pow256(n) * 256;
  }

  lemma FitsWhen(v: nat, n: nat)
    ensures v / Pow256(n) == 0 <==> v < Pow256(n)
  {
    var p := Pow256(n);
    if v < p { Quotient(v, p, 0, v); }
    assert v == p * (v / p) + v % p;
  }

  /** Twelve bytes spell every 64-bit number, and no two the same way. */
  lemma NonceInjective(a: nat, b: nat)
    requires a < U64_LIMIT && b < U64_LIMIT && BigEndian(12, a) == BigEndian(12, b)
    ensures a == b
  {
    Twelve();
    BigEndianRoundTrip(12, a);
    BigEndianRoundTrip(12, b);
  }

  lemma Twelve()
    ensures U64_LIMIT <= Pow256(12)
  {
    PowConstants();
    assert Pow256(10) == 256 * Pow256(9) == 0x1_0000 * Pow256(8);
    assert Pow256(12) == 256 * Pow256(11) == 0x1_0000 * Pow256(10);
  }
}
