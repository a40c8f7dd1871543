/** How an unspent output is stored: its textual key "txid:vout" and its binary record.
    Text is represented by its bytes. */
module UtxoRecord {
  import opened Bytes
  import opened Validation

  const COLON: u8 := 58
  const PLUS: u8 := 43

  // ---------- hexadecimal ----------

  type Nibble = x: int | 0 <= x < 16

  function HexDigit(n: Nibble): u8 { if n < 10 then 48 + n else 87 + n }

  function HexValue(ch: u8): Option<Nibble> {
    if 48 <= ch < 58 then Some(ch - 48)
    else if 97 <= ch < 103 then Some(ch - 87)
    else if 65 <= ch < 71 then Some(ch - 55)
    else None
  }

  function HexEncode(b: Bytes): Bytes {
    if b == [] then [] else [HexDigit(b[0] / 16), HexDigit(b[0] % 16)] + HexEncode(b[1..])
  }

  /** Either case of letter is read; an odd number of digits is an error. */
  function HexDecode(s: Bytes): Option<Bytes> {
    if s == [] then Some([])
    else if |s| == 1 then None
    else match (HexValue(s[0]), HexValue(s[1]), HexDecode(s[2..]))
      case (Some(hi), Some(lo), Some(rest)) => Some([16 * (hi as int) + lo] + rest)
      case _ => None
  }

  lemma {:induction false} HexRoundTrip(b: Bytes)
    ensures HexDecode(HexEncode(b)) == Some(b)
    ensures COLON !in HexEncode(b)
  {
    if b != [] {
      HexRoundTrip(b[1..]);
      var s := HexEncode(b);
      assert s[2..] == HexEncode(b[1..]);
      assert HexValue(s[0]) == Some(b[0] / 16) && HexValue(s[1]) == Some(b[0] % 16);
      assert [b[0]] + b[1..] == b;
    }
  }

  const DIGITS: string := "0123456789abcdef"

  /** Each byte gives two lower-case digits, the high half first. */
  lemma {:induction false} HexIs(b: Bytes)
    ensures |HexEncode(b)| == 2 * |b|
    ensures forall i :: 0 <= i < |b| ==> HexEncode(b)[2 * i] == DIGITS[b[i] / 16] as int && HexEncode(b)[2 * i + 1] == DIGITS[b[i] % 16] as int
  {
    if b != [] {
      HexIs(b[1..]);
      var s, t := HexEncode(b), HexEncode(b[1..]);
      forall i | 0 <= i < |b|
        ensures s[2 * i] == DIGITS[b[i] / 16] as int && s[2 * i + 1] == DIGITS[b[i] % 16] as int
      {
        if i > 0 {
          assert b[1..][i - 1] == b[i];
          assert s[2 * i] == t[2 * (i - 1)] && s[2 * i + 1] == t[2 * (i - 1) + 1];
        }
      }
    }
  }

  // ---------- decimal ----------

  function DecEncode(n: nat): Bytes {
    (if n < 10 then [] else DecEncode(n / 10)) + [48 + n % 10]
  }

  function DigitsValue(s: Bytes): Option<nat> {
    if s == [] then Some(0)
    else
      var last := s[|s| - 1];
      match DigitsValue(s[..|s| - 1])
      case Some(v) => if 48 <= last < 58 then Some(10 * v + (last - 48)) else None
      case None => None
  }

  /** Unsigned parsing: one leading plus sign is allowed, an empty number is not. */
  function ParseU32(s: Bytes): Option<u32> {
    var digits := if s != [] && s[0] == PLUS then s[1..] else s;
    if digits == [] then None
    else match DigitsValue(digits)
      case Some(v) => if v < U32_LIMIT then Some(v) else None
      case None => None
  }

  lemma {:induction false} DecRoundTrip(n: nat)
    ensures DecEncode(n) != [] && DigitsValue(DecEncode(n)) == Some(n)
    ensures forall ch :: ch in DecEncode(n) ==> 48 <= ch < 58
  {
    var front := if n < 10 then [] else DecEncode(n / 10);
    if n >= 10 { DecRoundTrip(n / 10); }
    AppendDigit(front, n / 10, n % 10);
    assert DecEncode(n) == front + [48 + n % 10];
  }

  /** A number is written without leading zeros. */
  lemma {:induction false} DecIsShortest(n: nat)
    ensures DecEncode(n) != [] && (n >= 10 ==> |DecEncode(n)| == |DecEncode(n / 10)| + 1)
    ensures n > 0 ==> 49 <= DecEncode(n)[0] < 58
    ensures n < 10 ==> DecEncode(n) == [48 + n]
  {
    if n >= 10 { DecIsShortest(n / 10); }
  }

  lemma AppendDigit(front: Bytes, v: nat, d: nat)
    requires DigitsValue(front) == Some(v) && d < 10
    ensures DigitsValue(front + [48 + d]) == Some(10 * v + d)
  {
    var s := front + [48 + d];
    assert s[..|s| - 1] == front;
  }

  lemma ParseU32Of(n: u32)
    ensures ParseU32(DecEncode(n)) == Some(n) && COLON !in DecEncode(n)
  {
    DecRoundTrip(n);
    assert DecEncode(n)[0] in DecEncode(n);
  }

  // ---------- keys ----------

  function KeyString(k: Outpoint): Bytes { HexEncode(k.txid) + [COLON] + DecEncode(k.vout) }

  /** A key is sixty-four hex digits, a colon and the shortest decimal form of the index. */
  lemma KeyIs(k: Outpoint)
    ensures |KeyString(k)| >= 65 && KeyString(k)[64] == 58
    ensures HexDecode(KeyString(k)[..64]) == Some(k.txid) && IsDecimal(KeyString(k)[65..], k.vout)
  {
    HexIs(k.txid);
    HexRoundTrip(k.txid);
    DecimalIs(k.vout);
    Halves(HexEncode(k.txid), DecEncode(k.vout));
  }

  /** Digits that mean `n`, with a zero in front for zero alone. */
  predicate IsDecimal(s: Bytes, n: nat) {
    s != [] && DigitsValue(s) == Some(n) && (s[0] == 48 ==> s == [48])
  }

  lemma DecimalIs(n: nat)
    ensures IsDecimal(DecEncode(n), n)
  {
    DecRoundTrip(n);
    DecIsShortest(n);
  }

  lemma Halves(a: Bytes, b: Bytes)
    requires |a| == 64
    ensures (a + [COLON] + b)[..64] == a && (a + [COLON] + b)[65..] == b
  {
  }

  function SplitColon(s: Bytes): (parts: seq<Bytes>)
    ensures |parts| > 0
  {
    if s == [] then [[]]
    else
      var rest := SplitColon(s[1..]);
      if s[0] == COLON then [[]] + rest else [[s[0]] + rest[0]] + rest[1..]
  }

  lemma {:induction false} SplitAtColon(a: Bytes, b: Bytes)
    requires COLON !in a && COLON !in b
    ensures SplitColon(a) == [a]
    ensures SplitColon(a + [COLON] + b) == [a, b]
  {
    var s := a + [COLON] + b;
    if a == [] {
      assert s[1..] == b;
      if b == [] { } else { SplitNoColon(b); }
    } else {
      assert s[1..] == a[1..] + [COLON] + b;
      SplitAtColon(a[1..], b);
      assert [a[0]] + a[1..] == a;
    }
  }

  lemma {:induction false} SplitNoColon(a: Bytes)
    requires COLON !in a
    ensures SplitColon(a) == [a]
  {
    if a != [] {
      SplitNoColon(a[1..]);
      assert [a[0]] + a[1..] == a;
    }
  }

  function ParsePrevoutKey(s: Bytes): Option<Outpoint> {
    var parts := SplitColon(s);
    if |parts| != 2 then None
    else match HexDecode(parts[0])
      case None => None
      case Some(txid) =>
        if |txid| != 32 then None
        else match ParseU32(parts[1])
          case None => None
          case Some(vout) => Some(Outpoint(txid, vout))
  }

  /** The key parser inverts the key builder. */
  lemma KeyRoundTrip(k: Outpoint)
    ensures ParsePrevoutKey(KeyString(k)) == Some(k)
  {
    HexRoundTrip(k.txid);
    ParseU32Of(k.vout);
    SplitAtColon(HexEncode(k.txid), DecEncode(k.vout));
  }

  lemma KeyInjective(k: Outpoint, l: Outpoint)
    requires KeyString(k) == KeyString(l)
    ensures k == l
  {
    KeyRoundTrip(k);
    KeyRoundTrip(l);
  }

  // ---------- records ----------

  /** amount u64, coinbase flag u8, height i64, script length u16, script; little-endian. */
  function EncodeEntry(e: Entry): Bytes {
    LE(8, e.amount) + [if e.isCoinbase then 1 else 0] + LE(8, ToU64(e.height)) + LE(2, |e.script| % 0x1_0000) + e.script
  }

  /** The loader: short records are skipped, and as many script bytes are taken as the
      length field says, if there are that many. */
  function DecodeEntry(v: Bytes): Option<Entry> {
    if |v| < 19 then None
    else
      var amount, height, len := FromLE(v[..8]), FromLE(v[9..17]), FromLE(v[17..19]);
      FromLEBound(v[..8]); FromLEBound(v[9..17]); FromLEBound(v[17..19]); PowConstants();
      var end := if 19 + len < |v| then 19 + len else |v|;
      Some(Entry(amount, v[19..end], v[8] != 0, ToI64(height)))
  }

  lemma EntryFields(e: Entry)
    ensures var v := EncodeEntry(e);
            && |v| == 19 + |e.script| && v[..8] == LE(8, e.amount) && v[8] == (if e.isCoinbase then 1 else 0)
            && v[9..17] == LE(8, ToU64(e.height)) && v[17..19] == LE(2, |e.script| % 0x1_0000) && v[19..] == e.script
  {
  }

  /** The record field by field: amount, coinbase flag, height as a 64-bit word, the script's
      length cut to sixteen bits, script. */
  lemma EntryIs(e: Entry)
    ensures var v := EncodeEntry(e);
            && |v| == 19 + |e.script| && FromLE(v[..8]) == e.amount && (v[8] == 1 <==> e.isCoinbase) && (v[8] == 0 <==> !e.isCoinbase)
            && FromLE(v[9..17]) == (if e.height >= 0 then e.height else e.height + 0x1_0000_0000_0000_0000)
            && FromLE(v[17..19]) == |e.script| % 0x1_0000 && v[19..] == e.script
  {
    EntryFields(e);
    PowConstants();
    LERoundTrip(8, e.amount);
    LERoundTrip(8, ToU64(e.height));
    LERoundTrip(2, |e.script| % 0x1_0000);
  }

  /** A record is read back as written exactly when its script is shorter than 65536 bytes:
      the length field keeps only sixteen bits. */
  lemma EntryRoundTripExactlyWhen(e: Entry)
    ensures DecodeEntry(EncodeEntry(e)) == Some(e) <==> |e.script| < 0x1_0000
  {
    var v := EncodeEntry(e);
    EntryFields(e);
    PowConstants();
    LERoundTrip(8, e.amount);
    LERoundTrip(8, ToU64(e.height));
    LERoundTrip(2, |e.script| % 0x1_0000);
    var len := |e.script| % 0x1_0000;
    if |e.script| < 0x1_0000 {
      assert v[19..19 + len] == e.script;
    } else {
      assert |v[19..19 + len]| == len < |e.script|;
    }
  }
}
