/** Scripts as the node holds them: a list of opcodes and pushes, read from bytes and written
    back with the shortest push there is. */
module Script {
  import opened Bytes
  import opened Validation

  /** What one push can hold: its length field has at most four bytes. */
  type Chunk = b: Bytes | |b| < U32_LIMIT

  datatype Cmd = Opcode(code: u8) | Push(data: Chunk)

  const PUSHDATA1: u8 := 0x4c
  const PUSHDATA2: u8 := 0x4d
  const PUSHDATA4: u8 := 0x4e

  // ---------- writing ----------

  function EncodePush(b: Chunk): Bytes {
    if |b| <= 75 then [|b|] + b
    else if |b| <= 255 then [PUSHDATA1, |b|] + b
    else if |b| <= 65535 then [PUSHDATA2] + LE(2, |b|) + b
    else [PUSHDATA4] + LE(4, |b|) + b
  }

  /** A push is its length and its data: up to 75 bytes the length itself is the opcode, and
      above it the opcodes 76, 77 and 78 announce a length of one, two and four bytes. */
  lemma PushIs(b: Chunk)
    ensures var s, n := EncodePush(b), |b|;
            if n <= 75 then |s| == n + 1 && s[0] == n && s[1..] == b
            else if n <= 255 then |s| == n + 2 && s[0] == 76 && s[1] == n && s[2..] == b
            else if n <= 65535 then |s| == n + 3 && s[0] == 77 && FromLE(s[1..3]) == n && s[3..] == b
            else |s| == n + 5 && s[0] == 78 && FromLE(s[1..5]) == n && s[5..] == b
  {
    PowConstants();
    var s, n := EncodePush(b), |b|;
    if 255 < n <= 65535 {
      LERoundTrip(2, n);
      assert s[1..3] == LE(2, n);
    } else if n > 65535 {
      LERoundTrip(4, n);
      assert s[1..5] == LE(4, n);
    }
  }

  function WriteCmd(c: Cmd): Bytes { match c case Opcode(code) => [code] case Push(b) => EncodePush(b) }

  function Write(cmds: seq<Cmd>): Bytes { Flat(WriteCmd, cmds) }

  method Serialize(cmds: seq<Cmd>) returns (out: Bytes)
    ensures out == Write(cmds)
  {
    out := [];
    for k := 0 to |cmds|
      invariant out == Write(cmds[..k])
    {
      FlatStep(WriteCmd, cmds, k);
      match cmds[k] {
        case Opcode(code) => out := out + [code];
        case Push(b) => out := out + EncodePush(b);
      }
    }
    assert cmds[..|cmds|] == cmds;
  }

  // ---------- reading ----------

  /** One command and the bytes behind it; nothing if they end too early. */
  datatype Item = ShortRead | Item(cmd: Cmd, rest: Bytes)

  /** A length field of `h` bytes and as many bytes as it says. */
  function ReadPush(s: Bytes, h: nat): (i: Item)
    requires h == 1 || h == 2 || h == 4
    ensures i.Item? ==> i.cmd.Push? && |i.cmd.data| < Pow256(h) && h + |i.cmd.data| + |i.rest| == |s|
  {
    if |s| < h then ShortRead
    else
      var n := FromLE(s[..h]);
      FromLEBound(s[..h]); PowConstants();
      if |s| - h < n then ShortRead else Item(Push(s[h..h + n]), s[h + n..])
  }

  function ReadCmd(s: Bytes): (i: Item)
    requires s != []
    ensures i.Item? ==> |i.rest| < |s|
  {
    var first, s' := s[0], s[1..];
    if 1 <= first <= 75 then
      if |s'| < first then ShortRead else Item(Push(s'[..first]), s'[first..])
    else if first == PUSHDATA1 then ReadPush(s', 1)
    else if first == PUSHDATA2 then ReadPush(s', 2)
    else if first == PUSHDATA4 then ReadPush(s', 4)
    else Item(Opcode(first), s')
  }

  function Parse(s: Bytes): Option<seq<Cmd>>
    decreases |s|
  {
    if s == [] then Some([])
    else match ReadCmd(s)
      case ShortRead => None
      case Item(cmd, rest) => match Parse(rest) case None => None case Some(cmds) => Some([cmd] + cmds)
  }

  /** Reads commands up to the end of the data, or fails at the first that is cut off. */
  method Deserialize(data: Bytes) returns (r: Option<seq<Cmd>>)
    ensures r == Parse(data)
  {
    var cmds: seq<Cmd> := [];
    var rest := data;
    assert Parse(data).Some? ==> cmds + Parse(data).value == Parse(data).value;
    while rest != []
      invariant Parse(data) == Behind(cmds, Parse(rest))
      decreases |rest|
    {
      match ReadCmd(rest) {
        case ShortRead => return None;
        case Item(cmd, tail) =>
          if Parse(tail).Some? { assert cmds + ([cmd] + Parse(tail).value) == (cmds + [cmd]) + Parse(tail).value; }
          cmds, rest := cmds + [cmd], tail;
      }
    }
    assert Parse([]) == Some([]) && cmds + [] == cmds;
    return Some(cmds);
  }

  function Behind(cmds: seq<Cmd>, more: Option<seq<Cmd>>): Option<seq<Cmd>> {
    if more.None? then None else Some(cmds + more.value)
  }

  // ---------- what survives ----------

  /** The bytes that are written for a script read from these. */
  function Rewritten(s: Bytes): (r: Option<Bytes>)
    ensures r.Some? ==> |r.value| <= |s|
  {
    match Parse(s)
    case None => None
    case Some(cmds) =>
      ParsedIsStandard(s);
      Some(Write(cmds))
  }

  predicate Survives(s: Bytes) { Rewritten(s) == Some(s) }

  /** Commands as they are read: opcodes that announce a push never stand alone. */
  predicate Standard(c: Cmd) { c.Opcode? ==> c.code == 0 || c.code > PUSHDATA4 }

  predicate AllStandard(cmds: seq<Cmd>) { forall i :: 0 <= i < |cmds| ==> Standard(cmds[i]) }

  /** An empty push is written as the opcode zero. */
  function Plain(c: Cmd): Cmd { if c == Push([]) then Opcode(0) else c }

  lemma LongPushIsRead(b: Chunk, h: nat, rest: Bytes)
    requires (h == 1 || h == 2 || h == 4) && |b| < Pow256(h)
    ensures ReadPush(LE(h, |b|) + b + rest, h) == Item(Push(b), rest)
  {
    var s := LE(h, |b|) + b + rest;
    LERoundTrip(h, |b|);
    assert s[..h] == LE(h, |b|);
    assert s[h..h + |b|] == b && s[h + |b|..] == rest;
  }

  lemma WrittenIsRead(c: Cmd, rest: Bytes)
    requires Standard(c)
    ensures ReadCmd(WriteCmd(c) + rest) == Item(Plain(c), rest)
  {
    PowConstants();
    var s := WriteCmd(c) + rest;
    match c
    case Opcode(code) => assert s[1..] == rest;
    case Push(b) =>
      if |b| <= 75 {
        assert s[1..][..|b|] == b && s[1..][|b|..] == rest;
      } else if |b| <= 255 {
        assert LE(1, |b|) == [|b|] + LE(0, |b| / 256) == [|b|];
        assert s[1..] == LE(1, |b|) + b + rest;
        assert Pow256(1) == 256;
        LongPushIsRead(b, 1, rest);
      } else if |b| <= 65535 {
        assert s[1..] == LE(2, |b|) + b + rest;
        LongPushIsRead(b, 2, rest);
      } else {
        assert s[1..] == LE(4, |b|) + b + rest;
        LongPushIsRead(b, 4, rest);
      }
  }

  function AllPlain(cmds: seq<Cmd>): (r: seq<Cmd>)
    ensures |r| == |cmds|
  {
    if cmds == [] then [] else [Plain(cmds[0])] + AllPlain(cmds[1..])
  }

  /** Standard commands are read back as written, up to empty pushes, which are written alike. */
  lemma {:induction false} ParseWritten(cmds: seq<Cmd>)
    requires AllStandard(cmds)
    ensures Parse(Write(cmds)) == Some(AllPlain(cmds)) && Write(AllPlain(cmds)) == Write(cmds)
  {
    if cmds != [] {
      ParseWritten(cmds[1..]);
      WrittenIsRead(cmds[0], Write(cmds[1..]));
      assert WriteCmd(cmds[0]) != [];
      assert AllPlain(cmds)[1..] == AllPlain(cmds[1..]);
    }
  }

  lemma {:induction false} ParsedIsStandard(s: Bytes)
    requires Parse(s).Some?
    ensures AllStandard(Parse(s).value) && |Write(Parse(s).value)| <= |s|
    decreases |s|
  {
    if s != [] {
      var i := ReadCmd(s);
      ParsedIsStandard(i.rest);
      ReadIsStandard(s);
      assert Parse(s).value[1..] == Parse(i.rest).value;
    }
  }

  /** Writing a command takes no more bytes than it was read from. */
  lemma ReadIsStandard(s: Bytes)
    requires s != [] && ReadCmd(s).Item?
    ensures Standard(ReadCmd(s).cmd) && |WriteCmd(ReadCmd(s).cmd)| + |ReadCmd(s).rest| <= |s|
  {
    PowConstants();
    assert Pow256(1) == 256;
  }

  /** Rewriting is done once: what was written for a script is written for it again. So a script
      that arrives as text, which is read into a list and written from it, survives. */
  lemma RewrittenSurvives(s: Bytes)
    requires Rewritten(s).Some?
    ensures Survives(Rewritten(s).value)
  {
    ParsedIsStandard(s);
    ParseWritten(Parse(s).value);
  }

  /** The scripts that survive are exactly those that are written for some standard commands. */
  lemma SurvivesExactlyWhen(s: Bytes)
    ensures Survives(s) <==> exists cmds :: AllStandard(cmds) && Write(cmds) == s
  {
    if Survives(s) {
      ParsedIsStandard(s);
      assert AllStandard(Parse(s).value) && Write(Parse(s).value) == s;
    }
    if cmds :| AllStandard(cmds) && Write(cmds) == s { ParseWritten(cmds); }
  }

  lemma WritePair(a: Cmd, b: Cmd)
    ensures Write([a, b]) == WriteCmd(a) + WriteCmd(b)
  {
    FlatStep(WriteCmd, [a, b], 0);
    FlatStep(WriteCmd, [a, b], 1);
    assert [a, b][..2] == [a, b];
  }

  /** Every script the validator can spend survives. */
  lemma SpendableSurvives(s: Bytes)
    requires DetectScriptKind(s).Some?
    ensures Survives(s)
  {
    var cmds := [Opcode(0), Push(s[2..])];
    WritePair(cmds[0], cmds[1]);
    assert s == [s[0]] + ([s[1]] + s[2..]);
    ParseWritten(cmds);
  }

  /** Rewriting never makes an OP_RETURN script, and never loses one. */
  lemma OpReturnStays(s: Bytes)
    requires Rewritten(s).Some?
    ensures IsOpReturn(Rewritten(s).value) <==> IsOpReturn(s)
  {
    if s != [] { assert Write(Parse(s).value) == WriteCmd(ReadCmd(s).cmd) + Write(Parse(s).value[1..]); }
  }

  /** The failing input: a key hash behind a longer push than needed, which nobody can spend,
      is rewritten to one that its owner can. */
  lemma LongerPushBecomesSpendable(hash20: Bytes)
    requires |hash20| == 20
    ensures var s := [0x00, 0x4c, 0x14] + hash20;
            && DetectScriptKind(s) == None && !IsOpReturn(s) && !Survives(s)
            && Rewritten(s).Some? && DetectScriptKind(Rewritten(s).value) == Some(P2wpkh(hash20))
  {
    var s, t := [0x00, 0x4c, 0x14] + hash20, [0x4c, 0x14] + hash20;
    OneByteLength(hash20);
    assert t[1..] == [0x14] + hash20 + [] && s[1..] == t;
    assert ReadCmd(t) == Item(Push(hash20), []);
    assert Parse([]) == Some([]);
    assert Parse(t) == Some([Push(hash20)] + []);
    assert Parse(s) == Some([Opcode(0)] + ([Push(hash20)] + []));
    assert [Opcode(0)] + ([Push(hash20)] + []) == [Opcode(0), Push(hash20)];
    WritePair(Opcode(0), Push(hash20));
    var w := Write([Opcode(0), Push(hash20)]);
    assert w == [0x00, 0x14] + hash20 && w[2..] == hash20;
  }

  lemma OneByteLength(b: Chunk)
    requires |b| < 256
    ensures ReadPush([|b|] + b + [], 1) == Item(Push(b), [])
  {
    assert Pow256(1) == 256;
    assert LE(1, |b|) == [|b|] + LE(0, |b| / 256) == [|b|];
    LongPushIsRead(b, 1, []);
  }

  /** The failing input: a push that is cut off cannot be read at all. */
  lemma CutOffPushIsUnreadable(n: u8, tail: Bytes)
    requires 1 <= n <= 75 && |tail| < n
    ensures Rewritten([n] + tail) == None
  {
    assert ([n] + tail)[1..] == tail;
  }
}
