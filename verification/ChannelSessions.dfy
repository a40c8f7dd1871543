/** A channel over several handshakes. A client's pending hello is never cleared, so an answer
    can be accepted again, and then the session starts over with the same roots; a server starts
    over with every hello it accepts, with an ephemeral key and salt of its own. */
module ChannelSessions {
  import opened Bytes
  import opened Transcript
  import opened SecureChannel

  datatype Party = Party(suite: Suite, role: Role, net: Bytes, nodeId: Bytes, nodePub: Bytes, nodePriv: Option<Bytes>, aad: Bytes, rekeyEvery: nat)

  /** The first two turns are a client's, the third is a server's. */
  datatype Turn =
    | SendHs1(eph: Bytes, salt: Bytes)
    | AcceptHs2(h: Hello, pin: Option<Bytes>)
    | AcceptHs1(h: Hello, pin: Option<Bytes>, eph: Bytes, salt: Bytes)
    | Seal(msg: Bytes)

  /** What the key material of a session is made of: both ephemeral keys and both salts. */
  datatype Exchange = Exchange(own: Bytes, ownSalt: Bytes, peer: Bytes, peerSalt: Bytes)

  datatype Session = Session(x: Exchange, sent: nat)
  datatype Sealed = Sealed(session: nat, seqNo: nat, cipher: Bytes)
  datatype History = History(pending: Option<(Bytes, Bytes)>, sessions: seq<Session>, packets: seq<Sealed>)

  /** The roots to send and to receive with: the halves of the material, swapped at the server. */
  function RootsOf(p: Party, x: Exchange): (Bytes, Bytes) {
    var shared, pub := p.suite.dh(x.own, x.peer), p.suite.ephPub(x.own);
    if p.role == Client then
      Material(p.suite, shared, p.net, pub, x.ownSalt, x.peer, x.peerSalt)
    else
      var m := Material(p.suite, shared, p.net, x.peer, x.peerSalt, pub, x.ownSalt);
      (m.1, m.0)
  }

  /** Why the answer is refused to a client whose last hello is known. */
  function RefusalOf(p: Party, pending: (Bytes, Bytes), h: Hello, pin: Option<Bytes>): Option<Reason> {
    Refusal(p.suite, Hs2, p.net, h, pin,
            Join(Hs2Parts(p.net, h.eph, h.salt, p.suite.ephPub(pending.0), pending.1, h.nodeId, h.nodePub)))
  }

  /** Why a hello is refused to a server. */
  function HelloRefusalOf(p: Party, h: Hello, pin: Option<Bytes>): Option<Reason> {
    Refusal(p.suite, Hs1, p.net, h, pin, Join(Hs1Parts(p.net, h.eph, h.salt, h.nodeId, h.nodePub)))
  }

  function After(p: Party, s: History, t: Turn): History
    requires p.rekeyEvery > 0
  {
    match t
    case SendHs1(eph, salt) => if p.role != Client || p.nodePriv.None? then s else s.(pending := Some((eph, salt)))
    case AcceptHs2(h, pin) =>
      if p.role != Client || s.pending.None? || RefusalOf(p, s.pending.value, h, pin) != None then s
      else s.(sessions := s.sessions + [Session(Exchange(s.pending.value.0, s.pending.value.1, h.eph, h.salt), 0)])
    case AcceptHs1(h, pin, eph, salt) =>
      if p.role != Server || p.nodePriv.None? || HelloRefusalOf(p, h, pin) != None then s
      else s.(sessions := s.sessions + [Session(Exchange(eph, salt, h.eph, h.salt), 0)])
    case Seal(msg) =>
      if s.sessions == [] then s
      else
        var n := |s.sessions| - 1;
        var last := s.sessions[n];
        match SendOutcome(p.suite, Some(RootsOf(p, last.x).0), p.aad, p.rekeyEvery, last.sent, msg)
        case Packet(seqNo, c) =>
          s.(sessions := s.sessions[n := last.(sent := seqNo)], packets := s.packets + [Sealed(n, seqNo, c)])
        case _ => s
  }

  const FRESH: History := History(None, [], [])

  function Course(p: Party, turns: seq<Turn>): History
    requires p.rekeyEvery > 0
  {
    if turns == [] then FRESH else After(p, Course(p, turns[..|turns| - 1]), turns[|turns| - 1])
  }

  // ---------- key and nonce ----------

  predicate InOrder(s: History) {
    && (forall i :: 0 <= i < |s.packets| ==> s.packets[i].session < |s.sessions|)
    && (forall i :: 0 <= i < |s.packets| ==> 1 <= s.packets[i].seqNo <= s.sessions[s.packets[i].session].sent)
    && (forall a :: 0 <= a < |s.sessions| ==> s.sessions[a].sent < U64_LIMIT)
    && (forall i, j :: 0 <= i < j < |s.packets| && s.packets[i].session == s.packets[j].session ==> s.packets[i].seqNo < s.packets[j].seqNo)
  }

  /** Every session that sealed anything has a first packet. */
  predicate Started(s: History) {
    forall a :: 0 <= a < |s.sessions| && s.sessions[a].sent > 0 ==>
      exists i :: 0 <= i < |s.packets| && s.packets[i].session == a && s.packets[i].seqNo == 1
  }

  lemma AfterKeepsOrder(p: Party, s: History, t: Turn)
    requires p.rekeyEvery > 0 && InOrder(s)
    ensures InOrder(After(p, s, t))
  {
    match t
    case SendHs1(_, _) =>
    case AcceptHs2(h, pin) =>
      if s.pending.Some? { OpeningKeepsOrder(s, Exchange(s.pending.value.0, s.pending.value.1, h.eph, h.salt)); }
    case AcceptHs1(h, _, eph, salt) => OpeningKeepsOrder(s, Exchange(eph, salt, h.eph, h.salt));
    case Seal(msg) => SealKeepsOrder(p, s, msg);
  }

  lemma SealKeepsOrder(p: Party, s: History, msg: Bytes)
    requires p.rekeyEvery > 0 && InOrder(s)
    ensures InOrder(After(p, s, Seal(msg)))
  {
    if s.sessions != [] {
      var last := s.sessions[|s.sessions| - 1];
      var r := SendOutcome(p.suite, Some(RootsOf(p, last.x).0), p.aad, p.rekeyEvery, last.sent, msg);
      if r.Packet? { SealingKeepsOrder(s, r.cipher); }
    }
  }

  lemma OpeningKeepsOrder(s: History, x: Exchange)
    requires InOrder(s)
    ensures InOrder(s.(sessions := s.sessions + [Session(x, 0)]))
  {
  }

  lemma SealingKeepsOrder(s: History, cipher: Bytes)
    requires InOrder(s) && s.sessions != [] && s.sessions[|s.sessions| - 1].sent + 1 < U64_LIMIT
    ensures var n := |s.sessions| - 1;
            var seqNo := s.sessions[n].sent + 1;
            InOrder(s.(sessions := s.sessions[n := s.sessions[n].(sent := seqNo)], packets := s.packets + [Sealed(n, seqNo, cipher)]))
  {
  }

  lemma AfterKeepsStarted(p: Party, s: History, t: Turn)
    requires p.rekeyEvery > 0 && Started(s)
    ensures Started(After(p, s, t))
  {
    var s' := After(p, s, t);
    forall a | 0 <= a < |s'.sessions| && s'.sessions[a].sent > 0
      ensures exists i :: 0 <= i < |s'.packets| && s'.packets[i].session == a && s'.packets[i].seqNo == 1
    {
      if a < |s.sessions| && s.sessions[a].sent > 0 {
        var i :| 0 <= i < |s.packets| && s.packets[i].session == a && s.packets[i].seqNo == 1;
        assert s'.packets[i] == s.packets[i];
      } else {
        assert s'.packets[|s.packets|].session == a;
      }
    }
  }

  lemma {:induction false} CourseInOrder(p: Party, turns: seq<Turn>)
    requires p.rekeyEvery > 0
    ensures InOrder(Course(p, turns)) && Started(Course(p, turns))
  {
    if turns != [] {
      var front, t := turns[..|turns| - 1], turns[|turns| - 1];
      CourseInOrder(p, front);
      AfterKeepsOrder(p, Course(p, front), t);
      AfterKeepsStarted(p, Course(p, front), t);
    }
  }

  function ExchangeOf(s: History, i: nat): Exchange
    requires i < |s.packets| && s.packets[i].session < |s.sessions|
  {
    s.sessions[s.packets[i].session].x
  }

  function KeyOf(p: Party, x: Exchange, seqNo: nat): Bytes
    requires p.rekeyEvery > 0
  {
    EpochKey(p.suite, RootsOf(p, x).0, p.aad, p.rekeyEvery, seqNo)
  }

  /** The key and the nonce of a packet. */
  function PairOf(p: Party, s: History, i: nat): (Bytes, Bytes)
    requires p.rekeyEvery > 0 && i < |s.packets| && s.packets[i].session < |s.sessions|
  {
    (KeyOf(p, ExchangeOf(s, i), s.packets[i].seqNo), BigEndian(12, s.packets[i].seqNo))
  }

  /** The key derivation does not collide on the exchanges at hand. */
  predicate KeysDistinct(p: Party, s: History)
    requires p.rekeyEvery > 0
  {
    forall a, b, i :: 0 <= a < |s.sessions| && 0 <= b < |s.sessions| && 0 <= i < |s.packets| ==>
      KeyOf(p, s.sessions[a].x, s.packets[i].seqNo) == KeyOf(p, s.sessions[b].x, s.packets[i].seqNo) ==> s.sessions[a].x == s.sessions[b].x
  }

  /** No two packets of the party have the same key and nonce. */
  predicate PairsUnique(p: Party, s: History)
    requires p.rekeyEvery > 0 && InOrder(s)
  {
    forall i, j :: 0 <= i < j < |s.packets| ==> PairOf(p, s, i) != PairOf(p, s, j)
  }

  /** No exchange is taken up again: for a client, no answer with the same key and salt is
      accepted twice for the same hello, both times with packets to follow; for a server, no
      ephemeral key and salt are chosen twice for the same hello. */
  predicate NoExchangeTwice(s: History) {
    forall a, b :: 0 <= a < b < |s.sessions| && s.sessions[a].sent > 0 && s.sessions[b].sent > 0 ==> s.sessions[a].x != s.sessions[b].x
  }

  /** Over all handshakes and packets of a client or of a server, key and nonce never repeat if
      and only if no exchange is taken up twice. */
  lemma PairsUniqueExactlyWhen(p: Party, turns: seq<Turn>)
    requires p.rekeyEvery > 0 && KeysDistinct(p, Course(p, turns))
    ensures InOrder(Course(p, turns))
    ensures PairsUnique(p, Course(p, turns)) <==> NoExchangeTwice(Course(p, turns))
  {
    CourseInOrder(p, turns);
    if PairsUnique(p, Course(p, turns)) {
      UniqueIsOnce(p, Course(p, turns));
    } else if NoExchangeTwice(Course(p, turns)) {
      OnceIsUnique(p, Course(p, turns));
    }
  }

  lemma UniqueIsOnce(p: Party, s: History)
    requires p.rekeyEvery > 0 && InOrder(s) && Started(s) && PairsUnique(p, s)
    ensures NoExchangeTwice(s)
  {
    forall a, b | 0 <= a < b < |s.sessions| && s.sessions[a].sent > 0 && s.sessions[b].sent > 0
      ensures s.sessions[a].x != s.sessions[b].x
    {
      FirstPacketsDiffer(p, s, a, b);
    }
  }

  lemma FirstPacketsDiffer(p: Party, s: History, a: nat, b: nat)
    requires p.rekeyEvery > 0 && InOrder(s) && Started(s) && PairsUnique(p, s)
    requires a < b < |s.sessions| && s.sessions[a].sent > 0 && s.sessions[b].sent > 0
    ensures s.sessions[a].x != s.sessions[b].x
  {
    var i := FirstPacket(p, s, a);
    var j := FirstPacket(p, s, b);
    if i < j { assert PairOf(p, s, i) != PairOf(p, s, j); } else { assert PairOf(p, s, j) != PairOf(p, s, i); }
  }

  lemma OnceIsUnique(p: Party, s: History)
    requires p.rekeyEvery > 0 && InOrder(s) && KeysDistinct(p, s) && NoExchangeTwice(s)
    ensures PairsUnique(p, s)
  {
    forall i, j | 0 <= i < j < |s.packets| ensures PairOf(p, s, i) != PairOf(p, s, j) {
      PairsDiffer(p, s, i, j);
    }
  }

  /** The first packet of a session in use, and its key and nonce. */
  lemma FirstPacket(p: Party, s: History, a: nat) returns (i: nat)
    requires p.rekeyEvery > 0 && InOrder(s) && Started(s) && a < |s.sessions| && s.sessions[a].sent > 0
    ensures i < |s.packets| && s.packets[i].session == a
    ensures PairOf(p, s, i) == (KeyOf(p, s.sessions[a].x, 1), BigEndian(12, 1))
  {
    i :| 0 <= i < |s.packets| && s.packets[i].session == a && s.packets[i].seqNo == 1;
  }

  lemma PairsDiffer(p: Party, s: History, i: nat, j: nat)
    requires p.rekeyEvery > 0 && InOrder(s) && KeysDistinct(p, s) && NoExchangeTwice(s) && i < j < |s.packets|
    ensures PairOf(p, s, i) != PairOf(p, s, j)
  {
    var m, n := s.packets[i], s.packets[j];
    if BigEndian(12, m.seqNo) == BigEndian(12, n.seqNo) {
      NonceInjective(m.seqNo, n.seqNo);
      assert m.session != n.session;
      var a, b := if m.session < n.session then m.session else n.session, if m.session < n.session then n.session else m.session;
      assert s.sessions[a].x != s.sessions[b].x;
    }
  }

  /** The failing input: the same answer accepted twice, with a packet after each. */
  lemma AcceptedTwiceRepeats(p: Party, eph: Bytes, salt: Bytes, h: Hello, pin: Option<Bytes>, msg: Bytes)
    requires p.role == Client && p.rekeyEvery > 0 && p.nodePriv.Some? && RefusalOf(p, (eph, salt), h, pin) == None
    requires SealAt(p.suite, RootsOf(p, Exchange(eph, salt, h.eph, h.salt)).0, p.aad, p.rekeyEvery, 1, msg).Some?
    ensures var s := Course(p, [SendHs1(eph, salt)] + [AcceptHs2(h, pin)] + [Seal(msg)] + [AcceptHs2(h, pin)] + [Seal(msg)]);
            InOrder(s) && |s.packets| == 2 && PairOf(p, s, 0) == PairOf(p, s, 1)
  {
    var t1, t2, t3 := SendHs1(eph, salt), AcceptHs2(h, pin), Seal(msg);
    var x := Exchange(eph, salt, h.eph, h.salt);
    CourseInOrder(p, [t1] + [t2] + [t3] + [t2] + [t3]);
    CourseIs(p, [], t1);
    assert [] + [t1] == [t1];
    CourseIs(p, [t1], t2);
    CourseIs(p, [t1] + [t2], t3);
    CourseIs(p, [t1] + [t2] + [t3], t2);
    CourseIs(p, [t1] + [t2] + [t3] + [t2], t3);
    var s1 := AcceptIs(p, eph, salt, h, pin, FRESH.(pending := Some((eph, salt))));
    var s2 := SealIs(p, s1, x, msg);
    var s3 := AcceptIs(p, eph, salt, h, pin, s2);
    var s4 := SealIs(p, s3, x, msg);
  }

  /** Accepting an answer starts a session; the hello stays pending. */
  lemma AcceptIs(p: Party, eph: Bytes, salt: Bytes, h: Hello, pin: Option<Bytes>, s: History) returns (s': History)
    requires p.role == Client && p.rekeyEvery > 0 && s.pending == Some((eph, salt)) && RefusalOf(p, (eph, salt), h, pin) == None
    ensures s' == After(p, s, AcceptHs2(h, pin)) && s'.pending == s.pending && s'.packets == s.packets
    ensures s'.sessions == s.sessions + [Session(Exchange(eph, salt, h.eph, h.salt), 0)]
  {
    s' := After(p, s, AcceptHs2(h, pin));
  }

  // ---------- a server ----------

  /** Of two hellos that a server accepts, each meets an ephemeral key and salt of its own. */
  predicate FreshKeys(turns: seq<Turn>) {
    forall i, j :: 0 <= i < j < |turns| && turns[i].AcceptHs1? && turns[j].AcceptHs1? ==>
      turns[i].eph != turns[j].eph || turns[i].salt != turns[j].salt
  }

  /** The exchange takes its own part from one of the turns. */
  predicate ChosenIn(x: Exchange, turns: seq<Turn>) {
    exists i :: 0 <= i < |turns| && turns[i].AcceptHs1? && x.own == turns[i].eph && x.ownSalt == turns[i].salt
  }

  predicate OwnPartsDiffer(s: History) {
    forall a, b :: 0 <= a < b < |s.sessions| ==>
      s.sessions[a].x.own != s.sessions[b].x.own || s.sessions[a].x.ownSalt != s.sessions[b].x.ownSalt
  }

  lemma {:induction false} ServerChooses(p: Party, turns: seq<Turn>)
    requires p.role == Server && p.rekeyEvery > 0 && FreshKeys(turns)
    ensures OwnPartsDiffer(Course(p, turns))
    ensures forall a :: 0 <= a < |Course(p, turns).sessions| ==> ChosenIn(Course(p, turns).sessions[a].x, turns)
  {
    if turns != [] {
      var front, t := turns[..|turns| - 1], turns[|turns| - 1];
      ServerChooses(p, front);
      var s, s' := Course(p, front), Course(p, turns);
      forall a | 0 <= a < |s'.sessions| ensures ChosenIn(s'.sessions[a].x, turns) {
        if a < |s.sessions| {
          assert s'.sessions[a].x == s.sessions[a].x;
          var i :| 0 <= i < |front| && front[i].AcceptHs1? && s.sessions[a].x.own == front[i].eph && s.sessions[a].x.ownSalt == front[i].salt;
          assert turns[i] == front[i];
        } else {
          assert turns[|turns| - 1] == t;
        }
      }
    }
  }

  /** A server with fresh ephemeral keys never seals twice under one key and nonce, whatever
      hellos arrive and however often one is replayed. */
  lemma FreshServerNeverRepeats(p: Party, turns: seq<Turn>)
    requires p.role == Server && p.rekeyEvery > 0 && FreshKeys(turns) && KeysDistinct(p, Course(p, turns))
    ensures InOrder(Course(p, turns)) && PairsUnique(p, Course(p, turns))
  {
    ServerChooses(p, turns);
    PairsUniqueExactlyWhen(p, turns);
  }

  /** The first packet of a session has number 1. */
  lemma SealIs(p: Party, s: History, x: Exchange, msg: Bytes) returns (s': History)
    requires p.rekeyEvery > 0 && s.sessions != [] && s.sessions[|s.sessions| - 1] == Session(x, 0)
    requires SealAt(p.suite, RootsOf(p, x).0, p.aad, p.rekeyEvery, 1, msg).Some?
    ensures s' == After(p, s, Seal(msg)) && s'.pending == s.pending
    ensures s'.sessions == s.sessions[|s.sessions| - 1 := Session(x, 1)]
    ensures |s'.packets| == |s.packets| + 1 && s'.packets[..|s.packets|] == s.packets
    ensures s'.packets[|s.packets|].session == |s.sessions| - 1 && s'.packets[|s.packets|].seqNo == 1
  {
    s' := After(p, s, Seal(msg));
  }

  lemma CourseIs(p: Party, turns: seq<Turn>, t: Turn)
    requires p.rekeyEvery > 0
    ensures Course(p, turns + [t]) == After(p, Course(p, turns), t)
  {
    assert (turns + [t])[..|turns|] == turns;
  }

  // ---------- on the channel object ----------

  predicate SaltFits(t: Turn) { t.SendHs1? || t.AcceptHs1? ==> |t.salt| == 16 }

  ghost predicate Plays(channel: SecureChannel, p: Party)
    reads channel
  {
    && channel.Valid()
    && p == Party(channel.suite, channel.role, channel.netId, channel.nodeId, channel.nodePub, channel.nodePriv, channel.aad, channel.rekeyEvery)
  }

  /** The fields of the channel are those of the history: its pending hello and its last
      session. */
  ghost predicate Shows(channel: SecureChannel, p: Party, s: History)
    reads channel
  {
    && channel.clientEph == (if s.pending.Some? then Some(s.pending.value.0) else None)
    && channel.clientSalt == (if s.pending.Some? then Some(s.pending.value.1) else None)
    && if s.sessions == [] then channel.rootSend == None
       else
         var last := s.sessions[|s.sessions| - 1];
         channel.rootSend == Some(RootsOf(p, last.x).0) && channel.rootRecv == Some(RootsOf(p, last.x).1) && channel.sendCtr == last.sent
  }

  function Ciphers(packets: seq<Sealed>): (cs: seq<Bytes>)
    ensures |cs| == |packets|
  {
    seq(|packets|, i requires 0 <= i < |packets| => packets[i].cipher)
  }

  method PlayAccept(channel: SecureChannel, h: Hello, pin: Option<Bytes>, ghost p: Party, ghost s: History)
    requires Plays(channel, p) && Shows(channel, p, s)
    modifies channel
    ensures Plays(channel, p) && Shows(channel, p, After(p, s, AcceptHs2(h, pin)))
  {
    var _ := channel.ClientAcceptHs2(h, pin);
  }

  method PlayAnswer(channel: SecureChannel, h: Hello, pin: Option<Bytes>, eph: Bytes, salt: Bytes, ghost p: Party, ghost s: History)
    requires Plays(channel, p) && Shows(channel, p, s) && |salt| == 16
    modifies channel
    ensures Plays(channel, p) && Shows(channel, p, After(p, s, AcceptHs1(h, pin, eph, salt)))
  {
    var _ := channel.ServerAcceptHs1(h, pin, eph, salt);
  }

  method PlaySeal(channel: SecureChannel, msg: Bytes, ghost p: Party, ghost s: History) returns (sealed: seq<Bytes>)
    requires Plays(channel, p) && Shows(channel, p, s)
    modifies channel
    ensures Plays(channel, p) && Shows(channel, p, After(p, s, Seal(msg)))
    ensures Ciphers(After(p, s, Seal(msg)).packets) == Ciphers(s.packets) + sealed
  {
    var r := channel.Encrypt(msg);
    sealed := if r.Packet? then [r.cipher] else [];
  }

  /** One turn on the object, at any point of a history. */
  method PlayTurn(channel: SecureChannel, t: Turn, ghost p: Party, ghost s: History) returns (sealed: seq<Bytes>)
    requires Plays(channel, p) && Shows(channel, p, s) && SaltFits(t)
    modifies channel
    ensures Plays(channel, p) && Shows(channel, p, After(p, s, t))
    ensures Ciphers(After(p, s, t).packets) == Ciphers(s.packets) + sealed
  {
    sealed := [];
    match t
    case SendHs1(eph, salt) => var _ := channel.ClientBuildHs1(eph, salt);
    case AcceptHs2(h, pin) => PlayAccept(channel, h, pin, p, s);
    case AcceptHs1(h, pin, eph, salt) => PlayAnswer(channel, h, pin, eph, salt, p, s);
    case Seal(msg) => sealed := PlaySeal(channel, msg, p, s);
  }

  ghost predicate Played(channel: SecureChannel, p: Party, turns: seq<Turn>, sealed: seq<Bytes>)
    reads channel
  {
    Plays(channel, p) && Shows(channel, p, Course(p, turns)) && sealed == Ciphers(Course(p, turns).packets)
  }

  method PlayNext(channel: SecureChannel, t: Turn, ghost p: Party, ghost turns: seq<Turn>, sealed: seq<Bytes>) returns (more: seq<Bytes>)
    requires Played(channel, p, turns, sealed) && SaltFits(t)
    modifies channel
    ensures Played(channel, p, turns + [t], more)
  {
    CourseIs(p, turns, t);
    var tail := PlayTurn(channel, t, p, Course(p, turns));
    more := sealed + tail;
  }

  /** A channel channel put through any turns seals the packets of its history. */
  method Play(channel: SecureChannel, turns: seq<Turn>, ghost p: Party) returns (sealed: seq<Bytes>)
    requires Played(channel, p, [], [])
    requires forall i :: 0 <= i < |turns| ==> SaltFits(turns[i])
    modifies channel
    ensures Played(channel, p, turns, sealed)
  {
    sealed := [];
    for k := 0 to |turns|
      invariant Played(channel, p, turns[..k], sealed)
    {
      assert turns[..k + 1] == turns[..k] + [turns[k]];
      sealed := PlayNext(channel, turns[k], p, turns[..k], sealed);
    }
    assert turns[..|turns|] == turns;
  }

  /** Accepting the same answer again also makes packets acceptable again that were already
      accepted. */
  method AcceptTwiceAndReplay(client: SecureChannel, h: Hello, pin: Option<Bytes>, seqNo: u64, cipher: Bytes)
      returns (first: RecvResult, second: RecvResult)
    requires client.Valid() && client.Hs2Refusal(h, pin) == None
    modifies client
    ensures first == second
    ensures first == RecvOutcome(client.suite, Some(old(client.ClientRoots(h)).1), client.aad, client.rekeyEvery, -1, seqNo, cipher)
  {
    var _ := client.ClientAcceptHs2(h, pin);
    first := client.Decrypt(seqNo, cipher);
    var _ := client.ClientAcceptHs2(h, pin);
    second := client.Decrypt(seqNo, cipher);
  }
}
