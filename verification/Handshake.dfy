/** What an accepted handshake message proves about its sender. The network may change,
    replay or invent messages; the one assumption is that nobody else signs with a key: what
    verifies under it is a text its holder signed. */
module Handshake {
  import opened Bytes
  import opened Transcript
  import opened SecureChannel
  import opened ChannelRuns

  /** What the holder of a node key has signed: the answers and greetings of its channels, and
      whatever else, which never starts like a greeting or an answer. */
  datatype Signed =
    | AnAnswer(session: Session)
    | AGreeting(net: Bytes, eph: Bytes, salt: Bytes, id: Bytes, pub: Bytes)
    | Other(text: Bytes)

  function TextOf(suite: Suite, x: Signed): Bytes {
    match x
    case AnAnswer(s) => SignedText(suite, s)
    case AGreeting(net, eph, salt, id, pub) => Join(Hs1Parts(net, eph, salt, id, pub))
    case Other(text) => text
  }

  /** The fields of a signed text have the sizes the channels give them, and a node's id is a
      hex digest. */
  predicate HasSizes(x: Signed) {
    match x
    case AnAnswer(s) => |s.salt2| == |s.hello.salt| == 16 && |s.hello.eph| == |s.nodePub| == 32 && |s.nodeId| == 64
    case AGreeting(net, eph, salt, id, pub) => |eph| == |pub| == 32 && |salt| == 16 && |id| == 64
    case Other(text) => !(HS1 <= text) && !(HS2 <= text)
  }

  ghost predicate OnlySigned(suite: Suite, pub: Bytes, signed: set<Signed>) {
    && (forall x <- signed :: HasSizes(x))
    && forall text, sig :: suite.verify(pub, text, sig) ==> IsOneOf(suite, signed, text)
  }

  predicate IsOneOf(suite: Suite, signed: set<Signed>, text: Bytes) {
    exists x :: x in signed && TextOf(suite, x) == text
  }

  ghost predicate DhCommutes(suite: Suite) {
    forall a, b :: suite.dh(a, suite.ephPub(b)) == suite.dh(b, suite.ephPub(a))
  }

  // ---------- kinds of texts ----------

  lemma AnswerStarts(net: Bytes, eph2: Bytes, salt2: Bytes, eph1: Bytes, salt1: Bytes, id: Bytes, pub: Bytes)
    ensures HS2 <= Join(Hs2Parts(net, eph2, salt2, eph1, salt1, id, pub))
    ensures !(HS1 <= Join(Hs2Parts(net, eph2, salt2, eph1, salt1, id, pub)))
  {
    var text := Hs2Text(net, eph2, salt2, eph1, salt1, id, pub);
    assert text[2] == 50 && text[..3] == HS2;
  }

  lemma GreetingStarts(net: Bytes, eph: Bytes, salt: Bytes, id: Bytes, pub: Bytes)
    ensures HS1 <= Join(Hs1Parts(net, eph, salt, id, pub))
    ensures !(HS2 <= Join(Hs1Parts(net, eph, salt, id, pub)))
  {
    var text := Hs1Text(net, eph, salt, id, pub);
    assert text[2] == 49 && text[..3] == HS1;
  }

  /** A text checked as an answer was signed as an answer. */
  lemma AnswerIsAnAnswer(suite: Suite, x: Signed, net: Bytes, eph: Bytes, salt1: Bytes, h: Hello)
    requires HasSizes(x) && TextOf(suite, x) == CheckedText(suite, net, eph, salt1, h)
    ensures x.AnAnswer?
  {
    AnswerStarts(net, h.eph, h.salt, suite.ephPub(eph), salt1, h.nodeId, h.nodePub);
    if x.AGreeting? { GreetingStarts(x.net, x.eph, x.salt, x.id, x.pub); }
  }

  lemma GreetingIsAGreeting(suite: Suite, x: Signed, net: Bytes, h: Hello)
    requires HasSizes(x) && TextOf(suite, x) == Join(Hs1Parts(net, h.eph, h.salt, h.nodeId, h.nodePub))
    ensures x.AGreeting?
  {
    GreetingStarts(net, h.eph, h.salt, h.nodeId, h.nodePub);
    if x.AnAnswer? {
      var s := x.session;
      AnswerStarts(s.net, suite.ephPub(s.eph), s.salt2, s.hello.eph, s.hello.salt, s.nodeId, s.nodePub);
    }
  }

  // ---------- what an accepted answer proves ----------

  /** What the server of a session receives with and sends with. */
  function RootsOf(suite: Suite, s: Session): (Bytes, Bytes) {
    Material(suite, suite.dh(s.eph, s.hello.eph), s.net, s.hello.eph, s.hello.salt, suite.ephPub(s.eph), s.salt2)
  }

  /** The session of the server that answered: same network, this client's greeting, the eph
      and salt of the answer, and roots that mirror the client's. */
  ghost predicate IsPeerOf(suite: Suite, s: Session, net: Bytes, eph: Bytes, salt1: Bytes, h: Hello, up: Bytes, down: Bytes) {
    && s.net == net && s.nodeId == h.nodeId && s.nodePub == h.nodePub
    && s.hello.eph == suite.ephPub(eph) && s.hello.salt == salt1
    && suite.ephPub(s.eph) == h.eph && s.salt2 == h.salt
    && (up, down) == RootsOf(suite, s)
  }

  /** Whatever answer a client accepts, the holder of its key signed for this very exchange. */
  lemma AcceptedAnswerIsSigned(suite: Suite, signed: set<Signed>, net: Bytes, eph: Bytes, salt1: Bytes, h: Hello, pin: Option<Bytes>)
      returns (s: Session)
    requires |salt1| == 16 && DhCommutes(suite) && OnlySigned(suite, h.nodePub, signed)
    requires Refusal(suite, Hs2, net, h, pin, CheckedText(suite, net, eph, salt1, h)) == None
    ensures AnAnswer(s) in signed
    ensures var roots := Material(suite, suite.dh(eph, h.eph), net, suite.ephPub(eph), salt1, h.eph, h.salt);
            IsPeerOf(suite, s, net, eph, salt1, h, roots.0, roots.1)
  {
    var text := CheckedText(suite, net, eph, salt1, h);
    AcceptedIsVouched(suite, Hs2, net, h, pin, text);
    assert IsOneOf(suite, signed, text);
    var x :| x in signed && TextOf(suite, x) == text;
    AnswerIsAnAnswer(suite, x, net, eph, salt1, h);
    s := x.session;
    var xs := Hs2Parts(net, h.eph, h.salt, suite.ephPub(eph), salt1, h.nodeId, h.nodePub);
    var ys := Hs2Parts(s.net, suite.ephPub(s.eph), s.salt2, s.hello.eph, s.hello.salt, s.nodeId, s.nodePub);
    TextFixesParts(xs, ys);
    assert xs[1] == ys[1] && xs[2] == ys[2] && xs[3] == ys[3] && xs[4] == ys[4];
    assert xs[5] == ys[5] && xs[6] == ys[6] && xs[7] == ys[7];
    RootsAreMirrored(suite, net, eph, salt1, h, s);
  }

  /** On the channel object, for any answer the network brings: if the client starts a session,
      then the holder of the key it names, the pinned one if there is a pin, has signed a session
      with the mirrored roots. */
  method AcceptAnswer(client: SecureChannel, h: Hello, pin: Option<Bytes>, ghost signed: set<Signed>)
      returns (r: Option<Reason>, ghost s: Option<Session>)
    requires client.Valid() && DhCommutes(client.suite)
    requires (pin.Some? ==> h.nodePub == pin.value) ==> OnlySigned(client.suite, h.nodePub, signed)
    modifies client
    ensures client.Valid() && (r == None <==> s.Some?) && (r != None ==> unchanged(client))
    ensures client.clientEph == old(client.clientEph) && client.clientSalt == old(client.clientSalt)
    ensures r == None ==>
            && client.clientEph.Some? && client.clientSalt.Some? && client.rootSend.Some? && client.rootRecv.Some?
            && client.Started(client.rootSend.value, client.rootRecv.value)
            && client.peerNodeId == Some(h.nodeId) && client.peerNodePub == Some(h.nodePub) && (pin.Some? ==> h.nodePub == pin.value)
            && AnAnswer(s.value) in signed
            && IsPeerOf(client.suite, s.value, client.netId, client.clientEph.value, client.clientSalt.value, h,
                        client.rootSend.value, client.rootRecv.value)
  {
    r := client.ClientAcceptHs2(h, pin);
    s := None;
    if r == None {
      var eph, salt1 := client.clientEph.value, client.clientSalt.value;
      AcceptedIsVouched(client.suite, Hs2, client.netId, h, pin, CheckedText(client.suite, client.netId, eph, salt1, h));
      ghost var found := AcceptedAnswerIsSigned(client.suite, signed, client.netId, eph, salt1, h, pin);
      s := Some(found);
    }
  }

  // ---------- what an accepted greeting proves ----------

  /** Whatever greeting a server accepts, the holder of the key it names has signed it field by
      field, for the server's network. */
  lemma AcceptedGreetingIsSigned(suite: Suite, signed: set<Signed>, net: Bytes, h: Hello, pin: Option<Bytes>)
    requires OnlySigned(suite, h.nodePub, signed)
    requires Refusal(suite, Hs1, net, h, pin, Join(Hs1Parts(net, h.eph, h.salt, h.nodeId, h.nodePub))) == None
    ensures AGreeting(net, h.eph, h.salt, h.nodeId, h.nodePub) in signed
  {
    var text := Join(Hs1Parts(net, h.eph, h.salt, h.nodeId, h.nodePub));
    AcceptedIsVouched(suite, Hs1, net, h, pin, text);
    assert IsOneOf(suite, signed, text);
    var x :| x in signed && TextOf(suite, x) == text;
    GreetingIsAGreeting(suite, x, net, h);
    var xs, ys := Hs1Parts(net, h.eph, h.salt, h.nodeId, h.nodePub), Hs1Parts(x.net, x.eph, x.salt, x.id, x.pub);
    JoinFixesLength(xs, ys, 1);
    JoinInjective(xs, ys);
    assert xs[1] == ys[1] && xs[2] == ys[2] && xs[3] == ys[3] && xs[4] == ys[4] && xs[5] == ys[5];
  }

  method AcceptGreeting(server: SecureChannel, h: Hello, pin: Option<Bytes>, eph: Bytes, salt2: Bytes, ghost signed: set<Signed>)
      returns (r: Answer)
    requires server.Valid() && |salt2| == 16 && OnlySigned(server.suite, h.nodePub, signed)
    modifies server
    ensures server.Valid()
    ensures r.Answered? ==>
            && AGreeting(server.netId, h.eph, h.salt, h.nodeId, h.nodePub) in signed
            && server.peerNodePub == Some(h.nodePub) && (pin.Some? ==> h.nodePub == pin.value)
  {
    r := server.ServerAcceptHs1(h, pin, eph, salt2);
    if r.Answered? { AcceptedGreetingIsSigned(server.suite, signed, server.netId, h, pin); }
  }

  // ---------- a handshake through a hostile network ----------

  /** The session a server enters when it answers a hello. */
  ghost function Answering(server: SecureChannel, h: Hello, eph: Bytes, salt2: Bytes): Session {
    Session(server.netId, eph, salt2, h, server.nodeId, server.nodePub)
  }

  /** What the server has signed once it has seen this hello. */
  ghost function SignedAfter(server: SecureChannel, h: Hello, pin: Option<Bytes>, eph: Bytes, salt2: Bytes, earlier: set<Signed>): set<Signed> {
    if server.Hs1Refusal(h, pin) == None then earlier + {AnAnswer(Answering(server, h, eph, salt2))} else earlier
  }

  method TakeGreeting(server: SecureChannel, h: Hello, pin: Option<Bytes>, eph: Bytes, salt2: Bytes)
    requires server.Valid() && |salt2| == 16
    modifies server
    ensures server.Valid()
    ensures server.Hs1Refusal(h, pin) == None ==>
            var roots := RootsOf(server.suite, Answering(server, h, eph, salt2));
            server.Started(roots.1, roots.0)
  {
    var _ := server.ServerAcceptHs1(h, pin, eph, salt2);
  }

  /** Between a client and the server whose key it pins stands a network that delivers any hello
      to the one and any answer to the other. If the server has signed no earlier answer to this
      greeting and the client starts a session, then the server took up this client's greeting and
      each sends with the root the other receives with. */
  method ThroughTheNetwork(client: SecureChannel, server: SecureChannel, toServer: Hello, toClient: Hello, eph2: Bytes, salt2: Bytes,
                           serverPin: Option<Bytes>, ghost earlier: set<Signed>)
      returns (ok: bool)
    requires client != server && client.Valid() && server.Valid() && client.suite == server.suite && |salt2| == 16
    requires client.clientEph.Some? && client.clientSalt.Some? && DhCommutes(client.suite)
    requires forall s :: AnAnswer(s) in earlier ==> s.hello.salt != client.clientSalt.value
    requires OnlySigned(client.suite, server.nodePub, SignedAfter(server, toServer, serverPin, eph2, salt2, earlier))
    modifies client, server
    ensures client.Valid() && server.Valid()
    ensures ok ==> exists up, down :: client.Started(up, down) && server.Started(down, up)
    ensures ok ==> client.netId == server.netId && client.peerNodeId == Some(server.nodeId) && client.peerNodePub == Some(server.nodePub)
    ensures ok ==> toServer.eph == old(client.suite.ephPub(client.clientEph.value)) && toServer.salt == old(client.clientSalt.value)
  {
    ghost var signed := SignedAfter(server, toServer, serverPin, eph2, salt2, earlier);
    TakeGreeting(server, toServer, serverPin, eph2, salt2);
    var r;
    ghost var s;
    r, s := AcceptAnswer(client, toClient, Some(server.nodePub), signed);
    ok := r == None;
    if ok {
      assert s.value == Answering(server, toServer, eph2, salt2);
      assert client.Started(client.rootSend.value, client.rootRecv.value)
             && server.Started(client.rootRecv.value, client.rootSend.value);
    }
  }
}
