/** What the secure channel guarantees: mirrored roots after the handshake, and ordered,
    duplicate-free delivery over a network that drops, repeats, reorders and injects. */
module ChannelRuns {
  import opened Bytes
  import opened Transcript
  import opened SecureChannel

  // ---------- agreement ----------

  /** What a server has at hand when it answers: its own session and the hello it answered. */
  datatype Session = Session(net: Bytes, eph: Bytes, salt2: Bytes, hello: Hello, nodeId: Bytes, nodePub: Bytes)

  function SignedText(suite: Suite, s: Session): Bytes {
    Join(Hs2Parts(s.net, suite.ephPub(s.eph), s.salt2, s.hello.eph, s.hello.salt, s.nodeId, s.nodePub))
  }

  /** The text a client checks the signature of an answer against. */
  function CheckedText(suite: Suite, net: Bytes, eph: Bytes, salt1: Bytes, answer: Hello): Bytes {
    Join(Hs2Parts(net, answer.eph, answer.salt, suite.ephPub(eph), salt1, answer.nodeId, answer.nodePub))
  }

  /** The parts of the signed text are read back from it: node ids and network ids are the
      only parts without a fixed length, so knowing one of the two is enough. */
  lemma TextFixesParts(xs: seq<Bytes>, ys: seq<Bytes>)
    requires |xs| == 8 == |ys| && Join(xs) == Join(ys)
    requires forall j :: 0 <= j < 8 && j != 1 && j != 6 ==> |xs[j]| == |ys[j]|
    requires |xs[1]| == |ys[1]| || |xs[6]| == |ys[6]|
    ensures xs == ys
  {
    if |xs[1]| == |ys[1]| {
      JoinFixesLength(xs, ys, 6);
    } else {
      JoinFixesLength(xs, ys, 1);
    }
    JoinInjective(xs, ys);
  }

  /** Agreement: if the text a client accepted is one this server signed, then both mean the
      same exchange, and with commuting Diffie-Hellman each sends with the root the other
      receives with. */
  lemma RootsAreMirrored(suite: Suite, net: Bytes, eph: Bytes, salt1: Bytes, answer: Hello, s: Session)
    requires CheckedText(suite, net, eph, salt1, answer) == SignedText(suite, s)
    requires |answer.eph| == 32 && |answer.salt| == |s.salt2| == |salt1| == |s.hello.salt| == 16
    requires |answer.nodePub| == |s.nodePub| == |s.hello.eph| == 32
    requires |s.nodeId| == |answer.nodeId| || net == s.net
    requires suite.dh(eph, suite.ephPub(s.eph)) == suite.dh(s.eph, suite.ephPub(eph))
    ensures net == s.net && answer.nodePub == s.nodePub && s.hello.eph == suite.ephPub(eph) && s.hello.salt == salt1
    ensures Material(suite, suite.dh(eph, answer.eph), net, suite.ephPub(eph), salt1, answer.eph, answer.salt) ==
            Material(suite, suite.dh(s.eph, s.hello.eph), s.net, s.hello.eph, s.hello.salt, suite.ephPub(s.eph), s.salt2)
  {
    var xs := Hs2Parts(net, answer.eph, answer.salt, suite.ephPub(eph), salt1, answer.nodeId, answer.nodePub);
    var ys := Hs2Parts(s.net, suite.ephPub(s.eph), s.salt2, s.hello.eph, s.hello.salt, s.nodeId, s.nodePub);
    TextFixesParts(xs, ys);
    assert xs[1] == ys[1] && xs[2] == ys[2] && xs[3] == ys[3] && xs[4] == ys[4] && xs[5] == ys[5] && xs[7] == ys[7];
  }

  /** Signatures made with a key verify under its public key and have the fixed length. */
  ghost predicate SignaturesVerify(suite: Suite) {
    forall k, m :: suite.verify(suite.signerPub(k), m, suite.sign(k, m)) && |suite.sign(k, m)| == 64
  }

  /** The identity of a party is one that its peer accepts. */
  predicate Acceptable(party: SecureChannel, pin: Option<Bytes>) {
    party.suite.keyOk(party.nodePub) && party.suite.nodeId(party.nodePub) == party.nodeId && (pin.Some? ==> pin.value == party.nodePub)
  }

  /** An honest hello is refused for its network, its identity or the pin alone. */
  lemma HonestHello(suite: Suite, kind: Kind, net: Bytes, h: Hello, pin: Option<Bytes>, text: Bytes, priv: Bytes)
    requires SignaturesVerify(suite) && h.kind == kind && |h.nodePub| == 32 == |h.eph| && |h.salt| == 16
    requires h.sig == suite.sign(priv, text) && suite.signerPub(priv) == h.nodePub
    ensures Refusal(suite, kind, net, h, pin, text) == None <==>
            h.net == net && suite.keyOk(h.nodePub) && suite.nodeId(h.nodePub) == h.nodeId && (pin.Some? ==> pin.value == h.nodePub)
  {
    assert suite.verify(suite.signerPub(priv), text, suite.sign(priv, text)) && |suite.sign(priv, text)| == 64;
  }

  /** The server accepts an honest client's hello for its network, its identity or the pin. */
  lemma HonestHs1(client: SecureChannel, server: SecureChannel, h: Hello, pin: Option<Bytes>)
    requires client.Valid() && server.Valid() && client.suite == server.suite && SignaturesVerify(client.suite)
    requires client.nodePriv.Some? && h.kind == Hs1 && h.net == client.netId && |h.eph| == 32 && |h.salt| == 16
    requires h.nodeId == client.nodeId && h.nodePub == client.nodePub
    requires h.sig == client.suite.sign(client.nodePriv.value, Join(Hs1Parts(client.netId, h.eph, h.salt, h.nodeId, h.nodePub)))
    ensures server.Hs1Refusal(h, pin) == None <==> server.role == Server && client.netId == server.netId && Acceptable(client, pin)
  {
    HonestHello(server.suite, Hs1, server.netId, h, pin, Join(Hs1Parts(client.netId, h.eph, h.salt, h.nodeId, h.nodePub)),
                client.nodePriv.value);
  }

  method Reply(server: SecureChannel, h: Hello, eph: Bytes, salt: Bytes, pin: Option<Bytes>) returns (answer: Answer)
    requires server.Valid() && |salt| == 16
    modifies server
    ensures server.Valid() && (answer.Answered? <==> server.Hs1Refusal(h, pin) == None)
    ensures answer.Answered? ==>
            && server.nodePriv.Some?
            && answer.hello == Hello(Hs2, server.netId, server.suite.ephPub(eph), salt, server.nodeId, server.nodePub,
                                     server.suite.sign(server.nodePriv.value, server.AnswerText(h, eph, salt)))
            && server.Started(server.ServerMaterial(h, eph, salt).1, server.ServerMaterial(h, eph, salt).0)
  {
    answer := server.ServerAcceptHs1(h, pin, eph, salt);
  }

  /** The client's hello reaches the server unchanged. */
  method Greet(client: SecureChannel, server: SecureChannel, eph1: Bytes, salt1: Bytes, eph2: Bytes, salt2: Bytes, pin: Option<Bytes>)
      returns (answer: Answer, ghost hello: Hello)
    requires client != server && client.Valid() && server.Valid() && client.suite == server.suite
    requires |salt1| == |salt2| == 16 && SignaturesVerify(client.suite)
    modifies client, server
    ensures client.Valid() && server.Valid()
    ensures answer.Answered? <==>
            && client.role == Client && server.role == Server && client.nodePriv.Some? && client.netId == server.netId
            && Acceptable(client, pin)
    ensures answer.Answered? ==>
            && client.clientEph == Some(eph1) && client.clientSalt == Some(salt1)
            && hello.eph == client.suite.ephPub(eph1) && hello.salt == salt1
            && answer.hello == Hello(Hs2, server.netId, server.suite.ephPub(eph2), salt2, server.nodeId, server.nodePub,
                                     server.suite.sign(server.nodePriv.value, server.AnswerText(hello, eph2, salt2)))
            && server.Started(server.ServerMaterial(hello, eph2, salt2).1, server.ServerMaterial(hello, eph2, salt2).0)
  {
    var hs1 := client.ClientBuildHs1(eph1, salt1);
    if hs1.NoGreeting? { return Refused(hs1.why), Hello(Unknown, [], [], [], [], [], []); }
    hello := hs1.hello;
    HonestHs1(client, server, hello, pin);
    answer := Reply(server, hs1.hello, eph2, salt2, pin);
  }

  /** Two parties that talk directly connect exactly when their configuration is consistent,
      and then each sends with the root the other receives with. */
  method Connect(client: SecureChannel, server: SecureChannel, eph1: Bytes, salt1: Bytes, eph2: Bytes, salt2: Bytes,
                 clientPin: Option<Bytes>, serverPin: Option<Bytes>)
      returns (ok: bool)
    requires client != server && client.Valid() && server.Valid() && client.suite == server.suite
    requires |salt1| == |salt2| == 16 && SignaturesVerify(client.suite)
    requires client.suite.dh(eph1, client.suite.ephPub(eph2)) == client.suite.dh(eph2, client.suite.ephPub(eph1))
    modifies client, server
    ensures client.Valid() && server.Valid()
    ensures ok <==>
            && client.role == Client && server.role == Server && client.nodePriv.Some? && client.netId == server.netId
            && Acceptable(client, serverPin) && Acceptable(server, clientPin)
    ensures ok ==> exists up, down :: client.Started(up, down) && server.Started(down, up)
  {
    var answer, hello := Greet(client, server, eph1, salt1, eph2, salt2, serverPin);
    if answer.Refused? { return false; }
    HonestHello(client.suite, Hs2, client.netId, answer.hello, clientPin, server.AnswerText(hello, eph2, salt2), server.nodePriv.value);
    var refusal := client.ClientAcceptHs2(answer.hello, clientPin);
    return refusal == None;
  }

  // ---------- one direction of a connection ----------

  datatype Link = Link(suite: Suite, root: Bytes, aad: Bytes, rekeyEvery: nat)

  /** The sender seals a message, or the network hands the receiver some packet. */
  datatype Event = Send(msg: Bytes) | Deliver(seqNo: u64, cipher: Bytes)

  datatype Sent = Sent(seqNo: nat, cipher: Bytes, msg: Bytes)
  datatype Accepted = Accepted(seqNo: nat, msg: Bytes)
  datatype State = State(sendCtr: nat, recvCtr: int, sent: seq<Sent>, accepted: seq<Accepted>)

  const START: State := State(0, -1, [], [])

  function Step(link: Link, s: State, e: Event): State
    requires link.rekeyEvery > 0
  {
    match e
    case Send(msg) =>
      var r := SendOutcome(link.suite, Some(link.root), link.aad, link.rekeyEvery, s.sendCtr, msg);
      if r.Packet? then s.(sendCtr := r.seqNo, sent := s.sent + [Sent(r.seqNo, r.cipher, msg)]) else s
    case Deliver(n, c) =>
      var r := RecvOutcome(link.suite, Some(link.root), link.aad, link.rekeyEvery, s.recvCtr, n, c);
      if r.Plain? then s.(recvCtr := AsI64(n), accepted := s.accepted + [Accepted(n, r.msg)]) else s
  }

  function Run(link: Link, events: seq<Event>): State
    requires link.rekeyEvery > 0
  {
    if events == [] then START else Step(link, Run(link, events[..|events| - 1]), events[|events| - 1])
  }

  lemma RunStep(link: Link, events: seq<Event>, e: Event)
    requires link.rekeyEvery > 0
    ensures Run(link, events + [e]) == Step(link, Run(link, events), e)
  {
    assert (events + [e])[..|events|] == events;
  }

  /** Opening undoes sealing. */
  ghost predicate OpensWhatIsSealed(suite: Suite) {
    forall k, n, a, m :: suite.seal(k, n, a, m).Some? ==> suite.open(k, n, a, suite.seal(k, n, a, m).value) == Some(m)
  }

  /** The ideal of authenticated encryption: what opens was sealed before. */
  predicate Genuine(link: Link, s: State, e: Event)
    requires link.rekeyEvery > 0
  {
    e.Deliver? && OpenAt(link.suite, link.root, link.aad, link.rekeyEvery, e.seqNo, e.cipher).Some? ==>
      exists i :: 0 <= i < |s.sent| && s.sent[i].seqNo == e.seqNo && s.sent[i].cipher == e.cipher
  }

  predicate NoForgery(link: Link, events: seq<Event>)
    requires link.rekeyEvery > 0
  {
    events == [] || (NoForgery(link, events[..|events| - 1]) && Genuine(link, Run(link, events[..|events| - 1]), events[|events| - 1]))
  }

  predicate SentInOrder(link: Link, s: State)
    requires link.rekeyEvery > 0
  {
    && s.sendCtr == |s.sent| < U64_LIMIT
    && forall i :: 0 <= i < |s.sent| ==>
         s.sent[i].seqNo == i + 1
         && SealAt(link.suite, link.root, link.aad, link.rekeyEvery, s.sent[i].seqNo, s.sent[i].msg) == Some(s.sent[i].cipher)
  }

  predicate AcceptedInOrder(s: State) {
    && s.recvCtr == (if s.accepted == [] then -1 else s.accepted[|s.accepted| - 1].seqNo)
    && (forall i :: 0 <= i < |s.accepted| ==>
          1 <= s.accepted[i].seqNo <= |s.sent| && s.sent[s.accepted[i].seqNo - 1].msg == s.accepted[i].msg)
    && (forall i, j :: 0 <= i < j < |s.accepted| ==> s.accepted[i].seqNo < s.accepted[j].seqNo)
  }

  lemma SentStep(link: Link, s: State, e: Event)
    requires link.rekeyEvery > 0 && SentInOrder(link, s)
    ensures SentInOrder(link, Step(link, s, e))
  {
  }

  /** Whatever the network does, forgeries included, packets are numbered one after the other. */
  lemma {:induction false} SentAlways(link: Link, events: seq<Event>)
    requires link.rekeyEvery > 0
    ensures SentInOrder(link, Run(link, events))
  {
    if events != [] {
      SentAlways(link, events[..|events| - 1]);
      SentStep(link, Run(link, events[..|events| - 1]), events[|events| - 1]);
    }
  }

  lemma SendKeeps(link: Link, s: State, e: Event)
    requires link.rekeyEvery > 0 && e.Send? && SentInOrder(link, s) && AcceptedInOrder(s)
    ensures AcceptedInOrder(Step(link, s, e))
  {
  }

  lemma AcceptKeeps(s: State, i: nat)
    requires AcceptedInOrder(s) && i < |s.sent| && s.recvCtr < i + 1
    ensures AcceptedInOrder(s.(recvCtr := i + 1, accepted := s.accepted + [Accepted(i + 1, s.sent[i].msg)]))
  {
    assert forall j :: 0 <= j < |s.accepted| ==> s.accepted[j].seqNo <= s.recvCtr;
  }

  /** A packet that opens is one the peer sealed, and yields its message. */
  lemma OpenedIsSent(link: Link, s: State, e: Event) returns (i: nat)
    requires link.rekeyEvery > 0 && e.Deliver? && SentInOrder(link, s) && OpensWhatIsSealed(link.suite) && Genuine(link, s, e)
    requires OpenAt(link.suite, link.root, link.aad, link.rekeyEvery, e.seqNo, e.cipher).Some?
    ensures i < |s.sent| && i + 1 == e.seqNo
    ensures OpenAt(link.suite, link.root, link.aad, link.rekeyEvery, e.seqNo, e.cipher) == Some(s.sent[i].msg)
  {
    i :| 0 <= i < |s.sent| && s.sent[i].seqNo == e.seqNo && s.sent[i].cipher == e.cipher;
  }

  lemma DeliverAccepts(link: Link, s: State, e: Event) returns (i: nat)
    requires link.rekeyEvery > 0 && e.Deliver? && SentInOrder(link, s) && OpensWhatIsSealed(link.suite) && Genuine(link, s, e)
    requires s.recvCtr >= -1
    requires RecvOutcome(link.suite, Some(link.root), link.aad, link.rekeyEvery, s.recvCtr, e.seqNo, e.cipher).Plain?
    ensures i < |s.sent| && s.recvCtr < i + 1
    ensures Step(link, s, e) == s.(recvCtr := i + 1, accepted := s.accepted + [Accepted(i + 1, s.sent[i].msg)])
  {
    i := OpenedIsSent(link, s, e);
    AsI64Small(e.seqNo);
  }

  lemma DeliverKeeps(link: Link, s: State, e: Event)
    requires link.rekeyEvery > 0 && e.Deliver? && SentInOrder(link, s) && AcceptedInOrder(s)
    requires OpensWhatIsSealed(link.suite) && Genuine(link, s, e)
    ensures AcceptedInOrder(Step(link, s, e))
  {
    if RecvOutcome(link.suite, Some(link.root), link.aad, link.rekeyEvery, s.recvCtr, e.seqNo, e.cipher).Plain? {
      var i := DeliverAccepts(link, s, e);
      AcceptKeeps(s, i);
    }
  }

  lemma {:induction false} RunKeepsOrder(link: Link, events: seq<Event>)
    requires link.rekeyEvery > 0 && OpensWhatIsSealed(link.suite) && NoForgery(link, events)
    ensures SentInOrder(link, Run(link, events)) && AcceptedInOrder(Run(link, events))
  {
    SentAlways(link, events);
    if events != [] {
      var front, e := events[..|events| - 1], events[|events| - 1];
      RunKeepsOrder(link, front);
      if e.Send? { SendKeeps(link, Run(link, front), e); } else { DeliverKeeps(link, Run(link, front), e); }
    }
  }

  /** Whatever the network does, what the receiver accepts is a subsequence of what its peer
      sealed: in order and without repeats. */
  lemma AcceptedIsSubsequence(link: Link, events: seq<Event>) returns (places: seq<nat>)
    requires link.rekeyEvery > 0 && OpensWhatIsSealed(link.suite) && NoForgery(link, events)
    ensures var s := Run(link, events);
            && |places| == |s.accepted|
            && (forall i :: 0 <= i < |places| ==> places[i] < |s.sent| && s.accepted[i].msg == s.sent[places[i]].msg)
            && (forall i, j :: 0 <= i < j < |places| ==> places[i] < places[j])
  {
    RunKeepsOrder(link, events);
    var s := Run(link, events);
    places := seq(|s.accepted|, i requires 0 <= i < |s.accepted| => s.accepted[i].seqNo - 1);
  }

  /** The counter is the highest number accepted so far. */
  lemma CounterIsHighest(s: State, n: nat)
    requires AcceptedInOrder(s)
    ensures s.recvCtr < n <==> forall j :: 0 <= j < |s.accepted| ==> s.accepted[j].seqNo < n
  {
    if s.accepted != [] {
      var last := |s.accepted| - 1;
      assert forall j :: 0 <= j < last ==> s.accepted[j].seqNo < s.accepted[last].seqNo;
    }
  }

  lemma SentOpens(link: Link, s: State, i: nat)
    requires link.rekeyEvery > 0 && OpensWhatIsSealed(link.suite) && SentInOrder(link, s) && i < |s.sent|
    ensures s.sent[i].seqNo == i + 1 < U64_LIMIT
    ensures OpenAt(link.suite, link.root, link.aad, link.rekeyEvery, s.sent[i].seqNo, s.sent[i].cipher) == Some(s.sent[i].msg)
  {
  }

  /** A genuine packet is accepted exactly when neither it nor a later one was accepted before
      and its number fits a signed word. */
  lemma GenuineAcceptedExactlyWhen(link: Link, events: seq<Event>, i: nat)
    requires link.rekeyEvery > 0 && OpensWhatIsSealed(link.suite) && NoForgery(link, events)
    requires i < |Run(link, events).sent|
    ensures var s := Run(link, events);
            s.sent[i].seqNo < U64_LIMIT &&
            (RecvOutcome(link.suite, Some(link.root), link.aad, link.rekeyEvery, s.recvCtr, s.sent[i].seqNo, s.sent[i].cipher)
             == Plain(s.sent[i].msg)
             <==> s.sent[i].seqNo < I64_LIMIT && forall j :: 0 <= j < |s.accepted| ==> s.accepted[j].seqNo < s.sent[i].seqNo)
  {
    RunKeepsOrder(link, events);
    var s := Run(link, events);
    SentOpens(link, s, i);
    AsI64Small(s.sent[i].seqNo);
    CounterIsHighest(s, s.sent[i].seqNo);
  }

  lemma AsI64Small(n: nat)
    requires n < U64_LIMIT
    ensures AsI64(n) == if n < I64_LIMIT then n else n - U64_LIMIT
  {
  }

  lemma Regroup<T>(a: seq<T>, b: seq<T>, c: seq<T>)
    ensures a + (b + c) == (a + b) + c
  {
  }

  /** A rejected packet leaves no trace: the run goes on as if it had never been delivered. */
  lemma {:induction false} RejectedLeavesNoTrace(link: Link, before: seq<Event>, bad: Event, rest: seq<Event>)
    requires link.rekeyEvery > 0 && bad.Deliver?
    requires !RecvOutcome(link.suite, Some(link.root), link.aad, link.rekeyEvery, Run(link, before).recvCtr, bad.seqNo, bad.cipher).Plain?
    ensures Run(link, before + [bad] + rest) == Run(link, before + rest)
  {
    if rest == [] {
      assert before + [bad] + rest == before + [bad] && before + rest == before;
      RunStep(link, before, bad);
    } else {
      var front, e := rest[..|rest| - 1], rest[|rest| - 1];
      RejectedLeavesNoTrace(link, before, bad, front);
      var long, short := before + [bad] + front, before + front;
      Regroup(before + [bad], front, [e]);
      Regroup(before, front, [e]);
      assert rest == front + [e];
      RunStep(link, long, e);
      RunStep(link, short, e);
    }
  }

  /** Within a session no nonce is used for two packets of a direction, whatever key they are
      sealed with and whatever the network does. */
  lemma NoncesNeverRepeat(link: Link, events: seq<Event>, i: nat, j: nat)
    requires link.rekeyEvery > 0 && i < j < |Run(link, events).sent|
    ensures BigEndian(12, Run(link, events).sent[i].seqNo) != BigEndian(12, Run(link, events).sent[j].seqNo)
  {
    SentAlways(link, events);
    var s := Run(link, events);
    if BigEndian(12, s.sent[i].seqNo) == BigEndian(12, s.sent[j].seqNo) {
      NonceInjective(s.sent[i].seqNo, s.sent[j].seqNo);
    }
  }

  // ---------- both directions on the channel objects ----------

  /** An event of the connection from the client to the server, or of the way back. */
  datatype Traffic = Up(event: Event) | Down(event: Event)

  function Upward(traffic: seq<Traffic>): seq<Event> {
    if traffic == [] then []
    else
      var t := traffic[|traffic| - 1];
      Upward(traffic[..|traffic| - 1]) + (if t.Up? then [t.event] else [])
  }

  function Downward(traffic: seq<Traffic>): seq<Event> {
    if traffic == [] then []
    else
      var t := traffic[|traffic| - 1];
      Downward(traffic[..|traffic| - 1]) + (if t.Down? then [t.event] else [])
  }

  method Deliveries(sender: SecureChannel, receiver: SecureChannel, e: Event, ghost link: Link, ghost s: State)
      returns (got: seq<Accepted>)
    requires sender != receiver && sender.Valid() && receiver.Valid() && link.rekeyEvery > 0
    requires sender.rootSend == Some(link.root) == receiver.rootRecv
    requires sender.suite == link.suite && sender.aad == link.aad && sender.rekeyEvery == link.rekeyEvery
    requires receiver.suite == link.suite && receiver.aad == link.aad && receiver.rekeyEvery == link.rekeyEvery
    requires s.sendCtr == sender.sendCtr && s.recvCtr == receiver.recvCtr
    modifies sender`sendEpoch, sender`aesSend, sender`sendCtr, receiver`recvEpoch, receiver`aesRecv, receiver`recvCtr
    ensures sender.Valid() && receiver.Valid()
    ensures Step(link, s, e).sendCtr == sender.sendCtr && Step(link, s, e).recvCtr == receiver.recvCtr
    ensures Step(link, s, e).accepted == s.accepted + got
  {
    got := [];
    match e
    case Send(msg) =>
      var _ := sender.Encrypt(msg);
    case Deliver(n, c) =>
      var r := receiver.Decrypt(n, c);
      if r.Plain? { got := [Accepted(n, r.msg)]; }
  }

  /** Two connected channel objects behave as two independent runs, one for each direction. */
  method Exchange(client: SecureChannel, server: SecureChannel, traffic: seq<Traffic>, ghost up: Link, ghost down: Link)
      returns (atServer: seq<Accepted>, atClient: seq<Accepted>)
    requires client != server && client.Valid() && server.Valid() && up.rekeyEvery > 0
    requires client.Started(up.root, down.root) && server.Started(down.root, up.root)
    requires up == Link(client.suite, up.root, client.aad, client.rekeyEvery) && down == up.(root := down.root)
    requires server.suite == client.suite && server.aad == client.aad && server.rekeyEvery == client.rekeyEvery
    modifies client, server
    ensures atServer == Run(up, Upward(traffic)).accepted && atClient == Run(down, Downward(traffic)).accepted
  {
    atServer, atClient := [], [];
    ghost var u, d := START, START;
    for k := 0 to |traffic|
      invariant client.Valid() && server.Valid()
      invariant client.rootSend == Some(up.root) == server.rootRecv && client.rootRecv == Some(down.root) == server.rootSend
      invariant u == Run(up, Upward(traffic[..k])) && d == Run(down, Downward(traffic[..k]))
      invariant u.sendCtr == client.sendCtr && u.recvCtr == server.recvCtr && u.accepted == atServer
      invariant d.sendCtr == server.sendCtr && d.recvCtr == client.recvCtr && d.accepted == atClient
    {
      TrafficStep(traffic, k, up, down);
      var got;
      match traffic[k]
      case Up(e) =>
        got := Deliveries(client, server, e, up, u);
        atServer, u := atServer + got, Step(up, u, e);
      case Down(e) =>
        got := Deliveries(server, client, e, down, d);
        atClient, d := atClient + got, Step(down, d, e);
    }
    assert traffic[..|traffic|] == traffic;
  }

  lemma TrafficStep(traffic: seq<Traffic>, k: nat, up: Link, down: Link)
    requires k < |traffic| && up.rekeyEvery > 0 && down.rekeyEvery > 0
    ensures var u := Run(up, Upward(traffic[..k]));
            Run(up, Upward(traffic[..k + 1])) == match traffic[k] { case Up(e) => Step(up, u, e) case Down(_) => u }
    ensures var d := Run(down, Downward(traffic[..k]));
            Run(down, Downward(traffic[..k + 1])) == match traffic[k] { case Down(e) => Step(down, d, e) case Up(_) => d }
  {
    var before, after, e := traffic[..k], traffic[..k + 1], traffic[k].event;
    assert after[..k] == before && after[k] == traffic[k];
    RunStep(up, Upward(before), e);
    RunStep(down, Downward(before), e);
    if traffic[k].Up? {
      assert Downward(before) + [] == Downward(before);
      assert Upward(after) == Upward(before) + [e] && Downward(after) == Downward(before);
    } else {
      assert Upward(before) + [] == Upward(before);
      assert Upward(after) == Upward(before) && Downward(after) == Downward(before) + [e];
    }
  }
}
