/** The peer-to-peer secure channel: a two-message handshake that gives each side a root key
    per direction, and sealed messages whose key changes with the sequence number. */
module SecureChannel {
  import opened Arith
  import opened Bytes
  import opened Transcript

  type HexDigest = b: Bytes | |b| == 64 witness seq(64, _ => 48)

  /** The cryptographic primitives, all uninterpreted. */
  datatype Suite = Suite(
    ephPub: Bytes -> Digest,
    dh: (Bytes, Bytes) -> Bytes,
    hkdf: (Bytes, Bytes, Bytes) -> (Bytes, Bytes),
    nodeId: Bytes -> HexDigest,
    signerPub: Bytes -> Bytes,
    keyOk: Bytes -> bool,
    sign: (Bytes, Bytes) -> Bytes,
    verify: (Bytes, Bytes, Bytes) -> bool,
    epochKey: (Bytes, nat, Bytes) -> Bytes,
    seal: (Bytes, Bytes, Bytes, Bytes) -> Option<Bytes>,
    open: (Bytes, Bytes, Bytes, Bytes) -> Option<Bytes>
  )

  datatype Role = Client | Server
  datatype Kind = Hs1 | Hs2 | Unknown

  /** A handshake message after its fields are decoded. */
  datatype Hello = Hello(kind: Kind, net: Bytes, eph: Bytes, salt: Bytes, nodeId: Bytes, nodePub: Bytes, sig: Bytes)

  datatype Reason =
    | WrongRole | NoSigningKey | NoHs1 | WrongType | WrongNet | BadNodePub | IdMismatch | PinMismatch
    | BadEph | BadSalt | BadSigLength | InvalidKey | BadSignature

  const HS1: Bytes := [72, 83, 49]
  const HS2: Bytes := [72, 83, 50]
  const P2PV1: Bytes := [80, 50, 80, 118, 49]

  function Hs1Parts(net: Bytes, eph: Bytes, salt: Bytes, id: Bytes, pub: Bytes): seq<Bytes> {
    [HS1, net, eph, salt, id, pub]
  }

  function Hs2Parts(net: Bytes, eph2: Bytes, salt2: Bytes, eph1: Bytes, salt1: Bytes, id: Bytes, pub: Bytes): seq<Bytes> {
    [HS2, net, eph2, salt2, eph1, salt1, id, pub]
  }

  /** The two halves of the derived key material: client to server, and back. */
  function Material(suite: Suite, shared: Bytes, net: Bytes, eph1: Bytes, salt1: Bytes, eph2: Bytes, salt2: Bytes): (Bytes, Bytes) {
    suite.hkdf(shared, salt1 + salt2, Join([P2PV1, net, eph1, salt1, eph2, salt2]))
  }

  /** Why a hello is refused, in the order of the checks; the signature must cover `text`. */
  function Refusal(suite: Suite, kind: Kind, net: Bytes, h: Hello, pin: Option<Bytes>, text: Bytes): Option<Reason> {
    if h.kind != kind then Some(WrongType)
    else if h.net != net then Some(WrongNet)
    else if |h.nodePub| != 32 then Some(BadNodePub)
    else if suite.nodeId(h.nodePub) != h.nodeId then Some(IdMismatch)
    else if pin.Some? && pin.value != h.nodePub then Some(PinMismatch)
    else if |h.eph| != 32 then Some(BadEph)
    else if |h.salt| != 16 then Some(BadSalt)
    else if |h.sig| != 64 then Some(BadSigLength)
    else if !suite.keyOk(h.nodePub) then Some(InvalidKey)
    else if !suite.verify(h.nodePub, text, h.sig) then Some(BadSignature)
    else None
  }

  /** What an accepted hello has passed: it names this kind and network, its fields have their
      sizes, its id is the one of its key, its key is the pinned one if there is a pin, and its
      signature on `text` verifies under its key. */
  predicate Vouched(suite: Suite, kind: Kind, net: Bytes, h: Hello, pin: Option<Bytes>, text: Bytes) {
    && h.kind == kind && h.net == net
    && |h.nodePub| == 32 && |h.eph| == 32 && |h.salt| == 16 && |h.sig| == 64
    && suite.keyOk(h.nodePub) && h.nodeId == suite.nodeId(h.nodePub)
    && (pin == None || pin == Some(h.nodePub))
    && suite.verify(h.nodePub, text, h.sig)
  }

  lemma AcceptedIsVouched(suite: Suite, kind: Kind, net: Bytes, h: Hello, pin: Option<Bytes>, text: Bytes)
    ensures Refusal(suite, kind, net, h, pin, text) == None <==> Vouched(suite, kind, net, h, pin, text)
  {
  }

  /** The texts that are signed and the string the keys are derived from, written out: the
      parts in this order with a bar between neighbours. */
  function Hs1Text(net: Bytes, eph: Bytes, salt: Bytes, id: Bytes, pub: Bytes): (text: Bytes)
    ensures text == Join(Hs1Parts(net, eph, salt, id, pub))
  {
    JoinSix(HS1, net, eph, salt, id, pub);
    [72, 83, 49, 124] + net + [124] + eph + [124] + salt + [124] + id + [124] + pub
  }

  function Hs2Text(net: Bytes, eph2: Bytes, salt2: Bytes, eph1: Bytes, salt1: Bytes, id: Bytes, pub: Bytes): (text: Bytes)
    ensures text == Join(Hs2Parts(net, eph2, salt2, eph1, salt1, id, pub))
  {
    JoinSix(HS2, net, eph2, salt2, eph1, salt1);
    var front := [HS2, net, eph2, salt2, eph1, salt1];
    JoinSnoc(front, id);
    JoinSnoc(front + [id], pub);
    assert Hs2Parts(net, eph2, salt2, eph1, salt1, id, pub) == front + [id] + [pub];
    [72, 83, 50, 124] + net + [124] + eph2 + [124] + salt2 + [124] + eph1 + [124] + salt1 + [124] + id + [124] + pub
  }

  function KeyText(net: Bytes, eph1: Bytes, salt1: Bytes, eph2: Bytes, salt2: Bytes): (text: Bytes)
    ensures text == Join([P2PV1, net, eph1, salt1, eph2, salt2])
  {
    JoinSix(P2PV1, net, eph1, salt1, eph2, salt2);
    [80, 50, 80, 118, 49, 124] + net + [124] + eph1 + [124] + salt1 + [124] + eph2 + [124] + salt2
  }

  datatype Greeting = NoGreeting(why: Reason) | Greeting(hello: Hello)
  datatype Answer = Refused(reason: Reason) | Answered(hello: Hello)

  // ---------- messages, without any cached state ----------

  function EpochKey(suite: Suite, root: Bytes, aad: Bytes, rekeyEvery: nat, seqNo: nat): Bytes
    requires rekeyEvery > 0
  {
    suite.epochKey(root, seqNo / rekeyEvery, aad)
  }

  function SealAt(suite: Suite, root: Bytes, aad: Bytes, rekeyEvery: nat, seqNo: nat, msg: Bytes): Option<Bytes>
    requires rekeyEvery > 0
  {
    suite.seal(EpochKey(suite, root, aad, rekeyEvery, seqNo), BigEndian(12, seqNo), aad, msg)
  }

  function OpenAt(suite: Suite, root: Bytes, aad: Bytes, rekeyEvery: nat, seqNo: nat, cipher: Bytes): Option<Bytes>
    requires rekeyEvery > 0
  {
    suite.open(EpochKey(suite, root, aad, rekeyEvery, seqNo), BigEndian(12, seqNo), aad, cipher)
  }

  /** The key of each epoch is its own. */
  ghost predicate EpochKeysDiffer(suite: Suite, root: Bytes, aad: Bytes) {
    forall m: nat, n: nat :: suite.epochKey(root, m, aad) == suite.epochKey(root, n, aad) ==> m == n
  }

  /** Two packets share a key exactly when no multiple of the rekey period lies between them. */
  lemma KeyLastsOnePeriod(suite: Suite, root: Bytes, aad: Bytes, rekeyEvery: nat, a: nat, b: nat)
    requires rekeyEvery > 0 && a <= b && EpochKeysDiffer(suite, root, aad)
    ensures EpochKey(suite, root, aad, rekeyEvery, a) == EpochKey(suite, root, aad, rekeyEvery, b) <==>
            forall k: nat :: !(a < rekeyEvery * k <= b)
  {
    var p, q := a / rekeyEvery, b / rekeyEvery;
    Fits(b, rekeyEvery, p);
    Fits(b, rekeyEvery, q);
    Fits(a, rekeyEvery, q);
    if p != q {
      assert a < rekeyEvery * q <= b;
    } else {
      forall k: nat ensures !(a < rekeyEvery * k <= b) {
        Fits(a, rekeyEvery, k);
        Fits(b, rekeyEvery, k);
      }
    }
  }

  /** After a whole period the key has changed. */
  lemma KeyChangesAfterAPeriod(suite: Suite, root: Bytes, aad: Bytes, rekeyEvery: nat, n: nat)
    requires rekeyEvery > 0 && EpochKeysDiffer(suite, root, aad)
    ensures EpochKey(suite, root, aad, rekeyEvery, n) != EpochKey(suite, root, aad, rekeyEvery, n + rekeyEvery)
  {
    var k := n / rekeyEvery + 1;
    Fits(n, rekeyEvery, k);
    Fits(n, rekeyEvery, k - 1);
    assert rekeyEvery * k == rekeyEvery * (k - 1) + rekeyEvery;
    KeyLastsOnePeriod(suite, root, aad, rekeyEvery, n, n + rekeyEvery);
  }

  datatype SendResult = NotReady | SeqOverflow | SealFailed | Packet(seqNo: nat, cipher: Bytes)
  datatype RecvResult = NotUp | Replayed | Unopened | Plain(msg: Bytes)

  function SendOutcome(suite: Suite, root: Option<Bytes>, aad: Bytes, rekeyEvery: nat, ctr: nat, msg: Bytes): SendResult
    requires rekeyEvery > 0
  {
    if root.None? then NotReady
    else if ctr + 1 >= U64_LIMIT then SeqOverflow
    else match SealAt(suite, root.value, aad, rekeyEvery, ctr + 1, msg)
      case None => SealFailed
      case Some(c) => Packet(ctr + 1, c)
  }

  function RecvOutcome(suite: Suite, root: Option<Bytes>, aad: Bytes, rekeyEvery: nat, ctr: int, seqNo: u64, cipher: Bytes): RecvResult
    requires rekeyEvery > 0
  {
    if root.None? then NotUp
    else if AsI64(seqNo) <= ctr then Replayed
    else match OpenAt(suite, root.value, aad, rekeyEvery, seqNo, cipher)
      case None => Unopened
      case Some(m) => Plain(m)
  }

  datatype Created = BadSizes | BadPub | NoPriv | KeyMismatch | Created(channel: SecureChannel)

  class SecureChannel {
    const suite: Suite
    const role: Role
    const netId: Bytes
    const aad: Bytes
    const nodeId: Bytes
    const nodePub: Bytes
    const nodePriv: Option<Bytes>
    const rekeyEvery: nat
    var peerNodeId: Option<Bytes>
    var peerNodePub: Option<Bytes>
    var aesSend: Option<Bytes>
    var aesRecv: Option<Bytes>
    var rootSend: Option<Bytes>
    var rootRecv: Option<Bytes>
    var sendEpoch: nat
    var recvEpoch: nat
    var sendCtr: nat
    var recvCtr: int
    var clientEph: Option<Bytes>
    var clientSalt: Option<Bytes>

    /** The cached keys are always the ones derived for the cached epochs. */
    ghost predicate Valid()
      reads this
    {
      && rekeyEvery > 0 && |nodePub| == 32
      && (role == Server ==> nodePriv.Some?)
      && (nodePriv.Some? ==> suite.signerPub(nodePriv.value) == nodePub)
      && (rootSend.Some? <==> rootRecv.Some?)
      && (rootSend.Some? ==> aesSend == Some(suite.epochKey(rootSend.value, sendEpoch, aad)))
      && (rootRecv.Some? ==> aesRecv == Some(suite.epochKey(rootRecv.value, recvEpoch, aad)))
      && sendCtr < U64_LIMIT && -1 <= recvCtr < I64_LIMIT
      && (clientSalt.Some? ==> |clientSalt.value| == 16)
    }

    constructor (suite: Suite, role: Role, netId: Bytes, aad: Bytes, nodeId: Bytes, nodePub: Bytes, nodePriv: Option<Bytes>,
                 rekeyEvery: nat)
      requires rekeyEvery > 0 && |nodePub| == 32 && (role == Server ==> nodePriv.Some?)
      requires nodePriv.Some? ==> suite.signerPub(nodePriv.value) == nodePub
      ensures Valid() && rootSend == None && sendCtr == 0 && recvCtr == -1 && clientEph == None && clientSalt == None
      ensures this.suite == suite && this.role == role && this.netId == netId && this.aad == aad && this.nodeId == nodeId
      ensures this.nodePub == nodePub && this.nodePriv == nodePriv && this.rekeyEvery == rekeyEvery
    {
      this.suite, this.role, this.netId, this.aad := suite, role, netId, aad;
      this.nodeId, this.nodePub, this.nodePriv, this.rekeyEvery := nodeId, nodePub, nodePriv, rekeyEvery;
      peerNodeId, peerNodePub, aesSend, aesRecv, rootSend, rootRecv := None, None, None, None, None, None;
      sendEpoch, recvEpoch, sendCtr, recvCtr := 0, 0, 0, -1;
      clientEph, clientSalt := None, None;
    }

    static method New(suite: Suite, role: Role, netId: Bytes, nodeId: Bytes, nodePub: Bytes, sessionMaxMsg: u64, keyBytes: nat,
                      nonceBytes: nat, nodePriv: Option<Bytes>, aadPrefix: Bytes, rekeyEveryMsg: Option<u64>)
        returns (r: Created)
      requires rekeyEveryMsg != Some(0)
      ensures r.Created? <==>
              keyBytes == 32 && nonceBytes == 12 && |nodePub| == 32 && suite.keyOk(nodePub)
              && (role == Server ==> nodePriv.Some?) && (nodePriv.Some? ==> suite.signerPub(nodePriv.value) == nodePub)
      ensures r.Created? ==>
              var ch := r.channel;
              fresh(ch) && ch.Valid() && ch.rootSend == None && ch.aad == aadPrefix + netId && ch.netId == netId
              && ch.rekeyEvery == match rekeyEveryMsg {
                case Some(n) => n
                case None => if sessionMaxMsg == 0 then 1 else sessionMaxMsg - sessionMaxMsg / 4
              }
    {
      if keyBytes != 32 || nonceBytes != 12 { return BadSizes; }
      var rekeyEvery: nat;
      if rekeyEveryMsg.Some? {
        rekeyEvery := rekeyEveryMsg.value;
      } else {
        rekeyEvery := sessionMaxMsg - sessionMaxMsg / 4;
        if rekeyEvery < 1 { rekeyEvery := 1; }
      }
      if |nodePub| != 32 || !suite.keyOk(nodePub) { return BadPub; }
      if role == Server && nodePriv.None? { return NoPriv; }
      if nodePriv.Some? && suite.signerPub(nodePriv.value) != nodePub { return KeyMismatch; }
      var ch := new SecureChannel(suite, role, netId, aadPrefix + netId, nodeId, nodePub, nodePriv, rekeyEvery);
      return Created(ch);
    }

    // ---------- handshake ----------

    /** Opens a handshake with a fresh ephemeral key and salt. */
    method ClientBuildHs1(eph: Bytes, salt: Bytes) returns (r: Greeting)
      requires Valid() && |salt| == 16
      modifies `clientEph, `clientSalt
      ensures Valid()
      ensures r == if role != Client then NoGreeting(WrongRole)
                   else if nodePriv.None? then NoGreeting(NoSigningKey)
                   else Greeting(Hello(Hs1, netId, suite.ephPub(eph), salt, nodeId, nodePub,
                                       suite.sign(nodePriv.value, Join(Hs1Parts(netId, suite.ephPub(eph), salt, nodeId, nodePub)))))
      ensures r.Greeting? ==>
              r.hello.sig == suite.sign(nodePriv.value, Hs1Text(netId, suite.ephPub(eph), salt, nodeId, nodePub))
      ensures if r.Greeting? then clientEph == Some(eph) && clientSalt == Some(salt)
              else clientEph == old(clientEph) && clientSalt == old(clientSalt)
    {
      if role != Client { return NoGreeting(WrongRole); }
      if nodePriv.None? { return NoGreeting(NoSigningKey); }
      var toSign := JoinParts(Hs1Parts(netId, suite.ephPub(eph), salt, nodeId, nodePub));
      var sig := suite.sign(nodePriv.value, toSign);
      clientEph, clientSalt := Some(eph), Some(salt);
      return Greeting(Hello(Hs1, netId, suite.ephPub(eph), salt, nodeId, nodePub, sig));
    }

    /** Both directions start over with the given roots. */
    ghost predicate Started(send: Bytes, recv: Bytes)
      reads this
    {
      rootSend == Some(send) && rootRecv == Some(recv) && sendCtr == 0 && recvCtr == -1
    }

    method Establish(send: Bytes, recv: Bytes, peerId: Bytes, peerPub: Bytes)
      requires Valid()
      modifies this
      ensures unchanged(`clientEph) && unchanged(`clientSalt)
      ensures Valid() && Started(send, recv) && peerNodeId == Some(peerId) && peerNodePub == Some(peerPub)
    {
      var sendKey, recvKey := suite.epochKey(send, 0, aad), suite.epochKey(recv, 0, aad);
      aesSend, aesRecv, sendEpoch, recvEpoch := Some(sendKey), Some(recvKey), 0, 0;
      peerNodeId, peerNodePub := Some(peerId), Some(peerPub);
      StartOver(send, recv);
    }

    method StartOver(send: Bytes, recv: Bytes)
      modifies `rootSend, `rootRecv, `sendCtr, `recvCtr
      ensures Started(send, recv)
    {
      rootSend, rootRecv, sendCtr, recvCtr := Some(send), Some(recv), 0, -1;
    }

    function Hs2Refusal(h: Hello, pin: Option<Bytes>): Option<Reason>
      reads this
    {
      if role != Client then Some(WrongRole)
      else if clientEph.None? || clientSalt.None? then Some(NoHs1)
      else
        var text := Join(Hs2Parts(netId, h.eph, h.salt, suite.ephPub(clientEph.value), clientSalt.value, h.nodeId, h.nodePub));
        Refusal(suite, Hs2, netId, h, pin, text)
    }

    /** The client's roots: what it sends with, what it receives with. */
    function ClientRoots(h: Hello): (Bytes, Bytes)
      reads this
      requires clientEph.Some? && clientSalt.Some?
    {
      Material(suite, suite.dh(clientEph.value, h.eph), netId, suite.ephPub(clientEph.value), clientSalt.value, h.eph, h.salt)
    }

    /** Accepts exactly an answer that the peer's key vouches for, and derives both roots from
        the shared secret, the salts and the exchange. */
    method ClientAcceptHs2(h: Hello, pin: Option<Bytes>) returns (r: Option<Reason>)
      requires Valid()
      modifies this
      ensures Valid() && r == old(Hs2Refusal(h, pin))
      ensures clientEph == old(clientEph) && clientSalt == old(clientSalt)
      ensures r == None ==> Started(old(ClientRoots(h)).0, old(ClientRoots(h)).1)
                            && peerNodeId == Some(h.nodeId) && peerNodePub == Some(h.nodePub)
      ensures r != None ==> unchanged(this)
      ensures r == None <==>
              && role == Client && clientEph.Some? && clientSalt.Some?
              && Vouched(suite, Hs2, netId, h, pin,
                         Hs2Text(netId, h.eph, h.salt, suite.ephPub(clientEph.value), clientSalt.value, h.nodeId, h.nodePub))
      ensures r == None ==>
              var roots := suite.hkdf(suite.dh(clientEph.value, h.eph), clientSalt.value + h.salt,
                                      KeyText(netId, suite.ephPub(clientEph.value), clientSalt.value, h.eph, h.salt));
              Started(roots.0, roots.1)
    {
      if role != Client { return Some(WrongRole); }
      if clientEph.None? || clientSalt.None? { return Some(NoHs1); }
      var eph, salt1 := clientEph.value, clientSalt.value;
      var toVerify := JoinParts(Hs2Parts(netId, h.eph, h.salt, suite.ephPub(eph), salt1, h.nodeId, h.nodePub));
      r := Refusal(suite, Hs2, netId, h, pin, toVerify);
      AcceptedIsVouched(suite, Hs2, netId, h, pin, toVerify);
      if r == None {
        var shared := suite.dh(eph, h.eph);
        var info := JoinParts([P2PV1, netId, suite.ephPub(eph), salt1, h.eph, h.salt]);
        var material := suite.hkdf(shared, salt1 + h.salt, info);
        Establish(material.0, material.1, h.nodeId, h.nodePub);
      }
    }

    function Hs1Refusal(h: Hello, pin: Option<Bytes>): Option<Reason> {
      if role != Server then Some(WrongRole)
      else if nodePriv.None? then Some(NoSigningKey)
      else Refusal(suite, Hs1, netId, h, pin, Join(Hs1Parts(netId, h.eph, h.salt, h.nodeId, h.nodePub)))
    }

    /** The server's roots: it receives with the first half and sends with the second. */
    function ServerMaterial(h: Hello, eph: Bytes, salt2: Bytes): (Bytes, Bytes) {
      Material(suite, suite.dh(eph, h.eph), netId, h.eph, h.salt, suite.ephPub(eph), salt2)
    }

    /** The text the server signs in its answer. */
    function AnswerText(h: Hello, eph: Bytes, salt2: Bytes): Bytes {
      Join(Hs2Parts(netId, suite.ephPub(eph), salt2, h.eph, h.salt, nodeId, nodePub))
    }

    /** Accepts exactly a hello that the client's key vouches for, answers with a signature on
        the whole exchange, and derives the client's roots crosswise. */
    method ServerAcceptHs1(h: Hello, pin: Option<Bytes>, eph: Bytes, salt2: Bytes) returns (r: Answer)
      requires Valid() && |salt2| == 16
      modifies this
      ensures Valid() && clientEph == old(clientEph) && clientSalt == old(clientSalt)
      ensures match Hs1Refusal(h, pin)
              case Some(why) => r == Refused(why) && unchanged(this)
              case None =>
                && r == Answered(Hello(Hs2, netId, suite.ephPub(eph), salt2, nodeId, nodePub,
                                       suite.sign(nodePriv.value, AnswerText(h, eph, salt2))))
                && Started(ServerMaterial(h, eph, salt2).1, ServerMaterial(h, eph, salt2).0)
                && peerNodeId == Some(h.nodeId) && peerNodePub == Some(h.nodePub)
      ensures r.Answered? <==>
              && role == Server && nodePriv.Some?
              && Vouched(suite, Hs1, netId, h, pin, Hs1Text(netId, h.eph, h.salt, h.nodeId, h.nodePub))
      ensures r.Answered? ==>
              var roots := suite.hkdf(suite.dh(eph, h.eph), h.salt + salt2,
                                      KeyText(netId, h.eph, h.salt, suite.ephPub(eph), salt2));
              && Started(roots.1, roots.0)
              && r.hello.sig == suite.sign(nodePriv.value,
                                           Hs2Text(netId, suite.ephPub(eph), salt2, h.eph, h.salt, nodeId, nodePub))
    {
      if role != Server { return Refused(WrongRole); }
      if nodePriv.None? { return Refused(NoSigningKey); }
      var toVerify := JoinParts(Hs1Parts(netId, h.eph, h.salt, h.nodeId, h.nodePub));
      var why := Refusal(suite, Hs1, netId, h, pin, toVerify);
      AcceptedIsVouched(suite, Hs1, netId, h, pin, toVerify);
      if why.Some? { return Refused(why.value); }
      var shared := suite.dh(eph, h.eph);
      var info := JoinParts([P2PV1, netId, h.eph, h.salt, suite.ephPub(eph), salt2]);
      var material := suite.hkdf(shared, h.salt + salt2, info);
      var toSign := JoinParts(Hs2Parts(netId, suite.ephPub(eph), salt2, h.eph, h.salt, nodeId, nodePub));
      var sig := suite.sign(nodePriv.value, toSign);
      Establish(material.1, material.0, h.nodeId, h.nodePub);
      return Answered(Hello(Hs2, netId, suite.ephPub(eph), salt2, nodeId, nodePub, sig));
    }

    // ---------- messages ----------

    /** Replaces the cached key when the epoch changes. */
    method TurnSendKey(epoch: nat)
      requires Valid() && rootSend.Some?
      modifies `sendEpoch, `aesSend
      ensures Valid() && aesSend == Some(suite.epochKey(rootSend.value, epoch, aad))
    {
      if epoch != sendEpoch {
        aesSend := Some(suite.epochKey(rootSend.value, epoch, aad));
        sendEpoch := epoch;
      }
    }

    method TurnRecvKey(epoch: nat)
      requires Valid() && rootRecv.Some?
      modifies `recvEpoch, `aesRecv
      ensures Valid() && aesRecv == Some(suite.epochKey(rootRecv.value, epoch, aad))
    {
      if epoch != recvEpoch {
        aesRecv := Some(suite.epochKey(rootRecv.value, epoch, aad));
        recvEpoch := epoch;
      }
    }

    method Nonce12(seqNo: u64) returns (nonce: Bytes)
      ensures nonce == BigEndian(12, seqNo)
    {
      Twelve();
      var r := SeqToNonce(seqNo, 12);
      nonce := r.bytes;
    }

    /** The outcome depends on the root, the counter and the message alone: what is cached
        never shows. */
    method Encrypt(msg: Bytes) returns (r: SendResult)
      requires Valid()
      modifies `sendEpoch, `aesSend, `sendCtr
      ensures Valid() && r == SendOutcome(suite, rootSend, aad, rekeyEvery, old(sendCtr), msg)
      ensures sendCtr == if r.Packet? then r.seqNo else old(sendCtr)
      ensures r.Packet? ==>
              && rootSend.Some? && r.seqNo == old(sendCtr) + 1 < U64_LIMIT
              && suite.seal(suite.epochKey(rootSend.value, r.seqNo / rekeyEvery, aad), BigEndian(12, r.seqNo), aad, msg) == Some(r.cipher)
    {
      if rootSend.None? || rootRecv.None? { return NotReady; }
      if sendCtr + 1 >= U64_LIMIT { return SeqOverflow; }
      var seqNo := sendCtr + 1;
      TurnSendKey(seqNo / rekeyEvery);
      var nonce := Nonce12(seqNo);
      var cipher := suite.seal(aesSend.value, nonce, aad, msg);
      if cipher.None? { return SealFailed; }
      sendCtr := seqNo;
      return Packet(seqNo, cipher.value);
    }

    /** A rejected packet leaves the counter alone, and although it may move the cached key
        to another epoch, no later outcome depends on it. */
    method Decrypt(seqNo: u64, cipher: Bytes) returns (r: RecvResult)
      requires Valid()
      modifies `recvEpoch, `aesRecv, `recvCtr
      ensures Valid() && r == RecvOutcome(suite, rootRecv, aad, rekeyEvery, old(recvCtr), seqNo, cipher)
      ensures recvCtr == if r.Plain? then AsI64(seqNo) else old(recvCtr)
      ensures r.Plain? ==>
              && rootRecv.Some? && AsI64(seqNo) > old(recvCtr)
              && suite.open(suite.epochKey(rootRecv.value, seqNo / rekeyEvery, aad), BigEndian(12, seqNo), aad, cipher) == Some(r.msg)
    {
      if rootSend.None? || rootRecv.None? { return NotUp; }
      if AsI64(seqNo) <= recvCtr { return Replayed; }
      TurnRecvKey(seqNo / rekeyEvery);
      var nonce := Nonce12(seqNo);
      var plain := suite.open(aesRecv.value, nonce, aad, cipher);
      if plain.None? { return Unopened; }
      recvCtr := AsI64(seqNo);
      return Plain(plain.value);
    }
  }
}
