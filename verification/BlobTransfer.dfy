/** The transfer of a file to an archivist and back: the upload in pieces, the commit that
    checks it, the promotion when it is paid for, and the download in one piece or many. */
module BlobTransfer {
  import opened Bytes

  type Blob = seq<int>

  const MIB: nat := 0x10_0000
  const MAX_SIZE: nat := 150 * MIB
  const DATA_CAP: nat := 151 * MIB * 3 / 4
  const UPLOAD_CHUNK: nat := 10 * MIB
  const SMALLEST_CAP: nat := 32 * 1024
  const ONE_SHOT: nat := 8 * MIB
  const LARGEST_READ: nat := 64 * MIB
  const TARGET_CALLS: nat := 8

  function Min(a: int, b: int): int { if a < b then a else b }
  function Max(a: int, b: int): int { if a < b then b else a }

  datatype Place = Part | Bin | Final
  datatype Phase = Receiving | Appending | PendingConfirm | Stored
  datatype Meta = Meta(size: nat, sha: string, phase: Phase, path: Place, chunkSize: nat, received: nat, paid: bool)

  /** All that the archivist holds under one id: the index entry and up to three files. */
  datatype Shelf = Shelf(meta: Option<Meta>, part: Option<Blob>, bin: Option<Blob>, final: Option<Blob>) {
    function At(p: Place): Option<Blob> {
      match p case Part => part case Bin => bin case Final => final
    }

    function Without(p: Place): Shelf {
      match p case Part => this.(part := None) case Bin => this.(bin := None) case Final => this.(final := None)
    }

    /** The file that reads are answered from. */
    function Served(): Option<Blob> { if final.Some? then final else if bin.Some? then bin else part }
  }

  datatype Ack = Rejected | Accepted(chunkSize: nat)

  // ---------- what each request does to a shelf ----------

  /** Room, type and duplicate checks are summed up in `admitted`. */
  function InitShelf(s: Shelf, gid: string, size: int, sha: string, admitted: bool): (Ack, Shelf) {
    if gid == "" || size <= 0 || |sha| != 64 || size > MAX_SIZE || !admitted then (Rejected, s)
    else (Accepted(UPLOAD_CHUNK), s.(meta := Some(Meta(size, sha, Receiving, Part, UPLOAD_CHUNK, 0, false)), part := Some([])))
  }

  function PutShelf(s: Shelf, gid: string, data: Blob): (Ack, Shelf) {
    if gid == "" || data == [] || s.meta.None? then (Rejected, s)
    else
      var m := s.meta.value;
      var current := if s.part.Some? then s.part.value else [];
      if (m.phase != Receiving && m.phase != Appending) || |data| > m.chunkSize || |current| + |data| > MAX_SIZE then (Rejected, s)
      else (Accepted(m.chunkSize), s.(part := Some(current + data), meta := Some(m.(phase := Appending, received := |current| + |data|))))
  }

  /** The file to be committed: the recorded one, or whichever incoming file there is. */
  function ToCommit(s: Shelf, m: Meta): Option<Place> {
    if s.At(m.path).Some? then Some(m.path)
    else if s.bin.Some? then Some(Bin)
    else if s.part.Some? then Some(Part)
    else None
  }

  function CommitShelf(digest: Blob -> string, s: Shelf, typeOk: bool): (Ack, Shelf) {
    if s.meta.None? then (Rejected, s)
    else
      var m := s.meta.value;
      match ToCommit(s, m)
      case None => (Rejected, s.(meta := None))
      case Some(p) =>
        var data := s.At(p).value;
        if |data| != m.size || digest(data) != m.sha then (Rejected, s.Without(p).(meta := None))
        else if !typeOk || m.size > MAX_SIZE then (Rejected, s)
        else
          var committed := m.(path := Bin, phase := PendingConfirm, received := m.size);
          (Accepted(m.chunkSize), s.Without(p).(bin := Some(data), meta := Some(committed)))
  }

  function PaidShelf(s: Shelf): (Ack, Shelf) {
    if s.meta.None? || s.Served().None? then (Rejected, s)
    else
      var m := s.meta.value;
      (Accepted(m.chunkSize), Shelf(Some(m.(path := Final, phase := Stored, paid := true)), None, None, s.Served()))
  }

  /** A read request; without offset and length it is for the whole file. */
  datatype Query = Query(includeData: bool, offset: Option<int>, length: Option<int>, maxBytes: int)
  datatype Reply = NotFound | Info(size: nat) | TooLarge | Missing | Data(bytes: Blob, eof: bool)

  function Slice(data: Blob, offset: nat, length: nat): Blob {
    data[Min(offset, |data|)..Min(offset + length, |data|)]
  }

  function GetReply(s: Shelf, q: Query): Reply {
    if s.meta.None? then NotFound
    else if !q.includeData then Info(s.meta.value.size)
    else
      var total := s.meta.value.size;
      var maxBytes := Max(SMALLEST_CAP, Min(if q.maxBytes <= 0 then MAX_SIZE else q.maxBytes, Min(MAX_SIZE, DATA_CAP)));
      var offset := if q.offset.Some? then Max(0, q.offset.value) else 0;
      var length := if q.length.Some? then q.length.value else 0;
      if q.offset.None? && q.length.None? && total > 0 && total > maxBytes then TooLarge
      else if total > 0 && offset >= total then Data([], true)
      else
        var readLen := Max(0, Min(if length <= 0 then maxBytes else length, maxBytes));
        var n := if total > 0 then Min(readLen, total - offset) else readLen;
        match s.Served()
        case None => Missing
        case Some(data) => var out := Slice(data, offset, n); Data(out, total > 0 && offset + |out| >= total)
  }

  datatype Request =
    | Init(gid: string, size: int, sha: string, admitted: bool)
    | Put(gid: string, data: Blob)
    | Commit(gid: string, typeOk: bool)
    | MarkPaid(gid: string)
    | Get(gid: string, query: Query)

  predicate Writes(r: Request, gid: string) { r.gid == gid && !r.Get? }

  function Handle(digest: Blob -> string, s: Shelf, r: Request): Shelf {
    match r
    case Init(gid, size, sha, admitted) => InitShelf(s, gid, size, sha, admitted).1
    case Put(gid, data) => PutShelf(s, gid, data).1
    case Commit(_, typeOk) => CommitShelf(digest, s, typeOk).1
    case MarkPaid(_) => PaidShelf(s).1
    case Get(_, _) => s
  }

  // ---------- sizes ----------

  predicate Small(file: Option<Blob>) { file.Some? ==> |file.value| <= 157286400 }

  /** No file and no announced size is above 150 MiB. */
  predicate AllSmall(s: Shelf) {
    Small(s.part) && Small(s.bin) && Small(s.final) && (s.meta.Some? ==> s.meta.value.size <= 157286400)
  }

  /** No request ever makes a file too large. */
  lemma StaysSmall(digest: Blob -> string, s: Shelf, r: Request)
    requires AllSmall(s)
    ensures AllSmall(Handle(digest, s, r))
  {
  }

  /** What a read returns is a piece of the served file from the place asked for, no longer than
      asked for and no longer than the limits of the request and the transport. */
  lemma ReplyIsAPiece(s: Shelf, q: Query)
    requires GetReply(s, q).Data?
    ensures var bytes, offset := GetReply(s, q).bytes, if q.offset.Some? && q.offset.value > 0 then q.offset.value else 0;
            && |bytes| <= 118751232 && (q.maxBytes >= 32768 ==> |bytes| <= q.maxBytes)
            && (q.length.Some? && q.length.value > 0 ==> |bytes| <= q.length.value)
            && (bytes != [] ==> s.Served().Some? && offset + |bytes| <= |s.Served().value|
                                && bytes == s.Served().value[offset..offset + |bytes|])
  {
  }

  // ---------- what a commit vouches for ----------

  /** The file served under the id is the one that was announced. */
  predicate Verified(digest: Blob -> string, s: Shelf, file: Blob) {
    && s.Served() == Some(file) && s.meta.Some?
    && s.meta.value.size == |file| && s.meta.value.sha == digest(file)
    && (s.meta.value.phase == PendingConfirm || s.meta.value.phase == Stored)
    && s.At(s.meta.value.path) == Some(file)
  }

  /** No request but a new announcement of the same id can change a committed file, in
      whatever order promotion, repeated commits and late pieces come. */
  lemma VerifiedIsKept(digest: Blob -> string, s: Shelf, r: Request, file: Blob)
    requires Verified(digest, s, file) && !r.Init?
    ensures Verified(digest, Handle(digest, s, r), file)
  {
    var m := s.meta.value;
    assert ToCommit(s, m) == Some(m.path);
  }

  /** A commit makes the announced file the one that is served exactly when no other file was
      promoted under the id before. */
  lemma CommitServesExactlyWhen(digest: Blob -> string, s: Shelf, typeOk: bool, file: Blob)
    requires s.meta.Some? && s.meta.value.path == Part && s.part == Some(file)
    requires CommitShelf(digest, s, typeOk).0.Accepted?
    ensures Verified(digest, CommitShelf(digest, s, typeOk).1, file) <==> s.final.None? || s.final == Some(file)
  {
  }

  class Archivist {
    const digest: Blob -> string
    var files: map<string, Meta>
    var part: map<string, Blob>
    var bin: map<string, Blob>
    var final: map<string, Blob>

    constructor (digest: Blob -> string)
      ensures this.digest == digest && files == map[] && part == map[] && bin == map[] && final == map[]
    {
      this.digest := digest;
      files, part, bin, final := map[], map[], map[], map[];
    }

    function View(gid: string): Shelf
      reads this
    {
      Shelf(Lookup(files, gid), Lookup(part, gid), Lookup(bin, gid), Lookup(final, gid))
    }

    method HandleInit(gid: string, size: int, sha: string, admitted: bool) returns (ack: Ack)
      modifies `files, `part
      ensures (ack, View(gid)) == InitShelf(old(View(gid)), gid, size, sha, admitted)
      ensures forall g :: g != gid ==> View(g) == old(View(g))
    {
      if gid == "" || size <= 0 || |sha| != 64 { return Rejected; }
      if size > MAX_SIZE || !admitted { return Rejected; }
      files := files[gid := Meta(size, sha, Receiving, Part, UPLOAD_CHUNK, 0, false)];
      part := part[gid := []];
      return Accepted(UPLOAD_CHUNK);
    }

    method HandlePut(gid: string, data: Blob) returns (ack: Ack)
      modifies `files, `part
      ensures (ack, View(gid)) == PutShelf(old(View(gid)), gid, data)
      ensures forall g :: g != gid ==> View(g) == old(View(g))
    {
      if gid == "" || data == [] { return Rejected; }
      if gid !in files { return Rejected; }
      var m := files[gid];
      if m.phase != Receiving && m.phase != Appending { return Rejected; }
      if |data| > m.chunkSize { return Rejected; }
      var current := if gid in part then part[gid] else [];
      var newSize := |current| + |data|;
      if newSize > MAX_SIZE { return Rejected; }
      part := part[gid := current + data];
      files := files[gid := m.(phase := Appending, received := newSize)];
      return Accepted(m.chunkSize);
    }

    method Unlink(gid: string, p: Place)
      modifies `part, `bin, `final
      ensures View(gid) == old(View(gid)).Without(p)
      ensures forall g :: g != gid ==> View(g) == old(View(g))
    {
      match p {
        case Part => part := part - {gid};
        case Bin => bin := bin - {gid};
        case Final => final := final - {gid};
      }
    }

    method HandleCommit(gid: string, typeOk: bool) returns (ack: Ack)
      modifies this
      ensures (ack, View(gid)) == CommitShelf(digest, old(View(gid)), typeOk)
      ensures forall g :: g != gid ==> View(g) == old(View(g))
    {
      if gid !in files { return Rejected; }
      var m := files[gid];
      var p := ToCommit(View(gid), m);
      if p.None? {
        files := files - {gid};
        return Rejected;
      }
      var data := View(gid).At(p.value).value;
      if |data| != m.size || digest(data) != m.sha {
        Unlink(gid, p.value);
        files := files - {gid};
        return Rejected;
      }
      if !typeOk || m.size > MAX_SIZE { return Rejected; }
      Unlink(gid, p.value);
      bin := bin[gid := data];
      files := files[gid := m.(path := Bin, phase := PendingConfirm, received := m.size)];
      return Accepted(m.chunkSize);
    }

    /** Moves the incoming file to its final place unless there is one already. */
    method PromoteIncoming(gid: string) returns (promoted: bool)
      modifies `part, `bin, `final
      ensures promoted <==> old(View(gid)).bin.Some? || old(View(gid)).part.Some?
      ensures var s := old(View(gid));
              View(gid) == if s.bin.Some? then s.(final := s.bin, bin := None)
                           else if s.part.Some? then s.(final := s.part, part := None) else s
      ensures forall g :: g != gid ==> View(g) == old(View(g))
    {
      if gid in bin {
        final, bin := final[gid := bin[gid]], bin - {gid};
        return true;
      }
      if gid in part {
        final, part := final[gid := part[gid]], part - {gid};
        return true;
      }
      return false;
    }

    method HandleMarkPaid(gid: string) returns (ack: Ack)
      modifies this
      ensures (ack, View(gid)) == PaidShelf(old(View(gid)))
      ensures forall g :: g != gid ==> View(g) == old(View(g))
    {
      if gid !in files { return Rejected; }
      if gid !in final {
        var promoted := PromoteIncoming(gid);
        if !promoted { return Rejected; }
      }
      Unlink(gid, Part);
      Unlink(gid, Bin);
      files := files[gid := files[gid].(path := Final, phase := Stored, paid := true)];
      return Accepted(files[gid].chunkSize);
    }

    method HandleGet(gid: string, q: Query) returns (r: Reply)
      ensures r == GetReply(View(gid), q)
    {
      if gid !in files { return NotFound; }
      var total := files[gid].size;
      if !q.includeData { return Info(total); }
      var maxBytes := if q.maxBytes <= 0 then MAX_SIZE else q.maxBytes;
      maxBytes := Max(SMALLEST_CAP, Min(maxBytes, Min(MAX_SIZE, DATA_CAP)));
      var offset := if q.offset.Some? then q.offset.value else 0;
      var length := if q.length.Some? then q.length.value else 0;
      if offset < 0 { offset := 0; }
      if q.offset.None? && q.length.None? && total > 0 && total > maxBytes { return TooLarge; }
      if total > 0 && offset >= total { return Data([], true); }
      if length <= 0 { length := maxBytes; }
      var readLen := Max(0, Min(length, maxBytes));
      if total > 0 { readLen := Min(readLen, total - offset); }
      var data := View(gid).Served();
      if data.None? { return Missing; }
      var out := Slice(data.value, offset, readLen);
      return Data(out, total > 0 && offset + |out| >= total);
    }

    method Dispatch(r: Request)
      modifies this
      ensures View(r.gid) == Handle(digest, old(View(r.gid)), r)
      ensures forall g :: g != r.gid ==> View(g) == old(View(g))
    {
      match r
      case Init(gid, size, sha, admitted) => var _ := HandleInit(gid, size, sha, admitted);
      case Put(gid, data) => var _ := HandlePut(gid, data);
      case Commit(gid, typeOk) => var _ := HandleCommit(gid, typeOk);
      case MarkPaid(gid) => var _ := HandleMarkPaid(gid);
      case Get(_, _) =>
    }

    /** Any requests of other clients, with no new announcement of this id. */
    method Meanwhile(rs: seq<Request>, gid: string, ghost file: Blob)
      requires Verified(digest, View(gid), file)
      requires forall i :: 0 <= i < |rs| ==> !(rs[i].Init? && rs[i].gid == gid)
      modifies this
      ensures Verified(digest, View(gid), file)
    {
      for i := 0 to |rs|
        invariant Verified(digest, View(gid), file)
      {
        if rs[i].gid == gid { VerifiedIsKept(digest, View(gid), rs[i], file); }
        Dispatch(rs[i]);
      }
    }

    /** Any requests that write under other ids, and any reads. */
    method Elsewhere(rs: seq<Request>, gid: string)
      requires forall i :: 0 <= i < |rs| ==> !Writes(rs[i], gid)
      modifies this
      ensures View(gid) == old(View(gid))
    {
      for i := 0 to |rs|
        invariant View(gid) == old(View(gid))
      {
        Dispatch(rs[i]);
      }
    }
  }

  function Lookup<K, V>(m: map<K, V>, k: K): Option<V> { if k in m then Some(m[k]) else None }

  // ---------- the client ----------

  datatype Uploaded = FailedAt(stage: Stage) | Done
  datatype Stage = InitStage | PutStage | CommitStage

  predicate Uploadable(server: Archivist, gid: string, file: Blob, admitted: bool, typeOk: bool) {
    gid != "" && 0 < |file| <= MAX_SIZE && |server.digest(file)| == 64 && admitted && typeOk
  }

  /** Announces a file, sends it piece by piece and commits it, while other clients write
      under other ids and read what they like; it succeeds exactly when the archivist admits the file. */
  method UploadGraffiti(server: Archivist, gid: string, file: Blob, admitted: bool, typeOk: bool, others: nat -> seq<Request>)
      returns (r: Uploaded)
    requires forall k, i :: 0 <= i < |others(k)| ==> !Writes(others(k)[i], gid)
    modifies server
    ensures r.Done? <==> Uploadable(server, gid, file, admitted, typeOk)
    ensures r.Done? && old(server.View(gid)).final.None? ==> Verified(server.digest, server.View(gid), file)
  {
    var ack := server.HandleInit(gid, |file|, server.digest(file), admitted);
    if ack.Rejected? { return FailedAt(InitStage); }
    assert file[..0] == [];
    var ok := SendPieces(server, gid, ack.chunkSize, file, others);
    if !ok { return FailedAt(PutStage); }
    assert file[..|file|] == file;
    var commit := server.HandleCommit(gid, typeOk);
    if commit.Rejected? { return FailedAt(CommitStage); }
    return Done;
  }

  method SendPieces(server: Archivist, gid: string, chunkSize: nat, file: Blob, others: nat -> seq<Request>) returns (ok: bool)
    requires gid != "" && 0 < chunkSize <= UPLOAD_CHUNK && |file| <= MAX_SIZE && Sending(server.View(gid), server.digest, file, 0)
    requires forall k, i :: 0 <= i < |others(k)| ==> !Writes(others(k)[i], gid)
    modifies server
    ensures ok && Sending(server.View(gid), server.digest, file, |file|) && server.View(gid).final == old(server.View(gid)).final
  {
    var sent: nat, k: nat := 0, 0;
    while true
      invariant Sending(server.View(gid), server.digest, file, sent) && server.View(gid).final == old(server.View(gid)).final
      decreases |file| - sent
    {
      var buf := Slice(file, sent, chunkSize);
      if buf == [] { break; }
      server.Elsewhere(others(k), gid);
      PieceIsTaken(server.View(gid), server.digest, gid, file, sent, buf);
      var put := server.HandlePut(gid, buf);
      if put.Rejected? { return false; }
      sent, k := sent + |buf|, k + 1;
    }
    return true;
  }

  predicate Announced(m: Meta, digest: Blob -> string, file: Blob) {
    && m.size == |file| && m.sha == digest(file) && m.path == Part && m.chunkSize == UPLOAD_CHUNK
    && (m.phase == Receiving || m.phase == Appending)
  }

  /** The first `sent` bytes of the announced file have arrived. */
  predicate Sending(s: Shelf, digest: Blob -> string, file: Blob, sent: nat) {
    sent <= |file| && s.part == Some(file[..sent]) && s.meta.Some? && Announced(s.meta.value, digest, file)
  }

  lemma PieceIsTaken(s: Shelf, digest: Blob -> string, gid: string, file: Blob, sent: nat, buf: Blob)
    requires gid != "" && |file| <= MAX_SIZE && Sending(s, digest, file, sent)
    requires 0 < |buf| <= UPLOAD_CHUNK && sent + |buf| <= |file| && buf == file[sent..sent + |buf|]
    ensures var (ack, s') := PutShelf(s, gid, buf);
            ack.Accepted? && Sending(s', digest, file, sent + |buf|) && s'.final == s.final
  {
    assert file[..sent] + buf == file[..sent + |buf|];
  }

  /** The size of the pieces a large file is fetched in: eight of them cover the file, unless
      they would be too large. */
  function ChunkFor(total: nat): (n: nat)
    ensures MIB <= n <= LARGEST_READ
    ensures 8 * n >= total || n == LARGEST_READ
  {
    Min(Max(MIB, (total + TARGET_CALLS - 1) / TARGET_CALLS), Min(DATA_CAP, LARGEST_READ))
  }

  /** A read of a piece in range returns exactly that piece, and says so when it is the last. */
  lemma PieceIsRead(digest: Blob -> string, s: Shelf, file: Blob, offset: nat, want: nat)
    requires Verified(digest, s, file) && offset < |file| && 0 < want <= |file| - offset && want <= LARGEST_READ
    ensures GetReply(s, Query(true, Some(offset), Some(want), want)) == Data(file[offset..offset + want], offset + want >= |file|)
  {
  }

  lemma WholeIsRead(digest: Blob -> string, s: Shelf, file: Blob)
    requires Verified(digest, s, file) && 0 < |file| <= ONE_SHOT
    ensures GetReply(s, Query(true, None, None, |file|)) == Data(file, true)
  {
  }

  /** Fetches a committed file while other clients go on: between any two requests the file
      may be paid for and promoted. It gets exactly the file, unless the caller set a limit
      below its size. */
  method FetchGraffitiFile(server: Archivist, gid: string, maxBytes: int, others: nat -> seq<Request>, ghost file: Blob)
      returns (r: Option<Blob>)
    requires Verified(server.digest, server.View(gid), file) && file != []
    requires forall k, i :: 0 <= i < |others(k)| ==> !(others(k)[i].Init? && others(k)[i].gid == gid)
    modifies server
    ensures r == if |file| <= Max(SMALLEST_CAP, Min(maxBytes, MAX_SIZE)) then Some(file) else None
  {
    var info := server.HandleGet(gid, Query(false, None, None, 0));
    var total := info.size;
    if total > Max(SMALLEST_CAP, Min(maxBytes, MAX_SIZE)) { return None; }
    server.Meanwhile(others(0), gid, file);
    if total <= Min(DATA_CAP, ONE_SHOT) {
      WholeIsRead(server.digest, server.View(gid), file);
      var reply := server.HandleGet(gid, Query(true, None, None, Min(total, DATA_CAP)));
      if !reply.Data? || reply.bytes == [] { return None; }
      return Some(reply.bytes);
    }
    var out := FetchPieces(server, gid, total, others, file);
    if |out| != total { return None; }
    return Some(out);
  }

  method FetchPieces(server: Archivist, gid: string, total: nat, others: nat -> seq<Request>, ghost file: Blob) returns (out: Blob)
    requires Verified(server.digest, server.View(gid), file) && total == |file|
    requires forall k, i :: 0 <= i < |others(k)| ==> !(others(k)[i].Init? && others(k)[i].gid == gid)
    modifies server
    ensures out == file
  {
    var chunk := ChunkFor(total);
    out := [];
    var offset: nat, k: nat := 0, 0;
    while offset < total
      invariant offset <= total && out == file[..offset]
      invariant Verified(server.digest, server.View(gid), file)
      decreases total - offset
    {
      var want := Min(chunk, total - offset);
      PieceIsRead(server.digest, server.View(gid), file, offset, want);
      var reply := server.HandleGet(gid, Query(true, Some(offset), Some(want), want));
      if !reply.Data? || reply.bytes == [] { break; }
      out := out + reply.bytes;
      offset := offset + |reply.bytes|;
      if reply.eof && offset < total { break; }
      k := k + 1;
      server.Meanwhile(others(k), gid, file);
    }
  }

  /** Upload then download is the identity, as long as other clients do not write under the id
      during the upload and do not announce it again afterwards. */
  method UploadThenFetch(server: Archivist, gid: string, file: Blob, maxBytes: int, during: nat -> seq<Request>,
                         after: nat -> seq<Request>)
      returns (r: Option<Blob>)
    requires Uploadable(server, gid, file, true, true) && server.View(gid).final.None? && |file| <= maxBytes
    requires forall k, i :: 0 <= i < |during(k)| ==> !Writes(during(k)[i], gid)
    requires forall k, i :: 0 <= i < |after(k)| ==> !(after(k)[i].Init? && after(k)[i].gid == gid)
    modifies server
    ensures r == Some(file)
  {
    var _ := UploadGraffiti(server, gid, file, true, true, during);
    r := FetchGraffitiFile(server, gid, maxBytes, after, file);
  }
}
