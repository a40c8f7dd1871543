# TsarChain: a verified model of its native core, difficulty rules and archivist

This project models the parts of TsarChain that money and stored files depend on, and proves
properties of them with Dafny 4.11: `dafny verify dfyconfig.toml`.

Loops and objects of the original are imperative methods and classes proved against
specification functions; the laws are lemmas about those functions. Machine integers are
bounded types with wrap-around and saturation written out. Cryptography is a record of
uninterpreted functions; a theorem that needs a law of it (commuting Diffie-Hellman, opening
undoes sealing, no collision among the strings at hand, no forged packet in the
run, no signature by anyone but the holder of a key) takes it
as a precondition, stated for the values involved wherever that is enough.

## Files

| file | component |
|---|---|
| Arith.dfy, Bytes.dfy | integer division; fixed-width integers, endian and CompactSize encodings |
| TxCodec.dfy, Wire.dfy, Sighash.dfy | transaction serialiser and parser; what its bytes mean and that they mean one transaction; sizes, weight and the BIP143 digest three ways |
| Validation.dfy, Spending.dfy, BlockRules.dfy, Mempool.dfy | the destructive block validator; its rules in full, for one spend, a transaction and a block; the non-destructive mempool validator |
| UtxoRecord.dfy, Storage.dfy, UtxoDelta.dfy | stored keys and records, the LMDB wrapper, the delta of a block and its agreement with the validator |
| Value.dfy, Ledger.dfy, Chain.dfy | value inside a block, runs of transactions, chains of accepted blocks |
| Script.dfy, Dictionary.dfy, UtxoStore.dfy | scripts as lists of commands; the dictionary of unspent outputs, its marks and its database |
| Snapshot.dfy, Node.dfy, NodeRuns.dfy | the part of the set a block is judged on; one block on a running node; blocks, flushes and restarts in any order |
| Merkle.dfy, PrefixScan.dfy | Merkle trees; prefix scans and paging |
| Transcript.dfy, SecureChannel.dfy, Handshake.dfy, ChannelRuns.dfy, ChannelSessions.dfy | signed transcripts and nonces, the secure channel, what an accepted hello proves, its runs over an unreliable network, a client or server over several handshakes |
| CompactBits.dfy, Difficulty.dfy, ForkChoice.dfy | compact targets, the difficulty rules, work and the choice between chains |
| Mining.dfy | the parallel nonce search in every interleaving |
| RateGuard.dfy, GuardRuns.dfy, GuardService.dfy, BlobTransfer.dfy | the archivist's request limiter, its runs and what it grants; upload, commit, promotion and download |

## Main results

- A block's delta, replayed on the database, gives exactly the validator's own result, and over
  every chain of accepted blocks value is conserved, nothing is spent twice and coinbases mature.
- A running node judges each block on a snapshot of its dictionary and changes the dictionary before
  the database. Over a library that may fail at any call, with flushes and restarts in any order, it
  follows exactly such a chain and refuses exactly what does not qualify on the chain's set, as
  long as it is in order whenever it restarts; when a failed batch puts it out of order, and what
  brings it back, is stated exactly. Premise: the scripts of its blocks are written with the
  shortest pushes, as every script is that arrives as hexadecimal text.
- A transaction, and a block, is accepted exactly by rules written out without the validator's own
  functions: an input of a key hash signs 182 bytes that spell out the spent amount, the key hash and
  the whole transaction at their positions, and an input of a script hash reveals its data. If the
  digests under two accepted signatures agree, so do the amounts and everything signed.
- The mempool's rules refine the block rules; the exact gap between them is stated both ways.
- Serialiser and parser invert each other exactly when a transaction has an input or a number of
  outputs other than one; equal bytes mean equal transactions with inputs, script signatures and
  witnesses included; all three sighash constructions coincide, each with its own loops.
- A client that pins a server's key and accepts an answer has, whatever the network made of both
  messages, the mirrored roots of a session that this server signed for this very greeting.
- Over a network that drops, repeats, reorders and injects, a channel delivers a subsequence of
  what its peer sent, rejected packets leave no trace, and within a session no nonce repeats;
  over several handshakes no key and nonce repeat exactly if no exchange is taken up twice, which
  a server with fresh ephemeral keys never does.
- A Merkle root binds its leaves for a given length; a path of full length proves a piece of a file
  exactly at its own place; what paths of every other length prove is stated exactly.
- Paged iteration equals full iteration, and degrades gracefully when the store changes.
- Slower blocks never raise the difficulty written in the next block, for targets of at least
  2^23, and a steady chain keeps it exactly.
- The work of a block is how often its target plus one goes into 2^256, so a short branch of low
  targets beats a longer one. Of two different chains exactly one wins; two nodes agree after an exchange
  exactly if the loser is within the reorganisation limit or shares nothing.
- Each nonce is hashed at most once in every interleaving, and exhaustion is conclusive.
- The requests the limiter admits through a key stay within its rate over every run of requests
  and bans, requests up to the burst are served, and purging is invisible to every request.
- Upload followed by download is the identity while other clients write under other ids, read what
  they like and, after the commit, do anything but announce the same id again.

## Where the code does not do what one would expect

Each has a lemma with the exact condition:

- a transaction without inputs and with one output does not survive its own round trip
  (`TxCodec.ParseRecoversExactlyWhen`);
- scripts of 2^16 bytes and more lose their length in the stored record and can come back
  spendable (`UtxoRecord.EntryRoundTripExactlyWhen`, `Node.LongScriptComesBackSpendable`); this
  concerns storage and validator taken by themselves, since after genesis the node lets no such
  script through (`Node.GuardedIsShort`);
- a script with a longer push than needed is rewritten in the dictionary, and one that nobody can
  spend can become spendable by that; a script that ends inside a push cannot be read, and one such
  record stops the loading of all. Only scripts given as lists of commands can be like that
  (`Dictionary.ReloadExactlyWhen`, `Script.SurvivesExactlyWhen`, `Script.LongerPushBecomesSpendable`,
  `Script.CutOffPushIsUnreadable`);
- a batch that fails leaves the dictionary ahead of the database, and the next block that is stored
  takes away the marks by which a flush would make up for it
  (`Node.FailedSaveInStepExactlyWhen`, `Node.LaterSaveForgets`, `Dictionary.StoredInStepExactlyWhen`);
- an entry whose id an earlier transaction of the block has again is not looked up, and a block that
  spends it is refused (`Snapshot.SnapshotAcceptedExactlyWhen`);
- a client channel never forgets its last hello, so the same answer can be accepted twice and the
  session starts over with the same keys and numbers; the node's own protocol code sends a new
  hello each time (`ChannelSessions.PairsUniqueExactlyWhen`, `ChannelSessions.AcceptedTwiceRepeats`);
- two nodes can hold on to different chains for good when the losing branch is longer than the
  reorganisation limit (`ForkChoice.AgreeExactlyWhen`, `ForkChoice.LongBranchesNeverJoin`);
- the mempool's maturity test wraps where the validator's saturates
  (`Mempool.MaturityRefinesExactlyWhen`);
- an odd list of Merkle leaves has the root of the list with its last leaf repeated; blocks are
  checked for repeated ids (src/tsarchain/consensus/validation.py:67)
  (`Merkle.RootBinds`, `Merkle.RepeatedLastHasTheSameRoot`);
- the Merkle verifier does not look at the length of a path and accepts inner nodes with shorter
  ones (`Merkle.ShorterPathExactlyWhen`, `Merkle.SoundForExactlyWhen`);
- a page that starts below its prefix comes out empty if a key lies in between
  (`PrefixScan.PageExactWhen`, `PrefixScan.KeyBetweenHidesThePage`);
- compact encoding inflates targets below 2^16 and drops the top bit of targets from 2^23 to 2^24
  (`CompactBits.RoundTripAccurateExactlyWhen`), and so does not keep the order of targets below
  2^23 (`CompactBits.MonotoneFromExactlyWhen`);
- with a previous target of zero the emergency rule makes mining harder and the clamp leaves its
  bounds (`Difficulty.EmergencyEasesExactlyWhen`, `Difficulty.TargetBoundsExactlyWhen`);
- committing under an id that already has a promoted file keeps serving the old file
  (`BlobTransfer.CommitServesExactlyWhen`).

The configuration quoted in the repository's README.md (lines 285-288) gives MAX_BITS as 0x1F0FFFFF; the code uses
0x1F9FFFFF (src/tsarchain/utils/config.py:300-301), and so does the model.

## Model

| member | source | states |
|---|---|---|
| Bytes.VarintRoundTrip | tsarcore_native/src/txcodec.rs:13-27 | reading a CompactSize integer gives back the encoded value and leaves what follows, for every 64-bit value |
| Bytes.VarintLayout | tsarcore_native/src/txcodec.rs:13-27 | one byte below 253, else a tag byte 253, 254 or 255 and the number in 2, 4 or 8 bytes, always in the shortest form |
| Bytes.LEAt | tsarcore_native/src/txcodec.rs:166-207 | integers are written with the least significant byte first: byte i is digit i in base 256 |
| TxCodec.ReverseTxid | tsarcore_native/src/txcodec.rs:166-207 | an id is written with its 32 bytes in reverse order |
| TxCodec.SerializeCompactInner | tsarcore_native/src/txcodec.rs:166-207 | the serialiser loop produces the wire layout of BIP144, whose bytes the Wire rows below pin down; the marker and the stacks are there exactly when asked for and some witness is non-empty |
| TxCodec.PushInputs | tsarcore_native/src/txcodec.rs:166-207 | the input loop appends the count and every input in order, each in the layout of Wire.InputLayout, script signature included |
| TxCodec.PushOutputs | tsarcore_native/src/txcodec.rs:166-207 | the output loop appends the count and every output in order |
| TxCodec.PushWitnesses | tsarcore_native/src/txcodec.rs:166-207 | the witness loop appends one stack per input, in order |
| TxCodec.ReadVarint | tsarcore_native/src/lib.rs:588-637 | the cursor version of the CompactSize reader agrees with the reader on the remaining bytes, failures included |
| TxCodec.ReadInput | tsarcore_native/src/lib.rs:639-715 | the cursor reads one input exactly as the stream reader does, or fails with it |
| TxCodec.ReadOutput | tsarcore_native/src/lib.rs:639-715 | the cursor keeps the raw bytes of one output exactly as the stream reader does, or fails with it |
| TxCodec.ReadBody | tsarcore_native/src/lib.rs:639-715 | inputs, outputs, skipped witness stacks and locktime are read exactly as the stream parser reads them |
| TxCodec.ParseTxView | tsarcore_native/src/lib.rs:639-715 | the cursor parser computes the stream parser on every byte string, malformed ones included, as long as a count can be allocated and no position plus length passes the 64-bit word |
| TxCodec.ParseRecovers | tsarcore_native/src/lib.rs:639-715 | for every transaction with an input or without exactly one output, parsing the serialised bytes recovers version, inputs, outputs and locktime, with or without witness |
| TxCodec.ParseMarkerClash | tsarcore_native/src/lib.rs:645-652 | a transaction with no input and one output is never recovered: its two counts read as the witness marker |
| TxCodec.ParseRecoversExactlyWhen | tsarcore_native/src/lib.rs:639-715 | round trip of serialiser and parser: it holds if and only if the transaction has an input or a number of outputs other than one |
| Wire.InputLayout | tsarcore_native/src/txcodec.rs:181-189 | an input is its id reversed, its index, the length of the script signature, the script signature itself and the sequence, each at its place |
| Wire.OutputLayout | tsarcore_native/src/txcodec.rs:190-195 | an output is its amount, the length of its script and the script, each at its place |
| Wire.TransactionLayout | tsarcore_native/src/txcodec.rs:166-207 | the bytes begin with the version, the marker 00 01 exactly if witnesses are written, and the number of inputs, and end with the locktime |
| Wire.ReadAllOf | tsarcore_native/src/txcodec.rs:166-207 | a reader that keeps script signatures and stacks gets version, inputs, outputs, stacks and locktime back from the bytes, with nothing left over |
| Wire.SerializeInjective | tsarcore_native/src/txcodec.rs:166-207 | transactions with inputs and the same bytes are the same in version, locktime, outputs and every input including its script signature, whichever layouts were asked for; written with witnesses they are the same in every stack item too |
| Sighash.TxPartsSize | tsarcore_native/src/validation.rs:290-323 | the validator measures with a serialiser of its own, field by field into a buffer: its length is that of the serialised transaction, for both layouts |
| Sighash.TxPartsWeightVsize | tsarcore_native/src/validation.rs:325-331 | weight is three times the stripped size plus the full size, vsize a quarter of it rounded up, in 64-bit arithmetic |
| Sighash.VsizeBetweenBaseAndTotal | tsarcore_native/src/validation.rs:325-331 | stripped size <= vsize <= full size (BIP141, "Transaction size calculations"), while the weight fits its type |
| Sighash.WeightIs | tsarcore_native/src/validation.rs:325-331 | the weight is three times the length of the stripped bytes plus the length of the full ones, and the virtual size a quarter of it rounded up, while the weight fits its type |
| Sighash.BuildSighashCache | tsarcore_native/src/validation.rs:230-255 | the three cached digests are the double hashes of all outpoints, all sequences and all outputs |
| Sighash.AppendPartsBody | tsarcore_native/src/validation.rs:298-310 | counts, inputs and outputs are pushed in order, each field by field |
| Sighash.AppendPartsWitness | tsarcore_native/src/validation.rs:311-319 | one counted stack per input is pushed in order |
| Sighash.Bip143SighashFromParts | tsarcore_native/src/validation.rs:257-288 | the digest from parts and cache is the hash of the BIP143 preimage of that input |
| Sighash.ComputeSighash | tsarcore_native/src/lib.rs:717-798 | the digest from raw bytes: refuse other hash types, parse, check the input number, then hash the preimage of the view |
| Sighash.SupportedExactlyWhen | tsarcore_native/src/lib.rs:722-727 | the hash types accepted from bytes are those whose lowest byte is 1, 33, 65 or 97 |
| Sighash.SighashFromBytesIsFromParts | tsarcore_native/src/lib.rs:717-798 | hashing from serialised bytes and hashing from parts with the cache give the same digest, whether or not the bytes carry witnesses |
| Sighash.PreimageInjective | tsarcore_native/src/validation.rs:257-288 | equal preimages have equal version, digests, outpoint, script code, amount, sequence, locktime and hash type |
| Sighash.SighashCommits | tsarcore_native/src/validation.rs:230-288 | if two digests agree and the hash does not collide on the strings involved, the transactions agree in everything but witnesses and script signatures, and so do the input, code, amount and hash type |
| Validation.CheckP2wpkh | tsarcore_native/src/validation.rs:684-715 | the signature branch returns the first failing check in the order of the code, using the cached sighash; it passes exactly for a signature on the message of Spending.KeyHashSpendExactlyWhen |
| Validation.CheckSpend | tsarcore_native/src/validation.rs:653-742 | one input: missing entry, immature coinbase, unsupported script or witness error, in that order; what lets a witness through is stated by Spending.AuthorisedExactlyWhen |
| Validation.SpendInputs | tsarcore_native/src/validation.rs:647-743 | the input loop removes each entry from the index, sums amounts and sigops, and stops at the first error |
| Validation.AddOutputs | tsarcore_native/src/validation.rs:749-778 | the output loop inserts every output, OP_RETURN ones too, and rejects zero amounts that are not OP_RETURN |
| Validation.CheckLimits | tsarcore_native/src/validation.rs:624-645 | size, weight and count limits in the order of the code |
| Validation.ValidateTransactionParts | tsarcore_native/src/validation.rs:617-788 | the destructive validator returns the verdict of the specification and on acceptance leaves exactly the index with inputs removed and outputs added |
| Validation.AcceptedExactlyWhen | tsarcore_native/src/validation.rs:617-788 | a transaction is accepted if and only if it is within limits, spends distinct, present, mature and authorised entries, has proper outputs, pays for them and stays within the sigops limit; the fee is the difference cut to 64 bits |
| Spending.SignedIsMessage | tsarcore_native/src/validation.rs:257-288 | what the validators hash is 182 bytes: version, digests of outpoints and sequences, outpoint, the code 19 76 a9 14 hash20 88 ac, amount, sequence, digest of outputs, locktime and hash type, each at its own position (BIP143) |
| Spending.MessageIsUnique | tsarcore_native/src/validation.rs:257-288 | the ten fields at their positions leave one message only |
| Spending.KindOfScript | tsarcore_native/src/validation.rs:100-114 | a script is of the key-hash kind exactly if it is 00 14 and 20 bytes, of the script-hash kind exactly if it is 00 20 and 32 bytes |
| Spending.KeyHashSpendExactlyWhen | tsarcore_native/src/validation.rs:684-715 | a key-hash spend passes if and only if its first item is a signature with a hash type of 1, 33, 65 or 97 behind it, its second a proper key with the given hash, and the signature, low if asked for, is valid for the double hash of the message of this input, this amount and this key hash |
| Spending.CovenantSpendExactlyWhen | tsarcore_native/src/validation.rs:716-740 | a script-hash spend passes if and only if the witness has two items at least, the second hashes to the program, the first is shorter than 256 bytes and the second is its length byte, the first item and the byte 87 |
| Spending.AuthorisedExactlyWhen | tsarcore_native/src/validation.rs:684-742 | the witness of an input is accepted if and only if it signs for, or reveals, what the script of the spent entry asks |
| Spending.MatureExactlyWhen | tsarcore_native/src/validation.rs:670-678 | an entry is mature if and only if it is no coinbase or the height, read as a signed word, is at least the maturity above its own |
| Spending.SigopsAreCounted | tsarcore_native/src/validation.rs:683-747 | the count of signature operations is the number of key-hash inputs, up to the largest 32-bit number |
| Spending.AcceptedByTheRules | tsarcore_native/src/validation.rs:617-788 | a transaction is accepted if and only if it meets the rules, none of which names a function of the validator's checks: limits, distinct outpoints, entries that are there and deep enough, witnesses that sign or reveal, outputs that are worth something, and no more spent than there is |
| Spending.AcceptedCovenantReveals | tsarcore_native/src/validation.rs:716-740 | in an accepted transaction every input that spends a script hash reveals its data in that form |
| Spending.AcceptedKeyHashSigns | tsarcore_native/src/validation.rs:684-715 | in an accepted transaction every input that spends a key hash carries a signature on its message with the amount and key hash of the spent entry |
| Spending.MessagesCommit | tsarcore_native/src/validation.rs:230-288 | two messages with one hash, without collisions on the strings hashed, have the same amount, key hash and hash type, and their transactions agree in version, locktime, outputs, every outpoint and every sequence |
| Spending.AcceptedSignaturesCommit | tsarcore_native/src/validation.rs:684-715 | if the digests under two accepted key-hash signatures agree and nothing hashed collides, the amounts of the two spent entries, the key hashes, the hash types and all signed fields agree |
| Validation.CreatedExactly | tsarcore_native/src/validation.rs:749-778 | the entries a transaction creates are exactly its outputs under its own id, with amount, script, coinbase flag and height |
| Validation.FailureIsFinal | tsarcore_native/src/validation.rs:1100-1150 | once a transaction of a block fails, no later one changes the outcome |
| Validation.ParseCompactUtxoList | tsarcore_native/src/validation.rs:1035-1098 | the index built from the compact list holds the last entry given for every outpoint |
| Validation.LastTupleCounts | tsarcore_native/src/validation.rs:1035-1098 | the index built from a list has for each outpoint the entry of its last tuple, and no outpoint that is not listed |
| Validation.ValidateBlockTxsCompact | tsarcore_native/src/validation.rs:1100-1150 | the block loop accepts or rejects as the fold over its transactions says, with the fees in order and the reason of the first failure |
| Validation.ValidateNext | tsarcore_native/src/validation.rs:1121-1144 | one step of the block loop: coinbase only and always first, the verdict on the current index, the running sigops limit |
| BlockRules.BlockAcceptedByTheRules | tsarcore_native/src/validation.rs:1100-1150 | a block is accepted if and only if a coinbase stands first and nowhere else, every transaction has inputs, each other one is accepted on the set its predecessors left, and the running count of signature operations stays within the limit; its fees are theirs in order |
| Mempool.InlineSighash | tsarcore_native/src/txcodec.rs:494-516 | the preimage written inline in the mempool is byte for byte the one built from parts and cache, with the amount and key hash it is given |
| Mempool.CheckInput | tsarcore_native/src/txcodec.rs:453-567 | one input: duplicate, missing, immature, witness shape and script checks in the order of the code; what passes is stated rule by rule in Mempool.AdmittedByTheRules |
| Mempool.HashParts | tsarcore_native/src/txcodec.rs:425-446 | the mempool gathers the three digests in loops of its own: they are the digests of the validator's cache |
| Mempool.CheckSize | tsarcore_native/src/txcodec.rs:318-343 | base and total size of the serialised transaction, weight and virtual size, and the six limits in the order of the code |
| Mempool.CheckInputs | tsarcore_native/src/txcodec.rs:449-567 | with its own digests and seen-set the input loop reports the first error, or the sums of amounts and sigops |
| Mempool.EndsAgree | tsarcore_native/src/txcodec.rs:318-343 | limits and balance are judged as the block validator judges them, with the same fee |
| Mempool.ValidateTxP2wpkhCompact | tsarcore_native/src/txcodec.rs:309-590 | the non-destructive validator returns the admission verdict of the specification |
| Mempool.AdmittedIsAccepted | tsarcore_native/src/txcodec.rs:309-590 | what the mempool admits the block validator accepts on the same set, height and limits, with the same fee |
| Mempool.AdmittedExactlyWhen | tsarcore_native/src/txcodec.rs:309-590 | the exact gap between the two validators, when heights fit: admitted if and only if accepted, not a coinbase, with inputs and outputs, and with the shape of a signature in front of every witness |
| Mempool.AdmittedByTheRules | tsarcore_native/src/txcodec.rs:309-590 | admitted, when heights fit, if and only if the transaction meets the rules of Spending.AcceptedByTheRules, is no coinbase, has inputs and outputs, and every witness has two items, the first of two bytes at least with a hash type of 1, 33, 65 or 97 at its end |
| Mempool.MaturityRefinesExactlyWhen | tsarcore_native/src/txcodec.rs:466-471 | the wrapping maturity test implies the saturating one on every entry if and only if the height, read as a signed word, is at least -1 |
| UtxoRecord.HexRoundTrip | tsarcore_native/src/validation.rs:490-505 | hexadecimal text of bytes decodes to the bytes and holds no colon |
| UtxoRecord.HexIs | tsarcore_native/src/validation.rs:490-505 | each byte is written as two lower-case digits, the high half first |
| UtxoRecord.DecRoundTrip | tsarcore_native/src/validation.rs:490-505 | decimal text of a number reads back as the number and consists of digits |
| UtxoRecord.DecIsShortest | tsarcore_native/src/validation.rs:490-505 | a number is written without leading zeros |
| UtxoRecord.ParseU32Of | tsarcore_native/src/validation.rs:490-505 | every 32-bit number is read back from its decimal text |
| UtxoRecord.KeyRoundTrip | tsarcore_native/src/validation.rs:490-505 | parsing the textual key of an outpoint gives back the outpoint |
| UtxoRecord.KeyIs | tsarcore_native/src/validation.rs:490-505 | a key is 64 digits that decode to the id, a colon and the shortest decimal form of the index |
| UtxoRecord.KeyInjective | tsarcore_native/src/utxo.rs:82-171 | different outpoints have different textual keys |
| UtxoRecord.EntryRoundTripExactlyWhen | src/tsarchain/storage/utxo_logic/database.py:132-150 | the record as packed is unpacked to the entry if and only if the script is shorter than 2^16 bytes; longer ones lose their length |
| UtxoRecord.EntryIs | tsarcore_native/src/storage.rs:895-908 | the record field by field: amount, flag, height modulo 2^64, script length modulo 2^16 and the script, at their positions |
| Storage.LmdbBackend.GrowToMax | tsarcore_native/src/storage.rs:356-399 | a growth strictly raises the map size by doubling, never past the maximum, and otherwise changes nothing |
| Storage.GrowthsAreLogarithmic | tsarcore_native/src/storage.rs:356-399 | the number of growths is at most 64 and at most one more than the binary logarithm of the maximum size, and the size rises without passing the maximum |
| Storage.LmdbBackend.Put | tsarcore_native/src/storage.rs:413-447 | terminates for every answer of the library; success means exactly this key was written, failure means nothing was |
| Storage.LmdbBackend.Delete | tsarcore_native/src/storage.rs:449-482 | terminates for every answer of the library; reports whether the key was there and removes nothing else |
| Storage.LmdbBackend.RunOps | tsarcore_native/src/storage.rs:616-662 | inside one transaction the operations take effect in order unless the map is full or a call fails |
| Storage.LmdbBackend.PutBatch | tsarcore_native/src/storage.rs:616-662 | all or nothing: success is the fold of all operations in order, failure leaves every database as it was |
| Storage.PackEntry | tsarcore_native/src/storage.rs:895-908 | the record is amount, flag, height, 16-bit script length and script, little-endian |
| Storage.BuildBatch | tsarcore_native/src/storage.rs:881-912 | every operation becomes its put or delete, in order, and the two counters count them |
| Storage.LastOpDecides | tsarcore_native/src/storage.rs:616-662 | after a batch each key has what its last operation put, is gone if that was a delete, and is as before if there was none |
| Storage.LmdbBackend.ApplyUtxoOps | tsarcore_native/src/storage.rs:881-915 | the delta is applied as one batch, all or nothing |
| UtxoDelta.UtxoBuildOpsCompact | tsarcore_native/src/utxo.rs:33-175 | the nested loops emit, transaction by transaction, the deletes of its inputs and the inserts of its storable outputs |
| UtxoDelta.AppendSpends | tsarcore_native/src/utxo.rs:82-130 | one delete per input in order; a coinbase has none |
| UtxoDelta.AppendOutputs | tsarcore_native/src/utxo.rs:132-171 | one insert per output that is not OP_RETURN, in order, with amount, script, coinbase flag and height |
| UtxoDelta.DeltaKeepsRepresentation | tsarcore_native/src/storage.rs:881-915 | one operation on the bytes is one change of the set they stand for |
| UtxoDelta.BatchRefinesReplay | tsarcore_native/src/storage.rs:881-915 | applying the rendered operations to a database that stands for a set gives a database that stands for the replayed set |
| UtxoDelta.StoredExactly | tsarcore_native/src/utxo.rs:132-171 | what replay stores of a transaction is exactly its outputs that are not OP_RETURN |
| UtxoDelta.ReplayTx | tsarcore_native/src/utxo.rs:82-171 | replaying one transaction removes its inputs and adds its storable outputs |
| UtxoDelta.ConsensusSpendsStorable | tsarcore_native/src/validation.rs:660-682 | an accepted transaction never spends an OP_RETURN entry, although the index holds them |
| UtxoDelta.InputsComeFromEarlier | tsarcore_native/src/validation.rs:652-678 | in an accepted block every input names an entry from before the block or an output of a strictly earlier non-coinbase transaction, even if ids repeat |
| UtxoDelta.PrefixAgrees | tsarcore_native/src/validation.rs:1121-1144 | after every prefix of an accepted block the replayed set is the validator index without OP_RETURN entries plus the storable coinbase outputs |
| UtxoDelta.DeltaAgreesWithValidator | tsarcore_native/src/utxo.rs:82-171 | for every accepted block with fresh, different ids the replayed delta is exactly the validator result without OP_RETURN outputs plus the coinbase outputs |
| UtxoDelta.StoreBlock | tsarcore_native/src/storage.rs:881-915 | whatever the library does, the database afterwards stands for the replayed set on success and for the old set on failure |
| UtxoDelta.AcceptBlock | tsarcore_native/src/validation.rs:1100-1150 | validating and then storing leaves a database that stands for the validator result, or for the old set if either half fails |
| Value.TotalAfterSpending | tsarcore_native/src/validation.rs:652-679 | removing distinct entries lowers the total by exactly their sum |
| Value.TotalAfterStoring | tsarcore_native/src/utxo.rs:132-171 | storing outputs under a fresh id raises the total by the sum of those that are not OP_RETURN |
| Value.PrefixCreatesNoValue | tsarcore_native/src/validation.rs:1121-1144 | after every prefix of a block the value in the index plus the fees so far is at most the value at the start |
| Value.BlockCreatesNoValue | tsarcore_native/src/validation.rs:660-787 | in an accepted block value at the end plus fees is at most value at the start, without assuming fresh ids |
| Ledger.ReplayIsStep | tsarcore_native/src/utxo.rs:82-171 | replaying a transaction is the abstract step: storable outputs appear, spent entries go, everything else stays |
| Ledger.UnspentExactly | tsarcore_native/src/validation.rs:652-678 | at every point of a run the unspent set is exactly what genesis or an earlier transaction created and none spent |
| Ledger.EntryUnchanged | tsarcore_native/src/utxo.rs:132-171 | an unspent entry keeps the amount, script, flag and height it was created with |
| Ledger.SpentOnce | tsarcore_native/src/validation.rs:652-678 | no outpoint is consumed twice in a run |
| Ledger.SpentExisted | tsarcore_native/src/validation.rs:652-678 | everything consumed was there at genesis or was created strictly earlier |
| Ledger.CoinbaseSpentMature | tsarcore_native/src/validation.rs:670-678 | a coinbase output of height h is never spent below h plus the maturity |
| Ledger.RunConserves | tsarcore_native/src/validation.rs:660-787 | over every prefix of a run: unspent value + fees + burned value = initial value + minted value, with no negative fee |
| Chain.ConsensusJudgesProperly | tsarcore_native/src/validation.rs:617-788 | what the block validator accepts spends properly from the stored set, and its fee is reported exactly if it fits 64 bits |
| Chain.ChainIsHistory | tsarcore_native/src/validation.rs:1100-1150 | a chain of accepted blocks with fresh ids, each accepted on the set the deltas before it leave, is a run of the ledger, and reported fees are the true ones |
| Chain.ChainConserves | tsarcore_native/src/validation.rs:1121-1144 | stored value + reported fees + burned value = genesis value + stored coinbase value, over every chain of accepted blocks whose value fits 64 bits |
| Chain.ChainSpendsSafely | tsarcore_native/src/validation.rs:652-678 | over every chain: each outpoint consumed at most once, everything consumed existed, coinbases mature, nothing consumed is still stored |
| Chain.FirstBlockQualifies | tsarcore_native/src/validation.rs:1126-1130 | the premises of the results about chains can be met: a first block with nothing but a coinbase is accepted on an empty set |
| Snapshot.ConsensusLocal | tsarcore_native/src/validation.rs:617-788 | the verdict on a transaction depends on the entries its inputs name and on nothing else of the index |
| Snapshot.SnapshotInputs | src/tsarchain/consensus/validation.py:442-465 | the entries of one transaction are looked up by their textual keys, each script written again; outputs of the block itself and entries already taken are passed over, and nothing else is taken |
| Snapshot.PrepareTxSnapshot | src/tsarchain/consensus/validation.py:424-470 | the snapshot is the part of the set that the node looks up and covers every input, or there is none and some input names neither an entry nor an earlier id |
| Snapshot.SnapshotSuffices | src/tsarchain/consensus/validation.py:389-423 | if nothing is hidden the validator gives the same verdict with the same fees on the snapshot as on the whole set; an entry is hidden if an earlier transaction has its id, no earlier input had it looked up, and no earlier non-coinbase transaction makes it again |
| Snapshot.SnapshotAcceptedExactlyWhen | src/tsarchain/consensus/validation.py:389-423 | a block is accepted on the snapshot if and only if it is accepted on the whole set and nothing is hidden |
| Snapshot.HiddenIsRejected | src/tsarchain/consensus/validation.py:453-454 | a block that names a hidden entry is rejected on its snapshot, whatever the whole set says |
| Snapshot.RepeatedByCoinbaseIsHidden | src/tsarchain/consensus/validation.py:435-454 | the failing block: its coinbase has the id of a stored entry that its second transaction spends |
| Snapshot.FreshHidesNothing | src/tsarchain/consensus/validation.py:453-454 | a block with ids that the set does not have hides nothing |
| Snapshot.DanglingIsRejected | src/tsarchain/consensus/validation.py:424-470 | a block for which no snapshot can be made is one that the validator rejects on the whole set |
| Snapshot.ValidateOnSnapshot | src/tsarchain/consensus/validation.py:389-423 | looking up, building the list and validating accepts exactly the blocks that the validator accepts on the whole set and that hide nothing, and gives the same verdict if nothing is hidden |
| Script.Serialize | src/tsarchain/utils/helpers.py:610-620 | writing loops over the commands: opcodes as they are, data behind the shortest push |
| Script.PushIs | src/tsarchain/utils/helpers.py:530-541 | a push is its length and its data: the length alone up to 75, else opcode 76, 77 or 78 and the length in 1, 2 or 4 bytes |
| Script.Deserialize | src/tsarchain/utils/helpers.py:623-633 | reading loops over the bytes, command by command, and fails at the first push that is cut off |
| Script.ParseWritten | src/tsarchain/utils/helpers.py:530-633 | commands as they are read come back from what is written for them; an empty push becomes the opcode zero, which is written alike |
| Script.RewrittenSurvives | src/tsarchain/utils/helpers.py:610-633 | reading and writing a script once more changes nothing: scripts that arrive as hexadecimal text are unchanged from then on |
| Script.SurvivesExactlyWhen | src/tsarchain/utils/helpers.py:530-633 | reading and writing leaves a script as it is if and only if it is what is written for some commands in which no push opcode stands alone |
| Script.ParsedIsStandard | src/tsarchain/utils/helpers.py:543-586 | what is read never holds a lone push opcode, and writing it takes no more bytes than reading it |
| Script.SpendableSurvives | tsarcore_native/src/validation.rs:100-112 | every script of a kind the validator can spend is left as it is |
| Script.OpReturnStays | src/tsarchain/storage/utxo_logic/database.py:144-145 | reading and writing makes no script an OP_RETURN and leaves none out |
| Script.LongerPushBecomesSpendable | src/tsarchain/utils/helpers.py:556-564 | the failing input: zero and a push of 20 bytes behind a length byte of its own, which nobody can spend, is rewritten to the key hash that its owner can |
| Script.CutOffPushIsUnreadable | src/tsarchain/utils/helpers.py:546-550 | the failing input: a script that ends inside a push cannot be read |
| Dictionary.ShowsExactly | src/tsarchain/storage/utxo_logic/database.py:146-150 | a dictionary keyed by text shows one set of entries and no other |
| Dictionary.MemOpRefinesExactlyWhen | src/tsarchain/storage/utxo_logic/validate.py:163-183 | one operation takes a dictionary that shows a set to one that shows the changed set if and only if the script it adds, if any, survives reading and writing |
| Dictionary.ThroughExactlyWhen | src/tsarchain/storage/utxo_logic/validate.py:174-177 | the operations of a block get stuck, before anything is stored, if and only if some added script cannot be read |
| Dictionary.MemOpsRefineReplay | src/tsarchain/storage/utxo_logic/validate.py:149-183 | if every added script survives, the operations of a block take a dictionary that shows a set to one that shows the replayed set |
| Dictionary.InStepExactlyWhen | src/tsarchain/storage/utxo_logic/validate.py:149-193 | the database stands for the set that the dictionary shows if and only if the two agree on every key |
| Dictionary.OpsMoveTogether | src/tsarchain/storage/utxo_logic/validate.py:149-193 | operations on dictionary and database bring the keys they mention in step and leave all others as they were |
| Dictionary.StoredInStepExactlyWhen | src/tsarchain/storage/utxo_logic/validate.py:186-190 | after a stored block the two are in step if and only if they agreed before on every key the block does not mention |
| Dictionary.MemOpsMark | src/tsarchain/storage/utxo_logic/validate.py:163-183 | operations on the dictionary alone mark every key at which it then differs from the database, even if one of them fails |
| Dictionary.EntryComesBackExactlyWhen | src/tsarchain/storage/utxo_logic/database.py:133-150 | an entry is read back from its record as it was if and only if its script has fewer than 2^16 bytes, is no OP_RETURN and survives reading and writing |
| Dictionary.ReloadExactlyWhen | src/tsarchain/storage/utxo_logic/database.py:133-150 | what is read back is what was stored if and only if every script does so; one script that cannot be read and nothing is read at all |
| UtxoStore.EveryDbIsListed | src/tsarchain/storage/kv.py:99-113 | every database has a table in the order of its keys |
| UtxoStore.ReadRows | src/tsarchain/storage/utxo_logic/database.py:133-150 | the loop over the rows reads the dictionary, or fails exactly if some record cannot be read |
| UtxoStore.UtxoDb.Load | src/tsarchain/storage/utxo_logic/database.py:153-166 | reading the table page by page gives the loaded dictionary and no marks, or fails exactly if some record cannot be read |
| UtxoStore.UtxoDb.ApplyNativeOpsToState | src/tsarchain/storage/utxo_logic/validate.py:149-193 | the dictionary changes operation by operation, up to a script that cannot be read; then all or nothing is stored, and only if it is stored the marks are taken away |
| UtxoStore.UtxoDb.Flush | src/tsarchain/storage/utxo_logic/database.py:169-215 | one batch for all marked keys: if it was written, dictionary and database are in step and no mark is left; a script too long for its record stops the collection, what was collected may be written, and the marks stay right |
| UtxoStore.CollectPuts | src/tsarchain/storage/utxo_logic/database.py:169-196 | records are collected for the marked keys, up to one with a script too long for its record; all are collected exactly if every script fits |
| UtxoStore.CollectDeletes | src/tsarchain/storage/utxo_logic/database.py:197-199 | every removed key is deleted and nothing else |
| UtxoStore.CollectAll | src/tsarchain/storage/utxo_logic/database.py:169-199 | the batch leaves the marks right, and brings dictionary and database in step if it is whole |
| Node.LongScriptComesBackSpendable | src/tsarchain/storage/utxo_logic/database.py:141-142 | what the record does to a long script, at the interface of storage and validator: 65558 bytes that nobody can spend decode as a key hash that its owner can |
| Node.ValidateTxGuardrails | src/tsarchain/consensus/validation.py:195-217 | the loop measures every transaction of a block, the coinbase too, against the byte limit and the six limits |
| Node.GuardrailsAreLimits | src/tsarchain/consensus/validation.py:195-217 | the unbounded arithmetic of the node and the 64-bit arithmetic of the native validator judge the limits alike, as long as the size fits |
| Node.GuardedIsShort | src/tsarchain/consensus/validation.py:206-212 | with a size limit below 2^16 no transaction that passes the node, coinbase or not, has a script of 2^16 bytes |
| Node.ValidateTransactions | src/tsarchain/consensus/validation.py:172-192 | a block is let through exactly if the other rules pass, every transaction is within the limits, the validator accepts it on the set that the dictionary shows, and nothing is hidden |
| Node.TakeBlock | src/tsarchain/consensus/chain_ops.py:119-124 | the block is refused with nothing changed exactly if it does not qualify on the set that the dictionary shows; otherwise the dictionary takes it, and the database if the batch is stored |
| Node.SetUnchangedExactlyWhen | tsarcore_native/src/utxo.rs:82-171 | an accepted, fresh block leaves the stored set as it is if and only if it holds a coinbase alone with nothing but OP_RETURN outputs |
| Node.FailedSaveInStepExactlyWhen | src/tsarchain/storage/utxo_logic/validate.py:185-193 | after a failed batch dictionary and database are in step if and only if the block changes nothing |
| Node.RestartAfterFailedSave | src/tsarchain/storage/utxo_logic/database.py:153-166 | a restart then brings back the set before the block, which is the set of the chain only if the block changes nothing |
| Node.LaterSaveForgets | src/tsarchain/storage/utxo_logic/validate.py:185-193 | a block stored after one that was not takes all marks away: the dictionary shows both, the database stands for the second alone, and the exact keys at which they agree |
| NodeRuns.RunNode | src/tsarchain/consensus/chain_ops.py:98-128 | blocks, flushes and restarts in any order, over a library that may fail at any call: as long as each restart comes in order, the blocks taken are an accepted chain, the dictionary shows its set, a block is refused exactly if it does not qualify on that set, every difference from the database is marked until a later block takes the marks away, and only a restart out of order can fail |
| NodeRuns.OfferStands | src/tsarchain/consensus/chain_ops.py:98-128 | one offered block keeps all of this, whatever the storage answers |
| NodeRuns.FlushKeeps | src/tsarchain/storage/utxo_logic/database.py:202-215 | a flush keeps what the standing promises, and a complete one puts an unsaved node in order |
| NodeRuns.InOrderReloads | src/tsarchain/storage/utxo_logic/database.py:153-166 | what a node in order has stored is read back as the set of its chain |
| NodeRuns.RestartKeeps | src/tsarchain/storage/utxo_logic/database.py:153-166 | a node in order that restarts is where it was; any other goes on from whatever was read |
| Transcript.JoinParts | tsarcore_native/src/networking.rs:37-46 | the loop joins the parts with one separator between neighbours |
| Transcript.JoinInjective | tsarcore_native/src/networking.rs:37-46 | joined strings of parts with the same lengths are equal only if the parts are |
| Transcript.JoinFixesLength | tsarcore_native/src/networking.rs:37-46 | the length of one part follows from the others and the joined string |
| Transcript.SeqToNonce | tsarcore_native/src/networking.rs:94-109 | the loop spells the number big-endian, refuses unsupported sizes and numbers that do not fit, and never truncates |
| Transcript.BigEndianRoundTrip | tsarcore_native/src/networking.rs:94-109 | the number is read back from its digits |
| Transcript.NonceInjective | tsarcore_native/src/networking.rs:94-109 | different 64-bit numbers have different 12-byte nonces |
| SecureChannel.SecureChannel.New | tsarcore_native/src/networking.rs:162-253 | created exactly for the supported sizes, a valid key, and a private key that matches and is there for a server; the default rekey period is three quarters of the quota, at least one |
| SecureChannel.SecureChannel.ClientBuildHs1 | tsarcore_native/src/networking.rs:255-288 | the hello carries the fresh key and salt under the signature of HS1|net|eph|salt|id|pub, and both are remembered |
| SecureChannel.AcceptedIsVouched | tsarcore_native/src/networking.rs:430-497 | no check of a hello fails if and only if it names this kind and network, its key, ephemeral key, salt and signature have their sizes, the key is proper and hashes to its id, it is the pinned one if there is a pin, and its signature verifies under it |
| SecureChannel.SecureChannel.ServerAcceptHs1 | tsarcore_native/src/networking.rs:421-562 | answered if and only if the hello is vouched for by a signature that verifies under its key on HS1|net|eph1|salt1|id|pub; then the answer is signed on HS2|net|eph2|salt2|eph1|salt1|id|pub, both roots come from shared secret, salts and P2Pv1|net|eph1|salt1|eph2|salt2, and all counters are reset; else nothing changes |
| SecureChannel.SecureChannel.ClientAcceptHs2 | tsarcore_native/src/networking.rs:291-416 | accepted if and only if the client has sent a hello and the answer is vouched for by a signature that verifies under its key, the pinned one if there is a pin, on HS2|net|eph2|salt2|eph1|salt1|id|pub with the client's own key and salt; then the roots are those of the exchange, in the opposite order of the server; else nothing changes |
| SecureChannel.SecureChannel.Establish | tsarcore_native/src/networking.rs:394-412 | both directions start at epoch 0 with the keys derived for it |
| SecureChannel.SecureChannel.Encrypt | tsarcore_native/src/networking.rs:567-606 | a packet is the sealing of the message under the key of epoch number / period and the nonce that spells its number; it depends on root, counter and message alone, and the counter moves by one exactly when a packet is produced |
| SecureChannel.SecureChannel.Decrypt | tsarcore_native/src/networking.rs:608-653 | a message is the opening of a packet with a higher number than the last under the key of its epoch; the outcome depends on root, counter and packet alone, and the counter moves exactly on success, although a rejected packet may move the cached key |
| SecureChannel.KeyLastsOnePeriod | tsarcore_native/src/networking.rs:576-586 | if epochs have different keys, two packets share a key if and only if no multiple of the rekey period lies after the one and not after the other |
| SecureChannel.KeyChangesAfterAPeriod | tsarcore_native/src/networking.rs:576-586 | a packet one rekey period later has another key |
| ChannelRuns.TextFixesParts | tsarcore_native/src/networking.rs:360-370 | the signed text determines all its parts as soon as the network ids or the node ids are known to be equally long |
| ChannelRuns.RootsAreMirrored | tsarcore_native/src/networking.rs:360-403 | a client that accepts a text this server signed means the same exchange, and with commuting Diffie-Hellman (RFC 7748, section 6.1) both derive the same two roots |
| ChannelRuns.HonestHello | tsarcore_native/src/networking.rs:308-378 | an honestly signed hello is refused for its network, its identity or the pin alone |
| ChannelRuns.Greet | tsarcore_native/src/networking.rs:421-562 | the first half of a direct handshake succeeds exactly for matching roles and networks and an acceptable client |
| ChannelRuns.Connect | tsarcore_native/src/networking.rs:255-562 | a direct handshake succeeds exactly for a consistent configuration, and then each side sends with the root the other receives with |
| Handshake.AnswerIsAnAnswer | tsarcore_native/src/networking.rs:360-370 | a text checked as an answer was signed as an answer: greetings and answers cannot be taken for each other |
| Handshake.AcceptedAnswerIsSigned | tsarcore_native/src/networking.rs:291-416 | if what verifies under a key is only what its holder signed, then for whatever answer a client accepts that holder signed a session of the same network, for this client's key and salt, with the answer's key and salt, and with the mirrored roots; that both mean the same text is derived, not assumed |
| Handshake.AcceptAnswer | tsarcore_native/src/networking.rs:291-416 | the same on the channel object, for any answer the network brings: a started session has a signed counterpart of the pinned key with mirrored roots |
| Handshake.AcceptedGreetingIsSigned | tsarcore_native/src/networking.rs:421-497 | for whatever greeting a server accepts, the holder of the key it names signed it field by field for the server's network |
| Handshake.AcceptGreeting | tsarcore_native/src/networking.rs:421-562 | the same on the channel object, for any greeting the network brings |
| Handshake.ThroughTheNetwork | tsarcore_native/src/networking.rs:291-562 | between a client and the server it pins, a network may deliver any greeting and any answer: if the client starts a session and the server signed no earlier answer for its salt, then the server took up this client's greeting and each sends with the root the other receives with |
| ChannelRuns.RunKeepsOrder | tsarcore_native/src/networking.rs:567-653 | in every run over a network that drops, repeats, reorders and injects, sent numbers are consecutive and accepted ones increase and match what was sent |
| ChannelRuns.AcceptedIsSubsequence | tsarcore_native/src/networking.rs:608-653 | the accepted messages are a subsequence of the sealed ones: in order and without repeats |
| ChannelRuns.GenuineAcceptedExactlyWhen | tsarcore_native/src/networking.rs:617-619 | a genuine packet is accepted if and only if no packet of the same or a higher number was, and its number fits a signed word |
| ChannelRuns.RejectedLeavesNoTrace | tsarcore_native/src/networking.rs:617-650 | a run with a rejected packet taken out is the same run |
| ChannelRuns.SentAlways | tsarcore_native/src/networking.rs:567-606 | whatever the network delivers, forged packets included, the numbers sealed are consecutive and every packet is the sealing of its message |
| ChannelRuns.NoncesNeverRepeat | tsarcore_native/src/networking.rs:567-606 | within one session no two packets of a direction have the same nonce, whatever the network does (NIST SP 800-38D, section 8) |
| ChannelRuns.Deliveries | tsarcore_native/src/networking.rs:567-653 | one event on the channel objects is one step of the run of its direction |
| ChannelRuns.Exchange | tsarcore_native/src/networking.rs:567-653 | two connected channel objects behave as two independent runs, one per direction, whatever the traffic |
| ChannelSessions.CourseInOrder | tsarcore_native/src/networking.rs:394-412 | over any handshakes and messages of a client or a server: in each session the numbers increase from 1 and stay within the word |
| ChannelSessions.PairsUniqueExactlyWhen | tsarcore_native/src/networking.rs:300-306 | over all sessions of a client or a server no two packets it seals share key and nonce if and only if no exchange of both ephemeral keys and salts is taken up twice with packets after both |
| ChannelSessions.FreshServerNeverRepeats | tsarcore_native/src/networking.rs:499-562 | a server that chooses a new ephemeral key or salt for every hello it accepts never seals twice under one key and nonce, whatever hellos arrive and however often one is replayed |
| ChannelSessions.AcceptedTwiceRepeats | tsarcore_native/src/networking.rs:394-412 | the failing input: the same answer accepted twice, and the first packets of both sessions have the same key and nonce |
| ChannelSessions.Play | tsarcore_native/src/networking.rs:255-606 | a channel object of either role put through any hellos, answers and messages seals the packets of that history |
| ChannelSessions.AcceptTwiceAndReplay | tsarcore_native/src/networking.rs:394-412 | after accepting the same answer again the object opens a packet it has already opened |
| Merkle.BuildRoot | tsarcore_native/src/graff_merkle.rs:60-73 | padding a level and then pairing it computes the root |
| Merkle.MerkleRoot | tsarcore_native/src/lib.rs:924-990 | repeating the last node while pairing computes the same root for every non-empty list, and the zero hash for the empty one |
| Merkle.NextLevel | tsarcore_native/src/graff_merkle.rs:84-102 | the padded level and the next one, as both loops compute them |
| Merkle.PairLayer | tsarcore_native/src/lib.rs:957-978 | the pairing loop of the block variant computes the next level |
| Merkle.UpAt | tsarcore_native/src/graff_merkle.rs:60-73 | every node is the hash of its two children, a missing one standing for its neighbour |
| Merkle.UpPadded | tsarcore_native/src/graff_merkle.rs:62-65 | writing the repeated node down changes nothing above |
| Merkle.RootBinds | tsarcore_native/src/graff_merkle.rs:60-73 | collisions aside, two lists of the same length have the same root if and only if they are the same |
| Merkle.InjectiveHasNone | tsarcore_native/src/graff_merkle.rs:43-48 | an injective pair hash meets that condition |
| Merkle.RepeatedLastHasTheSameRoot | tsarcore_native/src/lib.rs:957-978 | the length is not bound: an odd list of more than one leaf and the list with its last leaf repeated have the same root, whatever the hash |
| Merkle.BuildPathInternal | tsarcore_native/src/graff_merkle.rs:75-105 | errors for no leaves and for an index out of range, and otherwise the path of that leaf |
| Merkle.GraffMerkleVerify | tsarcore_native/src/graff_merkle.rs:231-326 | the climbing loop accepts exactly when the root is reached with no unknown side on the way |
| Merkle.PathVerifies | tsarcore_native/src/graff_merkle.rs:75-105 | completeness: for every leaf list and index the built path verifies the leaf against the built root, and is as long as the tree is high |
| Merkle.HeightIsCeilLog2 | tsarcore_native/src/graff_merkle.rs:84-103 | the height is the logarithm of the number of leaves, rounded up |
| Merkle.VerifiesExactlyWhen | tsarcore_native/src/graff_merkle.rs:308-324 | without collisions a path of full length verifies a value if and only if the value is the leaf its sides lead to and its hashes are the siblings on the way |
| Merkle.OnlyLeavesVerify | tsarcore_native/src/graff_merkle.rs:308-324 | membership soundness: only a committed leaf verifies with a path of full length |
| Merkle.InjectiveNeverCollides | tsarcore_native/src/graff_merkle.rs:43-48 | an injective pair hash meets the no-collision condition on every path |
| Merkle.ShorterPathExactlyWhen | tsarcore_native/src/graff_merkle.rs:231-326 | the verifier does not look at the length: with a path d steps short it accepts exactly the nodes d levels above the leaves, each at its own place |
| Merkle.BuiltPathNeverCollides | tsarcore_native/src/graff_merkle.rs:75-105 | along a built path every hashed pair is the pair of the tree |
| Merkle.SoundForExactlyWhen | tsarcore_native/src/graff_merkle.rs:231-326 | paths d steps short prove nothing but leaves if and only if the level d steps up holds nothing but leaves |
| Merkle.OnlyFullLengthIsSound | tsarcore_native/src/graff_merkle.rs:231-326 | if no inner node is a leaf, then among the lengths up to the height only the height itself proves nothing but leaves |
| Merkle.LongerPathExactlyWhen | tsarcore_native/src/graff_merkle.rs:231-326 | a path n steps too long proves exactly what climbs to a leaf in its first n steps |
| Merkle.LeavesFromBytesInternal | tsarcore_native/src/graff_merkle.rs:107-131 | errors for chunk size zero and for no data, and otherwise one hash per chunk in order |
| Merkle.ChunksCover | tsarcore_native/src/graff_merkle.rs:118-123 | the chunks join to the data, none is empty and all but the last are full |
| Merkle.ChunkCount | tsarcore_native/src/graff_merkle.rs:118-123 | their number is the length divided by the chunk size, rounded up |
| Merkle.ChunkAt | tsarcore_native/src/graff_merkle.rs:118-123 | the i-th chunk is the piece of the data at its place |
| Merkle.PieceVerifies | tsarcore_native/src/graff_merkle.rs:75-131 | from the data to the verifier: every piece of a file, hashed, verifies with the path built for its place against the root built from the file |
| Merkle.PieceVerifiesExactlyWhen | tsarcore_native/src/graff_merkle.rs:107-326 | and collisions aside, what verifies with a path of full length is the piece of the file at the place that its sides lead to |
| PrefixScan.PrefixContiguous | tsarcore_native/src/storage.rs:556-614 | keys with a common prefix lie together in byte order |
| PrefixScan.SetRange | tsarcore_native/src/storage.rs:581-585 | the cursor stands at the first key that is not below the given one |
| PrefixScan.IterPrefix | tsarcore_native/src/storage.rs:518-554 | the full scan yields exactly the entries with the prefix, in order |
| PrefixScan.SelectIs | tsarcore_native/src/storage.rs:518-554 | the selection holds the wanted entries and nothing else |
| PrefixScan.IterPrefixChunk | tsarcore_native/src/storage.rs:556-614 | one page is the first entries with the prefix after the start key, up to the limit, or empty if a key in between blocks it |
| PrefixScan.PageExactWhen | tsarcore_native/src/storage.rs:556-614 | a page is what it should be if and only if no key lies between start and prefix or nothing is left; a start key with the prefix is never blocked |
| PrefixScan.KeyBetweenHidesThePage | tsarcore_native/src/storage.rs:586-594 | the failing input: with keys 1 and 2.0, the page of prefix 2 from key 0 on is empty although an entry follows |
| PrefixScan.SelectAfter | src/archivist/database_archivist.py:28-43 | going on after the n-th entry leaves exactly the rest |
| PrefixScan.IterPrefixPaged | src/archivist/database_archivist.py:28-43 | paging with any limit terminates and yields exactly the full scan, nothing missing and nothing twice |
| PrefixScan.PagesIncrease | src/archivist/database_archivist.py:28-43 | pages read one after the other from tables that may differ from page to page: keys come out in strictly increasing order |
| PrefixScan.StableEntryIsFound | src/archivist/database_archivist.py:28-43 | even if the store changes between pages, an entry that stays is never missed |
| CompactBits.LargeTargetRounds | src/tsarchain/utils/helpers.py:387-400 | a target from 2^24 on keeps its leading two or three bytes and loses the rest |
| CompactBits.TargetIsScaled | src/tsarchain/utils/helpers.py:378-384 | the target is the low 23 bits times 256 to the size byte less three, cut off behind the point |
| CompactBits.DifficultyIs | src/tsarchain/utils/helpers.py:404-409 | the difficulty is how often the target goes into 2^256 |
| CompactBits.TargetFor | src/tsarchain/utils/helpers.py:412-414 | the target is how often the difficulty goes into 2^256, for difficulties from 1 to 2^256 |
| CompactBits.SmallTarget | src/tsarchain/utils/helpers.py:387-394 | what a target below 2^24 decodes to after encoding: shifted up to three bytes and cut to 23 bits |
| CompactBits.RoundTripAccurateExactlyWhen | src/tsarchain/utils/helpers.py:378-400 | encoding and decoding a target is accurate to one part in 2^15, never above it, if and only if the target is at least 2^24 or between 2^16 and 2^23 |
| CompactBits.RoundsNoFurther | src/tsarchain/utils/helpers.py:378-400 | encoding never goes below a target that the notation can express |
| Difficulty.CalculateLwmaTarget | src/tsarchain/consensus/difficulty.py:81-106 | the window loop computes the weighted mean, the average difficulty and the next target |
| Difficulty.SumWindow | src/tsarchain/consensus/difficulty.py:88-100 | the two sums of the window loop, solve times cut to between one second and six block times |
| Difficulty.SolveTimeIs | src/tsarchain/consensus/difficulty.py:90-93 | a solve time between one second and 222 counts as it is, others are cut to the nearer end |
| Difficulty.WeightedTimeIsLinear | src/tsarchain/consensus/difficulty.py:88-94 | delaying block i of the window by a second adds i seconds to the weighted sum |
| Difficulty.SumDiffIsLinear | src/tsarchain/consensus/difficulty.py:88-100 | every block after the first counts with its own difficulty |
| Difficulty.AverageIs | src/tsarchain/consensus/difficulty.py:102-102 | the average is the sum over the number of blocks after the first, rounded down |
| Difficulty.MeanIs | src/tsarchain/consensus/difficulty.py:103-103 | the mean time is the weighted sum over n(n - 1)/2, rounded down |
| Difficulty.NextIs | src/tsarchain/consensus/difficulty.py:104-104 | the next difficulty is the average times block time over mean time, rounded down, or one |
| Difficulty.NextDiffBounds | src/tsarchain/consensus/difficulty.py:102-104 | the next difficulty lies between a sixth of the average, at least one, and the average times the block time |
| Difficulty.SteadyNextDiff | src/tsarchain/consensus/difficulty.py:102-104 | blocks on time leave the difficulty at its average |
| Difficulty.ApplyEda | src/tsarchain/consensus/difficulty.py:128-151 | the interval loop eases to twice the previous target, capped, exactly in an emergency |
| Difficulty.EmergencyExactlyWhen | src/tsarchain/consensus/difficulty.py:128-144 | with increasing timestamps the emergency rule fires if and only if the last 48 blocks, or all if there are fewer, took more than 111 seconds each on average |
| Difficulty.EmergencyDoubles | src/tsarchain/consensus/difficulty.py:144-151 | in an emergency the expected target is twice the previous one, capped at the easiest |
| Difficulty.ClampIs | src/tsarchain/consensus/difficulty.py:109-125 | a target between two fifths and three halves of the previous one is only capped, and one beyond goes to the bound, rounded down |
| Difficulty.ExpectedBitsOnPrefix | src/tsarchain/consensus/difficulty.py:58-78 | the order of the rules: fixed start, mean, clamp, emergency, cap, encoding |
| Difficulty.ValidateDifficulty | src/tsarchain/consensus/difficulty.py:154-160 | a block passes exactly when it is the first or its bits are the expected ones on its own prefix |
| Difficulty.TargetBoundsExactlyWhen | src/tsarchain/consensus/difficulty.py:109-151 | the expected target lies between two fifths and twice the previous one, and the cap, if and only if the previous one is not zero or the emergency rule fires; without it the increase is at most a half |
| Difficulty.EmergencyEasesExactlyWhen | src/tsarchain/consensus/difficulty.py:128-151 | the emergency rule never lowers the target if and only if the previous target is not zero |
| Difficulty.OnlyRecentBlocksCount | src/tsarchain/consensus/difficulty.py:58-78 | the result depends on no more than the last 75 blocks |
| CompactBits.EncodingMonotone | src/tsarchain/utils/helpers.py:378-400 | from 2^23 on a larger target is never read back as a smaller one |
| CompactBits.MonotoneFromExactlyWhen | src/tsarchain/utils/helpers.py:378-400 | a target is read back below nothing larger if and only if it is at least 2^23 or one of the two that lose their only bit |
| Difficulty.SlowerBlocksNeverLowerTheTarget | src/tsarchain/consensus/difficulty.py:58-78 | if the same blocks come more slowly, the next target before encoding is never lower: mean, clamp and emergency rule together are monotone |
| Difficulty.SlowerBlocksNeverRaiseDifficulty | src/tsarchain/consensus/difficulty.py:58-78 | if the same blocks come more slowly, the bits of the next block stand for no lower target and no higher difficulty, whenever the faster chain asks for a target of at least 2^23 |
| Difficulty.SteadyChainKeepsDifficulty | src/tsarchain/consensus/difficulty.py:58-78 | a chain on time with constant bits keeps its difficulty exactly, through both divisions and the compact form |
| ForkChoice.WorkIs | src/tsarchain/consensus/difficulty.py:163-167 | the work of a positive target is how often the target plus one goes into 2^256: w(t + 1) <= 2^256 < (w + 1)(t + 1) |
| ForkChoice.HarderTargetHasMoreWork | src/tsarchain/consensus/difficulty.py:163-167 | if k + 1 of the lower target plus one fit into the higher one plus one, the lower has at least k + 1 times the work; a lower positive target never has less |
| ForkChoice.WorkPositiveExactlyWhen | src/tsarchain/consensus/difficulty.py:163-167 | a block adds work if and only if its target is positive and below 2^256 |
| ForkChoice.ComputeChainwork | src/tsarchain/consensus/difficulty.py:170-176 | returns the total work, the sum of what ForkChoice.WorkIs says of each block, and stamps every block with the total up to it, the last one if a block occurs twice |
| ForkChoice.WorkGrows | src/tsarchain/consensus/difficulty.py:170-176 | along a chain of proper targets the total grows with every block |
| ForkChoice.TotalWorkSplit | src/tsarchain/consensus/difficulty.py:170-176 | the work of two joined chains is the sum of theirs |
| ForkChoice.HashIndex | src/tsarchain/consensus/difficulty.py:182-182 | of equal hashes the index holds the last place |
| ForkChoice.CommonAncestorHeight | src/tsarchain/consensus/difficulty.py:179-187 | the search from the other tip returns the place of the first block met, or -1 |
| ForkChoice.SameHashSamePlace | src/tsarchain/consensus/difficulty.py:179-187 | on linked chains without collisions blocks with the same hash stand at the same height and have the same history |
| ForkChoice.MeetingIsCommonAncestor | src/tsarchain/consensus/difficulty.py:179-187 | on such chains the meeting place is the length of the longest common prefix minus one |
| ForkChoice.OnlyBranchesCount | src/tsarchain/consensus/difficulty.py:170-187 | comparing two chains by work is comparing their branches after the common ancestor |
| ForkChoice.ValidateReplacementChain | src/tsarchain/consensus/chain_ops.py:131-158 | a valid chain replaces the own one exactly when it wins by work, height or tip hash and the reorganisation is not too deep |
| ForkChoice.DeepCountsOwnBranch | src/tsarchain/consensus/chain_ops.py:153-158 | the limit counts the own blocks after the common ancestor and does not apply to chains that share nothing |
| ForkChoice.ExactlyOneBeats | src/tsarchain/consensus/chain_ops.py:135-151 | of two different chains exactly one wins by work, height and tip hash |
| ForkChoice.AgreeExactlyWhen | src/tsarchain/consensus/chain_ops.py:131-158 | two holders of different valid chains agree after an exchange if and only if the losing chain shares nothing with the other or has at most the limit of blocks of its own; they never both switch |
| ForkChoice.LongBranchesNeverJoin | src/tsarchain/consensus/chain_ops.py:153-158 | the failing input: two linked chains that part after their first block and go on for more than the limit |
| ForkChoice.CompareWork | src/tsarchain/consensus/chain_ops.py:135-151 | work, height and tip hash are compared in this order |
| ForkChoice.WorkComesFirst | src/tsarchain/consensus/chain_ops.py:135-151 | more work wins whatever the lengths, at equal work the longer chain, and at equal length the tip hash that is the smaller number |
| ForkChoice.OneHardBlockBeatsMany | src/tsarchain/consensus/chain_ops.py:135-151 | one block beats a branch of n equal blocks on the same chain whenever n + 1 of its target fit into theirs: a longer branch loses |
| ForkChoice.ShorterBranchWins | src/tsarchain/consensus/chain_ops.py:135-151 | one block of bits 1E0FFFFF, of work 1048577, beats two of the easiest bits, of work 2048 each |
| ForkChoice.BeatsTransitive | src/tsarchain/consensus/chain_ops.py:135-151 | winning is transitive |
| ForkChoice.LongerBeatsItsPrefix | src/tsarchain/consensus/chain_ops.py:135-151 | a chain wins against every beginning of itself |
| ForkChoice.IsValidTipCandidate | src/tsarchain/consensus/chain_ops.py:218-244 | a valid block may take the place of the tip exactly when it has the same parent and the changed chain wins by the same order |
| Mining.ByteOrderIsNumeric | tsarcore_native/src/mining.rs:263-265 | comparing 32-byte arrays is comparing big-endian numbers |
| Mining.PatchNonce | tsarcore_native/src/mining.rs:250-251 | patching the last four bytes of the buffer gives the header for that nonce and leaves the prefix alone |
| Mining.HeadersDiffer | tsarcore_native/src/mining.rs:250-251 | headers of two nonces agree if and only if the nonces do |
| Mining.HeaderIs | tsarcore_native/src/mining.rs:250-251 | a header is the prefix and four bytes that spell the nonce |
| Mining.RunWorker | tsarcore_native/src/mining.rs:229-275 | a worker hashes its stride in order, stops at the first hit, and when it runs to the end no nonce of its stride meets the target |
| Mining.StepKeeps | tsarcore_native/src/mining.rs:229-286 | every step of every worker keeps the invariant that ties the log to the positions of the workers |
| Mining.Always | tsarcore_native/src/mining.rs:218-286 | the invariant holds after every interleaving |
| Mining.NoNonceTwiceAndResultMeetsTarget | tsarcore_native/src/mining.rs:243-275 | in every interleaving no nonce is hashed twice and a published result meets the target, as bytes and as a number |
| Mining.ExhaustionIsConclusive | tsarcore_native/src/mining.rs:243-294 | if all workers are through with no result, no stop and no failure, no nonce meets the target |
| Mining.WinnerIsPublished | tsarcore_native/src/mining.rs:265-273 | a worker that finished as winner has left a result |
| Mining.RunsEnd | tsarcore_native/src/mining.rs:246-286 | no interleaving is infinite, and none is stuck before all workers are through |
| RateGuard.StorageGuard.TbAllow | src/archivist/storage_guard.py:85-104 | purge, refill, backoff check and charge in this order; a refusal is not written down |
| RateGuard.StorageGuard.Backoff | src/archivist/storage_guard.py:106-110 | a backoff ends no earlier than asked for and no earlier than before, at one of the two, and no other one changes |
| RateGuard.StorageGuard.BanIp | src/archivist/storage_guard.py:124-136 | bans are only ever extended, last exactly as long as the longest asked for, cover address and identity and nobody else, and spare local addresses |
| RateGuard.StorageGuard.ChargeKeys | src/archivist/storage_guard.py:179-202 | keys are charged one after the other up to the first refusal; what was taken before stays taken |
| RateGuard.StorageGuard.Allow | src/archivist/storage_guard.py:150-204 | the object decides and changes its tables as the decision function says, whose order RateGuard.DecidedInOrder states; a refusal starts the backoff of the refusing key |
| RateGuard.DecidedInOrder | src/archivist/storage_guard.py:150-177 | local, then banned, then unknown, then puzzle: the first that applies decides and leaves the tables alone; any other request is charged to its keys |
| RateGuard.ChargedKeys | src/archivist/storage_guard.py:138-147 | a request is charged to its address, to its identity if it has one and to its subnet if it has one, and to nothing else |
| RateGuard.KeyBursts | src/archivist/storage_guard.py:179-184 | an address has six times the burst of its rule, a subnet twelve times, an identity the burst itself, unless its text reads like another kind |
| RateGuard.QuietKeyIsFull | src/archivist/storage_guard.py:92-95 | a bucket not used for a whole window is full |
| RateGuard.LevelRefills | src/archivist/storage_guard.py:92-95 | between two moments a level gains exactly what comes in, up to the burst |
| RateGuard.GrantedAgainExactlyWhen | src/archivist/storage_guard.py:92-102 | some time after, a token is granted if and only if what was left and the share of burst per window that came in make up one |
| RateGuard.ServeTakes | src/archivist/storage_guard.py:85-104 | a call takes one token from its own key if it is granted and nothing from any other |
| RateGuard.CodeLimitsAreSane | src/archivist/storage_guard.py:34-48 | every key of every rule has a burst of at least one and a window of at most 600 seconds |
| RateGuard.ChargeIsServe | src/archivist/storage_guard.py:179-192 | one charge for a request is one call on the bucket of its key, under the limits of the rule the key names |
| RateGuard.KeysNameTheirRule | src/archivist/storage_guard.py:138-147 | every key belongs to the rule it was built for |
| RateGuard.RetryingTooSoonStaysRefused | src/archivist/storage_guard.py:96-110 | every retry within the backoff is refused, and the last pushes its end out, however full the bucket is |
| GuardRuns.ChargeAllTakes | src/archivist/storage_guard.py:179-202 | charging the keys of a request takes the tokens counted from their levels, and a request that passes takes one from each of its keys |
| GuardRuns.DoTakes | src/archivist/storage_guard.py:150-204 | one request or ban on the whole guard takes tokens from the level of a key, at least one if it is admitted through that key |
| GuardRuns.Conserved | src/archivist/storage_guard.py:150-204 | over any requests and bans: tokens spent on a key plus its level at the end are at most its level at the start plus the inflow, and every admitted request has spent |
| GuardRuns.RateBound | src/archivist/storage_guard.py:150-204 | in any stretch of time the requests admitted through a key number at most its burst and a burst more per window, from any state, with backoffs and bans evolving from the answers |
| GuardRuns.ChargeAllAlike | src/archivist/storage_guard.py:179-202 | charging the same keys with and without purging refuses the same key and leaves levels alike |
| GuardRuns.PurgeIsInvisible | src/archivist/storage_guard.py:88-91 | every request of every run is answered as by a guard that never drops a bucket, and backoffs and bans are the same |
| GuardRuns.ServeAll | src/archivist/storage_guard.py:150-204 | serving any list of requests and bans on the object is the run, answer by answer |
| GuardService.ServedExactlyWhen | src/archivist/storage_guard.py:85-104 | a charge is granted if and only if its key is not in backoff and has a token |
| GuardService.ChargeAllServes | src/archivist/storage_guard.py:179-202 | a request whose keys all have tokens and no backoff passes, and takes one token from each |
| GuardService.BurstIsServed | src/archivist/storage_guard.py:150-204 | a peer with n tokens on each of its keys has its next n requests served, however close together they come |
| GuardService.NewPeerIsServed | src/archivist/storage_guard.py:34-48 | a peer the guard does not know has as many requests of a type served at once as the burst of the rule says: 25 chunks put, 40 fetched |
| BlobTransfer.Archivist.HandleInit | src/archivist/wallet_route.py:43-107 | an admitted announcement starts an empty incoming file and an index entry; other ids are untouched |
| BlobTransfer.Archivist.HandlePut | src/archivist/wallet_route.py:110-137 | a piece is appended only while receiving, within chunk and file limits |
| BlobTransfer.Archivist.HandleCommit | src/archivist/wallet_route.py:140-217 | size and hash are checked; a mismatch drops file and entry, a match moves the file and waits for payment |
| BlobTransfer.Archivist.HandleMarkPaid | src/archivist/server_archivist.py:122-166 | payment moves the incoming file to its final place, removes leftovers and marks it stored |
| BlobTransfer.Archivist.PromoteIncoming | src/archivist/database_archivist.py:178-202 | the committed file is preferred to the partial one, and is moved, not copied |
| BlobTransfer.Archivist.HandleGet | src/archivist/wallet_route.py:220-298 | reads are clamped to the caps and the file, answered from the final, committed or partial file in this order, with the end marked |
| BlobTransfer.ReplyIsAPiece | src/archivist/wallet_route.py:220-298 | what a read returns is the piece of the served file at the place asked for, no longer than asked for and than the limits of request and transport |
| BlobTransfer.VerifiedIsKept | src/archivist/wallet_route.py:110-217 | no request but a new announcement of the same id changes a committed file, late pieces, repeated commits and promotion included |
| BlobTransfer.StaysSmall | src/archivist/wallet_route.py:60-217 | no request makes a file or an announced size larger than 150 MiB |
| BlobTransfer.CommitServesExactlyWhen | src/archivist/wallet_route.py:153-200 | a commit makes the announced file the served one if and only if no other file was promoted under the id before |
| BlobTransfer.Archivist.Meanwhile | src/archivist/wallet_route.py:23-36 | any sequence of requests of others keeps a committed file |
| BlobTransfer.SendPieces | src/kremlin/services/graffiti_service.py:475-492 | the upload loop terminates and delivers the file piece by piece, while others write under other ids and read what they like |
| BlobTransfer.UploadGraffiti | src/kremlin/services/graffiti_service.py:416-510 | an upload succeeds exactly when the archivist admits the file, and then the file is committed |
| BlobTransfer.PieceIsRead | src/archivist/wallet_route.py:244-298 | a read in range returns exactly the piece asked for |
| BlobTransfer.FetchPieces | src/kremlin/services/graffiti_service.py:617-666 | the chunk loop terminates and returns exactly the file, even if it is promoted between two requests |
| BlobTransfer.FetchGraffitiFile | src/kremlin/services/graffiti_service.py:513-690 | one-shot and chunked download both return exactly the file, unless it exceeds the limit of the caller |
| BlobTransfer.UploadThenFetch | src/kremlin/services/graffiti_service.py:416-690 | upload then download is the identity for every file within limits under an id without a promoted file |

## Left out

- Parsing of Python tuples, dictionaries, base64 and hexadecimal text of messages, and error texts: the model starts from typed records.
- The mathematics of SHA-256, RIPEMD-160, ECDSA and DER, X25519, Ed25519, HKDF, AES-GCM and RandomX.
- Other block rules: proof of work, Merkle root, unique ids, coinbase amounts, graffiti, timestamps, size and sigops of the whole block; on the node they are one flag, a chain here is one of accepted transaction lists, and minted value is whatever coinbases pay.
- The index of the validator after a rejected transaction: the model says nothing about it, since the block is then rejected as a whole.
- Overflow panics of debug builds, and lengths beyond the machine word in the parser.
- Session lifetime and message quota of the channel: they only slide and reject nothing. A rekey period of zero, which would divide by zero, is excluded.
- Several clock readings within one request to the limiter are taken as one; the text of the subnet and the test for local addresses are parameters.
- The real arithmetic of the limiter stands for the floating point of the original.
- The progress reporter, the stop watcher's own loop and the hash counters of the miner; a run here goes up to the join of the workers.
- Reading Merkle leaves from a stream, whose reads may be short.
- LMDB itself: a sorted table, or a map with transactions and arbitrary failures; each page of a scan reads one table.
- Validation of a whole chain before it is compared, and the caching of block hashes.
- Art ids, duplicate and mempool checks, stale uploads, expiry and file system errors of the archivist; a request handler is one atomic step, and room, type and duplicate checks are one flag.
- User interfaces, wallets, chat, receipts, tools and inspectors.
- Mempool.AdmittedIsAccepted: stated for a maturity that is not negative and heights that, read as a signed word, are at least -1, because the two maturity tests differ below that; `Mempool.MaturityRefinesExactlyWhen` shows the bound is exact.
- Chain.ChainConserves: bounds all value ever in circulation by 2^64, the range of the reported fee, because beyond it the validator reports fees modulo 2^64.
- Sighash.SighashCommits: assumes no collision among the strings actually hashed instead of an injective hash, because a 32-byte digest cannot be injective.
- Wire.SerializeInjective: stated for transactions with inputs, because without inputs the counts of a transaction can read as the witness marker of another; `TxCodec.ParseRecoversExactlyWhen` has the exact condition for reading back.
- Spending.AcceptedSignaturesCommit: assumes no collision among the strings actually hashed, because a 32-byte digest cannot be injective.
- Handshake.AcceptedAnswerIsSigned: assumes that what verifies under a key is one of the texts its holder signed, the ideal of an unforgeable signature, and that node ids are 64 hex digits, as the node derives them; the channel itself does not check the id it is given for its own.
- TxCodec.ParseTxView: does not model the panic of the allocator on a huge count, nor the wrap of position plus length near 2^64, because sequences here have no size limit.
- Difficulty.SlowerBlocksNeverRaiseDifficulty: stated for an expected target of at least 2^23, because the notation does not keep the order below; `CompactBits.MonotoneFromExactlyWhen` shows the bound is exact.
- NodeRuns.RunNode: excludes blocks that store a script with a longer push than needed or a cut-off one, because such scripts do not survive the dictionary, and claims nothing after a restart out of order, when the dictionary shows another set than the chain's. A limit below 2^16 virtual bytes is a premise; the configured one is 10000.
- Node.FailedSaveInStepExactlyWhen: stated for blocks with fresh ids, because a repeated id can make a block undo its own change.
- Forced rewrites of the table and rebuilding it from the chain, as after a reorganisation; the address index and the JSON of the metadata record. The list of blocks is taken to survive a restart.
- Script.Parse: a list of commands with numbers beyond a byte, or with items of other types, is not modelled; scripts start as bytes.
