# Bitcoin Infinity in Dafny

A Dafny model of the parts of the Bitcoin Infinity repository that carry its guarantees, with proofs:
the concurrent state-sync dumper, the Bech32 code, the schema-driven Borsh serializer, the NEAR
transaction builder, the XZ-sniffing download decoder, the account id grammar, the genesis supply
pipeline, the account ledger, the light client's block check and the BTC amount parser.

`dafny verify dfyconfig.toml` checks the whole project.

## How it is organised

| files | what they model |
|---|---|
| StateDump, StateDumpSafety, StateDumpDisk, StateDumpParts, StateDumpCancel, StateDumpFinish | the dumper as a transition system over atomic steps of the main loop, the part tasks, other nodes and restarts; its invariant; what the disk says; the life of a part; termination of `cancel`; reachability of completion |
| Polymod, Regroup, Bech32, Bech32Vector | the checksum on 32-bit words, the 8-to-5-bit regrouping with its truncating accumulator, the addresses and scripts made from them, and a published address |
| BorshSchema, BorshLayout, BorshRoundTrip, BorshCanonical, BinarySerializer | what the serializer writes and reads as functions of schema and value, where each byte goes, both round trips, and the Python object with its buffer and offset |
| NearTx, NearTxDecode, TxSchema | the transaction builder's buffers, a decoder for them, and the Python schema of the same messages |
| AutoXz | the decoder that probes a download for the XZ magic |
| AccountIdGrammar, AccountId | the documented regular expression with a semantics of its own, the two validators, parents and sub-accounts |
| Supply, GenesisFile, GenesisPipeline | UTXO aggregation, Patoshi reassignment, the genesis file, its summary, merges, and the command as a whole |
| Ledger | accounts, transfers, transactions, blocks and runs of blocks |
| ProducerList, StakeSchema, LightClient | the bytes hashed for a list of producers, the Python schema of the same list, the light client's check, quorums, and what a client records over a run |
| Decimal, BtcAmount | decimal text of u128 numbers, and the BTC and yocto conversions |
| Sums, Radix, Bytes, Options | shared mathematics |

Code that changes things step by step is imperative here too: loops with invariants, and classes whose
methods are proved against functions of the old state. The dumper is concurrent, so it is a transition
system: every theorem about it is over all interleavings. Maps and sets that the source walks in hash or
key order are walked in an arbitrary order.

Foreign code is a parameter: signature checks, SHA-256 and RIPEMD-160, Base58Check and segwit decoding,
UTF-8, and the number of state parts of a shard.

The light client's source returns None for a valid block and False for an invalid one; the model's
verdict is one of three values, an exception being the third.

## What turned out not to hold

- A failed transfer can change the ledger. The debit is not undone when the credit overflows u128.
  `Ledger.FailureLeavesTrace` says exactly when; `Ledger.FundsLost` is an instance. With a total below
  2^128 it cannot happen, and a ledger loaded from balances within u64 has such a total.
- The ledger's comments call the nonce a means of deduplication, but no transaction is ever refused for
  its nonce. A signed transaction can be executed again exactly as often as the sender can pay for it
  (`Ledger.ReplayIff`, `Ledger.SecondCopy`); `Ledger.PaidTwice` gives the outcome of two copies.
- The Patoshi target may start below its recorded floor, if it is also the validator's account.
  `GenesisPipeline.FloorIff` is exact for every validator, `GenesisPipeline.CommandFloor` for the one the
  command builds, and `GenesisPipeline.FloorMissed` is an instance.
- Satoshis at an address that is also the validator's account are in no account and not in the declared
  total. `GenesisPipeline.ConservedIff` is exact; `GenesisPipeline.OutputMissed` is an instance.
- The parent of a valid account id may be too short to be valid; the source only asserts the opposite in
  debug builds. `AccountId.ParentValidIff` is exact; `AccountId.OneCharParent` is an instance.
- Reading does not always undo writing in the serializer. It writes anything that can be iterated at a list
  or tuple type, a bool at a number type and anything at an empty tuple, and reads lists, tuples, numbers
  and None. `BorshRoundTrip.RoundTrip` is exact; `BorshRoundTrip.BytesComeBackAsList`, the case of every
  contract deployment, and `BorshRoundTrip.UnitValueIsLost` are instances.
- Writing does not always undo reading: every non-zero option tag is accepted.
  `BorshCanonical.WriteAfterRead` is exact; `BorshCanonical.LooseTag` is an instance.
- The builder writes a 32-bit length, so a string of 2^32 bytes or more is not read back
  (`NearTxDecode.StringReadable`), and two transactions with code of that length can share their bytes
  (`NearTxDecode.LengthCollision`).
- The light client's approval message holds the height in one byte, so no block of height 254 or more is
  ever accepted (`LightClient.AcceptedIsLow`), and what is proved about accepted blocks is about lower ones.
  `LightClient.TallRaisesIff` says exactly when a taller block raises an exception; `LightClient.TooTall` is
  an instance for every producer and signature.
- The light client writes 5 for the length of every account id, so the bytes it hashes are those of Borsh
  exactly if every id has five bytes (`ProducerList.BorshIffFive`), and those of the repository's own schema
  under the same condition (`StakeSchema.HashedIffFive`). They still tell different lists apart
  (`ProducerList.ListInjective`).
- The Rust builder and the Python schema disagree on the deployment of a global contract: one puts the mode
  before the code, the other behind. `TxSchema.DeployGlobalAgreesIff` says exactly where they still agree.
  On the other kinds of action both encode they always agree (`TxSchema.ActionAgrees`, `TxSchema.TxAgrees`),
  as long as every length fits 32 bits and the keys have the schema's length. That length is 32, so a whole
  transaction of the builder, with its 64-byte key, has no Python encoding (`TxSchema.TxRefused`).
- The genesis command's comment calls the validator's stake 50,000 BIT; the number is 50 million of the unit
  in which the balance beside it is one million (`GenesisPipeline.CommandSupply`).
- A part upload that failed would still be recorded as dumped: both arms of the result lead to the same
  write. `StateDumpSafety.CounterInRange` shows that no upload ever reports a failure.

## Model

| member | source | states |
|---|---|---|
| `StateDump.CheckOldProgress` | nearcore/nearcore/src/state_sync.rs:596-613 | for any order of the progress entries, exactly the entries of other epochs are dropped, exactly the shards recorded as fully dumped leave both maps, and senders and shards keep the same keys |
| `StateDump.MissingPartIds` | nearcore/nearcore/src/state_sync.rs:138-172 | the missing ids are exactly the parts without a file in the listing |
| `StateDumpSafety.BootKeeps` | nearcore/nearcore/src/state_sync.rs:816-843 | start-up keeps the invariant: a shard skipped because the disk says it is dumped really is in external storage |
| `StateDumpSafety.StartUploadsKeeps` | nearcore/nearcore/src/state_sync.rs:740-795 | starting the uploads keeps it, shards without parts included |
| `StateDumpSafety.MoveTask` | nearcore/nearcore/src/state_sync.rs:328-421 | a part task may count or finish only with its part stored or the dump cancelled |
| `StateDumpSafety.PartsUploadedKeeps` | nearcore/nearcore/src/state_sync.rs:846-873 | taking a shard off the map keeps the invariant: it is then completely stored |
| `StateDumpSafety.StepKeeps` | nearcore/nearcore/src/state_sync.rs:138-925 | every step of the loop, the tasks, other nodes and restarts keeps the invariant |
| `StateDumpSafety.DumpedMeansStored` | nearcore/nearcore/src/state_sync.rs:846-873 | in every run, AllDumped on disk for a shard and epoch, and Done in memory for every tracked shard, imply that the header and every part are in external storage |
| `StateDumpSafety.LoopHead` | nearcore/nearcore/src/state_sync.rs:740-925 | in every run, a dump in progress at the loop head has a shard to wait for and is not cancelled, and senders and shards agree when uploads start |
| `StateDumpSafety.CounterInRange` | nearcore/nearcore/src/state_sync.rs:328-454 | in every run, the part counter is between -1 and the number of parts, -1 only after cancellation, and equal to the number of parts, with an Ok message, when the loop can take the completion |
| `StateDumpSafety.SettledForever` | nearcore/nearcore/src/state_sync.rs:247-259 | in every continuation of every run, a counter set to -1 stays -1 and a channel carries one message only, as long as the shard is on the map |
| `StateDumpSafety.ShardCanMove` | nearcore/nearcore/src/state_sync.rs:425-454 | in every run, a shard with nothing in its channel has a future of its own that can move, so no receiver waits on a dropped sender |
| `StateDumpDisk.DiskAgrees` | nearcore/nearcore/src/state_sync.rs:799-873 | in every run, an epoch that is done is recorded as dumped for every tracked shard, and at the loop head exactly the shards still on the map are recorded as in progress and the other tracked ones as dumped |
| `StateDumpDisk.RestartAfterDone` | nearcore/nearcore/src/state_sync.rs:816-843 | a restart and start-up after any run that got the epoch done finds it done, without touching external storage |
| `StateDumpDisk.RestartResumes` | nearcore/nearcore/src/state_sync.rs:596-613 | after any run stopped at the loop head, a restart and start-up take up exactly the unfinished shards and those whose entries were lost |
| `StateDumpDisk.BootClears` | nearcore/nearcore/src/state_sync.rs:596-613 | start-up removes exactly the entries of other epochs from the disk |
| `StateDumpDisk.ListingCounts` | nearcore/nearcore/src/state_sync.rs:206-226 | a listing leaves exactly the parts without a file to be uploaded |
| `StateDumpDisk.InitListingCounts` | nearcore/nearcore/src/state_sync.rs:832-836 | so does the listing at start-up |
| `StateDumpDisk.ListedAtInitIsSpared` | nearcore/nearcore/src/state_sync.rs:832-836 | a part listed at start-up is spared when the uploads start |
| `StateDumpDisk.SparedRun` | nearcore/nearcore/src/state_sync.rs:345-349 | in every continuation with its shard on the map, a part that is listed before its task starts is neither generated nor uploaded |
| `StateDumpDisk.HeaderFoundCounts` | nearcore/nearcore/src/state_sync.rs:470-489 | finding a header takes it, and no other, off what is to be uploaded |
| `StateDumpDisk.FoundHeaderStays` | nearcore/nearcore/src/state_sync.rs:470-504 | a header that was found is not uploaded in any continuation of the preparation |
| `StateDumpParts.PutNeedsPart` | nearcore/nearcore/src/state_sync.rs:352-420 | in every run, a result of uploading a part comes after a successful generation of that part |
| `StateDumpParts.GeneratedOnce` | nearcore/nearcore/src/state_sync.rs:352-420 | in every continuation with its shard on the map, a part once generated is not generated again, however often its upload fails |
| `StateDumpParts.StartUpLists` | nearcore/nearcore/src/state_sync.rs:832-837 | start-up lists the storage before it starts the uploads, and spares what is listed |
| `StateDumpParts.NewEpochDoesNotList` | nearcore/nearcore/src/state_sync.rs:914-919 | a dump for a new epoch is prepared without a listing |
| `StateDumpCancel.CancelAdvances` | nearcore/nearcore/src/state_sync.rs:247-259 | during cancellation every step of the dumper or its tasks lowers a measure, and other nodes never raise it |
| `StateDumpCancel.CancelIsBounded` | nearcore/nearcore/src/state_sync.rs:229-259 | the measure bounds the number of such steps in any cancellation |
| `StateDumpCancel.CancelNotStuck` | nearcore/nearcore/src/state_sync.rs:229-259 | until cancellation is over some step of the dumper can be taken |
| `StateDumpCancel.CancelEnds` | nearcore/nearcore/src/state_sync.rs:247-259 | from every reachable point inside cancel(): never stuck, and over after a bounded number of own steps, whatever the interleaving |
| `StateDumpFinish.StepForward` | nearcore/nearcore/src/state_sync.rs:345-454 | with a dump in progress some step leaves less to do or finishes the epoch |
| `StateDumpFinish.DumpCanFinish` | nearcore/nearcore/src/state_sync.rs:846-873 | from every reachable loop head with a dump in progress, own steps alone can lead to Done for that epoch, and then every tracked shard is completely stored |
| `StateDumpFinish.EpochCanBeDumped` | nearcore/nearcore/src/state_sync.rs:890-925 | from every reachable loop head, any other epoch can be dumped by own steps alone, whatever is in progress being cancelled first; then every tracked shard is completely stored and recorded as dumped |
| `StateDumpFinish.BootCanFinish` | nearcore/nearcore/src/state_sync.rs:816-843 | the same from the start of the process, whatever the disk says |
| `StateDumpFinish.NewEpochOnly` | nearcore/nearcore/src/state_sync.rs:894-911 | the epoch the dumper is at is neither cancelled nor started again |
| `StateDumpFinish.StopCanFinish` | nearcore/nearcore/src/state_sync.rs:968-988 | from every reachable loop head a request to stop can be carried out, and no shard is then left with an upload |
| `Polymod.Fold` | bitinfinity-btcrpc/src/tx_translator.rs:317-322 | the inner loop adds exactly the generators picked by the top symbol |
| `Polymod.Polymod` | bitinfinity-btcrpc/src/tx_translator.rs:313-325 | the loop computes the checksum register, which never needs more than thirty bits |
| `Polymod.StateBound` | bitinfinity-btcrpc/src/tx_translator.rs:313-325 | from a thirty-bit state every sequence of symbols leads to a thirty-bit state |
| `Polymod.AbsorbLinear` | bitinfinity-btcrpc/src/tx_translator.rs:316-322 | one step is linear over exclusive or |
| `Polymod.AbsorbInjective` | bitinfinity-btcrpc/src/tx_translator.rs:316-322 | one step is injective on thirty-bit states |
| `Polymod.TailInjective` | bitinfinity-btcrpc/src/tx_translator.rs:313-325 | so is absorbing any number of symbols |
| `Polymod.Superpose` | bitinfinity-btcrpc/src/tx_translator.rs:348-355 | absorbing up to six symbols is absorbing zeros and adding the symbols |
| `Polymod.BurstDetected` | bitinfinity-btcrpc/src/tx_translator.rs:313-325 | two sequences of any length that differ only within six neighbouring symbols have different checksums, single errors being the case of one |
| `Polymod.PackChecksum` | bitinfinity-btcrpc/src/tx_translator.rs:353-355 | the six checksum symbols are the register cut in pieces, none lost |
| `Polymod.ChecksumVerifies` | bitinfinity-btcrpc/src/tx_translator.rs:349-355 | for every sequence of symbols, appending the checksum makes the polymod 1, the "Checksum" condition of BIP 173 |
| `Regroup.EncodeSymbols` | bitinfinity-btcrpc/src/tx_translator.rs:334-347 | despite the truncating 32-bit accumulator the loop yields the base-32 digits of the program moved up to a whole number of symbols |
| `Regroup.DecodeBytes` | bitinfinity-btcrpc/src/utxo_synth.rs:145-156 | the decoding loop yields the base-256 digits, padding bits dropped |
| `Regroup.RoundTrip` | bitinfinity-btcrpc/src/utxo_synth.rs:145-156 | decoding undoes encoding for every byte sequence |
| `Bech32.Bech32EncodeLocal` | bitinfinity-btcrpc/src/tx_translator.rs:309-362 | the result is the HRP, the separator, and the characters of version, program and checksum |
| `Bech32.DeriveScriptPubKeyAddress` | bitinfinity-btcrpc/src/utxo_synth.rs:161-219 | on 20 bytes the characters of version 0, the hash and its checksum, which is the other encoder's address, otherwise the empty string |
| `Bech32.DecodeBech32Program` | bitinfinity-btcrpc/src/utxo_synth.rs:130-157 | the last separator is found, characters outside the set are skipped, version and checksum are cut off, and fewer than eight symbols are refused |
| `Bech32.ExpandIs` | bitinfinity-btcrpc/src/tx_translator.rs:327-332 | the expansion of the HRP is, by positions, the high bits of its characters, a zero and their low bits |
| `Bech32.KnownExpansions` | bitinfinity-btcrpc/src/tx_translator.rs:327-332 | the expansions of bc, tb and bcrt, number by number |
| `Bech32Vector.PublishedAddress` | bitinfinity-btcrpc/src/tx_translator.rs:309-362 | the program 751e76e8199196d454941c45d1b3a323f1433bd6 is encoded as the address published for it in BIP 173, and decoded back from it |
| `Bech32.EncodedIsValid` | bitinfinity-btcrpc/src/tx_translator.rs:309-362 | every encoded address satisfies the checksum condition on its characters |
| `Bech32.BurstInAddress` | bitinfinity-btcrpc/src/tx_translator.rs:309-362 | no two valid addresses with the same HRP differ only within six neighbouring characters, at any length |
| `Bech32.SymbolsOfChars` | bitinfinity-btcrpc/src/utxo_synth.rs:136-139 | reading the characters of symbols gives the symbols |
| `Bech32.OthersAreSkipped` | bitinfinity-btcrpc/src/utxo_synth.rs:136-139 | a character outside the set makes no difference wherever it stands behind the separator |
| `Bech32.DecodableIff` | bitinfinity-btcrpc/src/utxo_synth.rs:132-142 | a string is decoded exactly if at least eight characters of the set stand behind its last separator |
| `Bech32.DecodeSpelled` | bitinfinity-btcrpc/src/utxo_synth.rs:130-157 | with any six characters of the set in place of the checksum the program comes back, and nothing exactly for the empty one |
| `Bech32.DecodeEncoded` | bitinfinity-btcrpc/src/utxo_synth.rs:130-157 | decoding an encoded address gives exactly the program, and nothing exactly for the empty one |
| `Bech32.ScriptOfSpelled` | bitinfinity-btcrpc/src/utxo_synth.rs:84-126 | for bc, tb and bcrt and any last six characters, Bech32 and Bech32m alike: 0014 and the program in hex for version 0 and 20 bytes, 5120 for version 1 and 32 bytes, the fallback otherwise |
| `Bech32.ScriptOfEncoded` | bitinfinity-btcrpc/src/utxo_synth.rs:84-126 | for bc, tb and bcrt the script of a version 0 address is 0014 and the program in hex when it has 20 bytes, the fallback otherwise |
| `Bech32.ScriptOfBase58` | bitinfinity-btcrpc/src/utxo_synth.rs:107-124 | the hash between version byte and check bytes, in the script of the kind its first character tells |
| `Bech32.ScriptOfOthers` | bitinfinity-btcrpc/src/utxo_synth.rs:125-127 | every id with none of the known beginnings gets the script of the hash of the id |
| `Bech32.HexAt` | bitinfinity-btcrpc/src/utxo_synth.rs:92 | the text has two digits for each byte, the high one first |
| `Bech32.HexInjective` | bitinfinity-btcrpc/src/utxo_synth.rs:92 | different programs have different hex, so different scripts |
| `BinarySerializerObject.BinarySerializer.constructor` | nearcore/pytest/lib/serializer.py:16-18 | a new serializer has an empty buffer |
| `BinarySerializerObject.BinarySerializer.SerializeNum` | nearcore/pytest/lib/serializer.py:28-33 | appends the little-endian bytes to whatever the buffer held, and fails exactly on a negative number or one that does not fit |
| `BinarySerializerObject.BinarySerializer.SerializeField` | nearcore/pytest/lib/serializer.py:44-87 | appends exactly the encoding of the value to any existing prefix, iterating over lists, tuples, bytes, byte arrays and strings alike and taking a bool for a number, or fails exactly where there is none |
| `BinarySerializerObject.BinarySerializer.SerializeStruct` | nearcore/pytest/lib/serializer.py:131-154 | the same for structs and enums by the schema, the first variant of the name being taken |
| `BinarySerializerObject.BinarySerializer.Serialize` | nearcore/pytest/lib/serializer.py:197-199 | returns the whole buffer, prefix included |
| `BinarySerializerObject.BinarySerializer.ReadBytes` | nearcore/pytest/lib/serializer.py:20-26 | gives the next bytes and moves the offset past them, or fails without enough of them |
| `BinarySerializerObject.BinarySerializer.DeserializeNum` | nearcore/pytest/lib/serializer.py:35-42 | reads a little-endian number |
| `BinarySerializerObject.BinarySerializer.DeserializeField` | nearcore/pytest/lib/serializer.py:89-129 | reads one value and moves the offset past exactly its bytes |
| `BinarySerializerObject.BinarySerializer.DeserializeStruct` | nearcore/pytest/lib/serializer.py:156-195 | the same for structs and enums, an unknown variant failing |
| `BinarySerializerObject.BinarySerializer.Deserialize` | nearcore/pytest/lib/serializer.py:201-207 | succeeds only if all bytes are used |
| `Bytes.LeByteAt` | nearcore/pytest/lib/serializer.py:28-33 | byte i of a number is the number divided by 256 to the i, modulo 256 |
| `BorshLayout.NumLayout` | nearcore/pytest/lib/serializer.py:28-33 | a number is written, least byte first, exactly if it is not negative and fits the width |
| `BorshLayout.StringLayout` | nearcore/pytest/lib/serializer.py:58-61 | a string is four bytes of length and its UTF-8 bytes, refused exactly if it has none or 2^32 of them |
| `BorshLayout.BoolLayout` | nearcore/pytest/lib/serializer.py:53-55 | a bool is one byte, 1 or 0 |
| `BorshLayout.OptionLayout` | nearcore/pytest/lib/serializer.py:75-81 | an option is 0, or 1 and the value |
| `BorshLayout.ListLayout` | nearcore/pytest/lib/serializer.py:71-74 | a list is four bytes of length and its elements in order, refused exactly if too long or an element is |
| `BorshLayout.TupleLayout` | nearcore/pytest/lib/serializer.py:45-51 | a tuple is its parts in order |
| `BorshLayout.StructLayout` | nearcore/pytest/lib/serializer.py:131-138 | a struct is its fields in the schema's order |
| `BorshLayout.EnumLayout` | nearcore/pytest/lib/serializer.py:139-152 | an enum is one byte for the position of the variant and its payload |
| `BorshLayout.BytesLayout` | nearcore/pytest/lib/serializer.py:71-74 | bytes at a list of u8 are four bytes of length and themselves |
| `BorshRoundTrip.NumRoundTrip` | nearcore/pytest/lib/serializer.py:28-42 | a number written is read back, the rest of the bytes untouched |
| `BorshRoundTrip.FieldBack` | nearcore/pytest/lib/serializer.py:44-129 | for every schema, type and value that can be written, in front of any bytes: reading stops where it ended and gives None at every empty tuple, tuples at tuple types, lists at list types and numbers for bools |
| `BorshRoundTrip.BackIsSame` | nearcore/pytest/lib/serializer.py:89-129 | what comes back is the value exactly if it has that shape throughout |
| `BorshRoundTrip.RoundTrip` | nearcore/pytest/lib/serializer.py:197-207 | reading undoes writing, alone or in front of other bytes, if and only if the value has None at empty tuples, tuples at tuple types, lists at list types and no bool at a number type |
| `BorshRoundTrip.UnitValueIsLost` | nearcore/pytest/lib/serializer.py:45-47 | a boolean written as an empty tuple comes back as None |
| `BorshRoundTrip.BytesComeBackAsList` | nearcore/pytest/lib/serializer.py:71-74 | bytes, or a byte array, at a list of numbers share their encoding with the list of their numbers, which is what is read back |
| `BorshRoundTrip.UniquelyReadable` | nearcore/pytest/lib/serializer.py:44-87 | no encoding of a value is a proper prefix of another of the same type; equal encodings mean that the same is read back, and equal values where both have the shape of what is read |
| `BorshCanonical.FieldRewrites` | nearcore/pytest/lib/serializer.py:44-129 | for all bytes that can be read: writing the value gives the same bytes exactly if they are canonical |
| `BorshCanonical.WriteAfterRead` | nearcore/pytest/lib/serializer.py:197-207 | writing undoes reading if and only if every option tag is 0 or 1 in its canonical use and no enum tag stands for a name listed earlier |
| `BorshCanonical.LooseTag` | nearcore/pytest/lib/serializer.py:119-125 | an option tag of 2 is read but not written back |
| `NearTx.AddFunctionCallKeyBytes` | bitinfinity-btcrpc/src/near_tx_builder.rs:111-144 | the pushes of the longest action constructor give its encoding |
| `NearTx.AppendNames` | bitinfinity-btcrpc/src/near_tx_builder.rs:138-142 | the loop over the method names appends each with its length |
| `NearTx.NearTxBuilder.constructor` | bitinfinity-btcrpc/src/near_tx_builder.rs:278-293 | a builder starts without actions |
| `NearTx.NearTxBuilder.AddAction` | bitinfinity-btcrpc/src/near_tx_builder.rs:295-298 | actions keep the order in which they were added |
| `NearTx.NearTxBuilder.BorshSerializeTx` | bitinfinity-btcrpc/src/near_tx_builder.rs:324-341 | the buffer is the encoding of signer, key, nonce, receiver, block hash and the whole action list |
| `NearTx.LegacyTransferBytes` | bitinfinity-btcrpc/src/near_tx_builder.rs:372-384 | the legacy transfer encoding is the builder's with one Transfer |
| `NearTxDecode.StringReadable` | bitinfinity-btcrpc/src/near_tx_builder.rs:424-427 | a written string is read back exactly if it is shorter than 2^32 bytes |
| `NearTxDecode.ActionBack` | bitinfinity-btcrpc/src/near_tx_builder.rs:42-261 | each of the actions is read back from its encoding, in front of any bytes |
| `NearTxDecode.ActionsBack` | bitinfinity-btcrpc/src/near_tx_builder.rs:336-339 | so is any list of them, in any mix |
| `NearTxDecode.TxBack` | bitinfinity-btcrpc/src/near_tx_builder.rs:324-341 | with all lengths below 2^32 every field and the whole action list are recovered |
| `NearTxDecode.UniquelyDecodable` | bitinfinity-btcrpc/src/near_tx_builder.rs:324-341 | no two transactions share an encoding, and none is a proper prefix of another |
| `NearTxDecode.LengthCollision` | bitinfinity-btcrpc/src/near_tx_builder.rs:49-55 | with code of exactly 2^32 bytes two different action lists give the same transaction bytes |
| `TxSchema.ActionAgrees` | nearcore/pytest/lib/messages/tx.py:108-220 | for every action of the kinds that both encode alike, the Rust encoder's bytes are those of the Python serializer under its schema, tag included |
| `TxSchema.ActionsAgree` | nearcore/pytest/lib/messages/tx.py:99-106 | so are those of every list of such actions, behind its length |
| `TxSchema.TxAgrees` | bitinfinity-btcrpc/src/near_tx_builder.rs:324-341 | so are those of every whole transaction, if the schema's keys are given the builder's 64 bytes |
| `TxSchema.TxRefused` | nearcore/pytest/lib/messages/crypto.py:58-63 | with the schema's own key length of 32 no transaction of the builder, whose keys have 64 bytes, can be written in Python |
| `TxSchema.DeployGlobalAgreesIff` | bitinfinity-btcrpc/src/near_tx_builder.rs:185-194 | on the deployment of a global contract the two agree if and only if there is no code and the mode is the first |
| `TxSchema.OtherKinds` | bitinfinity-btcrpc/src/near_tx_builder.rs:196-261 | the tag and the bytes of the kinds that the Python schema has not or lays out differently |
| `TxSchema.OneCall` | bitinfinity-btcrpc/src/near_tx_builder.rs:58-67 | the bytes of one function call, number by number |
| `AutoXz.AutoXzDecoder.constructor` | nearcore/nearcore/src/download_file.rs:143-149 | nothing has been received |
| `AutoXz.AutoXzDecoder.Probe` | nearcore/nearcore/src/download_file.rs:182-208 | the state moves by what the whole stream so far says, and an empty chunk changes nothing |
| `AutoXz.AutoXzDecoder.WriteAllImpl` | nearcore/nearcore/src/download_file.rs:211-220 | the arm marked unreachable is never taken |
| `AutoXz.AutoXzDecoder.WriteAll` | nearcore/nearcore/src/download_file.rs:151-160 | after any chunk the object is what the whole stream so far makes it, however it was split |
| `AutoXz.AutoXzDecoder.Finish` | nearcore/nearcore/src/download_file.rs:162-179 | held-back bytes of a plain file are written, a decompressor is told of the end |
| `AutoXz.Download` | nearcore/nearcore/src/download_file.rs:142-227 | for every stream and every split, empty chunks included: without the magic the file is the stream, with it the decompressor gets exactly the stream in non-empty chunks and one final empty call |
| `AutoXz.MagicBytes` | nearcore/nearcore/src/download_file.rs:140 | the six bytes of the XZ header |
| `AccountIdGrammar.Unroll` | near-account-id/src/validation.rs:44-96 | a separated list under the regular expression is one piece, or a piece, a separator and a list |
| `AccountIdGrammar.Labels` | near-account-id/src/validation.rs:44-96 | the label part of the documented expression matches exactly the well-formed strings without dots |
| `AccountIdGrammar.Ids` | near-account-id/src/validation.rs:44-96 | the documented expression matches exactly the strings of allowed characters whose separators stand alone between others |
| `AccountIdGrammar.Alphabet` | near-account-id/src/validation.rs:44-96 | the characters and separators that are allowed, one by one |
| `AccountId.Validate` | near-account-id/src/validation.rs:44-96 | the one-pass loop accepts exactly the strings within the length bounds that are Bitcoin addresses or match the documented expression, and reports an error that is there |
| `AccountId.ValidateConstIsGrammar` | near-account-id/src/validation.rs:9-42 | the recursive compile-time check accepts exactly the same language without Bitcoin addresses |
| `AccountId.LengthBounds` | near-account-id/src/validation.rs:9-96 | letters alone are accepted by both validators from two to sixty-four of them, and no more |
| `AccountId.Utf8Widths` | near-account-id/src/validation.rs:44-50 | how many bytes the characters at the edges of the four UTF-8 ranges take |
| `AccountId.LegacyIff` | near-account-id/src/validation.rs:130-148 | the legacy ids are exactly the strings of lower-case letters and digits with one of the four beginnings and lengths, counted in characters |
| `AccountId.LegacyInGrammar` | near-account-id/src/validation.rs:130-148 | every legacy lowercased Bitcoin id already matches the expression |
| `AccountId.SubAccountIffParent` | near-account-id/src/account_id_ref.rs:65-70 | x is a sub-account of p exactly when the parent of x is p |
| `AccountId.ParentInGrammar` | near-account-id/src/account_id_ref.rs:96-99 | the parent of an id that matches the expression matches it |
| `AccountId.OneCharLabel` | near-account-id/src/account_id_ref.rs:96-99 | the parent has one character exactly if the only dot stands before the last character |
| `AccountId.ParentValidIff` | near-account-id/src/account_id_ref.rs:46-99 | validate accepts the parent of an id it accepts exactly unless the id's only dot stands before its last character, as long as Bitcoin addresses have no dots |
| `AccountId.OneCharParent` | near-account-id/src/account_id_ref.rs:46-99 | validate accepts a.b and not its parent b |
| `AccountId.ParentDots` | near-account-id/src/account_id_ref.rs:96-99 | there is a parent exactly when there is a dot, and it has one dot fewer |
| `AccountId.AncestorsEnd` | near-account-id/src/account_id_ref.rs:61-99 | repeated parents reach an id without dots after exactly as many steps as there are dots |
| `Supply.ParseAndAggregate` | bitinfinity-tools/src/utxo_parser.rs:56-125 | fails exactly on a count that is not the header's; otherwise the map has exactly the addresses of the stream, each with the sum of its outputs, and sums to what was paid to addresses |
| `Supply.SumSplits` | bitinfinity-tools/src/patoshi.rs:57-62 | any set of addresses splits the total in two |
| `Supply.ReassignPatoshi` | bitinfinity-tools/src/patoshi.rs:49-74 | in whatever order the set is walked: the other balances stay, the target gets the removed total, the counts are exact and the overall total is unchanged |
| `Supply.ReassignedSum` | bitinfinity-tools/src/patoshi.rs:49-74 | reassignment conserves the satoshis |
| `GenesisFile.AddBalances` | bitinfinity-tools/src/genesis_builder.rs:186-254 | validator, treasury and balances give each id exactly one account record, summing to the total, and fail exactly when that exceeds u128 |
| `GenesisFile.AddLocks` | bitinfinity-tools/src/genesis_builder.rs:257-274 | each registry entry gets one lock record with its floor, and the list names exactly the registry's keys, once each |
| `GenesisFile.Build` | bitinfinity-tools/src/genesis_builder.rs:178-283 | the records are exactly the expected ones, each once, with an index of exactly the registry's keys when there are any; the declared total is the sum of amount plus locked over them; fails exactly on overflow |
| `GenesisFile.FixedAccounts` | bitinfinity-tools/src/genesis_builder.rs:186-254 | a complete file holds the validator's record, its only access key, the treasury's record and for every other balance the record of 10^16 times its satoshis |
| `GenesisFile.SummarizeGenesis` | bitinfinity-tools/src/main.rs:125-176 | succeeds exactly on files whose numbers parse, whose sum fits and whose records are known; reports the true sum, the true counts, and reconciled exactly when declared and computed agree |
| `GenesisFile.MergeGenesisRecords` | bitinfinity-neard/src/main.rs:272-335 | succeeds exactly when the ids are valid and the sums parse and fit; records are appended and the declared total grows by what they hold, account records without an id or code hash included |
| `GenesisFile.MergeIff` | bitinfinity-neard/src/main.rs:272-335 | a merge succeeds if and only if every id that is there is valid, the amounts parse and both sums fit, told record by record |
| `GenesisFile.MergeAdds` | bitinfinity-neard/src/main.rs:300-325 | a merge puts the new records behind the old ones and adds what they hold to the declared total |
| `GenesisFile.MergeReconciled` | bitinfinity-neard/src/main.rs:310-325 | a successful merge leaves a genesis reconciled exactly if it was |
| `GenesisFile.MergesReconciled` | bitinfinity-neard/src/main.rs:272-335 | so does any sequence of merges, successful or not |
| `GenesisFile.MergesAdd` | bitinfinity-neard/src/main.rs:272-335 | after any sequence of merges the records are the first ones and those of the files that went through, in order, and the total has grown by what they hold |
| `GenesisPipeline.GenerateGenesis` | bitinfinity-tools/src/main.rs:374-446 | from the UTXO stream to the file: succeeds exactly on the right count and a total that fits; the file is complete, reconciled and can be summed up; its total is the fixed supply plus every satoshi paid to an address times 10^16, less those at reserved ids |
| `GenesisPipeline.SuppliedSplits` | bitinfinity-tools/src/genesis_builder.rs:231-239 | the declared total misses exactly the satoshis at ids that have an account already |
| `GenesisPipeline.ConservedIff` | bitinfinity-tools/src/genesis_builder.rs:231-239 | every satoshi paid to an address is in the declared total if and only if neither reserved id would receive any, by its own outputs or as Patoshi target |
| `GenesisPipeline.OutputMissed` | bitinfinity-tools/src/genesis_builder.rs:231-234 | an output paid to the validator's own address is missing from the total |
| `GenesisPipeline.FloorIff` | bitinfinity-tools/src/main.rs:402-410 | the target's account holds at least its recorded floor if and only if its id is not reserved or the reserved balance suffices; its lock record is there |
| `GenesisPipeline.CommandSupply` | bitinfinity-tools/src/main.rs:335-340 | with the command's validator the declared total is 51,000,001 times 10^24 and 10^16 for every satoshi at an id that is not reserved |
| `GenesisPipeline.CommandFloor` | bitinfinity-tools/src/main.rs:335-410 | with the command's validator the floor holds if and only if the target is not the validator's account or at most 10^14 satoshis were removed |
| `GenesisPipeline.FloorMissed` | bitinfinity-tools/src/main.rs:335-410 | 1,100,000 bitcoins reassigned to the validator's own address: in every complete genesis its account is below the floor |
| `GenesisPipeline.OtherPatoshiGone` | bitinfinity-tools/src/patoshi.rs:57-62 | a Patoshi address other than the target has an account only if it is a reserved id |
| `Ledger.AccountManager.constructor` | bitinfinity-tools/src/account_manager.rs:77-81 | a new manager has no accounts |
| `Ledger.AccountManager.CreateAccount` | bitinfinity-tools/src/account_manager.rs:84-91 | an existing address is refused and nothing changes |
| `Ledger.AccountManager.LoadFromUtxos` | bitinfinity-tools/src/account_manager.rs:94-100 | succeeds exactly when no address has an account yet; stops at the first that has, keeping what was created |
| `Ledger.AccountManager.AddBalance` | bitinfinity-tools/src/account_manager.rs:43-49 | adds unless the balance would exceed u128 |
| `Ledger.AccountManager.SubtractBalance` | bitinfinity-tools/src/account_manager.rs:52-61 | subtracts unless the balance is too small |
| `Ledger.AccountManager.Transfer` | bitinfinity-tools/src/account_manager.rs:118-137 | debit, then credit, a failing credit keeping the debit |
| `Ledger.AccountManager.ExecuteTransfer` | bitinfinity-tools/src/account_manager.rs:140-150 | a successful transfer bumps the sender's nonce |
| `Ledger.TransactionProcessor.ExecuteTransaction` | bitinfinity-tools/src/transaction.rs:97-154 | a bad signature or unknown sender costs no gas, anything else 21000, and the status is the transfer's |
| `Ledger.TransactionProcessor.ExecuteBlock` | bitinfinity-tools/src/transaction.rs:157-162 | one receipt per transaction, each executed on what the ones before left |
| `Ledger.TransferTotal` | bitinfinity-tools/src/account_manager.rs:118-137 | a transfer keeps the account set, succeeds exactly if it is not refused and the credit fits, and loses exactly the amount of an overflowing credit |
| `Ledger.FailureLeavesTrace` | bitinfinity-tools/src/account_manager.rs:129-137 | a failed transfer changes the ledger if and only if a positive credit to another account overflows |
| `Ledger.FundsLost` | bitinfinity-tools/src/account_manager.rs:129-137 | one unit sent to an account at the limit is gone |
| `Ledger.CreditFits` | bitinfinity-tools/src/account_manager.rs:129-137 | with a total below 2^128 no credit overflows |
| `Ledger.TransactionLaw` | bitinfinity-tools/src/transaction.rs:97-154 | with a total below 2^128 a transaction keeps accounts and total, a failed one changes nothing, and a successful one moves exactly its amount and one nonce, self-transfers included |
| `Ledger.GasLaw` | bitinfinity-tools/src/transaction.rs:97-154 | a transaction uses 21000 gas if it is signed and its sender exists, even if it fails, and none otherwise |
| `Ledger.NonceCounts` | bitinfinity-tools/src/account_manager.rs:63-66 | a successful transfer counts the sender's nonce up by one, in 64 bits |
| `Ledger.BlockLaw` | bitinfinity-tools/src/transaction.rs:157-162 | over a block, every balance changes by received less sent and every nonce by the successes, as the receipts tell, and the total stays |
| `Ledger.RunIsOneBlock` | bitinfinity-tools/src/transaction.rs:157-162 | where block boundaries fall makes no difference to ledger or receipts |
| `Ledger.RunLaw` | bitinfinity-tools/src/transaction.rs:97-162 | the same over every run of blocks |
| `Ledger.FailuresAreNoops` | bitinfinity-tools/src/transaction.rs:97-162 | leaving out the failed transactions gives the same ledger, and none of the rest then fails |
| `Ledger.ReplayIff` | bitinfinity-tools/src/transaction.rs:97-162 | of any number of copies of one transaction, each succeeds exactly if it is signed, the accounts exist and the sender could pay for all copies up to it, or pays itself; the nonce plays no part |
| `Ledger.SecondCopy` | bitinfinity-tools/src/transaction.rs:97-154 | a transaction that succeeded succeeds again exactly if the sender had twice the amount or pays itself |
| `Ledger.PaidTwice` | bitinfinity-tools/src/transaction.rs:97-162 | every signed transaction to another account, twice in a block with funds for both, gives two Success receipts and moves the amount twice |
| `Ledger.LoadedFits` | bitinfinity-tools/src/account_manager.rs:94-100 | a ledger loaded from balances that sum below 2^64 satisfies the condition of the laws |
| `ProducerList.SerializeProducers` | nearcore/pytest/lib/lightclient.py:124-147 | the loops write count, optional version, the length 5, id, key and stake of each producer, or raise where a number does not fit a byte |
| `ProducerList.ListInjective` | nearcore/pytest/lib/lightclient.py:124-147 | with ids without zero bytes, 32-byte keys and stakes below 2^128, different lists never have the same bytes |
| `ProducerList.HashDetermines` | nearcore/pytest/lib/lightclient.py:124-155 | so a promised hash determines the list, where SHA-256 has no collision |
| `ProducerList.BorshIffFive` | nearcore/pytest/lib/lightclient.py:134-136 | the bytes are those of Borsh exactly if every account id has five bytes |
| `StakeSchema.HashedIffFive` | nearcore/pytest/lib/lightclient.py:124-147 | for lists that the chain can hold, the bytes hashed are those of the Python serializer under the schema of ValidatorStake if and only if every account id has five bytes |
| `LightClient.CountStake` | nearcore/pytest/lib/lightclient.py:84-109 | total and approved stake are the sums over all and over the approving producers; nothing exactly if an approval raises |
| `LightClient.Client.constructor` | nearcore/pytest/lib/lightclient.py:59-62 | the known producers are the caller's |
| `LightClient.Client.ValidateBlock` | nearcore/pytest/lib/lightclient.py:59-158 | accepts exactly if the epoch is the last block's or its next and known, lengths match, approvals verify, strictly more than two thirds approved, and a handover carries producers with the promised hash; raises exactly in the cases named; only an accepted handover changes the known producers |
| `LightClient.AcceptedMeans` | nearcore/pytest/lib/lightclient.py:59-158 | what an accepted block shows, without the predicates of the check: its epoch, its approvals one by one, a stake of more than two thirds, the handover's hash |
| `LightClient.RaisesMeans` | nearcore/pytest/lib/lightclient.py:70-152 | the cases that raise, one by one, and that no other does |
| `LightClient.HandoverRecorded` | nearcore/pytest/lib/lightclient.py:157-158 | an accepted handover is recorded under the epoch it announces, and nothing else changes |
| `LightClient.ChainKeepsUp` | nearcore/pytest/lib/lightclient.py:59-158 | along every chain of accepted handovers the client knows the producers of the next epoch, exactly those of the last block |
| `LightClient.ChainCanGoOn` | nearcore/pytest/lib/lightclient.py:59-158 | after every such chain the next handover is judged by those producers, and accepted if they approve it |
| `LightClient.AcceptedIsLow` | nearcore/pytest/lib/lightclient.py:103-109 | no block of height 254 or more is accepted |
| `LightClient.TallRaisesIff` | nearcore/pytest/lib/lightclient.py:70-109 | such a block raises exactly if its epoch is acceptable and either unknown or the lengths agree and there is an approval; otherwise it is refused |
| `LightClient.TooTall` | nearcore/pytest/lib/lightclient.py:103-109 | for every producer with stake and every signature that verifies, a block accepted at height 253 raises at 254 |
| `LightClient.QuorumsMeet` | nearcore/pytest/lib/lightclient.py:111-115 | despite the floor in the threshold, two accepted blocks share approvals of more than a third of the stake |
| `LightClient.HonestInBoth` | nearcore/pytest/lib/lightclient.py:111-115 | with at most a third faulty some other producer approved both |
| `LightClient.AcceptedAgree` | nearcore/pytest/lib/lightclient.py:111-155 | if nobody outside the faulty third signs conflicting blocks, two blocks accepted in one epoch hand over to producers with the same hash |
| `LightClient.RunStaysGenuine` | nearcore/pytest/lib/lightclient.py:59-158 | over every sequence of checks, on whatever blocks and headers, a client that starts from real producers only ever records real ones, if real producers are at most a third faulty and the others sign only real handovers |
| `Decimal.ParsePrinted` | bitinfinity-tools/src/main.rs:129-132 | a printed u128 is parsed back |
| `Decimal.PrintedIs` | bitinfinity-tools/src/main.rs:129-132 | digits without a superfluous zero in front are exactly what is printed for their number |
| `Decimal.PlusSign` | bitinfinity-tools/src/main.rs:129-132 | one plus sign in front changes nothing, a second plus sign or a minus sign is refused |
| `Decimal.LargestParsed` | bitinfinity-tools/src/main.rs:129-132 | the largest number that is parsed, and that the next is not |
| `BtcAmount.DecimalExact` | bitinfinity-tools/src/main.rs:233-280 | behind the sign exactly digits with at most one dot, at most eight digits behind it and a value that fits are accepted, and the result is the exact value times 10^8 |
| `BtcAmount.Surroundings` | bitinfinity-tools/src/main.rs:233-243 | white space around an amount and one plus sign before it make no difference; nothing at all and a minus sign are refused |
| `BtcAmount.Spaces` | bitinfinity-tools/src/main.rs:234 | the code points that count as white space |
| `BtcAmount.ParseWritten` | bitinfinity-tools/src/main.rs:233-280 | the satoshis of a whole part and a fraction |
| `BtcAmount.RenderRoundTrip` | bitinfinity-tools/src/main.rs:233-280 | every satoshi count below 2^128 is parsed back from its BTC rendering |
| `BtcAmount.TrailingZeros` | bitinfinity-tools/src/main.rs:272-274 | zeros at the end, up to eight places in all, never change the result, whether the string is accepted or not |
| `BtcAmount.YoctoExact` | bitinfinity-tools/src/main.rs:282-287 | the exact conversion gives s exactly for s times 10^16 |

## Left out

- Cryptography, Base58Check, segwit decoding and UTF-8 are parameters, so nothing is proved about them.
- Clocks, retry delays, the semaphore and the limits of `buffer_unordered`, metrics and logging of the dumper: steps may be taken in any order, so the proofs hold for any schedule, but say nothing about time.
- The contents of headers and state parts: a stored file is only present or absent.
- I/O failures of the download decoder, and the `decompress` loop, which depends on the xz2 library: what is modelled is which chunks it is given.
- JSON syntax: a genesis file is its total and its records, a missing or non-text amount is text that does not parse, and a record the builder's types cannot hold is `Other`, with its amounts if it has any.
- The validators, protocol parameters and time of the genesis file: they carry no supply.
- GenesisFile.Build: does not model the unchecked additions of validator balance, stake and treasury overflowing u128, because the source gives no defined result there; it requires that they fit.
- Supply.ParseAndAggregate: does not model an overflow of the unchecked u64 sums, because the result differs between build profiles; it requires that the whole stream fits.
- Ledger: the nonce wraps at 2^64, as in release builds; a debug build would panic. Public keys, error texts and transaction hashes are not modelled.
- Bech32.DeriveScriptPubKeyAddress: shares the regrouping loop and the polymod loop with the other encoder, because the source repeats their text; that the two encoders agree is proved for what is around them.
- Bech32.Bech32EncodeLocal: takes the HRP as its bytes, because the source expands the bytes; an HRP outside ASCII is not compared character by character.
- BorshSchema: values are None, bools, ints, strings, bytes, byte arrays, tuples, lists and objects; dicts, sets, floats and other Python objects are not modelled. Python's recursion limit is the parameter `depth`; objects hold their attributes in schema order, and an enum whose variant is named like its own tag field is not modelled.
- TxSchema: a delegated action is not compared, because the builder takes it as bytes and puts lengths before them; gas keys and state initialization are not in the schema.
- AccountId: implicit account kinds and their classification, which would only add easy members.
- LightClient: stakes are natural numbers, and the bytes of the approval message are inside the signature parameter, except that the height must fit.
- `amounts.rs` and the balance helpers of `near_client.rs`: floating point.
- Key store, RPC handlers, network clients, command line, configuration, migrations, and the Python cluster scripts: plumbing without hard properties.
- The runtime's Patoshi floor, the emission schedule and consensus: not part of this model.
