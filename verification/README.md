# Airbitz wallet core, modelled in Dafny

This project models the bookkeeping core of the Airbitz bitcoin wallet
library (abcd) and its command-line tool, and proves properties of the
model. Each source component is one Dafny module:

- `TxDatabase`, `TxFilter`, `TxDatabaseFormat` (abcd/bitcoin/TxDatabase.cpp):
  the wallet's transaction store, a map from txid to a row holding the
  transaction, its ntxid (malleability-normalised id), its state, block
  height and timestamp. It covers insert and the state transitions, the
  ntxid lookups, the double-spend-safe UTXO query (`get_utxos` with the
  recursive `TxFilter::isSafe` check), and the tagged binary record format
  written by `serialize` and read by `load`.
- `TxDatabaseFixture` (test/TxDatabase.cpp): the unit test's transaction
  graph, built step by step, and the two UTXO queries the test checks.
- `Inputs`, `Outputs`, `Spend`, with `Script` and `Wire` underneath
  (abcd/spend/*.cpp): the miner-fee formula, input picking, script
  templates, signing bookkeeping, and spend construction.
- `TxUpdater` (abcd/bitcoin/TxUpdater.cpp): the server-sync state machine
  — the connection pool, the per-connection query counters, the timer
  tick and the effects of every server reply on the store — with
  callbacks turned into explicit reply events.
- `General` (abcd/General.cpp): the miner-fee table fix-up and the
  server-list fallbacks.
- `Crypto` (abcd/crypto/Crypto.cpp): the framing of the encrypted package
  (random header, big-endian length, data, random footer, SHA-256 trailer),
  the constant-time comparison, key and IV normalisation, and the JSON
  envelope around a package, with its crypto-type checks and the int cast
  of the type.
- `Scrypt` (abcd/crypto/Scrypt.cpp): scrypt cost tuning from a measured
  hash time, and the fixed username parameters.
- `TxMetaDb` (abcd/wallet/TxMetaDb.cpp): per-transaction metadata files
  and their de-duplication by ntxid.
- `Command` (cli/Command.cpp): the command registry and the usage line.

status.dfy holds two modules: `Wrappers`, with the Option type and the
Field type of a JSON value that may be missing or of the wrong kind, and
`Status`, with the library's error codes and the Result and Outcome
types built on them; `Bytes`, `Arith` and `Seqs` hold shared
definitions and small lemmas.

What the model takes as given. None of these is computed here; each
enters as a parameter or as a datatype field:

- transaction hashing (txid, ntxid);
- `bc::extract` from a script to an address;
- address parsing;
- SHA-256 and AES-256-CBC;
- libbitcoin's `select_outputs`;
- the random choices;
- the clock;
- the sockets;
- the details codec;
- the directory listing;
- the decrypted contents of each metadata file.

Transactions are encoded with the standard Bitcoin serialization, and the
model proves that encoding round-trips. The iteration order of the
source's unordered maps is an explicit enumeration parameter. The model
proves that the results that matter do not depend on that order.

## Model

| member | source | states |
|---|---|---|
| TxDatabase.StateOfByte | abcd/bitcoin/TxDatabase.cpp:377 | a stored state byte always decodes to some TxState (0 and 1 to the two named states, any other byte kept as an unknown state) |
| TxDatabase.StateByte | abcd/bitcoin/TxDatabase.cpp:326 | the byte written for a named state decodes back to that state |
| TxDatabase.Insert | abcd/bitcoin/TxDatabase.cpp:458-475 | reports true iff the txid was absent; the key set gains exactly that txid; a new row is the transaction, unconfirmed, at height 0, stamped now; every existing row is untouched |
| TxDatabase.Clear | abcd/bitcoin/TxDatabase.cpp:477-483 | height 0, no rows, the timeout kept |
| TxDatabase.AtHeight | abcd/bitcoin/TxDatabase.cpp:485-489 | the last height becomes the argument whatever it was before; rows unchanged |
| TxDatabase.MarkConfirmed | abcd/bitcoin/TxDatabase.cpp:491-501 | requires the row (the source asserts it); only that row changes, to confirmed at the given height |
| TxDatabase.MarkUnconfirmed | abcd/bitcoin/TxDatabase.cpp:503-513 | requires the row; only that row changes, to unconfirmed at height 0 |
| TxDatabase.ResetTimestamp | abcd/bitcoin/TxDatabase.cpp:515-522 | a missing txid leaves the store as it was; otherwise only that row's timestamp changes |
| TxDatabase.TxidLookup | abcd/bitcoin/TxDatabase.cpp:158-166 | the stored transaction, or the empty transaction for a missing txid |
| TxDatabase.TxidHeight | abcd/bitcoin/TxDatabase.cpp:185-198 | the block height of a confirmed row; 0 for a missing or unconfirmed one |
| TxDatabase.NtxidLookupAll | abcd/bitcoin/TxDatabase.cpp:533-543 | lists exactly the enumerated rows carrying the ntxid, without repeats |
| TxDatabase.VariantsListed | abcd/bitcoin/TxDatabase.cpp:533-543 | over a full enumeration of the rows, the list holds every variant of the ntxid, each once |
| TxDatabase.NtxidExists | abcd/bitcoin/TxDatabase.cpp:150-156 | true iff some row carries the ntxid |
| TxDatabase.FirstConfirmed | abcd/bitcoin/TxDatabase.cpp:176-181 | the position of the first confirmed variant from k on: every variant before it is unconfirmed |
| TxDatabase.NtxidLookup | abcd/bitcoin/TxDatabase.cpp:168-183 | the first confirmed variant in iteration order; failing that the last variant met; failing that the empty transaction |
| TxDatabase.PickVariant | abcd/bitcoin/TxDatabase.cpp:174-182 | the lookup loop from position k returns the first confirmed variant, else the last one seen |
| TxDatabase.MaxConfirmed | abcd/bitcoin/TxDatabase.cpp:209-217 | the loop's height is at least 0, at least every confirmed variant's height, and is 0 or one of them |
| TxDatabase.MaxOverVariants | abcd/bitcoin/TxDatabase.cpp:209-217 | that maximum over a listing of the variants is the maximum over the variant set, and it is 0 exactly when no variant is confirmed above 0 |
| TxDatabase.NtxidHeight | abcd/bitcoin/TxDatabase.cpp:200-228 | Synchronizing iff no row carries the ntxid; -1 when several variants exist and none is confirmed above 0; otherwise the largest confirmed height |
| TxDatabase.HasHistory | abcd/bitcoin/TxDatabase.cpp:230-246 | true iff some output of some stored transaction extracts to the address |
| TxDatabase.ForeachUnconfirmed | abcd/bitcoin/TxDatabase.cpp:524-531 | visits exactly the enumerated rows that are not confirmed, each once |
| TxDatabase.InsertThenLookup | abcd/bitcoin/TxDatabase.cpp:458-475 | after insert, lookup by the txid gives the older transaction when there was one and the new one otherwise, and the txid's height is unchanged |
| TxDatabase.InsertIdempotent | abcd/bitcoin/TxDatabase.cpp:462-474 | inserting the same transaction again reports false and leaves the store as it is |
| TxDatabase.ConfirmedHeight | abcd/bitcoin/TxDatabase.cpp:491-513 | after confirmed the row reports that height and after unconfirmed 0; no other txid's height moves |
| TxDatabase.UnconfirmedListed | abcd/bitcoin/TxDatabase.cpp:503-531 | a row just marked unconfirmed is visited by foreach_unconfirmed, and a confirmed one is not |
| TxFilter.Prevs | abcd/bitcoin/TxDatabase.cpp:258-262 | the previous outputs of a row's inputs, one per input, in input order |
| TxFilter.FlatMembers | abcd/bitcoin/TxDatabase.cpp:256-263 | the first loop of get_utxos meets an outpoint iff some input of some walked row spends it |
| TxFilter.FlatSpent | abcd/bitcoin/TxDatabase.cpp:254-263 | over a full enumeration of the rows, the spends met are exactly the spent outpoints |
| TxFilter.FlatPermutation | abcd/bitcoin/TxDatabase.cpp:256 | two walks over the same rows meet the same spends with the same multiplicities, whatever the hash-map order |
| TxFilter.DoubleSpendsOrderFree | abcd/bitcoin/TxDatabase.cpp:254-263 | the double-spend set does not depend on the iteration order of the rows |
| TxFilter.RowCount | abcd/bitcoin/TxDatabase.cpp:258-262 | a row spends p at least once (twice) iff one (two different) of its inputs spend p |
| TxFilter.FlatOnce | abcd/bitcoin/TxDatabase.cpp:260 | a walk meets p iff some input along it spends p |
| TxFilter.CountTwiceStep | abcd/bitcoin/TxDatabase.cpp:260-261 | one more row keeps "met twice" equivalent to "spent by two different inputs" |
| TxFilter.CountTwice | abcd/bitcoin/TxDatabase.cpp:260-261 | a walk meets p twice or more iff two different inputs along it spend p |
| TxFilter.DoubleSpendsSpentTwice | abcd/bitcoin/TxDatabase.cpp:254-263 | the double-spend set is exactly the outpoints that two different input occurrences in the store spend |
| TxFilter.InputsSafeAll | abcd/bitcoin/TxDatabase.cpp:109-116 | the input loop of isSafe succeeds iff no remaining input spends a double-spent outpoint or sources from an unsafe transaction |
| TxFilter.SafeByCases | abcd/bitcoin/TxDatabase.cpp:91-117 | a missing txid is safe; a confirmed one is safe; an unconfirmed one is unsafe iff some input spends a double spend or has an unsafe source |
| TxFilter.SafeRankFree | abcd/bitcoin/TxDatabase.cpp:91-117 | safety does not depend on which acyclicity ranking is used to define it |
| TxFilter.InputsSafeRankFree | abcd/bitcoin/TxDatabase.cpp:109-116 | nor does the input loop's verdict |
| TxFilter.IsSafe | abcd/bitcoin/TxDatabase.cpp:91-117 | the memoised search returns exactly the safety of the txid, and its memo only gains correct entries |
| TxFilter.Check | abcd/bitcoin/TxDatabase.cpp:67-85 | true iff, when filtering a non-confirmed row, every input spends from a wallet address, and the row is safe |
| TxFilter.CollectRowSpends | abcd/bitcoin/TxDatabase.cpp:258-262 | after one row's inputs, the spend set holds every spend so far and the double-spend set those met twice or more |
| TxFilter.CollectSpends | abcd/bitcoin/TxDatabase.cpp:253-263 | the first loop yields exactly the spent outpoints and the double-spend set |
| TxFilter.RowUtxos | abcd/bitcoin/TxDatabase.cpp:271-287 | one row's outputs add exactly its outputs that are unspent, pay a wallet address and pass the check, without repeats |
| TxFilter.GetUtxos | abcd/bitcoin/TxDatabase.cpp:248-291 | get_utxos returns exactly the unspent wallet outputs of rows that pass the check, each once |
| TxFilter.UtxosOrderFree | abcd/bitcoin/TxDatabase.cpp:248-291 | which outputs qualify does not depend on the iteration order of the rows |
| TxDatabaseFormat.FieldsOf | abcd/bitcoin/TxDatabase.cpp:319-332 | the height slot written is a 64-bit value: the timestamp for an unconfirmed row, the block height otherwise |
| TxDatabaseFormat.Serialize | abcd/bitcoin/TxDatabase.cpp:293-338 | the data starts with the 4-byte magic and the 8-byte last height, little-endian |
| TxDatabaseFormat.RestoreRow | abcd/bitcoin/TxDatabase.cpp:385-406 | the rebuilt row keeps tx, txid and ntxid; a malleated record without master confirmation is unconfirmed at height 0; otherwise the stored state; the height test decides whether the slot is a timestamp or a height |
| TxDatabaseFormat.Need | abcd/bitcoin/TxDatabase.cpp:411-414 | a read past the end is the Truncated parse error |
| TxDatabaseFormat.ReadFields | abcd/bitcoin/TxDatabase.cpp:377-383 | reading the fields after the transaction either fails as truncated or consumes input and yields a 64-bit height slot |
| TxDatabaseFormat.ParseRecord | abcd/bitcoin/TxDatabase.cpp:366-381 | a record whose tag is not 0x42 is the unknown-entry error; every failure is a parse error; success consumes input |
| TxDatabaseFormat.ParseRecords | abcd/bitcoin/TxDatabase.cpp:364-409 | reading records until the data ends fails only with parse errors, and an unknown tag first is the unknown-entry error |
| TxDatabaseFormat.LoadWith | abcd/bitcoin/TxDatabase.cpp:340-419 | every error is a parse error and leaves the store unchanged; short data is truncated; the old magic is "outdated"; any other magic is "unknown header"; on success the store takes exactly the decoded height and rows, nothing else changes |
| TxDatabaseFormat.Load | abcd/bitcoin/TxDatabase.cpp:340-419 | load with the height test reading the state just read (the corrected form): the same error cases, plus an unknown first tag |
| TxDatabaseFormat.LoadAsWritten | abcd/bitcoin/TxDatabase.cpp:372-390 | load with the height test reading the fresh row's uninitialised state: still fails only with parse errors and leaves the store as it was |
| TxDatabaseFormat.Reloaded | abcd/bitcoin/TxDatabase.cpp:385-395 | the row a correct reload gives: an unconfirmed row keeps its timestamp at height 0, any other keeps its height and is stamped with the load time |
| TxDatabaseFormat.ReadBackCorrected | abcd/bitcoin/TxDatabase.cpp:319-332 | with the corrected test, a written row reads back as Reloaded |
| TxDatabaseFormat.ReadFieldsOf | abcd/bitcoin/TxDatabase.cpp:326-332 | the written fields read back exactly, with the rest of the data left over |
| TxDatabaseFormat.ParseRecordOfParts | abcd/bitcoin/TxDatabase.cpp:366-383 | a record made of tag, key, decodable transaction and fields parses to the restored row |
| TxDatabaseFormat.ParseRecordOfRecord | abcd/bitcoin/TxDatabase.cpp:323-332 | a record as serialize writes it parses back to the key and the read-back row |
| TxDatabaseFormat.ExpectedCons | abcd/bitcoin/TxDatabase.cpp:309-333 | a kept row at the front of the walk adds its read-back row to the expected rows |
| TxDatabaseFormat.ExpectedSkip | abcd/bitcoin/TxDatabase.cpp:311-317 | a purged or absent row at the front adds nothing |
| TxDatabaseFormat.ParseRecordsStep | abcd/bitcoin/TxDatabase.cpp:364-408 | one written record updates the decoded map at its key |
| TxDatabaseFormat.ParseRecordsOfRecords | abcd/bitcoin/TxDatabase.cpp:309-333 | the records of a walk parse to exactly the read-back rows of the rows kept |
| TxDatabaseFormat.LoadWithOfParts | abcd/bitcoin/TxDatabase.cpp:352-416 | the magic, a 64-bit height and parsable records load to that height and those rows |
| TxDatabaseFormat.LoadWithOfSerialize | abcd/bitcoin/TxDatabase.cpp:293-419 | loading what serialize wrote succeeds with the original height and the expected rows |
| TxDatabaseFormat.LoadOfSerialize | abcd/bitcoin/TxDatabase.cpp:293-419 | round trip of the corrected load: it succeeds, keeps the height, holds exactly the rows that were not purged as stale, and each reads back as Reloaded |
| TxDatabaseFormat.OneRowEnumerates | abcd/bitcoin/TxDatabase.cpp:309 | the one-key walk enumerates a one-row store |
| TxDatabaseFormat.ExpectedSingle | abcd/bitcoin/TxDatabase.cpp:309-333 | a one-row store that is kept reads back as that row |
| TxDatabaseFormat.OneRowLoad | abcd/bitcoin/TxDatabase.cpp:293-419 | serialize then load of a one-row store succeeds with just that row read back |
| TxDatabaseFormat.AsWrittenLosesConfirmedHeight | abcd/bitcoin/TxDatabase.cpp:386-395 | as written, when the uninitialised state happens to read as unconfirmed, a confirmed row at height 500 reloads confirmed at height 0 with its height taken as a timestamp |
| TxDatabaseFormat.AsWrittenMisreadsUnconfirmed | abcd/bitcoin/TxDatabase.cpp:386-395 | as written, when it reads as anything else, an unconfirmed row reloads with its timestamp as its block height and a fresh timestamp |
| TxDatabaseFixture.TestScripts | test/TxDatabase.cpp:40-52 | our receive script and the foreign one are the pay-to-key-hash template for their key hashes |
| TxDatabaseFixture.IdsApart | test/TxDatabase.cpp:23-29 | the seven test txids are pairwise distinct and none is the fake txid |
| TxDatabaseFixture.InsertFresh | test/TxDatabase.cpp:70 | inserting a transaction whose txid is new adds exactly its unconfirmed row stamped now |
| TxDatabaseFixture.Receive | test/TxDatabase.cpp:56-101 | after the height and the first three inserts (buried confirmed at 100), the store holds those rows and the height is 100 |
| TxDatabaseFixture.SpendConfirmed | test/TxDatabase.cpp:102-115 | adding the confirmed spend of buried:0 keeps the height and gives the settled shape |
| TxDatabaseFixture.SpendUnconfirmed | test/TxDatabase.cpp:117-159 | adding the double spend, the change and the bad spend gives the full seven-row shape |
| TxDatabaseFixture.TestDb | test/TxDatabase.cpp:31-160 | the fixture's store has height 100 and exactly the seven rows in their states |
| TxDatabaseFixture.TestRanked | test/TxDatabase.cpp:102-159 | the fixture's spend graph is acyclic: each unconfirmed row ranks above the rows it spends |
| TxDatabaseFixture.Spenders | test/TxDatabase.cpp:58-159 | the only inputs in the store are the eight the test writes |
| TxDatabaseFixture.TestSpentExactly | test/TxDatabase.cpp:58-159 | the spent outpoints are exactly fake:0-2, buried:0, buried:1, doubleSpend:0 and change:0 |
| TxDatabaseFixture.TestEnumerates | test/TxDatabase.cpp:58-159 | the seven txids enumerate the store |
| TxDatabaseFixture.TestDoubleSpends | test/TxDatabase.cpp:117-129 | the only outpoint spent twice is buried:0 |
| TxDatabaseFixture.TestSafeRows | test/TxDatabase.cpp:58-144 | irrelevant, incoming, buried, confirmed and change are safe |
| TxDatabaseFixture.TestUnsafeRows | test/TxDatabase.cpp:117-159 | doubleSpend is unsafe (it spends buried:0) and so is badSpend, which spends doubleSpend:0 |
| TxDatabaseFixture.StandardReceives | test/TxDatabase.cpp:40-52 | the standard extractor reads each receive script as its key hash's address |
| TxDatabaseFixture.TestCandidates | test/TxDatabase.cpp:58-159 | the unspent outputs paying us are exactly incoming:0, confirmed:0, doubleSpend:0, change:1 and badSpend:0 |
| TxDatabaseFixture.TestPasses | test/TxDatabase.cpp:195-214 | which rows pass the check, with the filter on (confirmed, change, buried) and off (incoming too) |
| TxDatabaseFixture.TestUtxo | test/TxDatabase.cpp:195-214 | an output is in the query result iff it is one of the expected outputs for that filter setting |
| TxDatabaseFixture.TestQuery | test/TxDatabase.cpp:185-214 | the query on the fixture's store returns distinct outputs, exactly the expected ones, and the height is 100 |
| TxDatabaseFixture.FilteredUtxos | test/TxDatabase.cpp:195-204 | the filtered query returns two outputs, confirmed:0 and change:1, and none of badSpend:0, irrelevant:0, buried:0, buried:1 or incoming:0 |
| TxDatabaseFixture.AllUtxos | test/TxDatabase.cpp:206-214 | the unfiltered query returns three outputs, incoming:0, confirmed:0 and change:1, and none of badSpend:0, irrelevant:0, buried:0 or buried:1 |
| Inputs.FirstFit | abcd/spend/Inputs.cpp:165-173 | the schedule walk finds the first row whose size bound admits the size, and finds none exactly when every bound is below it |
| Inputs.FirstFitTightest | abcd/spend/Inputs.cpp:165-173 | in an ascending schedule, the row found has the tightest admitting bound |
| Inputs.SizeFee | abcd/spend/Inputs.cpp:164-175 | when a row admits the size and the first such row's fee is nonzero, the size fee is that fee; when none admits it or that fee is zero, it is the last row's fee |
| Inputs.SizeFeeOfRow | abcd/spend/Inputs.cpp:164-175 | any row that admits the size, has a nonzero fee and follows only rows that do not admit it sets the size fee; with no admitting row the last row's fee is used |
| Inputs.ClampedFee | abcd/spend/Inputs.cpp:177-184 | the 0.1% amount fee is clamped into [sizeFee / 2, sizeFee]: kept when inside, raised to sizeFee / 2 when below, cut to sizeFee when above |
| Inputs.MinerFeeAsWritten | abcd/spend/Inputs.cpp:157-188 | as written: the rounding takes a modulo by sizeFee / 10, undefined exactly when the size fee is below 10 |
| Inputs.MinerFee | abcd/spend/Inputs.cpp:157-188 | the corrected miner fee: equal to the fee as written wherever that is defined, and the unrounded clamped fee where the source would take a modulo by zero |
| Inputs.MinerFeeDividesByZero | abcd/spend/Inputs.cpp:182-187 | a one-row schedule of fee 9 makes every fee computation a modulo by zero |
| Inputs.MinerFeeBounds | abcd/spend/Inputs.cpp:157-188 | the fee never exceeds the size fee; for a size fee of at least 10 it is a multiple of a tenth of it, the largest one not above the clamped fee, and at least half the size fee rounded down to a tenth; it agrees with the source wherever the source is defined |
| Inputs.SpendInputs | abcd/spend/Inputs.cpp:208-215 | one unsigned input per chosen output, in order, with sequence 0xffffffff |
| Inputs.PickRound | abcd/spend/Inputs.cpp:201-221 | one loop pass: no choice exactly when the selection is empty; a settled pick has a capped fee within what is sourced; a retry has a strictly higher capped fee |
| Inputs.PickRounds | abcd/spend/Inputs.cpp:199-221 | the loop ends; an empty selection is InsufficientFunds; a result settles for some target at least the outputs plus the starting fee |
| Inputs.PickOptimal | abcd/spend/Inputs.cpp:190-226 | inputsPickOptimal: the only error is InsufficientFunds; the fee is capped at 1 000 000; outputs, version and locktime are kept; the change is what the choice sources beyond outputs and fee |
| Inputs.PickOptimalCovers | abcd/spend/Inputs.cpp:199-225 | with a selector that keeps its promise, the inputs spend outputs from the list whose value is exactly outputs + fee + change |
| Inputs.PickMaximum | abcd/spend/Inputs.cpp:228-258 | inputsPickMaximum: every output becomes an input in order; with the inputs' total and the outputs' total taken as uint64 and their sum with the fee wrapping at 2^64, it fails (InsufficientFunds) iff the total is below that sum, and otherwise the change is the total minus it |
| Inputs.PickMaximumFor | abcd/spend/Inputs.cpp:249-256 | the same test and change for any outputs whose uint64 total equals a given amount's |
| Inputs.PickMaximumUnwrapped | abcd/spend/Inputs.cpp:249-256 | while nothing wraps, it fails iff the inputs are below outputs + fee, and the inputs equal outputs + fee + change |
| Inputs.PickMaximumWraps | abcd/spend/Inputs.cpp:246-256 | with a one-row schedule of fee 20, where the source's miner fee is defined and is 10, one output of 2^64 - 1 against 1000 satoshi of inputs passes the test, since outputs + fee wraps to 9, and leaves 991 as change |
| Inputs.GatherChallenges | abcd/spend/Inputs.cpp:86-100 | false exactly when some input's source transaction is not stored; otherwise challenge i is the script of the output input i spends |
| Inputs.ScriptSig | abcd/spend/Inputs.cpp:142-151 | the signature script is not empty |
| Inputs.ScriptSigParses | abcd/spend/Inputs.cpp:142-151 | the signature script parses back to exactly two pushes: the signature with the SIGHASH_ALL byte 0x01 appended, then the public key |
| Inputs.InputScript | abcd/spend/Inputs.cpp:115-151 | an unsigned input gets a script exactly when its challenge extracts to an address we hold a key for and the signature hash is not null |
| Inputs.SignTx | abcd/spend/Inputs.cpp:102-155 | sign_tx keeps version, outputs, locktime and already-scripted inputs, signs each other input it can, and returns true iff no input was skipped |
| Inputs.SameInputScript | abcd/spend/Inputs.cpp:134-135 | the script made for an input depends on the transaction only through its blanked form |
| Inputs.BlankOfScript | abcd/spend/Inputs.cpp:151 | writing one input's script leaves the blanked transaction as it was |
| Inputs.SignTwice | abcd/spend/Inputs.cpp:102-155 | signing a signed transaction again changes nothing and skips the same inputs |
| Inputs.AllDoneAllSigned | abcd/spend/Inputs.cpp:102-155 | when nothing is skipped, every input ends up with a script |
| Inputs.WalletScript | abcd/spend/Inputs.cpp:26-64 | signTx's step for one input fails (Error) exactly when the source output has no address, the key is missing or the signature hash is null; otherwise it gives a non-empty script |
| Inputs.SameWalletScript | abcd/spend/Inputs.cpp:52-53 | that step depends only on the input's outpoint and the blanked transaction |
| Inputs.SignWallet | abcd/spend/Inputs.cpp:23-68 | signTx fails exactly when some input is blocked, with Error; on success each input's script is the one the per-input step makes for it, its outpoint is kept, and only input scripts changed |
| Outputs.OutputScriptForPubkey | abcd/spend/Outputs.cpp:12-22 | the script is dup, hash160, a push of the key hash, equalverify, checksig, and serialises to the pay-to-key-hash bytes around the hash |
| Outputs.OutputScriptForScript | abcd/spend/Outputs.cpp:24-32 | the script is hash160, a push of the script hash, equal (the pay-to-script-hash template), and serialises to those bytes around the hash |
| Outputs.OutputScriptForAddress | abcd/spend/Outputs.cpp:34-49 | an unparsable address is "Bad address"; the pubkey version gives the key-hash template; the script version gives the script-hash template; any other version is "Non-Bitcoin address", all as ParseError |
| Outputs.ExtractOfOutputScript | abcd/spend/Outputs.cpp:34-49 | the script made for an address extracts back to that address |
| Outputs.OutputsForSendInfo | abcd/spend/Outputs.cpp:51-73 | fails iff the destination's script fails, with its error, leaving the outputs and the request untouched; otherwise exactly one output paying the amount to a script that extracts to the destination, and the Airbitz fee set to 0 |
| Script.CreateDataOperation | abcd/spend/Inputs.cpp:70-84 | the push carries the data; special iff at most 75 bytes, pushdata1 iff 76-254, pushdata2 iff 255-65534, pushdata4 from 65535 on |
| Script.ParseOfSave | abcd/spend/Inputs.cpp:60-63 | a script built from pushes and plain opcodes parses back to the same operations |
| Wire.DecodeOfEncode | abcd/spend/Spend.cpp:168-170 | loading the bytes a well-formed transaction saves to gives back that transaction and leaves the rest of the data |
| Spend.PickWithFallback | abcd/spend/Spend.cpp:37-43 | the pick over the change-only outputs when it succeeds, otherwise the pick over all outputs |
| Spend.MakeTx | abcd/spend/Spend.cpp:25-50 | an output error is returned as is; otherwise the Airbitz fee is cleared; a failed pick is InsufficientFunds; success means the outputs, the pick and the finalisation all succeeded, and gives version 1, locktime 0, the pick's inputs and its fee as the miner fee |
| Spend.MakeTxShape | abcd/spend/Spend.cpp:35-46 | on success the inputs spend outputs from the change-only list when that pick succeeded, from the full list otherwise, and the miner fee is within the cap |
| Spend.MakeTxIgnoresAll | abcd/spend/Spend.cpp:39-43 | when the change-only pick succeeds, the full list does not matter |
| Spend.SpendMakeTx | abcd/spend/Spend.cpp:25-50 | the method queries the change-only outputs, and queries all outputs only when that pick fails; its answer is MakeTx over what the queries returned |
| Spend.CalculateFees | abcd/spend/Spend.cpp:63-80 | both fees are cleared first; a change-address error or a build error is returned; on success the total is the Airbitz fee (0) plus the miner fee |
| Spend.CalculateFeesIsPickFee | abcd/spend/Spend.cpp:63-80 | the reported total is the fee of the pick with fallback, at most 1 000 000 |
| Spend.CalculateMax | abcd/spend/Spend.cpp:82-101 | only an output error is an error; with the change-only outputs, a failed maximum pick reports 0, a successful one the spendable part of its change |
| Spend.CalculateMaxShort | abcd/spend/Spend.cpp:82-101 | the maximum is 0 when the uint64 total of the change-only outputs is below the amount plus the miner fee, that sum wrapping at 2^64 |
| Spend.CalculateMaxUsable | abcd/spend/Spend.cpp:82-101 | otherwise the maximum is the spendable part of that total minus the wrapped sum |
| Spend.CalculateMaxUnwrapped | abcd/spend/Spend.cpp:82-101 | for a non-negative amount and totals below 2^64, 0 when the outputs do not cover amount plus fee, and otherwise the spendable part of what is left |
| Spend.SendTotal | abcd/spend/Outputs.cpp:51-73 | the outputs built for a send total its amount taken as uint64 |
| Spend.SaveTx | abcd/spend/Spend.cpp:164-174 | the decoded transaction is inserted; the watcher is saved iff it was new; no stored row changes and the height is kept |
| Spend.SaveTwice | abcd/spend/Spend.cpp:172-174 | saving the same transaction again adds nothing and does not save the watcher |
| Spend.SaveOfEncoded | abcd/spend/Spend.cpp:164-174 | a transaction the wallet encoded is stored as itself, unconfirmed, at height 0, stamped now |
| TxUpdater.KindOf | abcd/bitcoin/TxUpdater.cpp:299-317 | an entry is libbitcoin iff it starts with "tcp://" and stratum iff it starts with "stratum://"; anything else has no kind |
| TxUpdater.SplitKey | abcd/bitcoin/TxUpdater.cpp:289-295 | the text after the first space is the key; the address before it has no space, and an entry without a space is all address |
| TxUpdater.KindOfAddress | abcd/bitcoin/TxUpdater.cpp:286-317 | splitting off the key never changes the kind the prefix names |
| TxUpdater.AsUnsigned | abcd/bitcoin/TxUpdater.cpp:27 | a count compared with the unsigned max_queries reads as itself when non-negative and as itself plus 2^32 when a negative int |
| TxUpdater.Remove | abcd/bitcoin/TxUpdater.cpp:302 | erasing an index from an untried set removes exactly that index |
| TxUpdater.IndicesOf | abcd/bitcoin/TxUpdater.cpp:87-92 | the indices of every entry of the kind, ascending |
| TxUpdater.Reload | abcd/bitcoin/TxUpdater.cpp:84-104 | an untried set is refilled with every index of its kind only when it is empty, and is kept otherwise |
| TxUpdater.NewUpdater | abcd/bitcoin/TxUpdater.cpp:36-45 | a new updater has no connections, no failure and sends nothing |
| TxUpdater.Send | abcd/bitcoin/TxUpdater.cpp:455-506 | a query goes to each selected connection, counted on it; only counters and the request log change |
| TxUpdater.GetHeight | abcd/bitcoin/TxUpdater.cpp:401-449 | get_height asks only the first connection and counts it there; with no connection nothing happens |
| TxUpdater.GetIndexAll | abcd/bitcoin/TxUpdater.cpp:566-611 | every txid is asked of every libbitcoin connection, whatever server was preferred, and height counts stay put |
| TxUpdater.QueryAddress | abcd/bitcoin/TxUpdater.cpp:630-719 | query_address bumps and asks exactly the connections to the server whose count, read as unsigned against max_queries, is not above 10; so a negative count is skipped and left alone |
| TxUpdater.Disconnect | abcd/bitcoin/TxUpdater.cpp:47-61 | disconnect empties the pool and clears wantConnection; nothing else changes |
| TxUpdater.ConnectTo | abcd/bitcoin/TxUpdater.cpp:283-323 | an unknown prefix is "Unknown server type" and changes nothing; a known kind erases the index from its own untried set; a failed libbitcoin dial is "Could not connect to"; a stratum dial's status is passed on; success appends one connection of that kind |
| TxUpdater.RoomForAsWritten | abcd/bitcoin/TxUpdater.cpp:138-152 | as written: a non-negative shortfall compares normally, but a negative one becomes a huge unsigned value and never leaves room |
| TxUpdater.RoomFor | abcd/bitcoin/TxUpdater.cpp:138-152 | the comparison as intended: room iff the shortfall is below the free slots, so a met or exceeded minimum leaves room whenever a slot is free |
| TxUpdater.SurplusRejectedAsWritten | abcd/bitcoin/TxUpdater.cpp:150-152 | with two libbitcoin connections and one free slot, the test as written says no room, and the intended test says there is |
| TxUpdater.Attempt | abcd/bitcoin/TxUpdater.cpp:142-148 | dialing an untried entry keeps the pool valid, adds at most one connection, counts it only when made, and shrinks that kind's untried set |
| TxUpdater.ConnectStep | abcd/bitcoin/TxUpdater.cpp:121-161 | one loop round, with the corrected room test of RoomFor rather than the size_t comparison as written, keeps the pool valid and adds at most one connection |
| TxUpdater.ConnectStepTriesPrimary | abcd/bitcoin/TxUpdater.cpp:138-149 | when the other kind's minimum is met, a round dials the leading kind whatever rand() says |
| TxUpdater.ConnectLoop | abcd/bitcoin/TxUpdater.cpp:115-162 | the loop, built on the corrected room test, keeps the pool valid, never grows it beyond 4, and adds at most one connection per round |
| TxUpdater.Prepare | abcd/bitcoin/TxUpdater.cpp:63-104 | the server list is loaded only once; a pool with at least 4 connections is torn down (clearing wantConnection); each untried set is reloaded only when empty |
| TxUpdater.Announce | abcd/bitcoin/TxUpdater.cpp:164-172 | with any connection, the first is asked the height and every libbitcoin connection is asked about every unconfirmed row |
| TxUpdater.Connect | abcd/bitcoin/TxUpdater.cpp:63-175 | connect, with the corrected room test, always succeeds, keeps every state invariant (at most 4 connections), and leaves the store, the failure and the clock alone |
| TxUpdater.ConnectDials | abcd/bitcoin/TxUpdater.cpp:77-162 | a full pool is replaced, a short one kept; every new connection is to a distinct entry from its kind's (refilled) untried set |
| TxUpdater.ConnectAnnounces | abcd/bitcoin/TxUpdater.cpp:164-172 | earlier requests stay logged; nothing is asked when nothing is connected; otherwise the height and every unconfirmed row's index are asked |
| TxUpdater.MinSleep | abcd/bitcoin/TxUpdater.cpp:205-234 | the combined delay is one of the two; zero means no deadline; otherwise it is the smaller |
| TxUpdater.HeightTick | abcd/bitcoin/TxUpdater.cpp:188-198 | the height is asked iff 30 s have passed, restarting the period; the delay is what is left of it |
| TxUpdater.AddressQueries | abcd/bitcoin/TxUpdater.cpp:200-215 | only address-query counts rise; the loop test compares the count unsigned, so a negative count is never asked; a connection at 10 or more is never asked, none goes past 11, and the delay only shortens |
| TxUpdater.SocketTick | abcd/bitcoin/TxUpdater.cpp:217-236 | each codec's delay joins the minimum; a failing stratum codec marks its server failed; nothing else changes |
| TxUpdater.DropFailed | abcd/bitcoin/TxUpdater.cpp:238-252 | after a failure only the first connection to the failed server is dropped; the flag is cleared and the index reset to NO_SERVERS |
| TxUpdater.Wakeup | abcd/bitcoin/TxUpdater.cpp:183-259 | wakeup, reconnecting with the corrected room test, keeps the invariants, returns a nonzero delay within what is left of the height period, clears any failure and leaves the store alone |
| TxUpdater.QueryDone | abcd/bitcoin/TxUpdater.cpp:368-397 | query_done removes one query from connection k, and the updater is quiet iff no query is left on any connection |
| TxUpdater.QueryFailed | abcd/bitcoin/TxUpdater.cpp:673-682 | an address query error marks its server failed and then counts the query done |
| TxUpdater.WatchOne | abcd/bitcoin/TxUpdater.cpp:325-340 | a known row is stamped now; an unknown txid is asked of the server that reported it |
| TxUpdater.WatchInputs | abcd/bitcoin/TxUpdater.cpp:362-366 | every input whose source transaction is unknown has it asked of the server |
| TxUpdater.Confirm | abcd/bitcoin/TxUpdater.cpp:346-349 | a nonzero reported size_t height confirms the row at that height, converted to long long as confirmed's parameter is (2^63 and above stored negative, same bit pattern); zero leaves it; no other row changes |
| TxUpdater.WatchTx | abcd/bitcoin/TxUpdater.cpp:325-360 | watch_tx fetches an unknown txid, confirms a known one at a nonzero size_t height converted to long long, and when inputs are wanted fetches its unknown inputs; no row is added or removed |
| TxUpdater.WatchKnown | abcd/bitcoin/TxUpdater.cpp:341-359 | on a known row: stamp, confirm at a nonzero size_t height converted to long long, watch unknown inputs when wanted; other rows keep state and height |
| TxUpdater.WatchRow | abcd/bitcoin/TxUpdater.cpp:692-703 | a history row watches the output at its height and the spend (when not null) at height 0 |
| TxUpdater.WatchHistory | abcd/bitcoin/TxUpdater.cpp:692-703 | every transaction the history names that the store lacks is fetched |
| TxUpdater.HistoryDone | abcd/bitcoin/TxUpdater.cpp:684-707 | a history reply fetches every unknown transaction from the same server, and then counts the query done |
| TxUpdater.TxDone | abcd/bitcoin/TxUpdater.cpp:479-497 | a fetched transaction is inserted (reported as added iff new), its unknown inputs are fetched when wanted, every libbitcoin connection is asked its index, and the query is done |
| TxUpdater.TxStore | abcd/bitcoin/TxUpdater.cpp:483-491 | storing adds exactly that txid, a new row unconfirmed at height 0, and keeps every other row |
| TxUpdater.TxFailed | abcd/bitcoin/TxUpdater.cpp:468-477 | a get_tx error asks the same server's mempool and counts the query done; the store is untouched |
| TxUpdater.Settle | abcd/bitcoin/TxUpdater.cpp:417-433 | one reply lowers exactly one counter of connection k by one |
| TxUpdater.IndexDone | abcd/bitcoin/TxUpdater.cpp:597-606 | an index reply confirms only that row at the reported size_t height converted to long long (its bit pattern kept; below 2^63 the height itself), and never affects quietness |
| TxUpdater.IndexFailed | abcd/bitcoin/TxUpdater.cpp:588-595 | an index error makes only that row unconfirmed at height 0 |
| TxUpdater.HeightDone | abcd/bitcoin/TxUpdater.cpp:422-436 | the size_t reply is stored (as a long long) and reported iff strictly above the stored height read as unsigned, and then every unconfirmed row is asked on every libbitcoin connection; otherwise only the count changes |
| TxUpdater.HeightDoneSigned | abcd/bitcoin/TxUpdater.cpp:424-426 | for stored heights and replies below 2^63 the test is the plain comparison and the reply is stored as itself; a stored -1 is never replaced |
| TxUpdater.HeightFailed | abcd/bitcoin/TxUpdater.cpp:411-420 | a height error marks the server failed and lowers its height count |
| TxUpdater.FirstStratum | abcd/bitcoin/TxUpdater.cpp:616-624 | the first connection that is stratum, or none |
| TxUpdater.SendTx | abcd/bitcoin/TxUpdater.cpp:613-628 | the transaction goes to exactly the first stratum connection; with none the status is "No stratum connections" at once and nothing changes |
| TxUpdater.GetTx | abcd/bitcoin/TxUpdater.cpp:451-507 | get_tx adds one to the query counter of exactly the connections to the given server entry, changes nothing else in the pool, and logs one request to each of them in pool order |
| TxUpdater.GetTxMem | abcd/bitcoin/TxUpdater.cpp:509-564 | get_tx_mem adds one to the query counter of exactly the connections to the given server entry, changes nothing else in the pool, and logs one mempool request to each of them in pool order |
| TxUpdater.GetIndex | abcd/bitcoin/TxUpdater.cpp:566-611 | get_index adds one to the index counter of exactly the libbitcoin connections, changes nothing else in the pool, and logs one index request to each of them in pool order |
| TxUpdater.GetTxFetches | abcd/bitcoin/TxUpdater.cpp:455-466 | when a connection to the preferred server entry exists, the transaction query is sent to it |
| TxUpdater.GetIndexAsks | abcd/bitcoin/TxUpdater.cpp:569-587 | get_index asks every libbitcoin connection, whichever server was preferred, and skips stratum ones |
| TxUpdater.QueryAddressBound | abcd/bitcoin/TxUpdater.cpp:645-667 | query_address raises only the query counts and never lowers one; of the counts an int holds, one from 0 to MAX_QUERIES ends at most at MAX_QUERIES + 1, and one above MAX_QUERIES or negative stays put |
| Crypto.CryptoCompare | abcd/crypto/Crypto.cpp:52-60 | the constant-time comparison is true exactly when the first n bytes of the two buffers are equal |
| Crypto.AesKey | abcd/crypto/Crypto.cpp:531-537 | the AES key is the first 32 bytes of the given key, or the whole key followed by zero bytes when it is shorter |
| Crypto.AesIv | abcd/crypto/Crypto.cpp:539-546 | the AES IV is the first 16 bytes of the given IV, or the whole IV followed by zero bytes when it is shorter |
| Crypto.AesKeyIgnoresTail | abcd/crypto/Crypto.cpp:531-537 | bytes past the 32nd of a key do not change the AES key |
| Crypto.FromBE4OfBE4 | abcd/crypto/Crypto.cpp:358-370 | reading back the four big-endian length bytes gives the length modulo 2^32 |
| Crypto.BE4OfFromBE4 | abcd/crypto/Crypto.cpp:456-463 | writing back a length read from four bytes reproduces those bytes |
| Crypto.Pack | abcd/crypto/Crypto.cpp:338-346 | the plaintext package is 1 + h + 4 + data + 1 + f + 32 bytes long |
| Crypto.PackLayout | abcd/crypto/Crypto.cpp:352-386 | the package holds the header count, the header, the big-endian data length, the data, the footer count, the footer, then the SHA-256 of everything before it |
| Crypto.EncryptPackage | abcd/crypto/Crypto.cpp:293-394 | the IV is returned and, for a cipher whose decryption inverts its encryption, the ciphertext decrypts to the laid-out package |
| Crypto.Unpack | abcd/crypto/Crypto.cpp:446-499 | every failure is DecryptFailure; success means each of the three length checks and the checksum held and the result is the data section named by the length field |
| Crypto.UnpackPack | abcd/crypto/Crypto.cpp:293-499 | unpacking a package built from data and a footer that are not both empty gives back the data |
| Crypto.UnpackLaidOut | abcd/crypto/Crypto.cpp:446-499 | any buffer laid out as a package with a matching checksum unpacks to its data section |
| Crypto.SmallestPackRejected | abcd/crypto/Crypto.cpp:449-453 | a package of empty data with an empty footer is one byte shorter than the first size check demands and is rejected |
| Crypto.DecryptPackage | abcd/crypto/Crypto.cpp:409-503 | an AES failure is reported as DecryptFailure; otherwise the result is that of unpacking the plaintext with the corrected unpack (Crypto.Unpack), not the 32-bit size checks as written |
| Crypto.DecryptEncryptPackage | abcd/crypto/Crypto.cpp:293-503 | with the corrected unpack, decrypting an encrypted package with the same key and IV gives back the data |
| Crypto.UnpackAsWritten | abcd/crypto/Crypto.cpp:446-499 | the package check with 32-bit unsigned size sums fails only with DecryptFailure |
| Crypto.EmptyRejectedAsWritten | abcd/crypto/Crypto.cpp:447-453 | an empty plaintext is rejected by the first size check |
| Crypto.LengthWrapAcceptedAsWritten | abcd/crypto/Crypto.cpp:466-477 | whatever byte lies past the buffer where the footer count is read, a plaintext of 39 bytes plus that byte's value, with length field 0xffffffff and a valid checksum, passes the wrapped size checks and yields 2^32 - 1 bytes of data; the unwrapped checks reject it |
| Crypto.EncryptEnvelope | abcd/crypto/Crypto.cpp:72-119 | an out-of-range type fails with UnknownCryptoType, another known type with InvalidCryptoType; AES-256 succeeds and records the type and the IV |
| Crypto.TypeOf | abcd/crypto/Crypto.cpp:202 | the type is read through the int cast: a real reads as 0, an int-sized integer as itself, and any other integer as its low 32 bits read signed |
| Crypto.DecryptEnvelope | abcd/crypto/Crypto.cpp:181-226 | a missing or non-numeric type, IV or data fails with DecryptError; a type whose int cast is not AES-256 fails with UnknownCryptoType; otherwise the result is that of decrypting the package with the corrected unpack |
| Crypto.DecryptEnvelopeCastTypes | abcd/crypto/Crypto.cpp:198-204 | a type of 2^32 and a real type are both decrypted as AES-256, while a type of 1 is UnknownCryptoType |
| Crypto.DecryptEnvelopeOfEncrypt | abcd/crypto/Crypto.cpp:72-226 | with the corrected unpack, decrypting the JSON envelope produced by the encryption gives back the data |
| Scrypt.Shifts | abcd/crypto/Scrypt.cpp:77-78 | the extra doublings are the largest k with (k + 1) hashes of the measured time fitting the fast threshold, and the unsigned decrement does not wrap |
| Scrypt.MediumR | abcd/crypto/Scrypt.cpp:63-70 | a medium device's r lies in 1..8 and is the largest r for which r hashes of the measured time fit the target |
| Scrypt.FastSnrp | abcd/crypto/Scrypt.cpp:71-98 | a fast device takes r = 8 and n = 2^shift while the shift is at most 17; beyond that n stays 2^17 and p grows by the excess shift |
| Scrypt.Tune | abcd/crypto/Scrypt.cpp:32-103 | a slow device, or a non-positive time, keeps the defaults (16384, 1, 1); a medium one keeps n and p and scales r; a fast one is FastSnrp; always 1 <= r <= 8, p >= 1 and 16384 <= n <= 2^17 |
| Scrypt.FastCostMonotone | abcd/crypto/Scrypt.cpp:80-98 | more doublings never lower the n * r * p cost of a fast device |
| Scrypt.TuneMonotone | abcd/crypto/Scrypt.cpp:57-98 | a device that hashed faster never gets cheaper parameters than a slower one |
| Scrypt.UsernameSnrp | abcd/crypto/Scrypt.cpp:119-148 | the username parameters are the server's n, r, p with a fixed 32-byte salt |
| Scrypt.UsernameSaltsDiffer | abcd/crypto/Scrypt.cpp:122-147 | the main-network and test-network username salts differ |
| TxMetaDb.Unpack | abcd/wallet/TxMetaDb.cpp:67-89 | a missing ntxid fails with a JSON error; a details-decoding failure is passed on; success carries the file's ntxid and the decoded details |
| TxMetaDb.Pack | abcd/wallet/TxMetaDb.cpp:46-65 | packing into an existing file keeps the keys the store does not know |
| TxMetaDb.UnpackPack | abcd/wallet/TxMetaDb.cpp:46-89 | unpacking what was packed gives back the transaction, whatever the file held before |
| TxMetaDb.Path | abcd/wallet/TxMetaDb.cpp:190-195 | the path lies in the store's directory and ends in -int.json exactly for an internal transaction, -ext.json otherwise |
| TxMetaDb.PathDistinct | abcd/wallet/TxMetaDb.cpp:190-195 | with an injective file-name hash, two transactions share a path only when they share ntxid and internal flag |
| TxMetaDb.Load | abcd/wallet/TxMetaDb.cpp:97-146 | after loading, every file entry belongs to a stored transaction and unpacks to it |
| TxMetaDb.First | abcd/wallet/TxMetaDb.cpp:124-139 | the first candidate with an ntxid, or none when no candidate has it |
| TxMetaDb.LastInternal | abcd/wallet/TxMetaDb.cpp:128-137 | the last internal candidate with an ntxid, or none when none is internal |
| TxMetaDb.LoadKeepsWinner | abcd/wallet/TxMetaDb.cpp:110-141 | load keeps one transaction for each ntxid some readable file carries: the last internal copy, else the first copy read |
| TxMetaDb.LoadDeletesDuplicates | abcd/wallet/TxMetaDb.cpp:124-132 | one file is deleted for every readable file beyond the first of its ntxid |
| TxMetaDb.WinnerStep | abcd/wallet/TxMetaDb.cpp:134-139 | one more readable file keeps the winner of every ntxid |
| TxMetaDb.Get | abcd/wallet/TxMetaDb.cpp:177-188 | get succeeds exactly for a stored ntxid and returns its transaction; otherwise NoTransaction |
| TxMetaDb.List | abcd/wallet/TxMetaDb.cpp:164-175 | the list holds every stored ntxid exactly once |
| TxMetaDb.Save | abcd/wallet/TxMetaDb.cpp:148-162 | the transaction is stored in memory even when the directory or the file write fails; a directory failure leaves the files alone; an existing file's JSON is packed in place, since the wrapper shares it, so it holds the new transaction even when the write fails; a new file is recorded packed on success and as an empty entry on failure; other files are untouched |
| TxMetaDb.SaveThenGet | abcd/wallet/TxMetaDb.cpp:148-188 | after a successful save, get returns the saved transaction and the store stays coherent |
| General.Chosen | abcd/General.cpp:209-218 | each level is the nonzero estimate, else the server value, else the built-in default (43210, 32110, 21098, 16001, 11002) |
| General.FixUp | abcd/General.cpp:221-229 | the fixed table is consistent, no level rises, and the fastest level is unchanged |
| General.FixUpIsPrefixMin | abcd/General.cpp:221-229 | each fixed level is the least of that level and every faster one |
| General.FixUpKeepsConsistent | abcd/General.cpp:221-229 | a consistent table passes the fix-up unchanged |
| General.FixUpIdempotent | abcd/General.cpp:221-229 | fixing up twice is fixing up once |
| General.FeeInfo | abcd/General.cpp:201-232 | the fee table has five consistent levels, none above the chosen one, the first equal to it |
| General.DefaultFeeInfo | abcd/General.cpp:54-62 | with no fee files the table is the built-in defaults |
| General.Strings | abcd/General.cpp:284-294 | the kept entries are exactly the string entries of the array |
| General.StringsAppend | abcd/General.cpp:284-294 | the string entries keep their array order |
| General.StringsOfStrings | abcd/General.cpp:284-294 | an array of strings only is kept entire |
| General.BitcoinServers | abcd/General.cpp:266-305 | testnet gives its one server; mainnet gives the configured strings, or the four fallbacks when there are none; never empty |
| General.FallbackWhenNoString | abcd/General.cpp:296-303 | the fallbacks are returned exactly when the array holds no string, or holds exactly the fallbacks |
| General.SyncServers | abcd/General.cpp:307-325 | the configured strings, or the one default sync server when there are none |
| Command.Register | cli/Command.cpp:23-32 | registration creates the map when absent, warns exactly when the name is taken, stores the command under its name and leaves other names alone |
| Command.Find | cli/Command.cpp:34-45 | find returns the command stored under the name, or nothing before the first registration or for an unknown name |
| Command.RegisterAll | cli/Command.cpp:23-32 | one warning flag per registration; the map exists exactly when something was registered |
| Command.FindLastRegistered | cli/Command.cpp:23-45 | after all registrations, find returns the command registered last under the name |
| Command.WarningsCountDuplicates | cli/Command.cpp:23-32 | a registration warns exactly when its name was registered earlier; the map holds one command per distinct name and the warnings count the rest |
| Command.Options | cli/Command.cpp:62-72 | each global option is listed exactly when the command's level is at least context, lobby, login or wallet respectively |
| Command.OptionsGrow | cli/Command.cpp:62-72 | a higher level's options extend a lower level's |
| Command.HelpString | cli/Command.cpp:57-75 | the usage line starts with "usage: abc-cli" and ends with a space, the command's name and its help |
| Command.OptionsOrder | cli/Command.cpp:62-72 | the global options always appear in the order -d, -u, -p, -w: the listed ones are a prefix of that order |
| Command.OptionsText | cli/Command.cpp:60-72 | the options text is nothing without a level, "-d" alone at context, "-d -u" at lobby, "-d -u -p" at login and account, and all four at wallet |
| Command.HelpStringLevels | cli/Command.cpp:57-75 | the usage line is exactly "usage: abc-cli", then the level's options text, then a space, the command's name and its help |
| Command.RegisteredNames | cli/Command.cpp:23-32 | the registry's names are exactly the names registered so far |
| Command.WarnsOnRepeat | cli/Command.cpp:28-29 | each registration warns exactly when its name was registered before it |
| Command.WarningsCount | cli/Command.cpp:28-31 | the warnings plus the distinct names make up all registrations |

## Left out

- Sockets, the libbitcoin and stratum codecs, and their asynchronous callbacks are not modelled. Each reply is an explicit event function (HistoryDone, TxDone, IndexDone, HeightDone and their failures), and each socket tick's outcome is an input.
- The address cache (AddressCache::checkBegin, checkEnd, nextWakeup) is not modelled. Its answers to wakeup are an input sequence of due addresses.
- `bc::client::min_sleep` is not visible. MinSleep assumes that zero means "no deadline" and that otherwise the shorter delay wins.
- `rand()` and `srand(time)` in connect and in the package encryption are not modelled. Their outcomes are inputs: choices, header and footer bytes, and the IV.
- The clock is not modelled. `time(nullptr)` and the scrypt benchmark time are parameters.
- The ALL_SERVERS value of get_tx, get_tx_mem and query_address is not modelled. Every caller in TxUpdater.cpp passes a real server index, and get_index ignores its index.
- The headers (TxUpdater.hpp, TxDatabase.hpp, Crypto.hpp, Command.hpp, TxMetaDb.hpp, FileIO.hpp) are not part of this model. The InitLevel order none < context < lobby < login < account < wallet is taken from the enumeration's use in helpString.
- Transaction hashing, `makeNtxid`, `bc::extract`, address parsing and private-key lookup are not modelled. They are abstract functions passed in.
- libbitcoin's `select_outputs`, `outputsFinalize` and `generalAirbitzFeeSpendable` are not modelled. They are abstract functions with the contracts the callers rely on.
- libbitcoin's satoshi_save and satoshi_load are not part of this model. Wire models them as the standard Bitcoin transaction serialization.
- SHA-256, AES-256-CBC, scrypt hashing, HMAC-based file names, base16 and base64 are not modelled. They are parameters, and base16 or base64 decode failures are not modelled.
- File I/O is not modelled. This covers reading and writing the cache and metadata files, `fileEnsureDir`, `fileDelete` and `opendir`. The directory listing and each file's load result are inputs, and deletions are returned as a list of paths.
- Mutexes and locking are not modelled. The model is single-threaded.
- TxDatabase::dump and CommandRegistry::print are not modelled. They only print.
- TxDatabase::txidExists and last_height are not modelled as separate members. They are the map's membership test and a field read, which the model uses directly.
- generalAirbitzFeeInfo is not modelled, nor are the fee files' age checks or downloads. The fee-estimate download and averaging is left out too.
- `targetFeePercentage` is a double, so General.FeeInfo does not carry it.
- spendSignTx and spendBroadcastTx are not modelled. The metadata side of spendSaveTx (txSendSave) is left out as well.
- Spend.SaveTx: requires the raw bytes to decode, because satoshi_load's behaviour on malformed input is not visible.
- Inputs.MinerFee: requires a non-empty fee schedule, because the source reads the last row of the schedule unconditionally.
- Inputs.PickOptimal: uses the corrected Inputs.MinerFee of the first Findings row, so a size fee below 10 gives the unrounded clamped fee instead of the modulo by zero. Its sums (outputs plus fee, what a choice sources) are unbounded rather than uint64.
- Inputs.PickMaximum: uses the corrected Inputs.MinerFee of the first Findings row. The uint64 wrap of its totals is modelled.
- Spend.MakeTx: picks through Inputs.PickOptimal, so it inherits the corrected miner fee.
- Spend.CalculateFees: reports the corrected miner fee of Inputs.PickOptimal.
- Spend.CalculateMax: reads the maximum off Inputs.PickMaximum, so it inherits the corrected miner fee.
- TxUpdater.ConnectStep: tests for room with the corrected TxUpdater.RoomFor of the third Findings row, not the size_t comparison as written (TxUpdater.RoomForAsWritten). A round as written dials the leading kind, once the other kind's minimum is exceeded, only when `rand() & 8` is set; this is not modelled.
- TxUpdater.ConnectLoop: built on ConnectStep, so it promises the corrected room test only.
- TxUpdater.Connect: built on ConnectLoop, so it promises the corrected room test only.
- TxUpdater.Wakeup: reconnects through Connect, so it promises the corrected room test only.
- Connection counters: `queued_queries_` and its siblings are ints in the source and unbounded integers here. AsUnsigned models the unsigned reading of the comparison with `max_queries` for every value an int can hold.
- Crypto.UnpackAsWritten: states only that every failure is DecryptFailure. What it accepts is shown by LengthWrapAcceptedAsWritten and EmptyRejectedAsWritten. The corrected Crypto.Unpack carries the full contract.
- Crypto.DecryptPackage: unpacks with the corrected Crypto.Unpack of the fourth Findings row, not the 32-bit size checks as written (Crypto.UnpackAsWritten). A plaintext such as the one of LengthWrapAcceptedAsWritten, which the source accepts, is rejected here.
- Crypto.DecryptEncryptPackage: a round trip of the corrected Crypto.Unpack only. As written, data within a few hundred bytes of 2^32 wraps the checksum length, and the source would checksum the wrong prefix; this is not promised.
- Crypto.DecryptEnvelope: decrypts through Crypto.DecryptPackage, so it inherits the corrected Crypto.Unpack. The int cast of the type is modelled as two's-complement truncation to 32 bits, which is what the conversion does on the platforms the library targets.
- Crypto.DecryptEnvelopeOfEncrypt: a round trip of the corrected Crypto.Unpack only, as for Crypto.DecryptEncryptPackage.
- Crypto.SmallestPackRejected records an asymmetry rather than correcting it. The first size check of the decoder demands one byte more than the smallest package the encoder can build, which has empty data and an empty footer. Every round-trip lemma therefore requires that data and footer are not both empty.
- Allocation failures (ABC_BUF_NEW, json_pack) and null-argument checks are not modelled. They cannot arise in the model.

## Findings

| source | as written | input that shows it | evidently intended | confidence | as-written member | corrected member |
|---|---|---|---|---|---|---|
| abcd/spend/Inputs.cpp:182-187 | the fee is rounded down to a multiple of `sizeFee / 10`, which is 0 when the size fee is below 10, so `amountFee % incFee` divides by zero | a fee schedule with the single row (1000 bytes, 9 satoshi) | skip the rounding when the increment is 0 | not executed | Inputs.MinerFeeDividesByZero | Inputs.MinerFeeBounds |
| abcd/bitcoin/TxDatabase.cpp:386-395 | load tests `row.state` before the record's state is stored in it, so the height slot is read according to whatever the field held | a store with one confirmed row at height 500, saved and loaded while the stray field reads as unconfirmed, comes back at height 0 with timestamp 500 | test the state just read from the record | not executed | TxDatabaseFormat.AsWrittenLosesConfirmedHeight | TxDatabaseFormat.LoadOfSerialize |
| abcd/bitcoin/TxUpdater.cpp:138-152 | the shortfall `minSecondary - count` is a signed long compared with the size_t room `NUM_CONNECT_SERVERS - connections_.size()`, so an exceeded minimum (negative shortfall) becomes a huge unsigned value and never leaves room; only `rand() & 8` then dials | two libbitcoin connections (minimum 1) and one free slot | a negative shortfall leaves room whenever a slot is free | not executed | TxUpdater.SurplusRejectedAsWritten | TxUpdater.ConnectStepTriesPrimary |
| abcd/crypto/Crypto.cpp:466-477 | the size sums are 32-bit unsigned, so a length field near 2^32 wraps them and the checks pass on a short plaintext; the footer count is then read past the buffer | header count 0, length 0xffffffff, then f zero bytes, the checksum of those 5 + f bytes and two more bytes, where f is the byte the decoder reads past the buffer as the footer count | compare the sizes without wrap-around | not executed | Crypto.LengthWrapAcceptedAsWritten | Crypto.UnpackPack |
