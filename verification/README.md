# Canton middleware: a Dafny model

The middleware moves tokens between Ethereum and a Canton ledger and serves balances
and transfers to its users. This project models the parts of it where state, order
and failure meet, and proves what they guarantee.

- **Deposit pipeline** (`Chunks`, `Poller`, `Client`, `Relayer`, `Recovery`,
  `Offsets`, `Processor`). A poller
  walks the chain in slices and hands deposits and checkpoints to a consumer over a
  bounded channel; the consumer writes the transfer table and an offset from which a
  restarted process resumes. `Poller` and `Relayer` are step machines; `Client` and
  `Processor` are the loops as written, proved to be runs of them. A crash may come at
  any step.
- **Accept worker** (`AcceptWorker`). It pages through pending offers by page number
  while its own accepts shrink the list.
- **Prepared transfers** (`TransferCache`, `TransferService`). A cache with a time to
  live, a capacity and a sweeper, and the prepare/execute protocol over it under any
  interleaving.
- **Codecs** (`Decimals`, `Numerals`, `Erc20`, `Bytes`, `Der`, `Base64Url`, `Jwk`). Decimal strings
  and integer amounts, ECDSA signatures in DER, RSA keys as JSON Web Keys.
- **Cursor paging** (`Whitelist`, `EvmAddress`, `TokenPaging`). Walking a list page by
  page, over a changing table and over a sorted map.
- **Reconciliation** (`Holdings`, `BridgeEvents`). Supply and balances recomputed from
  holdings, and balances replayed from mint and burn events.

`Arith`, `Seqs`, `Text`, `Tokens` and `Wrappers` hold what several of these share. The answers of the
node, the ledger, the databases and the clock are parameters, or arbitrary values of
objects whose ghost fields record what was asked and what failed. `dafny verify
dfyconfig.toml` checks the whole project.

## Where the code and its comments differ

The model follows the code. In these places a comment promises more, and the exact
condition under which it holds is proved.

- The processor's comment says that everything up to a checkpoint has been processed
  when it arrives; an insert that failed has not been. The offset is also persisted
  after each deposit, which may be in the middle of a block
  (`Relayer.SafeIffConsumerSafe`).
- The whitelist's comment says lower-casing keeps a stable total order even with
  inconsistently-cased rows; of two rows that differ only in case the cursor can step
  over one (`Whitelist.CompleteIffCaseUnique`).
- The key marshaller is described as the inverse of the parser; signs are dropped
  (`Jwk.RoundTripIff`).
- The stored supply is described as authoritative; symbols that differ only in case or
  surrounding space share a row, which keeps the one written last
  (`Holdings.StoredSupplyCurrentIff`).
- The full reconciliation is described as resetting all user balances and preventing
  double counting; it resets one token and replays all
  (`BridgeEvents.FullReconciliationExactIff`).
- Replaying the events is described as an authoritative source of balances; a pass goes on
  past an event it failed to store, and if that one should have opened the row of its
  account, the next pass can leave a different balance for good
  (`BridgeEvents.RetriesConvergeIff`).

## Model

| member | source | states |
|---|---|---|
| `Chunks.ChunkRange` | pkg/ethereum/client.go:212-229 | For all uint64 inputs: empty exactly when the range is reversed or the slice size is zero, otherwise a partition of [start, end] into full slices with a shorter last one; no uint64 operation wraps, including at the largest block number. |
| `Chunks.SliceCount` | pkg/ethereum/client.go:216 | A partition has (end - start) / maxRange + 1 slices. |
| `Chunks.CapacityHint` | pkg/ethereum/client.go:216 | The uint64 capacity hint equals the number of slices if and only if the request is not for single-block slices of all 2^64 blocks, where it wraps to zero. |
| `Chunks.EachBlockInOneSlice` | pkg/ethereum/client.go:208-229 | A block lies in some slice if and only if it is in the range, and never in two. |
| `Chunks.SlicesOrdered` | pkg/ethereum/client.go:217-227 | Slices come in ascending block order without overlap. |
| `Chunks.PartitionUnique` | pkg/ethereum/client.go:212-229 | There is only one such partition, so the contract of ChunkRange determines its result. |
| `Poller.LogsComplete` | pkg/ethereum/client.go:318-337 | A deposit is in the logs of a range if and only if it is on the chain in that range. |
| `Poller.LogsOrdered` | pkg/ethereum/client.go:337-358 | Logs come in block order. |
| `Poller.StepKeepsInv` | pkg/ethereum/client.go:242-366 | Every step of the poll loop, failing or not, keeps the invariant: deposits up to the scan position have been accepted, accepted checkpoints increase and come after everything they cover, and nothing beyond one slice past the position has been handed over; the position never moves back. |
| `Poller.PollerSafety` | pkg/ethereum/client.go:242-366 | The invariant holds at the end of every run from any start block. |
| `Poller.NoRedeliveryBelowCheckpoint` | pkg/ethereum/client.go:231-241 | In one run a deposit handed over after an accepted checkpoint lies strictly above it, and at most one slice beyond the scan position. |
| `Poller.PollerProgress` | pkg/ethereum/client.go:286-307 | If no scan fails and every call is accepted, then between ticks the scan has reached exactly the highest head seen, and every deposit up to it has been accepted. |
| `Client.Handler.Deposit` | pkg/ethereum/client.go:242-246 | The call and its answer are recorded, whatever the answer. |
| `Client.Handler.Checkpoint` | pkg/ethereum/client.go:302 | Likewise for a checkpoint. |
| `Client.LogSource.Fails` | pkg/ethereum/client.go:325-365 | A failure of the filter or the iterator is recorded. |
| `Client.Client.CaughtUpWith` | pkg/relayer/engine/engine.go:632-666 | The readiness check: the later of the saved offset and the scan position, plus one, reaches the head, with 64-bit wrap-around; when the scan position is the later, being ready means every deposit below the head has been delivered. |
| `Client.Client.SetLastScannedBlock` | pkg/ethereum/client.go:135-142 | The readiness value only grows, to the larger of the two. |
| `Client.Client.ScanDepositRange` | pkg/ethereum/client.go:317-366 | The machine steps of one slice: all its logs in order, or a prefix followed by one failure. |
| `Client.Client.AdvanceSlice` | pkg/ethereum/client.go:292-307 | currentBlock moves to the slice end exactly when the scan and the checkpoint both succeed; the machine then opens the next slice or ends the tick. |
| `Client.Client.Tick` | pkg/ethereum/client.go:267-308 | One tick is a legal machine run that starts by seeing this head and ends between ticks, with as many failed scans as the node reported. |
| `Client.Client.WatchDepositEvents` | pkg/ethereum/client.go:242-311 | The calls the handler received are the trace of a machine run over exactly the given heads, so they satisfy the invariant; with a fresh client the readiness value is the scan position; and without failures the position is the highest of the start block and the heads read. |
| `Client.FirstSlice` | pkg/ethereum/client.go:292 | The first slice of chunkRange is the one the machine opens on seeing the head. |
| `Client.NextSlice` | pkg/ethereum/client.go:292-307 | The slice after an accepted checkpoint is the next one of chunkRange, and there is none exactly when the head is reached. |
| `Relayer.StepKeepsInv` | pkg/relayer/engine/source.go:112-174 | Whatever the consumer, every step of the pipeline (poll, consume, crash, restart) keeps: each deposit a queued message vouches for, and each up to the offset, is stored, queued ahead, had a failed insert, or lies in a block the offset moved to on a deposit. |
| `Relayer.RunKeepsInv` | pkg/relayer/engine/processor.go:93-129 | The same for whole runs with any number of crashes and restarts. |
| `Relayer.LostOnlyWithReason` | pkg/relayer/engine/processor.go:132-239 | In every run, a deposit at or below the persisted offset that is not stored had a failed insert in that run, or lies in a block the offset moved to on a deposit, another deposit of which is stored. |
| `Relayer.ReachQuiet` | pkg/ethereum/client.go:242-311 | Every block from the configured start on can be reached with everything up to it consumed and nothing beyond it stored. |
| `Relayer.SharedBlockUnsafe` | pkg/relayer/engine/processor.go:132-219 | If the offset is persisted after each deposit and two deposits share a block, some reachable state has the offset at that block and one of the two not stored. |
| `Relayer.FailedInsertUnsafe` | pkg/relayer/engine/processor.go:153-157 | If an insert may fail, some reachable state has the offset at the block of a deposit that is not stored. |
| `Relayer.SafeIffConsumerSafe` | pkg/relayer/engine/processor.go:93-239 | In all reachable states the transfers at or below the persisted offset are exactly the deposits of the chain there, if and only if no two deposits share a block (when the offset is persisted per deposit) and there are no deposits at all (when an insert may fail). |
| `Relayer.RunKeepsGenuine` | pkg/relayer/store/pg.go:29-43 | Whatever the consumer does, every stored transfer is a deposit of the chain above the configured start, under its own id. |
| `Relayer.ResumesFrom` | pkg/relayer/engine/engine.go:360-389 | A restarted process resumes from the later of the stored block and the configured start. |
| `Relayer.ChannelBounded` | pkg/relayer/engine/source.go:112-174 | No run ever queues more than ten messages. |
| `Recovery.StepKeepsInStep` | pkg/relayer/engine/processor.go:93-129 | Every step keeps: behind any queued message for a block lower than a deposit the scan has passed, a message for that deposit is still queued. |
| `Recovery.GoneForGood` | pkg/relayer/engine/engine.go:360-389 | Once the persisted offset is past a deposit that is not stored, and the running process (if any) has scanned past it with no message for it queued, this stays so through every continuation, crash and restart. |
| `Recovery.NotGoneIsStored` | pkg/relayer/engine/engine.go:360-389 | From every other state some continuation stores the deposit. |
| `Recovery.NeverStoredIff` | pkg/relayer/engine/processor.go:93-239 | So, in every reachable state and for every deposit the relayer is to bridge, no continuation ever stores it if and only if it is gone in that sense. |
| `Recovery.RunKeepsFirst` | pkg/relayer/engine/processor.go:132-239 | While inserts do not fail, the first deposit of a block is stored before any other of that block. |
| `Recovery.CanBeLostIff` | pkg/relayer/engine/processor.go:132-239 | A deposit can be lost for good in some run if and only if inserts may fail, or the offset is persisted per deposit and it is not the first deposit of its block. |
| `Recovery.SharedBlockLosesForGood` | pkg/relayer/engine/processor.go:223-239 | With the offset persisted per deposit and two deposits in one block, some run reaches a state from which no continuation ever stores one of the two that is not the first of its block. |
| `Recovery.TwoInOneBlockLoses` | pkg/relayer/engine/processor.go:223-239 | On a concrete chain with two deposits in block 1: a reachable state from which no continuation ever stores the second. |
| `Processor.Processor.PersistOffset` | pkg/relayer/engine/processor.go:223-239 | Writes the offset unless it is empty or was the last one saved, and remembers it even when the write fails. |
| `Processor.Processor.ProcessEvent` | pkg/relayer/engine/processor.go:132-219 | For each answer of the store and the destination, the table and offset of the machine step for that deposit. |
| `Processor.Processor.Receive` | pkg/relayer/engine/processor.go:93-129 | One turn of the loop is one Consume step of the machine. |
| `Processor.Processor.Start` | pkg/relayer/engine/processor.go:93-129 | The loop over the messages that arrive: its turns are those of the machine, and the offset ends as the block of the last turn that writes it. |
| `Offsets.OffsetWritten` | pkg/relayer/engine/processor.go:221-239 | In every run of messages and answers, a turn writes the offset if and only if it gets that far, its block is not 0 and differs from the one the last turn that got that far tried to write, whatever that write answered, and the write succeeds. |
| `Offsets.OffsetAfter` | pkg/relayer/engine/processor.go:221-239 | After any run the offset is the block of the last turn that wrote it, or what it was. |
| `Offsets.SevenTwice` | pkg/relayer/engine/processor.go:229-232 | At two messages of block 7, the first write failing: the second is skipped and the offset stays unset. |
| `AcceptWorker.NoDoubleAttempt` | pkg/custodial/accept_worker.go:116-174 | On a pending list that only shrinks, a cycle attempts no offer twice, although pages shift between fetches. |
| `AcceptWorker.AttemptMembers` | pkg/custodial/accept_worker.go:136-163 | An offer is attempted if and only if its receiver is custodial and some fetch returned it. |
| `AcceptWorker.OnlyCustodialAttempted` | pkg/custodial/accept_worker.go:138-141 | No offer to a non-custodial receiver is attempted. |
| `AcceptWorker.FrozenCoverage` | pkg/custodial/accept_worker.go:116-174 | On an unchanging list a cycle attempts exactly the custodial offers, each once and in order, in max(1, ceil(total / 200)) fetches. |
| `AcceptWorker.LiveCycleConserves` | pkg/custodial/accept_worker.go:116-174 | In a failure-free cycle the custodial offers accepted and those left are, as multisets, the custodial offers there were; the others are left in their order. |
| `AcceptWorker.LiveCycleHalves` | pkg/custodial/accept_worker.go:116-174 | Although its own accepts shift the pages, a failure-free cycle accepts at least half of the pending custodial offers, and at least one if there is one. |
| `AcceptWorker.AttemptsHalf` | pkg/custodial/accept_worker.go:116-174 | Whatever accepts fail, a cycle whose fetches succeed attempts at least half of the custodial offers that were pending: those not attempted are no more than those accepted. |
| `AcceptWorker.DrainShrinks` | pkg/custodial/accept_worker.go:75-88 | After n failure-free cycles at most 1 / 2^n of the custodial offers are left. |
| `AcceptWorker.DrainCompletes` | pkg/custodial/accept_worker.go:75-88 | Once 2^n exceeds the custodial offers, n cycles leave exactly the non-custodial offers, in order. |
| `AcceptWorker.Indexer.GetPendingTransfers` | pkg/indexer/store/pg.go:394-422 | Returns the requested page and the total, or records a failed fetch. |
| `AcceptWorker.PageHolds` | pkg/custodial/accept_worker.go:18-130 | Page n holds the offers from position 200 * (n - 1) on, at most 200 of them. |
| `AcceptWorker.Indexer.AcceptTransferInstruction` | pkg/custodial/accept_worker.go:143-156 | Records the submission; a success removes the offer from the pending list. |
| `AcceptWorker.AcceptOffer` | pkg/custodial/accept_worker.go:137-163 | One offer is submitted exactly when its receiver is custodial; the rest of the list stays in place. |
| `AcceptWorker.AcceptPage` | pkg/custodial/accept_worker.go:136-163 | Exactly the custodial offers of the page are submitted, in order; with no failure the list is left with the others in their places. |
| `AcceptWorker.PageThrough` | pkg/custodial/accept_worker.go:116-174 | A loop that completes has ended at the first page reaching the total and has attempted at least half of the custodial offers; with no failed accept it is the cycle the lemmas above speak of; it completes exactly when no fetch failed. |
| `AcceptWorker.AcceptPending` | pkg/custodial/accept_worker.go:91-175 | Nothing happens without users; otherwise the offers submitted are those the fetches determine, all different, counted as accepted or failed, and the pending list only shrinks. |
| `TransferCache.PreparedTransferCache.Put` | pkg/transfer/cache.go:41-52 | The new contents and the answer, for a full and a free cache. |
| `TransferCache.PutStamps` | pkg/transfer/cache.go:41-52 | A put is refused exactly at a positive capacity; otherwise the id, party and transaction are kept and the expiry is now plus the time to live. |
| `TransferCache.PreparedTransferCache.GetAndDelete` | pkg/transfer/cache.go:56-71 | The entry is removed whether or not it has expired, and only an unexpired one is returned. |
| `TransferCache.PreparedTransferCache.Cleanup` | pkg/transfer/cache.go:89-99 | Exactly the unexpired entries remain, whatever order the map is iterated in. |
| `TransferCache.SingleUse` | pkg/transfer/cache.go:41-99 | In every run, for every id, successful takes plus the entry still cached never exceed successful puts. |
| `TransferCache.CapacityKept` | pkg/transfer/cache.go:45-47 | In every run a positive capacity is never exceeded. |
| `TransferCache.TakenIsLastPut` | pkg/transfer/cache.go:56-71 | A successful take returns what the last successful put of that id stored, within its time to live, with no take in between. |
| `TransferCache.SweptSimulates` | pkg/transfer/cache.go:75-99 | With unlimited capacity, the swept cache is the unswept one without entries that have expired. |
| `TransferCache.SweepFreesCapacity` | pkg/transfer/cache.go:45-47 | For every positive capacity there is a run in which a put succeeds only because of a sweep. |
| `TransferCache.SweeperInvisibleIffUnlimited` | pkg/transfer/cache.go:75-99 | Sweeps never change any result, up to reporting an expired entry as missing, if and only if the capacity is unlimited. |
| `TransferService.HexDecodesIff` | pkg/transfer/service.go:418-421 | A signature decodes if and only if its length is even and every character is a hex digit; byte i comes from characters 2i and 2i + 1. |
| `TransferService.TransferService.Prepare` | pkg/transfer/service.go:258-267 | The common end of the three prepare endpoints: a ledger error leaves the cache alone, otherwise the answer carries the expiry the cache has set. |
| `TransferService.TransferService.Execute` | pkg/transfer/service.go:395-439 | The cache, the ledger and the answer after every combination of lookup, fingerprint, cache and signature outcome; the entry stays consumed when the signature is malformed or the ledger refuses. |
| `TransferService.TransferService.ExecuteAccept` | pkg/transfer/service.go:662-664 | The same. |
| `TransferService.CacheTouchedIff` | pkg/transfer/service.go:395-439 | Execute touches the cache if and only if a known user presents their own fingerprint for a cached id, and then removes that entry and no other. |
| `TransferService.ClaimSucceedsIff` | pkg/transfer/service.go:395-427 | Something is submitted if and only if the user is known and presents their own fingerprint, the signature is hex, and the id is cached and not expired; what is submitted is that entry with those bytes. |
| `TransferService.PrefixIgnored` | pkg/transfer/service.go:418-421 | For every even number of hex digits, the request has the same effect with 0x in front of them, and each submitted byte is sixteen times the value of its first digit plus that of its second. |
| `TransferService.RefusedIff` | pkg/transfer/service.go:395-421 | Each error by its exact condition: the lookup fails, the fingerprint differs, the id is not cached, the entry has expired, or the signature is not hex with an optional 0x. |
| `TransferService.SignedInTime` | pkg/transfer/service.go:395-421 | At an entry cached until 100: signature 0x30 submits the byte 48 at time 50, and is too late at 101. |
| `TransferService.ExecuteSteps` | pkg/transfer/service.go:395-439 | A claim and the submission of what was claimed do together what Execute does. |
| `TransferService.SubmitsOwnIff` | pkg/transfer/service.go:395-427 | The party of the entry is not compared with that of the sender: whatever a user requests is submitted for their own party only, if and only if nothing prepared for another party is cached. |
| `TransferService.EveryPrepareAccountedFor` | pkg/transfer/service.go:395-439 | In every interleaving of requests and sweeps each successful prepare is cached, in flight, submitted or discarded, exactly once; an id is never submitted more often than prepared, and only entries claimed before their expiry are. |
| `Decimals.PrintNatValue` | pkg/token/erc20.go:109-112 | Reading printed digits gives back the number. |
| `Decimals.PointedParses` | pkg/token/erc20.go:100-112 | Digits with a point, trailing zeros cut off, parse to the same coefficient and exponent. |
| `Numerals.ParseIff` | pkg/token/erc20.go:100-104 | A string parses if and only if it is an optional sign and digits with at most one point among them and an optional exponent, all exponents fitting 32 bits, and then as the number it spells. |
| `Numerals.AmountIs` | pkg/token/erc20.go:100-107 | The answer for every string: invalid if it is no numeral, beyond range if the scaled exponent leaves 32 bits, else the value in units rounded toward zero. |
| `Numerals.PrintedCanonical` | pkg/token/erc20.go:109-112 | An amount is printed as a minus sign if negative, digits without a superfluous leading zero, and a fraction of at most `decimals` digits that does not end in zero. |
| `Decimals.RoundTrip` | pkg/token/erc20.go:100-112 | For every integer amount and every uint8 decimals, printing and parsing back is the identity. |
| `Decimals.PrintedValue` | pkg/token/erc20.go:109-112 | What is printed denotes amount / 10^decimals. |
| `Decimals.RescaleTruncates` | pkg/token/erc20.go:106 | The integer conversion is the value rounded toward zero. |
| `Decimals.UnitsOfDecimal` | pkg/token/erc20.go:100-107 | The integer amount is the value times 10^decimals rounded toward zero. |
| `Decimals.Truncation` | pkg/token/erc20.go:100-112 | Parsing any accepted string and printing it again denotes the input rounded toward zero to `decimals` places, off by less than one unit and never of the other sign. |
| `Erc20.ReportedExact` | pkg/token/erc20.go:53-86 | A readable string is reported as its value times 10^configured rounded toward zero when the configured decimals fit a uint8, and as its value rounded toward zero otherwise. |
| `Erc20.ReportedZero` | pkg/token/erc20.go:64-86 | A failed lookup and a string that is not a numeral are reported as zero. |
| `Erc20.FiveTokens` | pkg/token/erc20.go:53-86 | At the string 5: 5 * 10^18 with 18 decimals, 5 with 256. |
| `Erc20.RoundedSum` | pkg/token/erc20.go:76-86 | Rounding n balances down one by one loses at most n - 1 units against rounding their sum down. |
| `Erc20.ViewBound` | pkg/token/erc20.go:64-86 | If n balances add up to the supply, the reported balances add up to at most the reported supply and fall short of it by at most n - 1 units. |
| `Erc20.TransferAmountExact` | pkg/token/erc20.go:88-90 | The amount of a transfer is printed so that reading it back gives exactly that amount. |
| `Der.EncodeSignature` | pkg/keys/canton_keys.go:236-243 | An encoded signature takes at most 72 bytes. |
| `Der.EncodedOctets` | pkg/keys/canton_keys.go:236-243 | The octets: 0x30 and the length, then for each integer 0x02, its length and its minimal big-endian octets with the sign bit clear. |
| `Der.LongForm` | pkg/keys/canton_keys.go:301-305 | Lengths from 128 on are 0x80 plus a count and that many minimal octets. |
| `Der.HalfOfOrder` | pkg/keys/canton_keys.go:313-317 | The bound on S is half the published order of secp256k1, rounded down. |
| `Der.VerdictIs` | pkg/keys/canton_keys.go:301-317 | Each refusal by its exact condition, with the order of the checks. |
| `Der.OneOne` | pkg/keys/canton_keys.go:236-326 | The octets of the signature (1, 1), which decode to it. |
| `Der.FillRaw` | pkg/keys/canton_keys.go:321-326 | The two copies give the two integers, each left-padded to 32 bytes. |
| `Der.RoundTrip` | pkg/keys/canton_keys.go:236-326 | Encoding any raw signature with 0 < r and 0 < s <= N / 2 and decoding it gives back the same 64 bytes, with no trailing bytes. |
| `Der.ParseLengthIff` | pkg/keys/canton_keys.go:301-305 | A length is read from exactly one form, its minimal length octets, and only below 2^31. |
| `Der.ParseElementIff` | pkg/keys/canton_keys.go:301-305 | A tagged element is read from exactly one form. |
| `Der.UnmarshalCanonical` | pkg/keys/canton_keys.go:301-305 | Whatever unmarshals to two positive integers is their encoding, up to octets that follow them inside the SEQUENCE and after it. |
| `Der.UnmarshalWithExtra` | pkg/keys/canton_keys.go:301-305 | The encoding of any two integers with any octets behind them inside the SEQUENCE unmarshals to them. |
| `Der.DecodesIff` | pkg/keys/canton_keys.go:301-326 | What is accepted: a DER string decodes to a raw signature if and only if 0 < r, 0 < s <= N / 2 and the string is their encoding, possibly with further octets behind the two integers inside the SEQUENCE. |
| `Der.CanonicalIff` | pkg/keys/canton_keys.go:236-326 | Among strings with no such octets, the one signing produces is the only one that decodes to a given raw signature. |
| `Der.OutOfRangeIff` | pkg/keys/canton_keys.go:321-326 | The slice the first integer is copied to does not exist if and only if the string is otherwise acceptable and r >= 2^256. |
| `Der.OutOfRangeReached` | pkg/keys/canton_keys.go:321-326 | Every such pair, r = 2^256 among them, has an encoding that gets there. |
| `Der.RawIffInRange` | pkg/keys/canton_keys.go:301-326 | A parsed string yields a raw signature if and only if nothing follows it, 0 < r < 2^256 and 0 < s <= N / 2. |
| `Base64Url.RoundTrip` | pkg/auth/jwt/jwks.go:36-54 | Decoding undoes encoding, for every byte string. |
| `Base64Url.IndexIs` | pkg/auth/jwt/jwks.go:36-54 | A character is decoded if and only if it is in the base64url table, as its position there. |
| `Base64Url.EncodedGroup` | pkg/auth/jwt/jwks.go:36-40 | Each three bytes become the four base-64 digits of their 24 bits, most significant first; a shorter last group only as many as it needs, zero bits filling up. |
| `Base64Url.LineBreaksIgnored` | pkg/auth/jwt/jwks.go:42-54 | Line breaks anywhere in the text change nothing. |
| `Jwk.ParsedMarshal` | pkg/auth/jwt/jwks.go:30-58 | What parsing makes of a marshalled key, for every modulus and exponent. |
| `Jwk.MarshalMembers` | pkg/auth/jwt/jwks.go:30-40 | The members of the entry: the key id, RSA, RS256, sig, and the two encoded numbers. |
| `Jwk.RoundTripIff` | pkg/auth/jwt/jwks.go:30-58 | Parsing the marshalled members gives back the key if and only if the modulus is not negative and the exponent is not negative or is the least 64-bit integer. |
| `Jwk.MarshalInjective` | pkg/auth/jwt/jwks.go:30-40 | Different keys with non-negative modulus and exponent get different members. |
| `Whitelist.Store.AddToWhitelist` | pkg/userstore/pg.go:133-154 | An upsert on the trimmed address as given; a blank address is refused and a blank note stored as none. |
| `Whitelist.AddedKeepsNote` | pkg/userstore/pg.go:133-154 | The row keeps the note it was last added with, or none if that was blank, and no other row changes. |
| `Whitelist.AddedWhitelists` | pkg/userstore/pg.go:122-154 | After adding an address, exactly its spellings in any letter case are whitelisted besides those before. |
| `Whitelist.RemovedBlacklists` | pkg/userstore/pg.go:122-172 | After removing an address, exactly its spellings in any letter case are whitelisted no more. |
| `Whitelist.AnyCasingAdmits` | pkg/userstore/pg.go:122-172 | Any two casings of one address admit each other, and removing one removes the other. |
| `Whitelist.AddKeepsCaseUniqueIff` | pkg/userstore/pg.go:133-154 | Adding keeps the rows unique up to case if and only if no other spelling of the address is stored. |
| `Whitelist.Service.IsWhitelisted` | pkg/user/whitelist/whitelist.go:89-96 | The gate lets an address through exactly when the check is switched off or some spelling of it is stored. |
| `Whitelist.Service.Add` | pkg/user/whitelist/whitelist.go:98-110 | A valid address is stored in checksummed form; afterwards exactly its spellings pass besides those before. |
| `Whitelist.Service.Remove` | pkg/user/whitelist/whitelist.go:112-127 | Afterwards exactly its spellings pass no more; it fails, and changes nothing, exactly when the address is invalid or was not whitelisted. |
| `Whitelist.Store.ListWhitelist` | pkg/userstore/pg.go:180-197 | The first rows after the cursor in lower-case order, with their notes. |
| `Whitelist.BeforeIff` | pkg/userstore/pg.go:180-197 | Rows come in ascending order of their lower-case form, character by character. |
| `Whitelist.Clamp` | pkg/user/whitelist/whitelist.go:136-141 | The page size is always between 1 and 200, and the requested one when that is in range. |
| `Whitelist.Store.List` | pkg/user/whitelist/whitelist.go:135-163 | The page for the clamped limit; there is more exactly when some eligible row is not on it, and then the cursor is the last address of the page. |
| `Whitelist.CutPage` | pkg/user/whitelist/whitelist.go:143-151 | The first `limit` rows of a page of limit + 1 are the page of that limit. |
| `Whitelist.ReturnedOrdered` | pkg/user/whitelist/whitelist.go:135-163 | Following the cursor while rows come and go never returns an address twice nor out of order. |
| `Whitelist.WalkReturnsOnce` | pkg/user/whitelist/whitelist.go:135-163 | A complete walk returns every entry present throughout under an address no other row shares exactly once, whatever else is added or removed meanwhile. |
| `Whitelist.ReturnedIncreases` | pkg/user/whitelist/whitelist.go:135-163 | If no table has two rows that differ only in case, the addresses returned strictly increase. |
| `Whitelist.CompleteIffCaseUnique` | pkg/userstore/pg.go:174-197 | Even on an unchanging table, every walk returns every row if and only if no two rows differ only in case. |
| `Whitelist.ServedWalksComplete` | pkg/user/whitelist/whitelist.go:98-127 | Any requests through the service, which checksums addresses first, leave a table on which every walk is complete. |
| `Whitelist.StoreMissesSpelling` | pkg/userstore/pg.go:133-154 | Adding two spellings through the store makes two rows, and some walk misses one. |
| `EvmAddress.HexFolds` | pkg/token/service.go:73-81 | Checksummed renderings of different addresses differ even without regard to case. |
| `EvmAddress.HexIs` | pkg/token/service.go:69-81 | A rendering is 0x and the forty hex digits of the address, each in either case. |
| `EvmAddress.RenderingsCursorSafe` | pkg/token/service.go:77-90 | So addresses are usable as case-insensitive cursors. |
| `TokenPaging.SortedKeys` | pkg/token/service.go:69-75 | The keys in ascending order, each once, whatever order the map yields them in. |
| `TokenPaging.SortedUnique` | pkg/token/service.go:69-75 | There is one such list. |
| `TokenPaging.ListingUnique` | pkg/token/service.go:69-114 | There is one listing of the configured tokens. |
| `TokenPaging.ListingShows` | pkg/token/service.go:92-113 | Every item shows the name, symbol and decimals configured for its address, in strictly ascending order of addresses. |
| `TokenPaging.FindStart` | pkg/token/service.go:77-90 | The position after the address the cursor names without regard to case, or none. |
| `TokenPaging.CursorRejectedIff` | pkg/token/service.go:77-90 | A non-empty cursor is rejected if and only if it names no supported token. |
| `TokenPaging.CursorAnyCase` | pkg/token/service.go:77-90 | A cursor is found alike in any casing of its address. |
| `TokenPaging.BuildPage` | pkg/token/service.go:92-113 | The items of the page, and a cursor and more exactly when the list goes on. |
| `TokenPaging.GetSupportedTokens` | pkg/token/service.go:68-114 | The page of the one listing that follows the cursor, or nothing when the cursor names no token. |
| `TokenPaging.CursorsArePositions` | pkg/token/service.go:77-113 | Following cursors is following positions: each page starts where the one before ended. |
| `TokenPaging.WalkListsAll` | pkg/token/service.go:68-114 | Following the cursors with any limits lists every token exactly once, in order, in at most as many calls as there are tokens. |
| `TokenPaging.WalkExists` | pkg/token/service.go:68-114 | Such a walk exists for whatever limits the caller picks: no cursor handed out is ever rejected. |
| `Holdings.SupplyByToken` | pkg/reconciler/reconciler.go:84-101 | One pass gives, for every symbol with a parsable holding and no other, the sum of its holdings. |
| `Holdings.PartyBalances` | pkg/reconciler/reconciler.go:178-210 | The same for every owner and symbol, skipping holdings without owner. |
| `Holdings.CountsToward` | pkg/reconciler/reconciler.go:84-210 | A holding counts toward its symbol; without one, toward UNKNOWN in the supply and PROMPT in the balances. |
| `Holdings.UnlabelledSeven` | pkg/reconciler/reconciler.go:84-210 | At one holding of 7 without a symbol. |
| `Holdings.Conservation` | pkg/reconciler/reconciler.go:74-268 | For every list of holdings and every symbol, supply equals what the parties' balances add up to plus what no owner holds; for holdings without a symbol this holds of UNKNOWN and PROMPT together. |
| `Holdings.ConservationWhenOwned` | pkg/reconciler/reconciler.go:74-268 | If every holding has an owner and none is labelled UNKNOWN, balances account for the whole supply. |
| `Holdings.OrderIrrelevant` | pkg/reconciler/reconciler.go:84-101 | Every sum is the same for holdings in any order. |
| `Holdings.OrderOfMapsIrrelevant` | pkg/reconciler/reconciler.go:178-210 | So is the whole balance map. |
| `Holdings.Store.SetTotalSupply` | pkg/reconciler/store/pg.go:203-220 | Writes the row of the trimmed, upper-case symbol; a blank symbol is refused. |
| `Holdings.Store.SetBalance` | pkg/reconciler/store/pg.go:32-59 | Writes the row of the trimmed party and that symbol; a blank one is refused. |
| `Holdings.WriteSupply` | pkg/reconciler/reconciler.go:103-112 | Writes the symbols one after the other in some order of the map, and stops at the first failure; it succeeds exactly when no symbol is blank and no write fails. |
| `Holdings.WrittenRow` | pkg/reconciler/store/pg.go:203-220 | A row then holds the supply of one of the symbols stored under it, or what it held before if there is none. |
| `Holdings.WriteBalance` | pkg/reconciler/reconciler.go:228-239 | One balance write: the balance of the snapshot, zero when the party has none, unless the write fails. |
| `Holdings.WriteUser` | pkg/reconciler/reconciler.go:225-252 | The two rows of one user; a row is as before or rewritten. |
| `Holdings.ReconcileUserBalances` | pkg/reconciler/reconciler.go:168-268 | Every row is as before or the balance of the snapshot, no other row is written, and without failures all target rows are rewritten. |
| `Holdings.ReconcileAll` | pkg/reconciler/reconciler.go:74-126 | Supply from one fetch, balances from the next; the totals are those of the symbols written so far, also when a supply write fails; it succeeds exactly when the fetch does and all symbols are written. |
| `Holdings.StoredSupplyCurrentIff` | pkg/reconciler/reconciler.go:103-112 | Whatever order the map is iterated in, a successful run leaves the supply of a symbol in its row, if and only if all symbols stored in that row have the same supply and, where there is none, the row held zero. |
| `Holdings.RewrittenRow` | pkg/reconciler/reconciler.go:212-259 | A rewritten row holds the balance of the last user stored under its trimmed id; any other row is as before. |
| `Holdings.RewriteIdempotent` | pkg/reconciler/reconciler.go:168-268 | Rewriting after a partly failed attempt gives what a clean attempt would have given. |
| `Holdings.StoredBalancesAddUp` | pkg/reconciler/reconciler.go:168-268 | The stored balances of DEMO or PROMPT add up to the holdings counted under that label, if their owners are all users whose balance is the one stored. |
| `Holdings.StoredDemoAddsUpIff` | pkg/reconciler/reconciler.go:74-268 | Then the stored DEMO balances add up to the stored DEMO supply in every order of the map, if and only if the spellings of DEMO agree. |
| `Holdings.EndTogether` | pkg/reconciler/reconciler.go:103-112 | Two rows may end with any two of the figures each may end with, in one order of the map. |
| `Holdings.StoredPromptAddsUpIff` | pkg/reconciler/reconciler.go:74-268 | Likewise the stored PROMPT balances equal the stored PROMPT and UNKNOWN supplies together, a missing row counting as zero, in every order of the map, if and only if every figure the one row may end with plus every figure the other may is the sum of the holdings labelled PROMPT or not labelled. |
| `Holdings.SeededFiguresAgree` | pkg/migrations/apidb/04_seed_token_metrics.go:15-40 | That holds on the database as it is seeded, without an UNKNOWN row, when PROMPT and UNKNOWN are each spelled one way. |
| `Holdings.TwoSpellingsDisagree` | pkg/reconciler/reconciler.go:103-112 | For every other spelling of DEMO, two holdings for which one order stores 3 beside a balance of 5. |
| `Holdings.DemoSpelledTwice` | pkg/reconciler/reconciler.go:103-112 | At holdings of DEMO and demo by one user: the hypotheses of the DEMO result hold, and the spellings disagree. |
| `Holdings.DemoStoredTwice` | pkg/reconciler/reconciler.go:74-268 | At that input, with one order of the map, the reconciled store holds a supply of 3 and balances adding up to 5. |
| `BridgeEvents.Store.IsEventProcessed` | pkg/reconciler/store/pg.go:243-252 | Whether the table has a row with that contract id. |
| `BridgeEvents.Store.StoreTokenTransferEvent` | pkg/reconciler/store/pg.go:256-283 | All or nothing: a new storable event adds its row, its posting and one to the counter, and anything else changes nothing; ids stay distinct. |
| `BridgeEvents.PostsToRow` | pkg/reconciler/store/pg.go:388-425 | An event is posted to the row of 0x and its trimmed fingerprint, and of PROMPT or its instrument in capitals: added if it comes from nobody, subtracted if not, and the amount itself where there is no row. |
| `BridgeEvents.StorableIff` | pkg/reconciler/store/pg.go:254-283 | The store takes exactly the events from nobody or to nobody that have a fingerprint. |
| `BridgeEvents.MintForAb` | pkg/reconciler/store/pg.go:388-425 | At a mint of 5 and a burn of 4 for fingerprint ab. |
| `Tokens.KeyIs` | pkg/reconciler/store/pg.go:440-446 | A symbol is stored in capitals and without the white space around it. |
| `BridgeEvents.Store.ResetBalancesByTokenSymbol` | pkg/reconciler/store/pg.go:123-140 | Zeroes the rows of one symbol. |
| `BridgeEvents.Store.ClearBridgeEvents` | pkg/reconciler/store/pg.go:300-317 | Empties the table and the counter and leaves the balances. |
| `BridgeEvents.ProcessEvent` | pkg/reconciler/reconciler.go:291-327 | Unless a call fails, an event is stored if and only if it is a mint or burn with a fingerprint whose id is new. |
| `BridgeEvents.ReconcileFromBridgeEvents` | pkg/reconciler/reconciler.go:278-341 | The balances are those of posting each added row once; without failures the added rows are exactly the missing storable events, first occurrence first; mints and burns are counted. |
| `BridgeEvents.FullBalanceReconciliation` | pkg/reconciler/reconciler.go:353-382 | Replays the events over the balances with PROMPT zeroed; fails exactly when the fetch, the reset or the clear does. |
| `BridgeEvents.MissingIds` | pkg/reconciler/reconciler.go:278-341 | After a failure-free pass the table holds exactly its old ids and those of the listed storable events. |
| `BridgeEvents.FullReconciliationIds` | pkg/reconciler/reconciler.go:353-382 | After a full reconciliation an id is in the table if and only if a storable event of the list has it. |
| `BridgeEvents.ReplayIdempotent` | pkg/reconciler/reconciler.go:278-341 | A pass over events that are all in the table adds nothing. |
| `BridgeEvents.PassesCompose` | pkg/reconciler/reconciler.go:278-341 | Two failure-free passes over lists that may overlap add up to one pass over both. |
| `BridgeEvents.ReplayedThen` | pkg/reconciler/reconciler.go:278-341 | Two passes, each with any failures and over lists that may differ and overlap, are one such pass over both lists. |
| `BridgeEvents.PassesReplay` | pkg/reconciler/reconciler.go:278-341 | However many passes fail part of the way, and whatever list each was given, every row comes from one of the lists and is posted exactly once. |
| `BridgeEvents.NetOrderIrrelevant` | pkg/reconciler/reconciler.go:278-341 | Credits minus debits do not depend on the order of the rows. |
| `BridgeEvents.RetriesConverge` | pkg/reconciler/reconciler.go:278-341 | Once a failure-free pass follows any failed ones, the rows added in all are those a single failure-free pass would have added, and the balances are those rows posted. |
| `BridgeEvents.RetriesConvergeIff` | pkg/reconciler/reconciler.go:278-341 | Whatever failed before, the balance of an account ends as a single failure-free pass would have left it, if and only if it had a row or all its missing events would open one with the same error (none for a mint, twice the amount for a burn). |
| `BridgeEvents.MintFailsOnce` | pkg/reconciler/store/pg.go:408-425 | A mint and a burn on an account without a row: one pass leaves their difference, but their sum if storing the mint first fails. |
| `BridgeEvents.FiveAndThree` | pkg/reconciler/store/pg.go:408-425 | At 5 and 3 into an empty table: 2, or 8 after that failure. |
| `BridgeEvents.PostedBalance` | pkg/reconciler/store/pg.go:365-439 | For every account: its row before plus credits minus debits; without a row before, twice the opening amount more when a burn opens it. |
| `BridgeEvents.FullReconciliationExactIff` | pkg/reconciler/reconciler.go:353-382 | A full reconciliation makes every balance the credits minus debits of the events if and only if rows of other tokens were zero beforehand and no account is opened by a burn. |
| `BridgeEvents.BurnOpensRow` | pkg/reconciler/store/pg.go:408-425 | At a single burn into an empty table the balance is plus the amount where debits make it minus. |
| `BridgeEvents.SecondReconciliationDoubles` | pkg/reconciler/reconciler.go:353-382 | A second full reconciliation counts every event of another token twice. |

## Left out

- Chain reorganisations: the chain is fixed, so a deposit never leaves a block.
- The start block computed from the chain head when no offset is stored, and a start block changed between restarts: the model starts from one configured block.
- The Canton-to-Ethereum direction, the retry loop for pending transfers and transfer statuses: they would add steps of the same kinds.
- The indexer's delay after an accept: an accepted offer is gone from the next fetch. New offers arriving during a cycle are left out as well.
- The order of offers created at the same instant: the query orders by creation time without a tie-breaker, and the model takes the order to be the same at every fetch of a cycle.
- Integer overflow of page times limit in the accept worker and of start plus limit in token paging.
- Memory for the slice list of a very large block range.
- The prepare endpoints up to the ledger's answer: request validation, recipient checks and token lookup.
- Rendering of amounts in the holdings reconciliation: amounts are exact decimals, an amount that does not parse is one value, and rounding to the 18 fractional digits of the store is left out.
- Sorting in place in token paging: the sorted list is a new sequence, so aliasing of the slice is not captured.
- Unicode: case folding is that of ASCII, trimming that of Latin-1, and database collation is code-point order.
- Database errors of the whitelist store, the limits the HTTP handlers accept, and address validation.
- Negative R and S when encoding a signature, and the elliptic-curve arithmetic itself: signing yields a pair of naturals of at most 32 bytes each.
- Timestamps and status rows of the reconciler, metrics, logging, configuration, gRPC and HTTP transport.
- ERC-20 approve, allowance, name and symbol, which return constants or configured strings.
- Decimals.RoundTrip: the decimal library is not part of the repository; its parsing and printing are modelled as functions, and an exponent leaving 32 bits, where it panics, is an answer of its own.
- Erc20.ViewBound: the panic at an exponent leaving 32 bits is not shown by the views, which read that answer as zero; the bound is stated for strings that stay clear of it.
- Relayer.SafeIffConsumerSafe: a slice size of zero, with which nothing is ever scanned, is excluded.
