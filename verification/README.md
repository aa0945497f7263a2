# Verified model of the token SDK core

The project models the backend-independent core of a token SDK and proves what its parts promise
each other. `dafny verify dfyconfig.toml` checks everything.

| part | modules |
|---|---|
| Two-level cache of token management services, sequential and concurrent | `Tms`, `CacheProtocol`, `CacheRuns` |
| Life cycle of a token request: calls, signers, signatures, structure | `Requests`, `Signers`, `SigningOrder`, `Structure` |
| Transfers: choosing inputs, outputs and change | `Transfers` |
| Metadata per party, extraction of inputs and outputs, amounts per party | `Metadata`, `Extraction`, `FilteredOutputs`, `Streams`, `Spending` |
| Encoding: DER message to sign, request codec, composite keys | `Der`, `RequestCodec`, `CompositeKey` |
| Quantities and identifiers as text | `Numerals`, `Quantities`, `Tokens` |
| Auditor pre-checks and lookups | `Audit`, `Structure` |
| Call tree of the profiler, on values, on the heap and over runs | `CallTree`, `NodeSets`, `Tracer`, `TraceRuns`, `Profiler` |
| Shared vocabulary | `Prelude`, `Sequences` |

Code that loops or updates fields is a method or a class, proved against a specification function;
the properties are lemmas about that function. `CacheProtocol` is a state machine whose steps are
the points where the source takes or releases a lock or touches a map; a run is any interleaving of
any number of threads.

Answers of drivers, wallets, vaults, selectors, storage and the clock are parameters: function values
(`Extraction.Driver`, `Metadata.Wallet`, `Audit.Vault`, `Transfers.Answers`, `Tms.Driver`) or fields of
a call (`Requests.IssueCall` and its siblings). Error texts are not modelled. A pointer that may be nil
is an `Option`; preconditions such as `UnfilteredAll`, `ListableAll` and `IdentifiedAll` say which pointers
the source follows without a test. Machine integers are explicit where they matter: 32-bit action IDs, 64-bit
quantities and precisions, and lengths of four octets.

## Main results

- **Caches.** In every interleaving the outer cache agrees with the inner one whenever the outer
  write lock is free, and a get after a successful update sees that update, although the outer level
  never re-checks and may build two wrappers of one service. Updates do replace parameters: for any
  two with different digests there is a run that shows it.
- **Filtering.** A filtered request shows a party the outputs shared with it at their positions, the
  senders of a transfer if and only if one of its outputs is shared, and never token IDs or the issuer.
- **Signers.** The required signers are exactly the senders, issuers and extra signers in the metadata,
  each once, in order, with the position of their action.
- **Signing message.** An independent parser recovers the actions and the anchor from every message,
  accepts nothing else, and the sizes computed first are the lengths written.
- **Filtering commutes with extraction**, if and only if no transfer of the request names an issuer.
- **Conservation.** A prepared transfer produces exactly what it spends: the inputs the caller named,
  all of them, or what the selector found for the requested total; the change goes to the recipient
  named for it or back to the wallet.
- **Amounts.** Each present output, and each spent token of a request that spends none twice, counts
  once per party, however many members its owner has.
- **Profiler.** The heap holds, after any entries, exits and prints, the tree of the run. Its
  aggregation shows exactly the calls entered and the time of the calls left per function, and a
  print while calls are open keeps that so if and only if no open call has the name of an earlier
  sibling.
- **Request life cycle.** Every run, whatever the drivers return, leaves a request that passes the
  auditor's structural validation and survives encoding and decoding if and only if nothing in it is
  empty.

## Model

| member | source | states |
|---|---|---|
| `CacheProtocol.InvStep` | token/core/tms.go:81-191 | every atomic step of an outer get, an outer update (succeeding or failing) or a direct inner get keeps mutual exclusion, what each thread knows, and the agreement of the two caches outside an update in flight |
| `CacheProtocol.RunInv` | token/provider.go:113-201 | the invariant holds in every state of every interleaving of any number of threads |
| `CacheProtocol.CachesAgreeWhenFree` | token/provider.go:113-201 | in every run, whenever no thread holds the outer write lock, each outer entry wraps exactly the inner service stored under its key |
| `CacheProtocol.GetReturnsCurrent` | token/provider.go:143-201 | an outer get returns a wrapper of the service that the inner cache holds for the key when the get releases its lock, although it never re-checks after locking |
| `CacheProtocol.InnerStable` | token/core/tms.go:81-120 | a service once cached is replaced only while an update of its key is in flight |
| `CacheProtocol.UpdateTakesEffect` | token/core/tms.go:145-191 | when a successful update releases its lock, the inner service of the key has the digest of the update's parameters |
| `CacheProtocol.UpdateReleased` | token/provider.go:113-137 | every successful update that has returned released its lock before, in a step with the parameters in place |
| `CacheProtocol.GetAfterUpdate` | token/provider.go:113-137 | every get that starts after a successful update of its key released its lock and ends before the next one is called yields the very service installed then, with that update's parameters |
| `CacheRuns.TwoWrappers` | token/provider.go:164-198 | the missing re-check is observable: for every key there is a run in which two gets return different wrappers of one service |
| `CacheRuns.UpdateReplaces` | token/core/tms.go:145-191 | for every key and any two parameters with different digests there is a run in which the key is cached with the first, an update to the second returns success, and a get called afterwards returns a service with the second |
| `CacheRuns.UpdateCanInstall` | token/core/tms.go:159-190 | in every state, an update about to touch the inner cache can end with exactly its parameters in place if and only if no other parameters with the same digest are in use |
| `CacheRuns.UpdateOutcomes` | token/core/tms.go:159-190 | in every such state the update can succeed, and it can fail if and only if its parameters are not in use already |
| `CacheRuns.CachedGet` | token/provider.go:153-161 | from any state with no lock held, a get of a cached key returns the very wrapper that is stored and leaves both caches alone |
| `CacheRuns.DirectGet` | token/core/tms.go:81-105 | a direct get on the inner provider returns the service that is cached |
| `CacheRuns.MayFail` | token/core/tms.go:81-120 | every point at which an operation can fail has a failing step, which leaves both caches alone |
| `Tms.KeysCollide` | token/core/tms.go:430-432 | two different network, channel, namespace triples have one cache key |
| `Tms.KeysInjective` | token/core/tms.go:430-432 | triples with one cache key are equal if and only if their networks and channels have equal lengths |
| `Tms.FirstUsable` | token/core/tms.go:279-346 | reference walk: the least index whose non-empty bytes the driver accepts |
| `Tms.NewTms` | token/core/tms.go:279-346 | the walk with digest skipping stops at the first usable source with a new digest; on failure every source is reported once, in the list of its kind, and the outcome is not-found if and only if no source produced bytes |
| `Tms.FreshIsFirstUsable` | token/core/tms.go:279-346 | digest skipping refines the plain first-usable walk if and only if no digest collision hides the usable source |
| `Tms.CollisionFreeHidesNothing` | token/core/tms.go:279-346 | a collision-free digest never hides a source |
| `Tms.PositionsPartition` | token/core/tms.go:279-346 | each source is in exactly one of the two error lists |
| `Tms.FirstUntried` | token/core/tms.go:279-346 | the first usable source whose digest is new, as the walk finds it |
| `Tms.SourcePriority` | token/core/tms.go:230-244 | a get without a cached service ends up with the caller's parameters if the driver takes them, else with those in storage, else with the configured ones, else with the fetched ones, if and only if no digest collision hides them |
| `Tms.TmsProvider.GetTokenManagerService` | token/core/tms.go:81-120 | a cached service is returned unchanged; otherwise the first untried usable one of options, storage, configuration and fetcher is installed; a failure changes nothing |
| `Tms.EmptyConfigurationFile` | token/core/tms.go:389-412 | a configuration that holds an empty file: no source fails and no service is found |
| `Tms.TmsProvider.Update` | token/core/tms.go:145-191 | succeeds if and only if the bytes are those in use or the driver takes them and the old service unloads; bytes in use leave the cache as it is, others are installed as given; a failure changes nothing |
| `Tms.ManagementServiceProvider.ManagementService` | token/provider.go:143-201 | keeps every outer entry wrapping the inner service of its key and never disturbs other inner entries; a miss succeeds if and only if the inner get does and the wrapper initializes |
| `Tms.ManagementServiceProvider.Update` | token/provider.go:113-137 | succeeds exactly when the inner update does, then evicts exactly its key with the parameters installed below; a failed one changes neither cache |
| `Der.AppendLength` | token/driver/asn1_fast.go:173-199 | writes the definite-length octets of X.690 section 8.1.3 and as many of them as the size pass counted |
| `Der.LengthRoundTrip` | token/driver/asn1_fast.go:173-199 | a BER reader recovers the length if and only if it is below 2^32 |
| `Der.LengthIsShortest` | token/driver/asn1_fast.go:154-199 | no definite form of a length below 2^32 is shorter, as section 10.1 of X.690 requires |
| `Der.ShortestLengthIsUnique` | token/driver/asn1_fast.go:154-199 | the shortest definite form of a length is unique |
| `Der.TlvRoundTrip` | token/driver/asn1_fast.go:27-64 | an element is read back with exactly its content and what follows it |
| `Der.TlvSound` | token/driver/asn1_fast.go:27-64 | whatever the element parser accepts is the encoding of what it returns |
| `Der.MarshalTokenRequest` | token/driver/asn1_fast.go:79-151 | the byte pass yields the nested DER of the ordered typed actions and its length is the size computed first |
| `Der.MarshalSignatureMessage` | token/driver/asn1_fast.go:27-77 | the byte pass yields a sequence of two octet strings and its length is the size computed first |
| `Der.ActionsRoundTrip` | token/driver/asn1_fast.go:79-151 | the parser recovers the ordered typed actions from the encoded request |
| `Der.MessageRoundTrip` | token/driver/asn1_fast.go:27-151 | the parser recovers the ordered actions and the anchor from every message whose content is below 2^32 octets |
| `Der.ShortMessage` | token/driver/asn1_fast.go:27-150 | the message of one short action and anchor, octet by octet |
| `Der.MessageInjective` | token/driver/asn1_fast.go:27-151 | two messages coincide if and only if anchors agree and actions agree up to the written type |
| `Der.MessageCollisionFree` | token/driver/asn1_fast.go:27-151 | with issue and transfer types only, equal messages have equal actions and anchors |
| `Der.UnknownTypeCollides` | token/driver/asn1_fast.go:119-127 | an action of another type shares its message with an issue action, so the restriction to known types is needed |
| `Der.MessageSound` | token/driver/asn1_fast.go:27-151 | the parser accepts nothing but messages that the encoder writes |
| `Quantities.AddRefines` | token/token/quantity.go:167-180 | addition in either form succeeds if and only if the forms agree and the true sum fits the precision, and is then the sum, wrap-around included |
| `Quantities.SubRefines` | token/token/quantity.go:183-200 | subtraction succeeds if and only if the forms agree and the difference is not negative, and is then the difference |
| `Quantities.CmpRefines` | token/token/quantity.go:203-300 | comparison, mixed forms and bit-length shortcut included, is the order of the values |
| `Quantities.ToQuantityRefines` | token/token/quantity.go:52-85 | a text is a quantity if and only if it denotes a natural number that fits the precision |
| `Quantities.UInt64ToQuantityRefines` | token/token/quantity.go:107-125 | a 64-bit value becomes a quantity of that value if and only if it fits the precision |
| `Quantities.QuantityRoundTrip` | token/token/quantity.go:222-228 | reading the hexadecimal or decimal text of a quantity gives back the quantity |
| `Quantities.Sum` | token/token/token.go:170-184 | the checked running sum succeeds if and only if every text is a quantity and the total fits, and is then the total |
| `Quantities.TotalPermutation` | token/token/token.go:170-184 | the total does not depend on the order |
| `Quantities.SumOrderIndependent` | token/token/quantity.go:88-103 | whether the checked sum succeeds, and its value, do not depend on the order |
| `Numerals.DecimalRoundTrip` | token/token/quantity.go:226-228 | the base-0 scanner reads every decimal numeral back |
| `Numerals.HexRoundTrip` | token/token/quantity.go:222-224 | the base-0 scanner reads every prefixed hexadecimal numeral back |
| `Numerals.PrefixedRoundTrip` | token/token/quantity.go:67-86 | numbers written in binary, octal, decimal or hexadecimal read back under every prefix of their base, with or without a sign |
| `Numerals.SeparatorIgnored` | token/token/quantity.go:67-86 | a separator between two digits changes nothing |
| `Tokens.IdTextInjective` | token/token/token.go:27-29 | two IDs print alike only if they are equal, whatever brackets or colons the transaction ID holds |
| `Transfers.ParseInputIds` | token/request.go:1548-1578 | succeeds with a sum if and only if the stored tokens have one type and a total that fits, and returns exactly them, whether or not wrapping a nil error yields nil |
| `Transfers.GenOutputs` | token/request.go:1685-1717 | succeeds if and only if every value is within the maximum token value and the total fits, with one output per (owner, value) |
| `Transfers.CheckOwners` | token/request.go:1580-1600 | owners are all empty for a redeem and all present otherwise |
| `Transfers.PrepareTransfer` | token/request.go:1580-1683 | succeeds if and only if owners, type, values, inputs, change recipient (registered if named, else the wallet's own) and certification allow it, and then spends the chosen inputs for the requested outputs and the change |
| `Transfers.CleanupInputIds` | token/request.go:1719-1728 | exactly the identifiers that are there, in order, by positions |
| `Transfers.NamedInputsSpent` | token/request.go:1596-1612 | if the caller names inputs, exactly those are spent, all of them and in order, their stored amounts add up to the outputs, and no stored token has another type than the outputs |
| `Transfers.SelectedInputsSpent` | token/request.go:1613-1638 | otherwise the selector is asked for a text that reads as the requested total, what it selects is spent, and its sum is that of the outputs |
| `Transfers.ValueConserved` | token/request.go:1580-1683 | the produced quantities, parsed again, sum to exactly the inputs, and there is a change output if and only if the inputs exceed the request |
| `Transfers.RequestedOutputReadsBack` | token/request.go:1685-1717 | the i-th output has the i-th owner and parses back to the i-th value, within the maximum |
| `Transfers.ChangeReadsBack` | token/request.go:1630-1668 | the change goes to the recipient named for it, which was registered, or else to the wallet's own identity, and parses back if and only if the excess fits the precision |
| `Transfers.NamedChangeReadsBack` | token/request.go:1548-1578 | the change of inputs named by the caller always parses back |
| `Transfers.MixedTypesRefused` | token/request.go:1559-1567 | inputs with two different non-empty types never make a transfer, even if the wrapped nil error is nil |
| `Transfers.LeadingEmptyType` | token/request.go:1559-1567 | a token with an empty type is accepted before tokens of one type and refused after them |
| `Metadata.GetIssueMetadata` | token/driver/request.go:955-967 | the metadata at an index counted among issues, or an error past the last |
| `Metadata.GetTransferMetadata` | token/driver/request.go:970-982 | the metadata at an index counted among transfers, or an error past the last |
| `Metadata.ContainsAny` | token/metadata.go:187-205 | scans receivers in order and stops at the first match or failing lookup |
| `Metadata.ContainsMeaning` | token/metadata.go:187-205 | the search succeeds if and only if every receiver's enrollment ID can be derived or an earlier one is looked for, and then says whether some receiver has one of the enrollment IDs |
| `Metadata.KeptIffShared` | token/metadata.go:121-205 | the metadata of an output is kept unchanged if some receiver has one of the enrollment IDs, and is nil otherwise |
| `Metadata.FilterOutputsLoop` | token/metadata.go:121-148 | keeps the length and the order, counts the outputs kept |
| `Metadata.FilterOutputsAt` | token/metadata.go:121-184 | filtering decides each output on its own receivers only |
| `Metadata.FilterTransferLoop` | token/metadata.go:150-184 | inputs built empty and filled in afterwards give the filtered transfer that `Metadata.FilterShows` describes |
| `Metadata.FilterBy` | token/metadata.go:67-119 | no enrollment ID means no filtering; otherwise it succeeds if and only if the receivers it looks at can be searched, and shows, of each entry with metadata in order and under its action ID: the outputs shared with the party, no token ID and no issuer of a transfer, and the senders of each input if and only if some output is shared |
| `Metadata.FilterShows` | token/metadata.go:121-184 | the same of the specification: a filtered request shows of each entry what is meant for the party and nothing else |
| `Metadata.FilterProjectsIssues` | token/metadata.go:67-119 | the k-th issue of filtered metadata is the filtered k-th issue, for all entries |
| `Metadata.FilterProjectsTransfers` | token/metadata.go:67-119 | the k-th transfer of filtered metadata is the filtered k-th transfer, if no entry has metadata of both kinds |
| `Metadata.FilterKeepsTransfers` | token/metadata.go:67-119 | filtering keeps the number of transfers if and only if no entry has metadata of both kinds |
| `Extraction.ExtractRecipients` | token/request.go:660-720 | one record per recipient, refused unless each matches the metadata at its own index |
| `Extraction.OutputMeaning` | token/request.go:614-862 | extracting an output succeeds exactly if it is there and is either absent and may be, or recordable: right issuer, parseable quantity, every recipient the one the metadata names; then there is one record per recipient, with its owner, index, quantity and enrollment ID |
| `Extraction.RecordsOwners` | token/request.go:660-862 | the owners in the records of an output are its recipients in order, or one empty owner if a transfer output has none |
| `Extraction.RecordsIssuer` | token/request.go:770-862 | the issuer in the records is that of the output; a redeemed or ownerless output without one takes that of the transfer action |
| `Extraction.MatchIssue` | token/driver/request.go:632-670 | accepts if and only if counts, issuer and extra signers, in any order, agree with the action |
| `Extraction.MatchTransfer` | token/driver/request.go:883-918 | accepts if and only if counts, issuer and extra signers, one by one, agree with the action |
| `Extraction.RecipientsMeaning` | token/request.go:675-715 | the recipients of an output are recorded one by one if and only if all of them are known |
| `Extraction.ExtractAction` | token/request.go:614-862 | the counter advances by one per output, present or absent |
| `Extraction.ExtractOutputs` | token/request.go:546-612 | issues then transfers, sharing one counter, stopping at the first error |
| `FilteredOutputs.NarrowedOutputsAreFiltered` | token/request.go:546-862 | removing output metadata removes exactly the records at those positions and changes no other record |
| `FilteredOutputs.FilterCommutesWithExtraction` | token/metadata.go:67-184 | outputs of filtered metadata are exactly the sub-sequence of the full outputs whose metadata was kept, at their original indices, if no transfer names an issuer, and an error otherwise |
| `FilteredOutputs.FilteredTransferJob` | token/metadata.go:150-184 | filtered transfer metadata matches its action if and only if the metadata named no issuer |
| `FilteredOutputs.FilteredExtractable` | token/metadata.go:67-184 | where all transfer metadata is in use, a filtered request can be extracted if and only if no transfer names an issuer and no entry has metadata of both kinds |
| `FilteredOutputs.IssuerIsLost` | token/metadata.go:150-184 | a transfer with an issuer whose outputs are extracted before filtering and refused after it |
| `FilteredOutputs.IndexIsPosition` | token/request.go:614-862 | the index of a record is the position of its output among all outputs of the request, issues before transfers |
| `FilteredOutputs.PartySeesItsOutputs` | token/metadata.go:67-184 | a party sees a record if and only if the output is shared with it, and loses no owner-bearing record that names one of its enrollment IDs |
| `Streams.FilterStream` | token/stream.go:78-87 | the sub-sequence with the property, in order |
| `Streams.UniquePerOutput` | token/stream.go:106-122 | the first record per output index and enrollment ID |
| `Streams.UniqueOutputs` | token/stream.go:106-122 | the kept records are, in order, those with no earlier record of the same index and enrollment ID |
| `Streams.UniquePerInput` | token/stream.go:435-470 | the first record per token ID and enrollment ID, or per position when the ID is absent |
| `Streams.UniqueInputs` | token/stream.go:435-470 | the kept inputs are, in order, those with no earlier record of the same token and enrollment ID: the same ID, or without IDs the same position |
| `Streams.FirstPerKeyPositions` | token/stream.go:106-122 | the kept elements are, in order, those at exactly the positions without a key or with the first occurrence of their key |
| `Streams.FirstPerKeyIdempotent` | token/stream.go:106-122 | choosing twice is choosing once |
| `Streams.PositionlessKept` | token/stream.go:424-470 | inputs with neither a token ID nor a position are all kept, in order |
| `Streams.Sum` | token/stream.go:165-172 | the sum of all quantities |
| `Streams.ShareOfGroup` | token/stream.go:103-122 | the records of one output count its quantity once for each enrollment ID among them, however many members a composite owner has |
| `Streams.ShareOf` | token/stream.go:106-185 | the chain of uniqueness, enrollment ID and sum |
| `Streams.ShareOfAction` | token/request.go:614-862 | the records of an action occupy its own range of absolute positions |
| `Streams.ShareCountsOutputsOnce` | token/request.go:546-862 | for every request, the amount of a party is the sum over present ledger outputs with a recipient of that enrollment ID, each counted once |
| `Structure.GetIssues` | token/driver/request.go:183-192 | the raw issue actions in order |
| `Structure.GetTransfers` | token/driver/request.go:195-204 | the raw transfer actions in order |
| `Structure.RawAt` | token/driver/request.go:183-204 | the rank of an action among its kind is its index in the list of that kind |
| `Structure.ValidateActionStructure` | token/core/common/auditor.go:500-562 | accepts if and only if action and entry are there, the action ID is the position modulo 2^32, and the entry has metadata of the action's kind only |
| `Structure.ValidateStructure` | token/core/common/auditor.go:465-496 | accepts if and only if every position corresponds |
| `Structure.SameCounts` | token/driver/request.go:955-982 | corresponding requests have as many issues and transfers as their metadata |
| `Structure.PositionsAgree` | token/core/common/auditor.go:117-154 | for every position of a corresponding pair, counting the actions of its kind finds the same raw action and the same metadata, in range |
| `Structure.DeserializeAll` | token/core/fabtoken/v1/audit/auditor.go:39-63 | succeeds if and only if every raw action deserializes, giving them in order |
| `Structure.Check` | token/core/common/auditor.go:89-157 | succeeds if and only if the structure is valid and at every position the validators accept the action deserialized from that very position, with that position as index |
| `Requests.Request.Issue` | token/request.go:295-357 | appends the driver's bytes as one issue action and the driver's metadata as its entry, under the position modulo 2^32, or changes nothing |
| `Requests.Request.Transfer` | token/request.go:363-416 | appends the driver's bytes as one transfer action and the driver's metadata as its entry, under the position modulo 2^32, or changes nothing; zero values are refused |
| `Requests.Request.Redeem` | token/request.go:422-474 | appends the driver's bytes as one transfer action and the driver's metadata as its entry, under the position modulo 2^32, or changes nothing |
| `Requests.Request.Upgrade` | token/request.go:481-539 | appends the driver's bytes as one issue action and the driver's metadata as its entry, under the position modulo 2^32, or changes nothing |
| `Requests.Request.AddAuditorSignature` | token/request.go:1163-1170 | adds one auditor signature after the existing ones |
| `Requests.Request.AppendSignatures` | token/request.go:1176-1207 | keeps existing signatures as a prefix, adds for each required signer in order the signature given for its identity or an empty one, under its action ID, and returns true if and only if every sender, issuer and extra signer of the metadata has one |
| `Requests.Run` | token/request.go:295-539 | after any sequence of calls on an empty request, whatever the drivers return, actions and metadata correspond and every signature is of one kind |
| `Requests.RunAdds` | token/request.go:295-539 | over any run, the actions and entries are, in order, exactly what the drivers made for the accepted calls |
| `Requests.ValidateRun` | token/core/common/auditor.go:465-496 | the auditor's structural validation accepts the request left by every run |
| `Requests.RunGrows` | token/request.go:295-539 | further calls only extend actions, metadata and signatures |
| `Requests.IssueSignerNamesAction` | token/request.go:1236-1266 | an issue signer's action ID is the position of an issue action of which it is the issuer or an extra signer |
| `Requests.TransferSignerNamesAction` | token/request.go:1270-1310 | a transfer signer's action ID is the position of a transfer action of which it is a sender, the issuer or an extra signer |
| `Signers.Senders` | token/driver/request.go:854-867 | all senders of all inputs, a nil one as an empty identity |
| `Signers.Receivers` | token/driver/request.go:839-852 | all receivers of all outputs, a nil one as an empty identity |
| `Signers.Issues` | token/request.go:1374-1392 | one record per issue metadata, in order |
| `Signers.Transfers` | token/request.go:1395-1414 | one record per transfer metadata, in order |
| `Signers.IssueSigners` | token/request.go:1224-1232 | issuer then extra signers, issue by issue |
| `Signers.TransferSigners` | token/request.go:1210-1221 | senders, issuer if there is one, extra signers, transfer by transfer |
| `Signers.IssueSignersWithActions` | token/request.go:1236-1266 | the signers entry by entry with the entry's action ID; the early exit is unreachable |
| `Signers.TransferSignersWithActions` | token/request.go:1270-1310 | the signers entry by entry with the entry's action ID; the early exit is unreachable |
| `Signers.IssueSignersAgree` | token/request.go:1224-1266 | dropping the action IDs gives exactly the issue signers |
| `Signers.TransferSignersAgree` | token/request.go:1210-1310 | dropping the action IDs gives exactly the transfer signers |
| `SigningOrder.TransferSigningOrder` | token/request.go:1270-1310 | the transfer signers are, each once and in order, the senders of every input, the issuer if there is one, and the extra signers, read off the fields of the metadata with the action ID of the entry |
| `SigningOrder.IssueSigningOrder` | token/request.go:1236-1266 | the issue signers are, each once and in order, the issuer and the extra signers, read off the fields of the metadata |
| `SigningOrder.IssueSignersMeaning` | token/request.go:1236-1266 | a signer is an issue signer if and only if an entry with its action ID has its identity as issuer or extra signer |
| `SigningOrder.TransferSignersMeaning` | token/request.go:1270-1310 | a signer is a transfer signer if and only if an entry with its action ID has its identity as sender, issuer or extra signer |
| `SigningOrder.RequiredSignersMeaning` | token/request.go:1176-1310 | a signer is required if and only if one of the two holds |
| `SigningOrder.IssuesMeaning` | token/request.go:1374-1392 | the k-th issue record has the issuer, all receivers in order and the extra signers of the k-th issue metadata |
| `SigningOrder.TransfersMeaning` | token/request.go:1395-1414 | the k-th transfer record has all senders and receivers in order, the extra signers and the issuer of the k-th transfer metadata |
| `RequestCodec.Encode` | token/driver/request.go:249-282 | succeeds if and only if no action is nil and every signature is of one kind, field by field, version 0 written as 1 |
| `RequestCodec.TokenRequest.Validate` | token/driver/request.go:365-399 | accepts if and only if actions and signatures are there and none is empty |
| `RequestCodec.TokenRequest.FromProtos` | token/driver/request.go:285-350 | replaces version and actions, adds signatures to those already there, stops at the first refused element, and says exactly when it succeeds |
| `RequestCodec.RoundTripInto` | token/driver/request.go:249-399 | decoding an encoded request is accepted if and only if the request is well formed and the destination's signatures are valid, and gives the same actions and signatures after those of the destination |
| `RequestCodec.RoundTrip` | token/driver/request.go:249-399 | into a fresh destination the round trip is the identity with version 1, accepted if and only if the request is well formed |
| `RequestCodec.MessageToSign` | token/driver/request.go:432-454 | refuses an empty anchor and one above 128 bytes, otherwise the DER message of the actions |
| `RequestCodec.DecodingKeepsMessage` | token/driver/request.go:432-454 | a decoded request has the message to sign of the encoded one |
| `RequestCodec.SameMessageSameActions` | token/driver/request.go:432-454 | well-formed requests with one message have the same actions and anchor |
| `RequestCodec.SentWellFormed` | token/driver/request.go:365-399 | a request that corresponds to its metadata is well formed if and only if no action and no signature is empty |
| `RequestCodec.RunSendable` | token/driver/request.go:249-282 | the request left by any run can be encoded |
| `RequestCodec.RunRoundTrip` | token/request.go:1137-1158 | the encoded request of any run decodes to itself if and only if nothing in it is empty |
| `Audit.TokenIds` | token/driver/request.go:869-880 | the token IDs of the inputs that are there |
| `Audit.Recorder.Record` | token/core/common/auditor.go:223-232 | refuses an ID if and only if it was recorded before |
| `Audit.Recorder.RecordAll` | token/core/common/auditor.go:235-267 | succeeds if and only if the recorded IDs followed by the new ones are pairwise different |
| `Audit.Recorder.RecordEntry` | token/core/common/auditor.go:271-279 | transfer inputs before issue inputs |
| `Audit.ExtractTokenIds` | token/core/common/auditor.go:285-303 | returns the in-order list of all spent IDs if and only if they are pairwise different as (transaction, index) pairs |
| `Audit.SpentIdsMeaning` | token/core/common/auditor.go:235-315 | the spent IDs are, entry by entry and in order, those named by the inputs of the transfer, then those named by the inputs of the issue |
| `Audit.AnyTokenPending` | token/core/common/auditor.go:429-453 | true if and only if the first token not known to be settled is pending, false if and only if all are known not to be pending |
| `Audit.AnyPendingMeaning` | token/core/common/auditor.go:429-453 | the first token that is not known to be settled decides: pending, or a failing check |
| `Audit.ListAuditTokensWithRetry` | token/core/common/auditor.go:369-420 | between one and max(1, numRetries) lookups, and the trailing return is unreachable |
| `Audit.ListAuditTokens` | token/vault.go:81-120 | the vault's loop; without a budget it makes no lookup and reports success with no tokens |
| `Audit.AuditorRetries` | token/core/common/auditor.go:369-420 | the auditor tries again after exactly those attempts that found nothing while some token was pending, within the budget and unless cancelled; the last attempt gives the outcome |
| `Audit.VaultRetries` | token/vault.go:81-120 | the vault tries again after exactly those attempts that found nothing while some token was not known to be settled, within the budget; the last attempt gives the outcome |
| `Audit.LoopsAgree` | token/core/common/auditor.go:369-420 | for a budget of at least one the two loops make the same lookups if and only if no attempt that the vault retries is cancelled or has a failing pending check, and then they have the same outcome |
| `Audit.LoopsAgreeInPeace` | token/vault.go:81-120 | without cancellations and failing pending checks the two loops make the same lookups and have the same outcome |
| `Audit.LoopsDiffer` | token/vault.go:81-120 | one failing pending check makes the auditor fail where the vault finds the tokens |
| `Audit.RetrieveAuditTokens` | token/core/common/auditor.go:317-349 | fails with the lookup, panics if and only if fewer tokens than IDs come back, and otherwise has exactly the requested IDs as keys, each with the token at its last position |
| `Audit.OwnToken` | token/core/common/auditor.go:343-349 | for pairwise different IDs every ID finds the token at its own position |
| `CompositeKey.EscapeField` | token/driver/wallet.go:244-260 | the fast path and the loop escape alike |
| `CompositeKey.EscapedNext` | token/driver/wallet.go:244-260 | byte by byte, '@' and backslash are preceded by a backslash and nothing else changes |
| `CompositeKey.MakeKey` | token/driver/wallet.go:269-273 | three escaped fields joined by the separator |
| `CompositeKey.PlainKey` | token/driver/wallet.go:244-273 | fields without '@' and backslash are joined by '@' |
| `CompositeKey.KeyRoundTrip` | token/driver/wallet.go:244-273 | an unescaping reader recovers ID, type and URL from the key, whatever bytes they hold |
| `CompositeKey.KeyInjective` | token/driver/wallet.go:262-273 | two triples have one key if and only if they are equal |
| `CallTree.AggregateDistinct` | cmd/profiler/tracer/tracer.go:389-413 | sibling names are pairwise distinct at every level after aggregation |
| `CallTree.AggregateFixedPoint` | cmd/profiler/tracer/tracer.go:389-413 | aggregation leaves a tree alone if and only if its sibling names are distinct everywhere |
| `CallTree.AggregateIdempotent` | cmd/profiler/tracer/tracer.go:389-413 | aggregating twice is aggregating once |
| `CallTree.AggregateKeepsTime` | cmd/profiler/tracer/tracer.go:547-557 | the total time of every function is preserved, for every tree |
| `CallTree.AggregateKeepsCalls` | cmd/profiler/tracer/tracer.go:389-413 | the number of calls of every function is preserved, for every tree as traced, also one traced on after an aggregation |
| `Tracer.MergeChildren` | cmd/profiler/tracer/tracer.go:394-407 | the in-place sibling loop leaves the heap holding the merged siblings |
| `Tracer.AggregateNode` | cmd/profiler/tracer/tracer.go:389-413 | the in-place rewrite terminates and leaves the heap holding the aggregated tree, touching only its nodes |
| `Tracer.CollectFunctionTimes` | cmd/profiler/tracer/tracer.go:547-557 | adds to each name the total time of its nodes |
| `TraceRuns.RunUnshared` | cmd/profiler/tracer/tracer.go:124-162 | after any entries, exits and prints no node occurs twice in the tree |
| `TraceRuns.RunTracked` | cmd/profiler/tracer/tracer.go:124-162 | the stack holds the nodes of exactly the calls that the events leave open, as last children from the root down, unless a print folded an open call away |
| `TraceRuns.RunTotal` | cmd/profiler/tracer/tracer.go:124-162 | the tree accounts for exactly the calls entered and the time of the calls left, each under the function that was entered |
| `TraceRuns.AggregatedRun` | cmd/profiler/tracer/tracer.go:389-413 | after any such run the aggregated tree shows, for every function, exactly its number of calls and its time, at nodes with distinct names among siblings |
| `TraceRuns.PrintDetaches` | cmd/profiler/tracer/tracer.go:264-266 | printing takes the node of an open call out of the tree if the call has the name of an earlier sibling |
| `TraceRuns.PrintKeepsTotals` | cmd/profiler/tracer/tracer.go:264-266 | a print while calls are open keeps the totals, however the calls end, if and only if no open call has the name of an earlier sibling |
| `Profiler.Profiler.Enter` | cmd/profiler/tracer/tracer.go:124-151 | a new heap node becomes the last child of the node on top of the stack, or the root; the heap holds the tree of the run |
| `Profiler.Profiler.Exit` | cmd/profiler/tracer/tracer.go:152-161 | ends the call on top of the stack, in the tree or not; the heap holds the tree of the run |
| `Profiler.Profiler.Print` | cmd/profiler/tracer/tracer.go:244-266 | aggregates the live tree in place; the heap holds the tree of the run |
| `Profiler.Profiler.FunctionTimes` | cmd/profiler/tracer/tracer.go:472-495 | the table read from the heap has, for every function, the time of its calls according to the events |
| `Spending.ExtractTransferInputs` | token/request.go:921-952 | one record per sender of each input, at its position, stopping at the first error |
| `Spending.ExtractIssueInputs` | token/request.go:912-919 | one record per input, at its position |
| `Spending.ExtractInputs` | token/request.go:975-1050 | the inputs of issues, then those of transfers |
| `Spending.SendersMeaning` | token/request.go:921-952 | an input has one record per sender, with its ID, position, owner, enrollment ID and quantity, if and only if the enrollment IDs of all of them can be derived |
| `Spending.InputOrigin` | token/request.go:975-1050 | every record of a request is that of a sender of a transfer input, or of an issue input, at its own position |
| `Spending.InputShareOf` | token/stream.go:412-480 | the chain of uniqueness, enrollment ID and sum over inputs |
| `Spending.InputShareOfGroup` | token/stream.go:435-470 | the records of one token count its quantity once for each enrollment ID among its senders |
| `Spending.SpentOnce` | token/core/common/auditor.go:285-303 | if the auditor finds no token spent twice, issues first and then transfers spend pairwise different tokens too |
| `Spending.ShareCountsInputsOnce` | token/request.go:1433-1475 | for every request that spends no token twice, the amount of a party is the sum of the quantities of the tokens of which it is a sender, each counted once |

## Where code and documentation differ

The model follows the code.

- `Tms.EmptyConfigurationFile`: a comment in `newTMS` takes empty bytes without an error to be
  impossible, but reading public parameters from the configuration can return an empty file. The model
  treats it as the code does, as a source that produced nothing.
- `Tms.KeysCollide`: the cache key is plain concatenation, so distinct triples can share an entry.
  All cache properties are per key.
- `Audit.LoopsAgree`: the auditor's loop is documented to mirror the vault's. They differ on a failing
  pending check, on cancellation, and when the vault has no retry budget.
- `Transfers.ParseInputIds`: a type mismatch is reported by wrapping an error that is nil. Whether that
  yields nil is a parameter, and mixed types are refused in both cases.
- `Transfers.LeadingEmptyType`: a leading token with an empty type is accepted before tokens of one
  other type.
- `FilteredOutputs.IssuerIsLost`: filtering drops the issuer of a transfer, after which the metadata of a
  transfer with an issuer no longer matches its action.
- `Metadata.FilterKeepsTransfers`: filtering an entry with metadata of both kinds drops the transfer.
- `TraceRuns.PrintKeepsTotals`: aggregating for a print while calls are open can detach them, so that
  their time and later calls are lost.
- `RequestCodec.TokenRequest.FromProtos`: decoding into a used destination keeps its signatures.
- `Der.LengthRoundTrip`: four octets carry a length, so longer contents would be cut to their low 32 bits.
- `Der.UnknownTypeCollides`: the encoder writes every unknown action type as an issue.

## Left out

- Requests.Request.Transfer: the outcome of `prepareTransfer` is a field of the call; `Transfers.PrepareTransfer` models it separately.
- RequestCodec.RoundTrip: the protobuf wire bytes are not modelled; encoding and decoding relate messages field by field.
- CacheProtocol.GetAfterUpdate: parameters are compared by digest, as the code does; with a collision-free digest they are the same bytes.
- FilteredOutputs.FilterCommutesWithExtraction: the sub-sequence is stated for entries with metadata of at most one kind; `FilteredOutputs.FilteredExtractable` says what happens with both kinds when all transfer metadata is in use.
- Spending.ShareCountsInputsOnce: stated for metadata with token IDs, as before filtering; the quantity of an input is a function of its token ID.
- Profiler.Profiler.Print: a print aggregates from the root; printing from a function found by name is not modelled.
- The mode of extraction that makes one record per output instead of one per recipient.
- Type checks of issue and transfer actions in the auditor, whose computed input sum is never compared with outputs.
- Matching and verifying actions in `inputsAndOutputs`, `IsValid`, `BindTo`, the owner lookups of `AuditRecord` and application metadata, which combine the modelled parts or call drivers.
- Conversions of request metadata to and from protobuf.
- Cryptography, hashing, JSON, logging, tracing, metrics and sleeping.
- Callbacks after building a service, including the fatal exit when one fails.
- Resource limits, option compilers, signature cursors and the driver factory directory, which are one-branch facts.
- Printing and percentages of the profiler, and its discovery mode.
