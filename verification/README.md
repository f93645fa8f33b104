# The OpenMatter client, modelled and proved in Dafny

The OpenMatter SDK exists in four languages. This project models the logic in it that decides
something: how a client assembles a quorum of committee nodes to open a secret, how it reads an
extrinsic's fate out of a block, how a client acting for a member wraps, refuses and explains its
transactions, how it waits for finality and joins a committee, and its exact text forms for
amounts, permissions and key URIs. Everything outside the client (nodes, chain, clock, random
source, signer, cryptographic core) is an arbitrary function, usually of the whole history so far,
so that a lemma about a run is about every behaviour of the outside world.

Code that loops and updates is written as methods with loops, or as a class, each proved equal to
a function; the properties are lemmas about those functions.

| file | what it holds |
|---|---|
| `Wrappers`, `Finite`, `Text` | result types; sizes of finite sets; finding characters and trimming |
| `Sampling`, `SamplingCounts` | unbiased numbers, the partial shuffle, and how many word streams lie behind each quorum |
| `Committee`, `Decrypt` | quorum choice, the point check of the core, and the decrypt call itself |
| `QuorumRounds`, `QuorumInvariant`, `QuorumTheorems` | what one round does, what every round keeps, and what every finished call promises |
| `QuorumConfirmation` | exactly when a reported rotation has a quorum behind it |
| `RotationReport` | the four ports' ways to pick the epoch to report |
| `Events`, `EventTheorems` | the event-stream parser, its encoder, and the fold it computes |
| `ScaleCodecs`, `ScaleRuntime`, `EventExamples` | codecs in the SCALE form, a runtime made of them, and the blocks on which Rust and Go part |
| `DelegatedClient`, `DelegationTheorems` | the client that may act for a member, and what holds over all its runs |
| `GoClient`, `ClientPorts` | the Go client, and exactly when it and the Rust one report the same thing |
| `ScopesTable`, `TableMeaning` | the scopes each call needs, by the names of pallets and scopes, and what a delegate can therefore send |
| `FinalityWatch` | waiting for finality: scanning every block, and looking at heads only |
| `CommitteeJoin` | the list-scanning and the map-based committee join |
| `SecretUri` | the key-URI splitter |
| `Decimal`, `Amount` | plancks as decimal text, and decimals recovered from the existential deposit |
| `Scopes`, `ScopeText`, `ScopeLanguage` | permission sets as words, as text, and which texts they are |

## What is assumed

- The threshold is at least 1 and node indices are distinct and not zero, as the chain seats them
  (`Decrypt.WellFormed`).
- The liveness lemma assumes that served replies are well-formed hexadecimal: the code aborts the
  whole call on a malformed one (`crates/matter-sdk/src/committee.rs:216-217`).
- A field decoder gives back what its encoder wrote, for the values the wire type can hold, and
  leaves what follows (SCALE codec, Polkadot Protocol Specification); the records of a block hold
  only such values, and the two events decoded by hand have the fields their decoders expect.
  `ScaleRuntime.RuntimeSpeaks` exhibits a runtime with compact counts, a 32-bit phase index, tagged
  errors and fields of fixed width that meets this.
- Where the two clients are compared, the block's bytes encode its records, and an extrinsic has at
  most one `System.ExtrinsicFailed` event.
- What counts as white space, and as a letter of a secret phrase, is any predicate under which
  digits, or respectively commas, colons, letters and slashes, are not such characters.
- A pause lasts at least as long as was asked for and the clock does not run back.
- The scopes a call needs come from an arbitrary table, so the delegation lemmas hold for every
  version of it; `ScopesTable` has the present one.

## Where the code does not do what its documentation says

Each item names the lemma with the exact condition and the lemma with a concrete input.

- `docs/secrets.md:289-291` says that a rotation is reported if `t` nodes serve the same newer
  epoch and that a single node is just a fault. The report after the loop is always backed by
  fewer than `t` nodes. Whatever the other nodes do, reports are confirmed by `t` nodes exactly
  when `t` active nodes are honest, `t` is 1, or there are too few nodes to ask
  (`QuorumConfirmation.ConfirmedWhateverOthersDo`). If every node answers, either for the client's
  epoch or for one other, it is exactly when `t` are honest or `2t - 1` are active, or too few to
  ask (`ConfirmedBetweenFactions`); otherwise every run reports the other epoch, backed by `a - t + 1`
  of the `a` active nodes (`ExactBacking`, `LoneNodeExample`). Older epochs count too.
- `crates/matter-sdk/src/chain/amount.rs:75-86` claims that formatting then parsing is lossless
  for every amount. It is, exactly up to 38 decimals (`Amount.FormatParseRoundTrip`,
  `LongDecimalsExample`).
- `docs/parity.md:6-7` calls itself the single list of where the languages differ, and
  `docs/parity.md:21-22` puts the classification of outcomes among what they share. It does not list:
  - how Rust and Go report a transaction (`ClientPorts.PortsAgreeOnFailures` has the exact condition):
    they part on a wrapped call that emits no `Proxy.ProxyExecuted` event or a failing one behind a
    first success, which Rust takes for success (`EventExamples.SilenceExample`,
    `SecondReportExample`); on a missing proxy that cannot be looked into (`FailedRereadExample`, and
    for all three in a concrete runtime `ScaleRuntime.PortsPartInScale`); on
    an unrelated failure that reads like a pool rejection, where only Go asks again; and on dataset or
    community calls whose name starts with `force_` but which Rust does not list
    (`ScopesTable.TablesDifferOnPrefix`, `PrefixExample`);
  - how the ports break a tie between rotated epochs: three different ways
    (`RotationReport.PortsAgreeWithoutTies`, `TiedVotesExample`);
  - how they wait for finality: the Go watch looks at one head a poll and overlooks an extrinsic whose
    block was not the head at any poll, the Python one does not
    (`FinalityWatch.HeadsOverlookSkippedBlocks`, `SkippedBlockExample`).

The text form of permission sets has an edge that no document mentions: `(none)` is accepted only as
the whole text, so joining two accepted texts with a comma gives their union exactly when neither is
that spelling (`ScopeText.CommaMeansUnion`, `EmptyTextExample`).

## Model

| member | source | states |
|---|---|---|
| QuorumTheorems.QuorumLiveness | crates/matter-sdk/src/committee.rs:136-241 | with `threshold` honest active nodes, fewer than `threshold` nodes ever serving any one other epoch, and no aborts, every run hands the core a full quorum and ends with its answer: never a rotation, never an unavailable quorum |
| QuorumTheorems.RotationSoundness | crates/matter-sdk/src/committee.rs:140-254 | a reported rotation names the epoch with most distinct voters; it is backed by `threshold` of them, which takes `2 * threshold - 1` active nodes, or the nodes ran out and fewer backed it; and some epoch has `threshold` voters exactly when the rotation is reported inside the loop |
| QuorumTheorems.SmallCommitteeCannotConfirm | crates/matter-sdk/src/committee.rs:190-254 | with fewer than `2 * threshold - 1` active nodes every reported rotation rests on fewer than `threshold` votes |
| QuorumConfirmation.HonestQuorumConfirms | crates/matter-sdk/src/committee.rs:190-254 | with `threshold` honest active nodes every reported rotation is backed by `threshold` nodes, whatever the others do |
| QuorumConfirmation.AnsweringNodesConfirm | crates/matter-sdk/src/committee.rs:190-254 | so it is with `2 * threshold - 1` nodes that answer, each for the client's epoch or all for one other |
| QuorumConfirmation.ConfirmedWhateverOthersDo | docs/secrets.md:289-291 | for any committee and honest nodes with addresses of their own, every report is confirmed whatever the others do exactly when the honest are a quorum, one vote is a quorum, or there are too few nodes to ask |
| QuorumConfirmation.ExactBacking | crates/matter-sdk/src/committee.rs:140-254 | with fewer honest nodes than a quorum needs and all others serving `e`, every run reports `e`, backed by `threshold` nodes if `2 * threshold - 1` are active and otherwise by one for each node dropped |
| QuorumConfirmation.ConfirmedBetweenFactions | docs/secrets.md:289-291 | between honest nodes and servers of one other epoch, a report is confirmed exactly when the honest are a quorum, `2 * threshold - 1` nodes are active, or too few to ask |
| QuorumConfirmation.LoneNodeIsReportedAsRotation | crates/matter-sdk/src/committee.rs:243-254 | the case of one such server among exactly `threshold` active nodes: every run reports a rotation on its one vote |
| QuorumConfirmation.LoneNodeExample | docs/secrets.md:289-291 | two nodes at threshold 2 for which this happens |
| QuorumTheorems.EveryLoopHead | crates/matter-sdk/src/committee.rs:136-241 | at every head of the loop of every run the nodes are split into available and faulted, at first by their probes; each round removed exactly one node, the last it asked, blamed it for its silence or its other epoch, and asked at most a quorum |
| QuorumTheorems.NodeAccounting | crates/matter-sdk/src/committee.rs:93-255 | when a call ends, the same split holds, rounds and requests are bounded, and an unavailable quorum accounts for every node and, after the loop, reports one node short |
| QuorumTheorems.RequestContract | crates/matter-sdk/src/committee.rs:144-186 | every request names an ascending subset of `threshold` active indices with its recipient among them and no node that failed before; it carries the call's secret and block, the coefficient of its recipient in that subset, and a signature over secret, subset, recipient and block made at that point of the run |
| QuorumTheorems.HandOffContract | crates/matter-sdk/src/committee.rs:214-241 | the core gets one partial from each member of the last quorum, in the order of the subset they were all sent, with the chain's commitments, and never rejects their points; its answer is the result |
| Decrypt.DecryptSecret | crates/matter-sdk/src/committee.rs:88-255 | the probe and quorum loop, with its state, computes the run that the lemmas above are about |
| Decrypt.Probe | crates/matter-sdk/src/committee.rs:93-134 | active, in order, are exactly the nodes that answer "active" in the client's own protocol version or in none; every other node has one fault, under its index and address: no answer, another version, or not active |
| Decrypt.AskQuorum | crates/matter-sdk/src/committee.rs:146-226 | members are asked in order up to the first fault, each by a request that carries what it should for the whole quorum; votes, faults and partials are those of the replies |
| Decrypt.MakeRequest | crates/matter-sdk/src/committee.rs:150-186 | the request carries the secret, the block, the recipient's coefficient in the subset and the signature over all of these; it fails exactly with the error of the core or of the signer |
| QuorumRounds.QueryLeavesTrail | crates/matter-sdk/src/committee.rs:146-189 | a round asks the members of its quorum in turn, each by a proper request, and leaves the earlier exchanges and the available nodes alone |
| QuorumRounds.QueryHasShape | crates/matter-sdk/src/committee.rs:149-226 | a round that collects heard only good replies and decoded them in order; one that drops a node blames the last it asked; one that stops reached the vote threshold, could not make a request, or read malformed hexadecimal |
| Committee.ChooseQuorum | crates/matter-sdk/src/committee.rs:67-76 | the shuffled sample of the pool, in index order |
| Committee.QuorumContract | packages/go/mattersdk/committee.go:60-66 | a quorum is `threshold` distinct available nodes in strictly ascending order |
| Committee.EveryQuorumCanBeDrawn | bindings/python/python/matter_sdk/committee.py:64-77 | every ascending choice of available nodes is the quorum of some draws |
| Committee.SubsetPoints | crates/matter-sdk-core/src/decrypt.rs:78-95 | accepts exactly the non-empty lists of distinct non-zero points |
| Sampling.RandomBelow | packages/typescript-core/src/committee.ts:157-165 | the first word below the limit decides, and the value is its residue |
| Sampling.RejectionIsUnbiased | packages/typescript-core/src/committee.ts:157-165 | every residue has exactly `2^32 / bound` accepted words, and more than half of all words are accepted |
| Sampling.PartialShuffle | packages/typescript-core/src/committee.ts:174-186 | in place, the first slots end up holding the sample that the draws pick |
| Sampling.DrawsAreUnique | packages/typescript-core/src/committee.ts:174-186 | draws give an arrangement of the pool and can be computed back from it |
| Sampling.SampleIsArrangement | packages/typescript-core/src/committee.ts:174-186 | the sample has distinct elements of the pool |
| SamplingCounts.DrawsPerQuorum | packages/typescript-core/src/committee.ts:174-186 | each `t`-subset of the pool is drawn by exactly `t!` vectors of draws |
| SamplingCounts.EveryQuorumIsEquallyLikely | packages/typescript-core/src/committee.ts:157-186 | rejection and shuffle together: as many accepted word streams lie behind any quorum as behind any other of its size |
| RotationReport.RustReport | crates/matter-sdk/src/committee.rs:243-254 | the largest epoch among those with most votes |
| RotationReport.GoReport | packages/go/mattersdk/committee.go:227-239 | the smallest epoch among those with most votes, in whatever order the map is scanned |
| RotationReport.PythonReport | bindings/python/python/matter_sdk/committee.py:220-224 | the maximum by votes then smallest epoch |
| RotationReport.TypeScriptReport | packages/typescript-core/src/committee.ts:362-372 | the first epoch voted for among those with most votes |
| RotationReport.PortsAgreeWithoutTies | packages/go/mattersdk/committee.go:227-239 | Go and Python report the same epoch for every scan order, all ports one with equally many votes, and they agree exactly when no two epochs tie |
| RotationReport.TiedVotesExample | packages/typescript-core/src/committee.ts:362-372 | three tied epochs that the ports report three ways |
| Events.ParseOutcome | packages/go/mattersdk/receipt.go:134-199 | the cursor walk over the block computes the reading of its bytes, with the event and stage of a failure |
| EventTheorems.PayloadInStep | packages/go/mattersdk/receipt.go:154-192 | on an encoded event the fields are consumed exactly and the outcome grows by it: the extrinsic's own proxy report and failure by hand-written decoders, everything else by the registry |
| Events.SkipRemainingFields | packages/go/mattersdk/receipt.go:203-217 | moves past the fields after those consumed |
| EventTheorems.EventInStep | packages/go/mattersdk/receipt.go:144-198 | on an encoded record the cursor lands on the next record's first byte, with the fold extended by the record |
| EventTheorems.DispatchResultInStep | packages/go/mattersdk/receipt.go:42-59 | the hand-written result decoder inverts its encoding |
| EventTheorems.ParserRefinesFold | packages/go/mattersdk/receipt.go:134-199 | on any encoded block the events are exactly the extrinsic's own, in order, and the failures are set exactly by its failing records |
| EventTheorems.EventsAreNamed | packages/go/mattersdk/receipt.go:154-199 | the events are those of the extrinsic's own records, in order, each under the pallet and name before and behind the first dot of the registry's name, with its fields |
| EventTheorems.TornBlockIsReported | packages/go/mattersdk/receipt.go:134-192 | a block fails at the first event that cannot be read, with that event's number and what of it could not be read |
| EventTheorems.TornTopicsAreReported | packages/go/mattersdk/receipt.go:193-197 | so it does at topics that do not decode |
| EventTheorems.SuccessIsEarned | packages/go/mattersdk/receipt.go:221-239 | success is reported exactly if the extrinsic did not fail and, when delegated, a proxy report arrived and none failed |
| EventTheorems.PortsAgreeOnDelegatedSuccess | crates/matter-sdk/src/chain/mod.rs:652-682 | Rust and Go agree exactly if a report arrived and either the first fails or none does; Go never reports a success that Rust does not |
| ScaleRuntime.RuntimeSpeaks | packages/go/mattersdk/receipt.go:134-199 | the assumptions on codecs hold of a runtime in the SCALE form: compact counts and topic lists, a 32-bit phase index, tagged dispatch errors and results, fields of 10, 16 and 32 bytes |
| DelegatedClient.MatterClient.Connect | crates/matter-sdk/src/chain/mod.rs:293-326 | fails exactly when there is a key, no override, and the lookup fails, with that failure; acts for nobody exactly without a key or when the chain names nobody; otherwise for the override's member with every scope, or for the chain's with its scopes |
| DelegatedClient.MatterClient.BuildPayload | crates/matter-sdk/src/chain/mod.rs:519-557 | a direct call goes out as it is; a delegate's exactly when it is in scope, as `proxy(principal, None, call)` around the call untouched; never admitted are proxies, batches, foreign signatures and what the table leaves out, and any other refusal names what the cached scopes miss |
| DelegatedClient.MatterClient.RefreshDelegation | crates/matter-sdk/src/chain/mod.rs:610-628 | the chain is asked once; only an answer naming the principal changes the client, and only its scopes; gone is exactly an answer that does not name it |
| DelegatedClient.MatterClient.SubmissionError | crates/matter-sdk/src/chain/mod.rs:564-605 | of a delegate's refused call: revoked, unsponsored or out of scope exactly by whether the answer names the principal and its scopes cover the call; anything else leaves the refusal and the client as they were |
| DelegatedClient.MatterClient.OuterDispatchError | crates/matter-sdk/src/chain/mod.rs:632-648 | revoked exactly when the proxy is missing and the chain, asked, does not name the principal; a failed lookup is reported in place of the failure |
| DelegatedClient.MatterClient.InnerDispatchError | crates/matter-sdk/src/chain/mod.rs:652-682 | the scan finds the first proxy report; without one, or if it is no failure, there is no error |
| DelegatedClient.MatterClient.Tx | crates/matter-sdk/src/chain/mod.rs:444-515 | each failure that no grant explains has its own cause, and what remains earns a receipt; and the client and its log of submissions and answers go to the step that the lemmas below are about |
| DelegationTheorems.DelegatedRunInvariant | crates/matter-sdk/src/chain/mod.rs:444-648 | over every run from connect: whether and for whom the client acts never changes, its scopes are those of the latest answer naming that member, every delegated submission is `proxy(principal, None, call)` with those scopes covering the call, and a direct client wraps nothing |
| DelegationTheorems.SentExactlyWhenCovered | crates/matter-sdk/src/chain/mod.rs:519-557 | what leaves the client, exactly when; a call that does not leave changes nothing |
| DelegationTheorems.ReceiptIsEarned | crates/matter-sdk/src/chain/mod.rs:487-514 | a receipt is returned exactly when the extrinsic succeeded and, if it was wrapped on the way out, the first report of the wrapped call is no failure |
| DelegationTheorems.FailuresAreFaithful | crates/matter-sdk/src/chain/mod.rs:564-648 | revoked, out of scope and unsponsored are reported exactly when this transaction's answers say so, with the fresh scopes in the message |
| DelegationTheorems.ReportsMatchTheChain | crates/matter-sdk/src/chain/mod.rs:444-648 | after any run from connect, a report of missing scopes names the chain's latest scopes for the member and they do miss the call, an unsponsored call is covered by them, and a key is reported revoked exactly when the re-read does not name that member |
| DelegationTheorems.LatestScopesDecide | crates/matter-sdk/src/chain/mod.rs:519-557 | after any run from connect a delegate's call leaves exactly when the chain's latest scopes cover it and it can be built and signed, and is otherwise refused with those scopes |
| DelegationTheorems.DirectFailuresBlameNoGrant | crates/matter-sdk/src/chain/mode.rs:164-178 | after any run from connect, a client acting for nobody never reports a grant as the cause |
| DelegationTheorems.RevocationKeepsItsName | docs/keys-and-scopes.md:177-183 | after any run, a covered call refused while the grant is gone is reported as a revoked key and was not sent unwrapped |
| DelegationTheorems.NarrowedCallIsNotResent | crates/matter-sdk/src/chain/mod.rs:581-590 | a call refused for withdrawn scopes is refused in the same words, without asking anyone, at any later point of the run until the chain says otherwise |
| DelegationTheorems.UnsponsoredCallIsStillCovered | docs/keys-and-scopes.md:177-179 | a call refused for want of a payer is sent again at any later point of the run until the chain says otherwise |
| TableMeaning.TableIsExact | crates/matter-sdk/src/chain/scopes_table.rs:108-234 | of every call, by name: whether it is admitted at all, and if so that it needs exactly writing in its pallet's scope (networking for the peer calls of Jobs) and, unless a deployment's secret references are readably none, reading secrets |
| TableMeaning.DelegateHoldsWhatItSends | docs/keys-and-scopes.md:121-159 | over every run of a delegate, whatever the chain grants, a call leaves only while the latest grant holds by name what the call needs: no deployment takes a secret along without reading of secrets |
| ScopesTable.NeverAdmittedIsRefused | crates/matter-sdk/src/chain/scopes_table.rs:39-106 | no set of scopes admits a call on the never list, whatever its arguments |
| ScopesTable.DelegateStaysInTheTable | crates/matter-sdk/src/chain/scopes_table.rs:108-210 | over every run of a delegate, whatever the chain grants, every submission wraps a call of a scoped pallet that is not on the never list and is in the scopes granted at the time |
| ScopesTable.TablesDifferOnPrefix | packages/go/mattersdk/scopes.go:326-335 | the Go table differs from the Rust one exactly on prefixed dataset and community calls that Rust does not list |
| GoClient.MatterClient.TxAndWait | packages/go/mattersdk/client.go:503-517 | the Go client's transaction, with its own parse of the block and its own table, computes the step compared below |
| GoClient.MatterClient.SettleBlock | packages/go/mattersdk/receipt.go:122-239 | a receipt exactly when the block can be read, the extrinsic did not fail and, for a delegate, a report arrived and none failed; a dispatch error exactly when one did; silence is an error of its own |
| GoClient.MatterClient.RefreshDelegation | packages/go/mattersdk/client.go:155-171 | nothing is asked for a client acting for nobody; an answer naming the principal replaces the grant, which moves only the scopes; gone is exactly an answer that does not name it |
| GoClient.MatterClient.ClassifySubmissionFailure | packages/go/mattersdk/client.go:175-202 | revoked, unsponsored or out of scope exactly by whether the answer names the principal and its scopes cover the call; anything else leaves the error and the grant as they were |
| GoClient.MatterClient.ClassifyDispatchFailure | packages/go/mattersdk/client.go:681-696 | revoked exactly when the proxy is missing and the chain, asked, does not name the principal; else the dispatch failure |
| GoClient.MatterClient.Prepare | packages/go/mattersdk/client.go:521-547 | a call goes out exactly when there is a signer and, for a delegate, Go's own table finds it in scope; then it is wrapped untouched |
| ClientPorts.PortsAgreeOnFailures | packages/go/mattersdk/client.go:155-202 | on every transaction, with any two tables, Go and Rust report the same thing exactly when the tables agree on the call, the events are read alike, a missing proxy could be looked into, and no unrelated failure is misread; and when their grants may differ afterwards |
| ClientPorts.OwnTablesPart | packages/go/mattersdk/scopes.go:286-357 | the same with the two clients' own tables |
| EventExamples.SilenceExample | packages/go/mattersdk/receipt.go:234-238 | in any runtime with the two special events, a block without a report: a receipt from Rust, an error from Go |
| EventExamples.SecondReportExample | crates/matter-sdk/src/chain/mod.rs:652-682 | a failing report behind a success: a receipt from Rust, a dispatch error from Go |
| EventExamples.FailedRereadExample | crates/matter-sdk/src/chain/mod.rs:642-647 | a missing proxy and a failed lookup: two different reports |
| ScaleRuntime.PortsPartInScale | crates/matter-sdk/src/chain/mod.rs:632-682 | these three blocks in that concrete runtime, and what both clients report of them |
| FinalityWatch.AwaitFinalized | bindings/python/python/matter_sdk/chain.py:522-551 | the first place above the starting height, found once a head reaches it; each block fetched once in order; no timeout early; polls bounded by the timeout |
| FinalityWatch.CatchUp | bindings/python/python/matter_sdk/chain.py:535-541 | the newly finalized blocks are scanned in order up to the first hit |
| FinalityWatch.WatchHeads | packages/go/mattersdk/chain.go:420-474 | found exactly if the block at some polled head holds the bytes, at their first place in it; given up only once the next poll would be past the deadline, which is 120 seconds by default; no poll is made after it |
| FinalityWatch.HeadsOverlookSkippedBlocks | packages/go/mattersdk/chain.go:435-452 | for an extrinsic in one block, scanning finds it once any head reaches the block, head polling only if the block is itself a head |
| FinalityWatch.SkippedBlockExample | packages/go/mattersdk/chain.go:435-452 | an extrinsic in a block between two polled heads |
| CommitteeJoin.CommitteeInfo | crates/matter-sdk/src/chain/recover.rs:114-166 | the list-scanning join over the registry, the seats and the chain's commitments |
| CommitteeJoin.AssembleNodes | crates/matter-sdk/src/chain/recover.rs:174-202 | reachable seats become nodes by first match, or the first without a commitment is reported |
| CommitteeJoin.CommitteeAt | packages/go/mattersdk/committee_at.go:36-85 | the same join through maps filled from the same answers |
| CommitteeJoin.AssembleCommittee | packages/go/mattersdk/committee_at.go:133-162 | the map-based join proper |
| CommitteeJoin.JoinMeaning | crates/matter-sdk/src/chain/recover.rs:140-202 | success returns exactly the reachable members, each with its own index, endpoint and commitment, strictly ascending and at least `threshold`; each failure names its cause, in a fixed order |
| CommitteeJoin.ChainRowsMeaning | crates/matter-sdk/src/chain/recover.rs:129-202 | in Rust a seat has its own index and commitment, and the endpoint in the first row of the registry for its account, if any parses |
| CommitteeJoin.GoRowsMeaning | packages/go/mattersdk/committee_at.go:36-162 | in Go the last row for the account decides, and no row reads as an empty entry |
| CommitteeJoin.JoinsAgree | packages/go/mattersdk/committee_at.go:36-162 | with one registry row an account, both joins return the same nodes or fail alike |
| CommitteeJoin.JoinIgnoresSeatOrder | crates/matter-sdk/src/chain/recover.rs:168-202 | the order in which the chain lists the seats does not matter |
| CommitteeJoin.JoinFeedsDecrypt | crates/matter-sdk/src/chain/recover.rs:140-166 | a joined committee is one the quorum protocol accepts, with enough nodes |
| SecretUri.Split | crates/matter-sdk-key/src/suri.rs:41-65 | accepts exactly the texts that some well-formed parts join to, and returns those parts; refuses the phrase exactly when something other than a letter stands before every slash, and otherwise the path |
| SecretUri.ParseJunctions | crates/matter-sdk-key/src/suri.rs:77-110 | the path's junctions, or an error for an empty code |
| SecretUri.SplitIsExact | crates/matter-sdk-key/src/suri.rs:1-65 | the language is the documented one, the split is unique, and joining the parts gives back the text |
| SecretUri.JunctionsAreTokens | crates/matter-sdk-key/src/suri.rs:77-110 | the tokens of a path join to it, each with a non-empty slash-free code |
| SecretUri.TokensAreJunctions | crates/matter-sdk-key/src/suri.rs:77-110 | a path put together from such tokens is taken apart into them again |
| Amount.ParseAmount | crates/matter-sdk/src/chain/amount.rs:23-73 | accepts an amount exactly when the text is in the documented language with that value, and refuses it for a cause exactly when the text has that fault |
| Amount.ParsedIsExact | crates/matter-sdk/src/chain/amount.rs:23-73 | accepted are exactly the trimmed texts of an optional plus, digits and at most `decimals` more after a point, up to 38 decimals and below 2^128, and the amount is their exact value |
| Amount.RefusalsAreExact | crates/matter-sdk/src/chain/amount.rs:23-73 | each refusal exactly for its own cause: too many decimals, nothing, a minus sign, half a point, something that is no number, more digits than decimals, 128 bits or more |
| Amount.FormatDenotes | crates/matter-sdk/src/chain/amount.rs:87-100 | the printed amount is worth exactly the plancks |
| Amount.FormatIsExact | crates/matter-sdk/src/chain/amount.rs:87-100 | the printed amount is the one spelling with that value, without a zero in front of a longer whole part or at the end of a fraction |
| Amount.FormatParseRoundTrip | crates/matter-sdk/src/chain/amount.rs:75-100 | parsing gives the amount back exactly when the decimals are at most 38 |
| Amount.LongDecimalsExample | crates/matter-sdk/src/chain/amount.rs:75-100 | one planck at 39 decimals is printed and cannot be read back |
| Amount.DecimalsByDivision | crates/matter-sdk/src/chain/mod.rs:869-877 | `d` exactly when the deposit is `10^(d - 3)`, none when it is no power of ten |
| Amount.DecimalsByRemainder | packages/go/mattersdk/client.go:375-392 | the same, by the other shape of loop |
| Amount.RecoveredDecimalsFitAByte | crates/matter-sdk/src/chain/mod.rs:869-877 | a 128-bit deposit recovers at most 41 decimals, so the narrowing loses nothing |
| Amount.OneToken | crates/matter-sdk/src/chain/amount.rs:103-105 | one token is a thousand deposits, and parses from "1" exactly up to 38 decimals |
| Scopes.WordRoundTrip | crates/matter-sdk-key/src/scopes.rs:119-132 | sets of bit positions and 32-bit words correspond one to one |
| Scopes.BitLayout | crates/matter-sdk-key/src/scopes.rs:119-136 | a grant's bit is worth two to twice the discriminant, plus one for write |
| Scopes.Covering | crates/matter-sdk-key/src/scopes.rs:139-147 | read and write for every listed scope and nothing else |
| Scopes.SupersetMeaning | crates/matter-sdk-key/src/scopes.rs:160-173 | covering a set of defined grants is holding each of them |
| ScopeText.Display | crates/matter-sdk-key/src/scopes.rs:186-214 | the printed form that the round trip is about |
| ScopeText.Parse | crates/matter-sdk-key/src/scopes.rs:247-308 | the entry loop computes the reading that the lemmas are about |
| ScopeLanguage.ParsedIsExact | crates/matter-sdk-key/src/scopes.rs:247-308 | accepted are exactly the spelled-out empty set and the texts whose every word is a scope's name, a colon and `r`, `w` or both in any order and case; the result holds exactly the grants the words spell |
| ScopeLanguage.WordsMeaning | crates/matter-sdk-key/src/scopes.rs:259-262 | commas and blanks part the words of a text, and what they do not part is one word |
| ScopeLanguage.RefusalNamesTheWord | crates/matter-sdk-key/src/scopes.rs:259-308 | a refusal is for the first word that is no entry, and quotes from it what is wrong: no colon, an unknown scope, or other letters |
| ScopeLanguage.DisplayInOrder | crates/matter-sdk-key/src/scopes.rs:186-214 | the printed form has one entry for each scope granted at all, in order of discriminant, with `rw`, `r` or `w`; only the empty set is spelled out |
| ScopeLanguage.EntriesAreJoined | crates/matter-sdk-key/src/scopes.rs:186-214 | entries are printed with a comma and a blank between them |
| ScopeLanguage.NamesMeanWords | testvectors/scope_bits.json:48-110 | each documented name, in either case, with `r`, `w` or `rw` parses to the documented 32-bit words |
| ScopeText.ParsedByWords | crates/matter-sdk-key/src/scopes.rs:252-308 | apart from the spelled-out empty set, parsing depends on the words of the text alone |
| ScopeText.DisplayParseRoundTrip | crates/matter-sdk-key/src/scopes.rs:186-308 | for every set, undefined bits included, printing and parsing keeps exactly the defined grants |
| ScopeText.CommaMeansUnion | crates/matter-sdk-key/src/scopes.rs:247-308 | joining two accepted texts with a comma gives the union exactly when neither spells out the empty set |
| ScopeText.EmptyTextExample | crates/matter-sdk-key/src/scopes.rs:252-258 | the spelled-out empty set beside an entry does not parse |
| ScopeText.OrderAndRepetitionDoNotMatter | crates/matter-sdk-key/src/scopes.rs:247-308 | entries may be swapped or repeated |
| ScopeText.CaseDoesNotMatter | crates/matter-sdk-key/src/scopes.rs:252-308 | texts that differ only in ASCII case parse to the same set, or fail with the same error about the same part of the text |

## Left out

- How the registry presents a field once it is read (it drops variant names): a field's value is what was read.
- The lattice cryptography, authenticated encryption, signatures and key derivation: arbitrary functions here, apart from the point check the core itself makes.
- HTTP, websocket and RPC clients, chain libraries, metadata and log output: their answers are arbitrary; the texts and causes inside errors are kept only where the code branches on them.
- Foreign-function, wasm and Python marshalling, key zeroizing, façades, call builders and network guards.
- Concurrent transactions on one client, and the lock around its mode: a run is a sequence of whole transactions.
- Probes run in parallel in the original and are taken in node order, which is the order their answers are kept in.
- Distinct random streams of the Go, Python and Rust samplers: every quorum they may draw is covered by the draws of the modelled shuffle; only the TypeScript sampler's distribution is proved.
- RandomBelow: assumes that the generator does not yield rejected words for ever; without that its loop need not end.
- AwaitFinalized and WatchHeads take the comparison of hexadecimal texts without regard to case as an arbitrary folding; failed reads end the Python call and are not modelled there.
- The u32 behind a permission set is taken as the set of its one bits; `WordRoundTrip` is the way back to the word.
- The password of a key URI may be any string, newlines included, which the documented regular expression's dot would exclude.
- The endpoint test of the committee join is one arbitrary predicate for both ports, and a sort of nodes with equal indices is stable.
- The Python committee join also refuses an empty commitment; it and the Python delegated client are otherwise as the modelled ports and are not modelled again.
- Whether an error text reads as a pool rejection or a missing proxy is part of the error; the wording the clients search for is not modelled.
- Transaction hashes, block hashes and event names in a receipt.
- Tx: a timeout that strikes while a refusal is being explained counts as a timeout, as in the original. The chain library's own walk over the events is taken to yield the block's records; an event it cannot decode ends as a failure of the extrinsic.
- GoRequiredScopes: Go reads the two argument-sensitive calls from their encoding, here taken to say what the values given to Rust say; a call index that its metadata cannot name is not modelled.
- PortsAgreeOnFailures: an error of the runtime is taken to have one text in both ports; hashes and event lists in receipts are not compared.
