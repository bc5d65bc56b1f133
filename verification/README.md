# KeepKey vault: a verified model

This project models the parts of the KeepKey vault that are hardest to get right
by reading, and proves what they promise. Six groups of modules:

1. **Active-wallet watch.** `WatchScheduler` is the refresh scheduler: hints wait
   in a pending map, at most two chains refresh at once, `flush` callers wait for
   quiet, and `stop` starts a new session while callbacks of the old one are still
   to come. `WalletWatch` is the whole lease machine around it (entries, leases,
   events, batches) and shows that each of its steps is one scheduler operation.
   `WatchSafety` has what every operation keeps, `WatchTheorems` what holds over
   whole runs, `WatchHints` where each offered hint goes and why one is dropped,
   `WatchFailures` which chains count as failed and so what a flush answers,
   `WatchDrains` what a drain starts and what is cleared away, `WatchArrivals` what
   transfers, catch-ups, leases and batches do, `WatchProgress` why nothing is
   stranded and when something is.
   `ActiveWalletWatch` is the imperative form, method by method, and `OwnedWatches`
   the choice of what a lease covers.
2. **Browser bridge.** `BridgeProtocol` has the connected extensions, the calls in
   flight and every event; `BridgeSafety` and `BridgeTheorems` the invariant and
   the results over runs, `BridgeReplies` what each event brings about; `BexBridge`
   the handlers that change the maps in place.
3. **Certified binary formats.** `Contacts`, `BookEntries`, `MerkleTree`,
   `AddressBook` and `ContactProof` are the address book: canonical contacts, their
   bytes, the choice of entries, the tree, the certification request, the proof.
   `CertificateBody` is the 75-byte certificate body. `EvmSchema` and `EvmCompile`
   are the EVM v2 compiler and what it accepts; `EvmArtifact` is the importer of a
   signed ceremony and the resolver that reads the schema back.
   `SolanaWire`, `SolanaEdit`, `AccountTable` and `SolanaTable` are the Solana wire
   encoders, over numbers of any size as the source holds them, with a decoder from
   the public transaction format. `Bytes`, `Hex`, `Strings` and
   `Codec` are what these share.
4. **Bundling.** `DependencyClosure` is the recursive walk that collects packages.
   `BundleTree`, `PruneBundle` and `NodeResolution` are the pass that removes
   duplicate nested packages and what it does to Node's package lookup.
5. **Audits and Bitcoin accounts.** `AuditLifecycle`, `AuditSafety`, `AuditDismissal`
   and `AuditEngine` are the registry of audits; `BtcScan`, `BtcScanSafety`,
   `BtcScanGuard` and `BtcScanner` the lazy Bitcoin scan; `BtcAccounts`,
   `BtcAccountManager`, `BtcKeys` and `BtcSessions` the account manager whose
   fetches interleave with resets.
6. **Exact text.** `Bip32Path` and `TokenUnits`.

JavaScript runs to completion between awaits, so each synchronous stretch is one
atomic step, and everything that can happen at an await is an event. A stateful
object appears twice: as a class whose methods have the source's branches and
loops, and as a state with one function per step. Each method's `ensures` ties
the object to the function, and the lemmas are about the functions, over every
run. History fields (the ledger of offers, the log of settlements, what a scan
has seen) are only ever written, never read, by the steps.

Hashes, signature recovery and root signatures are function parameters. No hash
is assumed injective: where the source relies on collision resistance, the lemma
returns the two colliding buffers.

## What the code does not do

These are promises, of the repository or one would naturally make for it, that
fail for some input. Each has a lemma with the input and a lemma with the exact
condition.

- A pending hint can be stranded: if the refresh timer fires at a moment when the
  scope is not current, `drain` returns and leaves no timer; nothing looks at the
  hint again until another hint arrives or `flush` is called under a current scope.
  `WatchProgress.StrandedRun` and `WatchProgress.StrandedHint`;
  `WatchProgress.DrainMovesIff` says when a drain leaves nothing stranded.
- Pruning can change what Node resolves: `p/lib/node_modules/foo` equal to the top
  level is removed while `p/node_modules/foo` has another version.
  `NodeResolution.ShadowedTreeResolvesOtherwise`; `NodeResolution.ResolutionKeptIff`.
- The first byte of a legacy Solana message is its number of signatures. For more
  than 128 of them a reader refuses it as an unknown version; for exactly 128 it
  reads it as a version 0 message, if as anything. `SolanaWire.LegacyReadsAsV0` is
  such a message and what it is read as; `SolanaWire.LegacyMisreads`;
  `SolanaWire.MessageBackIff`.
- Indices are written as bytes, so the 257th account of a table, and an external
  account whose lookup number is 256, are read as the signer.
  `SolanaTable.ManyAccountsMisread` and `SolanaTable.ExternalMisread`;
  `SolanaTable.IndicesReadBackIff`, and `SolanaEdit.EditedBackIff` for an edited
  message.
- A Bitcoin scan can be done, and not partial, without having looked at every
  path, where the header of the audit engine says a partial scan is never presented
  as a clean bill of health. Up to four failed derivations in a row are skipped
  without a mark (`BtcScanSafety.DoneCanMissAPath`), and a failed coin lookup counts
  as a balance of zero (`BtcScanSafety.DoneCanMissALookup`).
  `BtcScanSafety.DoneIsCompleteIff` says when every path was looked at, and
  `BtcScanSafety.DoneFindsAllIff` when nothing was missed. A finding's coins need not
  come to its balance either: `BtcScanSafety.CoinsAddUpIff`.
- A second audit can run for a wallet: dismissing a running one only forgets it.
  `AuditDismissal.DismissalAdmitsSecond`; `AuditDismissal.StaysOneWorkerIff`.
- A fetch of Bitcoin keys begun before a reset and finished after it is stored all
  the same, so an earlier wallet's keys can become account 0, and the later fetch
  leaves them there. `BtcSessions.EarlierKeysStored`; `BtcSessions.StaysIsolatedIff`
  and `BtcSessions.ClearingSeparatesIff`.
- Such a fetch can also leave a gap in the account numbers, account 1 alone, after
  which adding does nothing. `BtcAccountManager.StaleAddLeavesGap`;
  `BtcAccountManager.StoreContiguousIff` and `BtcSessions.StaysContiguousIff`.

## Model

| member | source | states |
|---|---|---|
| WatchScheduler.MergedMeaning | projects/keepkey-vault/src/bun/active-wallet-watch.ts:125-137 | A merged hint holds the duplicate-free union of its offers' transaction ids and of their event ids, and is a catch-up exactly when every offer was one |
| WatchSafety.ApplyKeeps | projects/keepkey-vault/src/bun/active-wallet-watch.ts:97-137 | Every scheduler operation (offer, timer, each promise callback, flush, prune, stop) keeps the bookkeeping, slot, acknowledgement and flush invariants |
| WalletWatch.StepOp | projects/keepkey-vault/src/bun/active-wallet-watch.ts:138-231 | Each step of the lease machine (add, subscribe timer, connected, sync, transfer, resume, batch, flush, stop) acts on the refresh scheduler as one of its operations, so its theorems hold of the whole watch |
| WatchTheorems.SlotsOverRuns | projects/keepkey-vault/src/bun/active-wallet-watch.ts:107-124 | In every run at most two refreshes hold a slot, one per chain; each unfinished job of the present session holds its chain's slot and no other job holds one |
| WatchHints.ApplyFated | projects/keepkey-vault/src/bun/active-wallet-watch.ts:97-137 | One operation takes an offer out of the pending map only into a refresh or for a cause: a stop, a drain under the current scope that finds its chain disabled, or a lease change or flush whose leased chains do not have its chain |
| WatchHints.HintsConserved | projects/keepkey-vault/src/bun/active-wallet-watch.ts:97-231 | In every run each accepted transaction id and event id is in its chain's pending hint, or was in the hint handed to exactly one refresh, or was dropped at a step of the run that had cause to: a stop or change of wallet, a drain that found the chain disabled, or a lease change or flush that found no leased address on the chain; and a hint holds nothing nobody offered |
| WatchTheorems.HistoryIsFinal | projects/keepkey-vault/src/bun/active-wallet-watch.ts:97-137 | Over any continuation of a run, an offer's fate, an acknowledgement and a flush verdict once given stay given |
| WatchTheorems.StaleJobIsHarmless | projects/keepkey-vault/src/bun/active-wallet-watch.ts:95-124 | The callbacks of a job from before a stop change neither the failed chains nor the acknowledgements and free no slot of the later session |
| WatchTheorems.AckFollowsRefresh | projects/keepkey-vault/src/bun/active-wallet-watch.ts:116-119 | Event ids are acknowledged exactly when the refresh of the hint that held them resolves, by a job of the present session, under the scope being watched, with the chain enabled; and no other step acknowledges any |
| WatchTheorems.FlushTrueMeansQuiet | projects/keepkey-vault/src/bun/active-wallet-watch.ts:102-106 | A flush is answered in the session it was asked in, and true if and only if nothing is pending, nothing is running and no chain has failed, under the scope being watched, and it is not a stop that answers |
| WatchFailures.FailedIff | projects/keepkey-vault/src/bun/active-wallet-watch.ts:95-121 | In every run a chain counts as failed if and only if the last of its refreshes to end in the present session, under the scope being watched, threw, since the last stop and since the chain last lost its lease |
| WatchFailures.VerdictOverRuns | projects/keepkey-vault/src/bun/active-wallet-watch.ts:102-121 | In every run a flush is answered true if and only if nothing is left to do under the scope being watched, no chain's last refresh threw, and it is not a stop that answers |
| WatchFailures.RejectedIff | projects/keepkey-vault/src/bun/active-wallet-watch.ts:115-121 | In every run a job is waiting for its catch handler if and only if its refresh or its acknowledgement has thrown and the handler has not run |
| WatchFailures.StageStep | projects/keepkey-vault/src/bun/active-wallet-watch.ts:115-121 | A job moves only by its own callbacks, in their order |
| WatchTheorems.StopAnswersEveryFlush | projects/keepkey-vault/src/bun/active-wallet-watch.ts:187-197 | Stop answers every waiting flush false and leaves none waiting |
| WatchDrains.StopClears | projects/keepkey-vault/src/bun/active-wallet-watch.ts:187-201 | A stop, by itself or for another wallet, leaves no hint, refresh, failure, waiter, timer or lease, and begins the next session |
| WatchDrains.LeasePrunes | projects/keepkey-vault/src/bun/active-wallet-watch.ts:97-101 | A lease change or a flush leaves pending only hints of chains the lease has |
| WatchDrains.DrainFills | projects/keepkey-vault/src/bun/active-wallet-watch.ts:107-124 | A drain under the scope being watched leaves two refreshes running, or leaves pending only hints of enabled chains that are being refreshed |
| WatchDrains.DrainStarts | projects/keepkey-vault/src/bun/active-wallet-watch.ts:107-124 | What a drain starts are refreshes of pending hints, on enabled chains with no refresh, for the present session and scope; and a hint of an enabled chain stops pending only so |
| WatchArrivals.TransferQueues | projects/keepkey-vault/src/bun/active-wallet-watch.ts:168-182 | A transfer to a leased address of an enabled chain, heard by the present lease under the scope being watched, is accepted and queued with its transaction and event ids, unless the same one was heard in the last 15 seconds and its chain has not failed; any other is refused and changes nothing |
| WatchArrivals.ConnectedCatchesUp | projects/keepkey-vault/src/bun/active-wallet-watch.ts:158-161 | A connection queues catch-ups for the changed chains the first time and for all after that, on supported networks, one in two seconds a chain |
| WatchArrivals.SyncCatchesUp | projects/keepkey-vault/src/bun/active-wallet-watch.ts:162-167 | A request to synchronize queues catch-ups for the chains of the networks it names, and only changed ones while the first connection subscribes |
| WatchArrivals.UnheardRefused | projects/keepkey-vault/src/bun/active-wallet-watch.ts:158-168 | Any event is refused, and changes nothing, when the lease is not the present one or the wallet being watched may not be |
| WatchArrivals.ResumeCatchesUp | projects/keepkey-vault/src/bun/active-wallet-watch.ts:208-212 | Resuming queues a catch-up for every leased chain and has the lease looked at, outside a batch and under the scope being watched |
| WatchArrivals.SubscribeLeases | projects/keepkey-vault/src/bun/active-wallet-watch.ts:138-186 | When the subscribe timer fires under the scope being watched the lease is made to cover the selection of the owned addresses on enabled chains, with a receiver of its own, and the newly covered chains are caught up; unless it covers it already |
| WatchArrivals.AddOwns | projects/keepkey-vault/src/bun/active-wallet-watch.ts:199-207 | Adding owns the latest usable entry of each key and what none replaces, for the wallet being watched; another wallet stops the watch first, and a scope that is not the present one changes nothing |
| WatchArrivals.BatchHolds | projects/keepkey-vault/src/bun/active-wallet-watch.ts:138-224 | In every run the subscribe timer is not set while a batch is under way |
| WatchArrivals.BatchStep | projects/keepkey-vault/src/bun/active-wallet-watch.ts:214-224 | Beginning and ending batches counts them, and the last end of this session sets the timer |
| WatchProgress.DrainMovesIff | projects/keepkey-vault/src/bun/active-wallet-watch.ts:107-124 | A drain leaves every pending hint and waiting flush with something that will look at it again if and only if the scope was current or they had it already |
| WatchProgress.StrandedRun | projects/keepkey-vault/src/bun/active-wallet-watch.ts:107-230 | The run from the start that strands a hint: an account is added and leased, and the refresh timer fires while the wallet may not be watched; and the flush that then starts its refresh |
| WatchProgress.StrandedHint | projects/keepkey-vault/src/bun/active-wallet-watch.ts:107-137 | In any state with nothing running, a hint followed by such a timer is left with no timer and no job; the next hint sets the timer again, and a flush under a current scope leaves no hint without a job |
| WatchProgress.NothingStuck | projects/keepkey-vault/src/bun/active-wallet-watch.ts:97-137 | Over every run in which drains find the wallet current, pending hints always have a timer or a running job and waiting flushes a running job |
| WatchProgress.OwedIsProgress | projects/keepkey-vault/src/bun/active-wallet-watch.ts:107-124 | The timer and each callback the scheduler is owed leave strictly less work |
| WatchProgress.EverythingIsServed | projects/keepkey-vault/src/bun/active-wallet-watch.ts:97-137 | Left to what it is owed, in any order and with any outcomes, the watch comes to rest within a stated number of steps, with every waiting hint handed to a refresh unless its chain was disabled at one of those steps, and every flush answered |
| OwnedWatches.KeepRecent | projects/keepkey-vault/src/bun/active-wallet-watch.ts:65-73 | The counting filter over the reversed leaf addresses keeps exactly the eight latest of each chain |
| OwnedWatches.SelectFavoursAccounts | projects/keepkey-vault/src/bun/active-wallet-watch.ts:63-74 | A lease is within its limit, sorted, drawn from the given watches, and has no leaf address while an account is left out |
| OwnedWatches.SelectIff | projects/keepkey-vault/src/bun/active-wallet-watch.ts:63-74 | A lease has every account and every leaf with fewer than eight later ones on its chain, and nothing else, unless it is full at 200 |
| ActiveWalletWatch.ActiveWatch.QueueOffer | projects/keepkey-vault/src/bun/active-wallet-watch.ts:125-137 | queue changes the watch exactly as the offer operation says |
| ActiveWalletWatch.ActiveWatch.DrainPending | projects/keepkey-vault/src/bun/active-wallet-watch.ts:107-124 | drain's loop over the pending map drops, skips, stops and starts as the drain operation says |
| ActiveWalletWatch.ActiveWatch.OnFinally | projects/keepkey-vault/src/bun/active-wallet-watch.ts:121-121 | The last callback frees the slot only if the job still holds it, then drains and settles |
| ActiveWalletWatch.ActiveWatch.SubscribeNow | projects/keepkey-vault/src/bun/active-wallet-watch.ts:138-186 | subscribe takes, keeps or drops the lease and queues the catch-ups the spec step says |
| ActiveWalletWatch.ActiveWatch.OnTransfer | projects/keepkey-vault/src/bun/active-wallet-watch.ts:168-182 | A transfer event is refused, recognized as a repeat or queued exactly as the spec step says |
| ActiveWalletWatch.ActiveWatch.FlushNow | projects/keepkey-vault/src/bun/active-wallet-watch.ts:225-230 | flush answers at once or waits exactly as the flush operation says |
| ActiveWalletWatch.ActiveWatch.StopWatching | projects/keepkey-vault/src/bun/active-wallet-watch.ts:187-197 | stop clears every map, both timers and the waiters, and starts the next session |
| BridgeSafety.StepKeeps | projects/keepkey-vault/src/bun/bex-bridge.ts:58-178 | Every event keeps: each pending call on a connected client's socket, armed timers exactly the pending calls, one client a socket under its own id, each settlement by the socket asked |
| BridgeTheorems.ExactlyOnce | projects/keepkey-vault/src/bun/bex-bridge.ts:106-178 | In every run each call put on a socket is waiting once or settled once, and nothing else is either |
| BridgeTheorems.SettledBecause | projects/keepkey-vault/src/bun/bex-bridge.ts:99-178 | Settlements are final, and each new one has its cause in the event: the answer on this socket, the call's own timeout or failed send, or the loss of its socket |
| BridgeTheorems.NeverHangs | projects/keepkey-vault/src/bun/bex-bridge.ts:148-167 | In every run a waiting call has its timer armed, and the timer settles it |
| BridgeTheorems.PendingConnected | projects/keepkey-vault/src/bun/bex-bridge.ts:58-178 | In every run the socket of each waiting call is a connected client's and the one the call was put on |
| BridgeTheorems.ForeignFrameIgnored | projects/keepkey-vault/src/bun/bex-bridge.ts:106-123 | A frame from any socket but the one asked changes no call |
| BridgeReplies.ReplySettles | projects/keepkey-vault/src/bun/bex-bridge.ts:106-123 | In every run a reply on the socket a waiting call was put on settles that call with it, clears its timer, and leaves every other call alone |
| BridgeReplies.CloseSettles | projects/keepkey-vault/src/bun/bex-bridge.ts:99-104 | In every run a connection that closes settles every call on its socket, and only those |
| BridgeReplies.LookSettles | projects/keepkey-vault/src/bun/bex-bridge.ts:63-73 | In every run looking at the clients drops exactly those silent for 45 seconds and settles every call on their sockets, and only those |
| BridgeReplies.FrameKeepsFresh | projects/keepkey-vault/src/bun/bex-bridge.ts:106-110 | Any frame makes its client seen then, and changes no other client |
| BridgeReplies.OpenConnects | projects/keepkey-vault/src/bun/bex-bridge.ts:92-97 | A connection is a client of its own under the next id, and changes no call and no other client |
| BridgeReplies.CallWaits | projects/keepkey-vault/src/bun/bex-bridge.ts:148-167 | A call that is sent waits with its timer armed; one whose send fails is settled at once |
| BridgeReplies.RefusedBecause | projects/keepkey-vault/src/bun/bex-bridge.ts:125-146 | A call is refused as disconnected, unknown or ambiguous exactly when nobody is connected, nobody has the name given, or no name is given and more than one is connected |
| BridgeTheorems.CallRouting | projects/keepkey-vault/src/bun/bex-bridge.ts:125-167 | A call is sent if and only if one client that has not gone silent is meant, by its name or by being the only one, and then on that client's socket |
| BridgeTheorems.LiveAreFresh | projects/keepkey-vault/src/bun/bex-bridge.ts:63-73 | The sweep leaves exactly the clients that have not gone silent, in order |
| BridgeTheorems.BrowserIdsFresh | projects/keepkey-vault/src/bun/bex-bridge.ts:92-97 | No two connections of a run get the same browser id |
| BridgeTheorems.OtherRunsUnknown | projects/keepkey-vault/src/bun/bex-bridge.ts:17-18 | An id handed out in another run of the vault names nobody |
| BexBridge.Bridge.DropClient | projects/keepkey-vault/src/bun/bex-bridge.ts:169-178 | drop forgets the client and fails its calls in flight, deleting from the map it walks over |
| BexBridge.Bridge.LiveClients | projects/keepkey-vault/src/bun/bex-bridge.ts:63-73 | The sweeping loop drops each silent client of its snapshot |
| BexBridge.Bridge.OnBexMessage | projects/keepkey-vault/src/bun/bex-bridge.ts:106-123 | Any frame refreshes the client; a reply settles the call only from the socket asked |
| BexBridge.Bridge.CallBex | projects/keepkey-vault/src/bun/bex-bridge.ts:148-167 | A call is refused, put in flight with its timer, or settled at once when its send fails |
| Contacts.NormalizeIff | projects/keepkey-vault/src/bun/addressbook-clearsign.ts:37-51 | A contact is accepted if and only if it spells a canonical one, and that is its normal form: the same type, the same network and name but for spaces around them, the same destination but for its case and 0x |
| Contacts.Caip2Iff | projects/keepkey-vault/src/bun/addressbook-clearsign.ts:37-39 | A network is accepted if and only if it is two non-empty names of letters, digits and hyphens with one colon between them |
| Bytes.PlainIff | projects/keepkey-vault/src/bun/addressbook-clearsign.ts:44-49 | A label is accepted if and only if it is one to the limit of printable ASCII characters without a percent sign |
| Contacts.FixedIffCanonical | projects/keepkey-vault/src/bun/addressbook-clearsign.ts:37-51 | A contact is its own normal form if and only if it is canonical |
| Contacts.NormalizeIdempotent | projects/keepkey-vault/src/bun/addressbook-clearsign.ts:37-51 | Normalizing a normal form changes nothing |
| Contacts.EntryBack | projects/keepkey-vault/src/bun/addressbook-clearsign.ts:53-59 | A contact is recovered from its bytes whatever follows them |
| Contacts.EntriesPrefixFree | projects/keepkey-vault/src/bun/addressbook-clearsign.ts:53-59 | No canonical contact's bytes equal or begin another's |
| BookEntries.BookCovers | projects/keepkey-vault/src/bun/addressbook-clearsign.ts:87-96 | The book has exactly the contacts that the external, named EVM entries spell, and is refused if and only if one of them spells none or there are more than 16 under the limit |
| BookEntries.EntryOrderIsImmaterial | projects/keepkey-vault/src/bun/addressbook-clearsign.ts:87-96 | The same entries in any order are all refused or all accepted, and give the same ascending list of canonical contacts |
| MerkleTree.BuildTree | projects/keepkey-vault/src/bun/addressbook-clearsign.ts:69-85 | The padding and pairing loops build the levels of the least full tree over the leaves |
| MerkleTree.DepthIsLeast | projects/keepkey-vault/src/bun/addressbook-clearsign.ts:73-76 | The tree is the least full one with room for its leaves |
| MerkleTree.CollectSiblings | projects/keepkey-vault/src/bun/addressbook-clearsign.ts:121-126 | The shifting cursor collects exactly the leaf's sibling path |
| MerkleTree.PathFolds | projects/keepkey-vault/src/bun/addressbook-clearsign.ts:69-85 | Folding a leaf's sibling path by the bits of its index gives the root, at any depth |
| MerkleTree.PathBinds | projects/keepkey-vault/src/bun/addressbook-clearsign.ts:69-85 | Any node and path of the tree's depth that fold to the root are the leaf and path of that index, or exhibit two different pairs with one join |
| AddressBook.BuildCertificationRequest | projects/keepkey-vault/src/bun/addressbook-clearsign.ts:98-107 | The request is refused, or spells the normalized contacts and their root, in the source's order of checks |
| AddressBook.CertifyReadsBack | projects/keepkey-vault/src/bun/addressbook-clearsign.ts:98-107 | A request is built if and only if the revision is a positive 32-bit one and there are 1 to 16 contacts that each spell a canonical one, and it decodes to that revision and those canonical contacts |
| AddressBook.CertifyRefuses | projects/keepkey-vault/src/bun/addressbook-clearsign.ts:98-107 | Which refusal a request gets: for its revision, else for a contact that spells no canonical one, else for their number |
| ContactProof.BuildContactProof | projects/keepkey-vault/src/bun/addressbook-clearsign.ts:115-137 | The proof's search, tree, root check, attestation check, layout and size check |
| ContactProof.IssuedProofChecks | projects/keepkey-vault/src/bun/addressbook-clearsign.ts:115-137 | Whatever proof is issued reads back as one of the first contact asked for, spelled canonically, with the stored root and attestation, and folds to that root |
| ContactProof.IssuedIff | projects/keepkey-vault/src/bun/addressbook-clearsign.ts:115-137 | A proof is issued if and only if the contact is stored, the stored root is that of the book the stored contacts spell, and the attestation has its widths; and the answer is that there is none if and only if the contact is not stored |
| ContactProof.CertifiedContactsProvable | projects/keepkey-vault/src/bun/addressbook-clearsign.ts:98-137 | After a successful certification every contact has a proof, and it folds to the root that was certified |
| ContactProof.ProofBinds | projects/keepkey-vault/src/bun/addressbook-clearsign.ts:65-85 | A proof of the tree's depth that folds to a certified root carries the padded book's contact at that index, or yields two buffers with one hash |
| ContactProof.RootBindsBook | projects/keepkey-vault/src/bun/addressbook-clearsign.ts:65-85 | Two books of one size with one root are the same book, or yield a collision |
| ContactProof.ManifestBindsBook | projects/keepkey-vault/src/bun/addressbook-clearsign.ts:65-113 | Two signed certifications with the same manifest have the same revision and the same contacts, or yield a collision |
| ContactProof.ProofShort | projects/keepkey-vault/src/bun/addressbook-clearsign.ts:130-136 | Every proof is at most 428 bytes, so the refusal above 1024 is never taken |
| ContactProof.ManifestInjective | projects/keepkey-vault/src/bun/addressbook-clearsign.ts:109-113 | A manifest's bytes fix its revision, contact count and root |
| ContactProof.ManifestParts | projects/keepkey-vault/src/bun/addressbook-clearsign.ts:109-113 | A manifest is 46 bytes: its mark, version 1, the revision, the number of contacts and the root |
| CertificateBody.BuildBody | projects/keepkey-vault/src/bun/clearsign-alpha-ceremony.ts:86-108 | Writing the fields into the zeroed buffer gives the layout, or the refusal, in the source's order |
| CertificateBody.DecodeAlias | projects/keepkey-vault/src/bun/clearsign-alpha-ceremony.ts:49-59 | The byte loops accept exactly printable text followed by NUL padding |
| CertificateBody.BuildIff | projects/keepkey-vault/src/bun/clearsign-alpha-ceremony.ts:86-108 | A body is built if and only if the expiry is 32-bit, the scope is in the list, the alias is 1 to 31 printable characters and the key is 33 bytes |
| CertificateBody.BodyIs | projects/keepkey-vault/src/bun/clearsign-alpha-ceremony.ts:86-108 | Its 75 bytes are version and capability 1, the scope, the expiry, the alias padded with NULs to 32 and the key |
| CertificateBody.InspectIff | projects/keepkey-vault/src/bun/clearsign-alpha-ceremony.ts:112-140 | A body is accepted as a certificate if and only if that certificate builds it and expires after the floor and after now, and the hash is the one expected |
| CertificateBody.InspectCertificateIff | projects/keepkey-vault/src/bun/clearsign-alpha-ceremony.ts:165-190 | A full certificate is accepted if and only if its body is, and the root signed the body |
| CertificateBody.InspectBuilt | projects/keepkey-vault/src/bun/clearsign-alpha-ceremony.ts:86-140 | A built body inspects to the fields it was built from, refused only for an expiry at or below the floor or the present |
| CertificateBody.RebuildInspected | projects/keepkey-vault/src/bun/clearsign-alpha-ceremony.ts:86-140 | The fields of any accepted body rebuild its 75 bytes exactly |
| CertificateBody.BuildInjective | projects/keepkey-vault/src/bun/clearsign-alpha-ceremony.ts:86-108 | Two certificates that build the same body are the same |
| EvmSchema.CompileUnsignedBody | projects/keepkey-vault/src/bun/clearsign-artifact-compiler.ts:51-109 | The compiler's checks, in order, and its argument loop give the schema's bytes or the first refusal |
| EvmSchema.FormatMeans | projects/keepkey-vault/src/bun/clearsign-artifact-compiler.ts:43-48 | An ABI type has the amount format if and only if it is an integer of a whole number of bytes, the bytes format if and only if it is bool or 1 to 32 fixed bytes, and the address format only if it is an address |
| EvmSchema.SchemaReadsBack | projects/keepkey-vault/src/bun/clearsign-artifact-compiler.ts:95-108 | A schema's bytes decode to the schema and are at least 39 |
| EvmSchema.CompiledReadsBack | projects/keepkey-vault/src/bun/clearsign-artifact-compiler.ts:51-109 | What compiles decodes to the observed chain, contract and selector, with a format for each argument's own ABI type in order, and covers the observed calldata length |
| EvmSchema.FieldsApplied | projects/keepkey-vault/src/bun/clearsign-artifact-compiler.ts:69-85 | An accepted ERC-7730 display renames each argument by its own field, in ABI order, and changes nothing else |
| EvmCompile.CompileIff | projects/keepkey-vault/src/bun/clearsign-artifact-compiler.ts:51-109 | The compiler accepts exactly the candidates and observed shapes that describe a schema, and gives that schema: the candidate's name or the display's intent as its title, each argument's name, caption or number, the format of its type, and the observed chain, contract and selector |
| EvmArtifact.SignatureMatches | projects/keepkey-vault/src/bun/clearsign-artifact-import.ts:18-30 | The loop returns the first recovery value under which the signature is the delegate's |
| EvmArtifact.ImportedIsBound | projects/keepkey-vault/src/bun/clearsign-artifact-import.ts:62-101 | An imported artifact carries exactly the compiled payload and, where the resolver looks, a certificate under the root for the payload's own chain that outlives it, with its delegate's signature |
| EvmArtifact.ImportIff | projects/keepkey-vault/src/bun/clearsign-artifact-import.ts:62-101 | A ceremony is imported if and only if it names the bundle, repeats the compiled payload, and has a certificate under the root for its chain that outlives it and a signature by the certificate's delegate with an allowed recovery value, which EVM needs |
| EvmArtifact.ResolvePromoted | projects/keepkey-vault/src/bun/clearsign-artifact-resolver.ts:64-103 | The snapshot loop answers at the first snapshot that applies |
| EvmArtifact.SelectedIff | projects/keepkey-vault/src/bun/clearsign-artifact-resolver.ts:38-45 | An artifact is selected if and only if the first snapshot that applies has exact length, is not revoked or expired, and has a fresh identity that matches |
| EvmArtifact.RequestIff | projects/keepkey-vault/src/bun/clearsign-artifact-resolver.ts:64-70 | A request is taken if and only if it has a chain, a contract and calldata of whole bytes with a selector; a plain transfer has no artifact |
| EvmArtifact.RefusedBecause | projects/keepkey-vault/src/bun/clearsign-artifact-resolver.ts:38-45 | Which refusal an artifact that applies gets: the first that holds of another length, revoked, expired, no evidence, a changed, another or a stale identity, a status that is not good |
| EvmArtifact.SelectedCertificate | projects/keepkey-vault/src/bun/clearsign-artifact-resolver.ts:23-35 | What is selected carries a certificate the root signed that has not expired |
| EvmArtifact.PromotedResolves | projects/keepkey-vault/src/bun/clearsign-artifact-resolver.ts:72-99 | A compiled and imported artifact applies to exactly the requests for its observed chain, contract and selector under a trusted certificate, and is then selected exactly when it is still good, under the candidate's own name or the display's intent, with the observed length, the bundle's hash and expiry and the imported envelope |
| SolanaWire.CompactU16 | projects/keepkey-vault/scripts/fixtures/solana-message.ts:13-22 | The do-while encoder gives the compact length |
| SolanaWire.CompactLoop | projects/keepkey-vault/scripts/solana-fw-review-oracle/gen-verdicts.ts:41-49 | The endless-loop encoder gives the same bytes |
| SolanaWire.CompactBack | projects/keepkey-vault/scripts/fixtures/solana-message.ts:13-22 | Every length decodes back, whatever follows |
| SolanaWire.CompactOnly | projects/keepkey-vault/scripts/fixtures/solana-message.ts:13-22 | Whatever decodes as a length is that length's only encoding |
| SolanaWire.MessageBackIff | projects/keepkey-vault/scripts/fixtures/solana-message.ts:47-59 | A message of bytes decodes to its own header, accounts, instructions and lookups if and only if it is v0 or asks for fewer than 128 signatures |
| SolanaWire.LegacyMisreads | projects/keepkey-vault/scripts/fixtures/solana-message.ts:47-59 | A legacy message for more than 128 signatures is refused, and one for 128 is refused or read as a v0 message |
| SolanaWire.LegacyReadsAsV0 | projects/keepkey-vault/scripts/fixtures/solana-message.ts:47-59 | A legacy message for 128 signatures and the v0 message its bytes decode to |
| SolanaWire.TransactionBackIff | projects/keepkey-vault/scripts/fixtures/solana-message.ts:47-60 | A whole transaction with its signature slots decodes to its message under the same condition |
| SolanaEdit.EditedBackIff | projects/keepkey-vault/scripts/fixtures/solana-message.ts:6-60 | An edited transaction, whose numbers may be any, decodes to the message that was edited if and only if each number sent is a byte and the message is v0 or asks for fewer than 128 signatures |
| AccountTable.TableFacts | projects/keepkey-vault/scripts/solana-fw-review-oracle/gen-verdicts.ts:60-73 | The account table is the signer and then every other account in order of first use, without repeats, and each compiled index names its account |
| SolanaTable.TableSize | projects/keepkey-vault/scripts/solana-fw-review-oracle/gen-verdicts.ts:61-68 | The table has exactly one place for the signer and each key some instruction uses outside the lookup tables |
| SolanaTable.Serialize | projects/keepkey-vault/scripts/solana-fw-review-oracle/gen-verdicts.ts:74-87 | The oracle's own serialization writes the bytes the editor's serializer writes |
| SolanaTable.TransactionReadsBack | projects/keepkey-vault/scripts/solana-fw-review-oracle/gen-verdicts.ts:60-88 | With at most 256 keys in use, and every external number in use and lookup index sent a byte, the decoded transaction has the instructions and lookups that went in |
| SolanaTable.IndicesReadBackIff | projects/keepkey-vault/scripts/solana-fw-review-oracle/gen-verdicts.ts:60-88 | Every index of the decoded transaction leads back to its account, or is its external number, and its lookups are the ones sent, if and only if at most 256 keys are in use and every external number in use and lookup index sent is a byte |
| SolanaTable.LargeTableMisreads | projects/keepkey-vault/scripts/solana-fw-review-oracle/gen-verdicts.ts:76-79 | With more keys in use, an account other than the signer has index 0 on the wire, the signer's |
| SolanaTable.ManyAccountsMisread | projects/keepkey-vault/scripts/solana-fw-review-oracle/gen-verdicts.ts:76-79 | The instruction with 257 keys in use, one of which is read as the signer |
| SolanaTable.ExternalMisreads | projects/keepkey-vault/scripts/solana-fw-review-oracle/gen-verdicts.ts:62-64 | An external account whose number is a nonzero multiple of 256 has index 0 on the wire, the signer's |
| SolanaTable.ExternalMisread | projects/keepkey-vault/scripts/solana-fw-review-oracle/gen-verdicts.ts:62-64 | The instruction whose one account has the external number 256 and is read as the signer |
| DependencyClosure.Collect | projects/keepkey-vault/scripts/collect-externals.ts:88-249 | On every dependency graph, cycles included, the walk ends with the least set that has the externals and all their needs outside the blocklist, and, when the externals are listed without repeats, lists each nested copy under a collected package once |
| DependencyClosure.Collector.AddDeps | projects/keepkey-vault/scripts/collect-externals.ts:203-247 | One call adds only what the package needs, directly or through nested copies, and leaves nothing new with a need unmet |
| DependencyClosure.Collector.AddNestedDeps | projects/keepkey-vault/scripts/collect-externals.ts:172-201 | The same for the tree of a nested copy |
| BundleTree.GoneAtPackage | projects/keepkey-vault/scripts/prune-app-bundle.ts:141-174 | A nested package and all below it go exactly when its version is the top-level one's |
| PruneBundle.PruneTree | projects/keepkey-vault/scripts/prune-app-bundle.ts:116-205 | The pass leaves exactly the tree without redundant copies and without the scopes and node_modules directories they emptied, and counts what it says it counts |
| PruneBundle.Bundle.Strip | projects/keepkey-vault/scripts/prune-app-bundle.ts:132-190 | The recursive walk settles a package's directories and touches nothing outside them |
| PruneBundle.Bundle.Prune | projects/keepkey-vault/scripts/prune-app-bundle.ts:192-205 | The driver does so for every top-level package and scope |
| NodeResolution.ResolutionKeptIff | projects/keepkey-vault/scripts/prune-app-bundle.ts:129-131 | Every surviving directory's code resolves every package to the same version if and only if the nearest copy above each redundant one that is not redundant has the top level's version |
| NodeResolution.SingleNestingSafe | projects/keepkey-vault/scripts/prune-app-bundle.ts:129-131 | It does when no package is nested twice on one way up |
| NodeResolution.ShadowedTreeResolvesOtherwise | projects/keepkey-vault/scripts/prune-app-bundle.ts:129-131 | The tree in which pruning changes a resolved version |
| NodeResolution.PruneIdempotent | projects/keepkey-vault/scripts/prune-app-bundle.ts:132-204 | Pruning a pruned tree removes nothing |
| NodeResolution.PrunedRooted | projects/keepkey-vault/scripts/prune-app-bundle.ts:132-204 | What is left is a tree: every path's parent directory is left too |
| AuditSafety.ReapKeepsLatest | projects/keepkey-vault/src/bun/audit-engine.ts:104-117 | Reaping drops no running audit, leaves at most five finished ones, and drops one that has not expired only when five that finished no earlier are kept |
| AuditSafety.StartAnswersTheOne | projects/keepkey-vault/src/bun/audit-engine.ts:121-155 | Starting answers with the only running audit the map holds for the wallet, an existing one if there was one |
| AuditSafety.StepKeeps | projects/keepkey-vault/src/bun/audit-engine.ts:84-212 | Every event keeps at most one running audit a wallet among those the map holds, and each running audit's worker still to come |
| AuditDismissal.StaysOneWorkerIff | projects/keepkey-vault/src/bun/audit-engine.ts:84-155 | Over every continuation that dismisses no running audit, at most one of all the audits ever started is running for a wallet, if and only if the map now holds every running audit |
| AuditDismissal.OneWorkerOverRuns | projects/keepkey-vault/src/bun/audit-engine.ts:119-155 | So from the start on, in every run that dismisses no running audit |
| AuditDismissal.DismissalAdmitsSecond | projects/keepkey-vault/src/bun/audit-engine.ts:88-90 | The run, start, dismiss and start again, that leaves two workers for one wallet |
| AuditSafety.CompletesOnlyLive | projects/keepkey-vault/src/bun/audit-engine.ts:157-212 | An audit becomes complete only when its own worker resumes on the wallet it captured, unmarked |
| AuditSafety.MarksFlag | projects/keepkey-vault/src/bun/audit-engine.ts:93-102 | Marking flags every audit the map holds, turns the running ones stale, and touches no other |
| AuditSafety.MarkedNeverCompletes | projects/keepkey-vault/src/bun/audit-engine.ts:88-102 | Over every run, an audit the map holds when the audits are marked, and that is not complete then, is never complete |
| AuditSafety.StaleNeverCompletes | projects/keepkey-vault/src/bun/audit-engine.ts:88-102 | Over every run, an audit flagged before it completed is never complete |
| AuditSafety.ResumeIff | projects/keepkey-vault/src/bun/audit-engine.ts:157-212 | What its worker makes of an audit: complete if and only if it does not throw, the wallet is the one captured and the audit is not flagged; aborted if and only if one of the last two fails; and failed if and only if it throws first or after both hold |
| AuditSafety.DismissForgets | projects/keepkey-vault/src/bun/audit-engine.ts:88-90 | Dismissing forgets that audit and no other |
| AuditSafety.WorkerIsFinal | projects/keepkey-vault/src/bun/audit-engine.ts:176-212 | Over every run, the status a worker left stays |
| AuditEngine.Engine.Reap | projects/keepkey-vault/src/bun/audit-engine.ts:104-117 | The two deleting loops keep exactly the audits the reaping function keeps |
| AuditEngine.Engine.StartAudit | projects/keepkey-vault/src/bun/audit-engine.ts:119-155 | Reap, answer with the running audit or add a new one |
| AuditEngine.Engine.MarkAuditsStale | projects/keepkey-vault/src/bun/audit-engine.ts:93-102 | Every audit the map holds is flagged, and the running ones turned stale |
| BtcScanSafety.AlwaysAddsUp | projects/keepkey-vault/src/bun/audit-engine.ts:218-286 | At every moment of every run the total is the sum of the findings, each finding and raw result is what the two coin lookups of one path came to, the highest account is the highest found, one loop runs exactly while scanning, only a broken scan is partial, and the findings are this attempt's, each path at most once |
| BtcScanSafety.CoinsAddUpIff | projects/keepkey-vault/src/bun/audit-engine.ts:273-278 | A raw result's coins come to its balance if and only if the second lookup was answered too, and with as much |
| BtcScanSafety.ValueAdds | projects/keepkey-vault/src/bun/sweep-engine.ts:220-223 | A balance is the sum of its coins' values, whatever way they are divided |
| BtcScanSafety.HighestIsMax | projects/keepkey-vault/src/bun/audit-engine.ts:279-279 | The highest account bounds every higher-account finding and is one of them, or zero |
| BtcScanSafety.DoneReportsAll | projects/keepkey-vault/src/bun/audit-engine.ts:250-285 | A finished scan reports, in order, exactly the derived addresses whose lookup was answered with money, over every path that gave an address |
| BtcScanSafety.DoneIsCompleteIff | projects/keepkey-vault/src/bun/audit-engine.ts:252-285 | A finished scan really looked at every path if and only if every derivation gave an address and every lookup was answered |
| BtcScanSafety.DoneFindsAllIff | projects/keepkey-vault/src/bun/audit-engine.ts:250-285 | Whatever the paths hold, a finished scan whose answered lookups are truthful finds exactly the paths with money if and only if no failed derivation and no failed lookup was for one of them |
| BtcScanSafety.DoneCanMissAPath | projects/keepkey-vault/src/bun/audit-engine.ts:252-265 | The run that ends done and not partial with nothing looked at, its derivation having failed |
| BtcScanSafety.DoneCanMissALookup | projects/keepkey-vault/src/bun/sweep-engine.ts:220-234 | The run that ends done and not partial with no finding, its derivation having given an address and its lookup having failed |
| BtcScanGuard.StepOutcome | projects/keepkey-vault/src/bun/audit-engine.ts:252-285 | A scan gives up if and only if the wallet is not the one it was started on and a path or batch is left to start, or five derivations in a row have thrown; it is done if and only if nothing is left; and it asks about a funded address again first |
| BtcScanGuard.BalancesPaired | projects/keepkey-vault/src/bun/audit-engine.ts:271-284 | Each address of a batch gets the lookup that was made for it |
| BtcScanGuard.CoinsPaired | projects/keepkey-vault/src/bun/audit-engine.ts:273-278 | A funded address gets the second lookup made for it |
| BtcScanGuard.StartOutcome | projects/keepkey-vault/src/bun/audit-engine.ts:218-248 | A start while scanning or done changes nothing; any other begins with empty accounts, and gives up if its paths cannot be made or, having any, the wallet is another |
| BtcScanGuard.DoneWasGuarded | projects/keepkey-vault/src/bun/audit-engine.ts:252-285 | Over every run, a scan that finds another wallet with something left to start ends partial; so if it is done, it was started again since |
| BtcScanner.Scanner.StartBtcScan | projects/keepkey-vault/src/bun/audit-engine.ts:218-248 | A start while scanning or done changes nothing; any other resets the accounts and runs up to the first await |
| BtcScanner.Scanner.OnAddress | projects/keepkey-vault/src/bun/audit-engine.ts:252-267 | One derivation's outcome, the failure count, and the way to the next path or to the balances |
| BtcScanner.Scanner.OnCoins | projects/keepkey-vault/src/bun/audit-engine.ts:273-282 | One funded address is entered in the raw results, the findings, the total and the highest account, and the batch goes on |
| BtcAccounts.StepKeeps | projects/keepkey-vault/src/bun/btc-accounts.ts:23-171 | Under any interleaving of fetches, resets and updates, account numbers stay distinct, every account has a key for each required script type, and its total is the sum of its keys' balances |
| BtcKeys.RequiredStores | projects/keepkey-vault/src/bun/btc-accounts.ts:62-130 | The three required keys are stored each under its own script type and path when there is no Taproot, and kept for it when there is; a missing one or a throw stores nothing |
| BtcKeys.OptionalStores | projects/keepkey-vault/src/bun/btc-accounts.ts:89-130 | The Taproot key, given or not, stores the account with the keys the fetch has, each under its own script type and path |
| BtcKeys.UpdateGives | projects/keepkey-vault/src/bun/btc-accounts.ts:159-171 | An update gives the balance to the first matching key of each account and changes no other key, and every total is the sum of its keys |
| BtcKeys.UsdAdds | projects/keepkey-vault/src/bun/btc-accounts.ts:242-243 | A total is the sum of its keys' balances, whatever way they are divided |
| BtcKeys.BeginningsAndClearings | projects/keepkey-vault/src/bun/btc-accounts.ts:23-58 | What begins a fetch, and for which number, and what clears the accounts and the selection |
| BtcAccounts.AlwaysSound | projects/keepkey-vault/src/bun/btc-accounts.ts:23-171 | The same, of every account at every moment of every run |
| BtcAccountManager.SpendableIff | projects/keepkey-vault/src/bun/btc-accounts.ts:193-205 | A key is listed for spending, with its own type and path, if and only if some account has it |
| BtcAccountManager.SpendableIgnoresBalances | projects/keepkey-vault/src/bun/btc-accounts.ts:179-205 | No balance update changes what is listed |
| BtcAccountManager.StoreContiguousIff | projects/keepkey-vault/src/bun/btc-accounts.ts:113-130 | Storing a fetched account leaves the numbers without gaps if and only if it is for one of these or the next |
| BtcAccountManager.ContiguousIff | projects/keepkey-vault/src/bun/btc-accounts.ts:44-130 | One event keeps the numbers without gaps while every fetch is for one of these or the next, and keeps that too until the accounts are cleared; clearing keeps it if and only if every fetch under way is for account 0 |
| BtcSessions.StaysContiguousIff | projects/keepkey-vault/src/bun/btc-accounts.ts:44-130 | In every continuation up to the next clearing the numbers have no gap, if and only if they have none now and every fetch is for one of these or the next |
| BtcSessions.StaysIsolatedIff | projects/keepkey-vault/src/bun/btc-accounts.ts:23-130 | In every continuation up to the next clearing each stored account is of a fetch begun since the last one, if and only if those stored now are and no fetch left from before it is for an account that is not there |
| BtcSessions.ClearingSeparatesIff | projects/keepkey-vault/src/bun/btc-accounts.ts:228-234 | A clearing separates the accounts before it from those after, in every continuation, if and only if no fetch is under way |
| BtcSessions.EarlierKeysStored | projects/keepkey-vault/src/bun/btc-accounts.ts:23-130 | The run that ends with an earlier wallet's keys as the only account and nothing under way |
| BtcAccountManager.StaleAddLeavesGap | projects/keepkey-vault/src/bun/btc-accounts.ts:44-50 | The run that leaves account 1 alone, after which adding does nothing |
| BtcAccountManager.TotalIsSumOfKeys | projects/keepkey-vault/src/bun/btc-accounts.ts:242-243 | The reported total is the sum over every key |
| BtcAccountManager.Manager.GetSpendableXpubs | projects/keepkey-vault/src/bun/btc-accounts.ts:193-205 | The nested loops list what the listing function does |
| BtcAccountManager.Manager.UpdateXpubBalance | projects/keepkey-vault/src/bun/btc-accounts.ts:159-171 | In each account the first matching key takes the balance, and every total is recomputed |
| BtcAccountManager.Manager.StoreAccount | projects/keepkey-vault/src/bun/btc-accounts.ts:113-130 | A fetched account is stored unless its number is there by now |
| Bip32Path.ParseBip32Path | projects/keepkey-vault/src/bun/chain-scan.ts:217-232 | The loop over the parts accepts and refuses as the parsing function does |
| Bip32Path.ParsePrinted | projects/keepkey-vault/src/bun/chain-scan.ts:208-232 | Parsing the printed form of any path of 2 to 10 elements below 2^32 gives the path |
| Bip32Path.ReparseAccepted | projects/keepkey-vault/src/bun/chain-scan.ts:208-232 | Whatever text is accepted is a valid path that prints and parses to itself |
| Bip32Path.PrintInjective | projects/keepkey-vault/src/bun/chain-scan.ts:208-210 | Different paths print differently |
| TokenUnits.TokenUnitsExact | projects/keepkey-vault/src/bun/calldata-decoder.ts:29-33 | The text denotes exactly amount / 10^decimals, with no trailing fractional zero and no bare point |
| TokenUnits.TokenUnitsInjective | projects/keepkey-vault/src/bun/calldata-decoder.ts:29-33 | For fixed decimals, different amounts print differently |

## Left out

- Network, database, logging and device calls: their results are inputs of the step that follows them.
- Clocks and timers as real time: each step is given the time; a timer is armed or not, and an armed one may fire. One synchronous stretch sees one time.
- Cryptography: SHA-256, keccak, secp256k1 recovery and the root signature are parameters; EIP-712 digests inside the root signature check are part of that parameter.
- Randomness: audit, call and fetch ids are taken to be fresh, as random UUIDs are.
- Callbacks that re-enter: a refresh, socket or status callback does not call back into the object before it returns, and a socket's close does not run its close handler at once.
- Rejected promises: a throw inside an async function and the catch handler that follows it in a microtask are one step.
- JSON shapes and coercions: observed shapes, snapshots and bridge frames are typed records; a missing string is empty and a missing time is zero; chain ids and lengths that are not integers do not occur.
- Unicode: text is a sequence of characters, lower case is ASCII's, and no accepted input of the modelled formats has other letters.
- Locale order: `selectOwnedWatches` and `contactsFromEntries` sort by a fixed total order instead.
- `refreshWatchedChain`, `evmRecipient`, `contactProofAllowed`, `signWithContactProofAck` and the reading of device answers: checks that one branch settles.
- `evaluateClearSignPromotion` and the review bundle: the importer takes the compiler's payload and the bundle hash as given.
- The Solana schema compiler and resolver: they rest on a serializer and a parser that are not part of this model.
- Base64: Solana transactions are modelled as bytes, not as the text around them.
- EvmSchema.CompileUnsignedBody: does not model values of the observed shape that JavaScript would coerce to numbers or text, because the model's shape is typed.
- SolanaEdit.EditedBackIff: numbers that are not integers, and a negative number of signatures, are not modelled, because the first only lose their fraction and `Buffer.alloc` throws on the second.
- SolanaWire.CompactU16: lengths from 2^31 on are not modelled, because the 32-bit shift turns them negative and no buffer is that long.
- Windows: the semver collapse and path budget of `collect-externals.ts`; its other branch removes the same copies as `prune-app-bundle.ts`, except that it would also treat a node_modules directory directly in the top level or in a top-level scope as nested.
- Unreadable directories and symbolic links in the bundle; a package directory counts as found by Node whatever its entry point.
- NodeResolution.ResolutionKeptIff: trees in which a scope directory directly holds a node_modules are not covered, because npm refuses that package name.
- File links, copying and the other pruning lists of `collect-externals.ts`: the walk takes the manifests and nested trees it would read.
- Progress labels, coverage classification and path generation of an audit; the scan takes the generated paths as given.
- Account objects shared with callers: `toAccountSet` hands out the live array, and the model keeps accounts as values. The master fingerprint, the selected key's lookup, the formatted `totalBalance` and change events are not modelled; balances in dollars are reals.
- Fairness between promises: callbacks may come in any order, and a result that needs one to come says so.
