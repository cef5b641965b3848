# UPM verification

A Dafny model of UPM, an end-to-end encrypted messenger: the Double Ratchet session that
protects a conversation, the store-and-forward server that carries it, and the Windows client
that ties the two together.

`dafny verify dfyconfig.toml` checks the whole project.

## What is modelled

**The session.** `Crypto` is the boundary of the cryptographic library: keys are terms, key
derivation and hashing build new terms, key agreement is commutative, a low-order public key makes
agreement fail, and a ciphertext opens only under the key and header it was sealed with. `Handshake`
is the X3DH-style setup, `Ratchet` the session: a state, functions on it, and the mutable
`DoubleRatchetSession` whose methods assign its fields one by one and are proved to compute those
functions. A message may also be sealed on a copy of the session that is then given up: this is what
the client does when a send fails, and the next message then has the same place in the conversation. `RatchetLaws` holds laws of a single session. `KeySchedule`, `Refinement` and `TwoParty`
are a proof by simulation: a ghost schedule of epochs explains every reachable pair of states.
Alice owns the odd epochs and Bob the even ones; since a party turns its ratchet only when it reads
the other's newest epoch, epochs alternate and no whole chain can be missed. `Conversations` states
what two honest parties can rely on when a hostile network reorders, drops, repeats, alters and
invents messages. `Snapshot` persists a session.

**The server.** `ServerTables` is the database as a value; `Accounts`, `MessageQueue`, `Prekeys`,
`Attachments` and `Auth` are its operations as functions from tables to tables; `Database.Connection`
is the object that updates the tables in place. Every operation runs under one mutex and is atomic.
Deleting an account is documented in the source as one transaction but executes separate statements
(server/upm-server/src/db.rs:345-416); it is atomic here because the mutex is held throughout.
`ServerRuns` proves what holds in every reachable state over a clock that never goes back.
`BlobProtocol` splits the attachment handlers at their lock and file steps and interleaves them
freely; `BlobHandlers` is the code of the handlers, proved to be those steps. The blob file of a row
is named by its storage key. `RateLimiter` and `Base64` (with the loops of the codec in
`Base64Loops`) stand alone.

**The client.** `Identity` is the one-time prekey pool, `LocalStore` the client's database,
`ClientApp` the steps of sending, retrying and polling, `ClientLaws` what they guarantee. `Delivery`
puts clients and server together: send, retry, crash, pull, commit, acknowledge, sweep and account
deletion in any order. `Retries` follows a failed send through the conversation, `LostMessages` shows a
message lost by one, `Redelivery` says what is stored when an item comes again, and `EndToEnd` follows a
first message from the sender's call to the recipient's history.

Random values, the clock, and what the network and the disk answer are parameters. Fresh values are
assumed new only where a statement says so.

## Where the code does not do what one might expect

- `MAX_SKIP` bounds one call of the skipping loop, not the map of skipped keys. An honest
  conversation reaches a session with more than `MAX_SKIP` keys, whose snapshot is then refused
  (`Snapshot.OverfullSessionIsReachable`), so the client that committed it finds no session when it
  reloads (`LocalStore.CommittedSessionReloads`).
- An uploaded attachment can lose its file. At rest a row marked uploaded has its file if and only if
  no upload of it has found it marked already when it came to mark it
  (`BlobProtocol.MarkedRowHasFileIff`); a run in which one has is
  `BlobProtocol.UploadedRowCanLoseItsFile`.
- The client's log of processed messages is keyed by the message id alone. Of the store's own calls,
  after decryption, a message is kept twice if and only if it was delivered twice and another peer had
  used its id first (`LocalStore.StoredTwiceIff`). In the client the session stands before the store:
  with the conversation open a message that was read is never stored again, whatever the log says
  (`Redelivery.ReadIsNotStoredAgain`). After a logout an item with a first packet is stored a second time
  if and only if the packet names no one-time prekey and its id was another peer's first
  (`Redelivery.StoredAgainIff`), which does happen (`Redelivery.FirstMessageStoredTwice`); under a new id
  such a packet is read again and begins the conversation anew (`Redelivery.FirstPacketReplaysIff`).
- An item that decrypts but cannot be shown or stored is refused each time it comes again, since the
  session in memory has read it (`Redelivery.FailedCommitIsRefusedNext`). Opening the conversation from a
  store that still holds the session of before brings it back
  (`Redelivery.FailedCommitIsReadAfterReopening`); once a later item is committed it is lost
  (`Redelivery.FailedCommitIsLostByTheNext`).
- A send that fails leaves the session where it was, while the sealed message stays in the outbox and
  is sent later all the same. The next packet has the same header and the same message key if and only
  if the send failed (`Retries.NextPacketRepeatsIff`), so a key can seal two texts under the one
  all-zero nonce, which crates/upm-core/src/ratchet.rs:11-13 rules out. Of all the messages under one header
  the recipient reads at most one (`Retries.SecondUnderOneHeaderIsNeverRead`). An outbox item that the
  server accepts need not ever be read (`Retries.AcceptedItemIsNeverRead`). When the failed send was the
  first contact, the next packet starts another handshake (`Retries.NextContactIsFirstIff`), and while
  the conversation from one is open the other is refused (`Retries.OtherFirstContactIsRefused`).
- The message of a failed send can be lost although nothing under its header was read: exactly when the
  reader has read something of the sender's next chain, whose header does not count it in the chain
  before (`Conversations.PassedOver` and the main theorem). `LostMessages.FailedSendCanBePassedOver` is such a run for every honest
  setup. No other message is lost unread: once its sender has encrypted in its place or gone past it, a
  message is lost only if one under its header was read (`Conversations.MovedPastIsLostOnlyIfRead`,
  `Conversations.LostUnreadWasNeverCounted`).
- The limiter does not hold to `limit` requests in every stretch of `window_secs` seconds
  (server/upm-server/src/ratelimit.rs:18-19) unless the limit is at most one or the window one second
  (`RateLimiter.PromiseHoldsIff`; calls that fail open with a full table are let through besides). The
  exact bound is twice the limit less one (`RateLimiter.SlidingBound`, `RateLimiter.BoundIsAttained`).
  A window of zero seconds never blocks (`RateLimiter.ZeroWindowNeverBlocks`).

## Model

| member | source | states |
|---|---|---|
| Conversations.DecryptsExactlyUnreadMessages | crates/upm-core/src/ratchet.rs:268-404 | Main theorem. At any moment of any conversation, failed sends included, and whatever the network delivers, decryption succeeds if and only if the wire message is one the peer sealed, unchanged, not lost and within the skip bound; it then yields the text sealed, and a failure changes nothing. Lost is a matter of what was sent and read alone: a message under its header was read, or the reader has read something of the sender's next chain, whose header does not count the message. |
| Conversations.RefusedOnlyBeyondBound | crates/upm-core/src/ratchet.rs:293-361 | A message of the peer that is not lost, delivered in any order after any losses, is read correctly or refused for exceeding the skip bound, and for no other reason. |
| Conversations.MovedPastIsLostOnlyIfRead | crates/upm-core/src/ratchet.rs:268-361 | Nothing is dropped, at a ratchet turn or anywhere else: once its sender has gone past its place, a message is lost if and only if a message under its header was read, in every continuation. |
| Conversations.EncryptedIsLostOnlyIfRead | crates/upm-core/src/ratchet.rs:268-393 | Every message that was encrypted with its sender moving on is lost if and only if a message under its header was read, whatever comes before and after. |
| Conversations.LostUnreadWasNeverCounted | crates/upm-core/src/ratchet.rs:268-393 | A message lost without one of its header having been read comes from a failed send, and its sender never went past its place. |
| Conversations.WithoutFailedSends | crates/upm-core/src/ratchet.rs:268-404 | In every conversation without failed sends decryption succeeds if and only if the wire message is one the peer sent, not read before and within the skip bound. |
| LostMessages.FailedSendCanBePassedOver | crates/upm-core/src/ratchet.rs:268-393 | For every honest setup a run of seven steps after which the message of a failed send is unread and lost. |
| Conversations.EveryMessageIsReadAtMostOnce | crates/upm-core/src/ratchet.rs:311-361 | Over a whole run at most one text is read under each header, replays from older epochs included, and all that was read was sealed by the other side. |
| Conversations.LostForEver | crates/upm-core/src/ratchet.rs:268-361 | Once lost, a message is refused in every continuation of the conversation. |
| Conversations.ReachableIsEstablished | crates/upm-core/src/ratchet.rs:268-361 | Every reachable state that has met its peer satisfies the premise of order independence. |
| Conversations.ConversationExplained | crates/upm-core/src/ratchet.rs:216-361 | Key-schedule refinement: every reachable pair of states is explained by one schedule of epochs, chains and read positions that starts from the handshake secret. |
| Conversations.StartExplained | crates/upm-core/src/ratchet.rs:216-266 | The initiator's and responder's first states, built from any honest handshake, are those of the schedule's first two epochs. |
| TwoParty.StepExplained | crates/upm-core/src/ratchet.rs:373-404 | One encryption, one sealing on a copy, or one delivery of any wire message keeps some schedule explaining both states and both logs, and that schedule extends the one before. |
| Refinement.OnlyUnreadPeerMessagesOpen | crates/upm-core/src/ratchet.rs:311-361 | Whatever a refining state decrypts is a message of the peer at a position it has not read. |
| Refinement.UnreadPeerMessageOpens | crates/upm-core/src/ratchet.rs:311-361 | Every unread peer message within the skip bound opens, from the stash, on the current chain or by a ratchet turn, and the state after it refines the schedule with that position read. |
| Refinement.UnreadPeerMessageBeyondBound | crates/upm-core/src/ratchet.rs:293-307 | An unread peer message beyond the bound is refused as TooManySkipped. |
| Refinement.TurnRefines | crates/upm-core/src/ratchet.rs:268-287 | A ratchet turn on the peer's newest epoch moves the party to its next epoch, with the old chain's unread keys stashed and the root two steps deeper. |
| Refinement.SpeakRefines | crates/upm-core/src/ratchet.rs:373-393 | Encrypting takes the next position of the party's own epoch, also when the seal fails and burns the key. |
| Refinement.SealRefines | crates/upm-core/src/ratchet.rs:373-393 | Sealing on a copy leaves the state refining the schedule with the text recorded at the place that comes next. |
| Refinement.ReadPlaceIsClosed | crates/upm-core/src/ratchet.rs:311-361 | Whatever text is sealed at a place that has been read, it is refused, whether the place was read from the stash, on the chain or by a turn. |
| Refinement.StashMoved | crates/upm-core/src/ratchet.rs:293-307 | The skipping loop leaves in the map exactly the unread positions below the new receiving position, each with its own message key. |
| Crypto.AdvanceInjective | crates/upm-core/src/ratchet.rs:91-107 | Two symmetric chains with different starts never meet, and one chain never repeats a key. |
| KeySchedule.KeyAtInjective | crates/upm-core/src/ratchet.rs:75-107 | Message keys at different places of a conversation are different, because root keys get strictly deeper. Texts at one place share its key. |
| KeySchedule.TurnKey | crates/upm-core/src/ratchet.rs:268-287 | A message opens after a turn on a remote key only if that key is the schedule's next epoch key and the position agrees. |
| RatchetLaws.DeliveryOrderIsIrrelevant | crates/upm-core/src/ratchet.rs:293-361 | Any two orders of one batch of readable messages end in the same state, and each message yields the text it would have yielded alone. |
| RatchetLaws.RejectedInputIsInvisible | crates/upm-core/src/ratchet.rs:395-404 | A run with malformed, forged, replayed or over-skipping inputs ends in the same state, with the same other outputs, as the run without them. |
| RatchetLaws.SkipToClosedForm | crates/upm-core/src/ratchet.rs:293-307 | The skipping loop stashes exactly the message keys of the positions it passes and leaves the chain advanced by their number. |
| RatchetLaws.ReadAhead | crates/upm-core/src/ratchet.rs:336-361 | Exactly when a message of the current chain is read, and the complete state it leaves. |
| RatchetLaws.SkipGrowth | crates/upm-core/src/ratchet.rs:293-307 | One successful skip adds at most MAX_SKIP keys. |
| RatchetLaws.DecryptGrowth | crates/upm-core/src/ratchet.rs:311-361 | One decryption adds at most 2 * MAX_SKIP keys, on every state and input. |
| RatchetLaws.RefusalReasons | crates/upm-core/src/ratchet.rs:289-361 | On every state and input: Encoding exactly for what does not parse, TooManySkipped exactly for a gap beyond the bound before or after a turn, Replay exactly for an unstashed position behind on the current chain. |
| Ratchet.DoubleRatchetSession.EncryptMessage | crates/upm-core/src/ratchet.rs:373-393 | The in-place encryption computes Encrypt on the whole state, including the burned key when sealing fails. |
| Ratchet.DoubleRatchetSession.RatchetStep | crates/upm-core/src/ratchet.rs:268-287 | The field-by-field ratchet step computes DhRatchetStep, with its non-contributory failures. |
| Ratchet.DoubleRatchetSession.Skip | crates/upm-core/src/ratchet.rs:293-307 | The skipping while loop computes SkipReceivingKeys, with its three outcomes. |
| Ratchet.DoubleRatchetSession.DecryptCandidate | crates/upm-core/src/ratchet.rs:311-361 | The branches of decrypt_inner compute DecryptInner. |
| Ratchet.DoubleRatchetSession.DecryptMessage | crates/upm-core/src/ratchet.rs:395-404 | Decrypting on a clone and copying back on success is transactional decryption. |
| Ratchet.DoubleRatchetSession.FromState | crates/upm-core/src/ratchet.rs:216-266 | A session object built from an initial state has exactly that state. |
| Handshake.SidesAgreeIff | crates/upm-core/src/handshake.rs:113-171 | The responder reaches the initiator's root key, and the crossed chain keys, if and only if it answers with the one-time prekey the bundle advertised. |
| Handshake.AgreesOnlyWithInitiator | crates/upm-core/src/handshake.rs:113-171 | The responder reaches the initiator's root key if and only if the bootstrap names the initiator's own identity and ephemeral key and the advertised one-time prekey is used. |
| Handshake.AgreesOnlyWithResponder | crates/upm-core/src/handshake.rs:113-171 | It does so if and only if it has the identity key and signed prekey of the bundle and uses the advertised one-time prekey. |
| Handshake.InitiationSucceedsIff | crates/upm-core/src/handshake.rs:55-144 | Initiation succeeds if and only if the signatures are by the identity key over the advertised keys, the one-time prekey is whole or absent, and no key is degenerate. |
| Snapshot.TakeSnapshot | crates/upm-core/src/ratchet.rs:154-179 | The snapshot loop lists every skipped key once, in some order, and copies every other field. |
| Snapshot.SnapshotRoundTrip | crates/upm-core/src/ratchet.rs:154-210 | Restoring a snapshot gives back the identical session, hence identical behaviour ever after, if and only if it is of the current version and has at most MAX_SKIP skipped keys. |
| Snapshot.OverfullSessionIsReachable | crates/upm-core/src/ratchet.rs:182-210 | An honest conversation whose state has more than MAX_SKIP skipped keys. |
| Database.Connection.RegisterAccount | server/upm-server/src/db.rs:223-263 | The two inserts with rollback compute Accounts.Register on all tables. |
| Database.Connection.AdminDeleteAccount | server/upm-server/src/db.rs:357-416 | The loop over devices deletes the account of one who has the name, all rows of its devices, and returns exactly the blob names of the removed attachment rows; fails exactly if nobody has the name. |
| Accounts.RegistersExactlyFreeNames | server/upm-server/src/db.rs:223-263 | With new identifiers a name can be registered if and only if no account has it in any ASCII spelling, letter by letter; otherwise it is refused as taken and nothing changes. |
| Accounts.RegisteredRows | server/upm-server/src/db.rs:223-263 | A registration adds one account with the name and identifiers given and one device with the key registered, and nothing else. |
| Accounts.DeleteFreesName | server/upm-server/src/db.rs:345-416 | After deletion the name, in any spelling, can be registered again. |
| Accounts.DeleteReturnsRemovedKeys | server/upm-server/src/db.rs:380-415 | Blob names before = blob names after + blob names returned, with multiplicity. |
| Accounts.DeleteUndoesRegister | server/upm-server/src/db.rs:223-416 | Deleting an account just registered restores every table. |
| ServerRuns.IntegrityAlways | server/upm-server/src/db.rs:43-118 | In every reachable state normalized names are unique and every row points to a device or user that exists. |
| Database.Connection.PublishOneTimePrekeys | server/upm-server/src/db.rs:598-624 | The insert-or-ignore loop computes Prekeys.Publish, and the count is the number of new rows. |
| Database.Connection.ClaimOneTimePrekey | server/upm-server/src/db.rs:626-658 | A claim marks and returns an oldest unclaimed row of the device, or none exactly if there is none. |
| Prekeys.PublishedRow | server/upm-server/src/db.rs:612-623 | Publication leaves every known row as it was, claimed or not, and adds the first entry of each new identifier. |
| Prekeys.Published | server/upm-server/src/db.rs:598-625 | A known device's batch: the rows afterwards are those of before, unchanged, and an unclaimed one for the first entry of each new identifier; the answer is the number of new identifiers. An unknown device is refused and changes nothing. |
| Prekeys.PublishedIsClaimed | server/upm-server/src/db.rs:598-658 | What a device publishes when it has nothing left is what the next claim hands out. |
| Prekeys.EarlierIsClaimedFirst | server/upm-server/src/db.rs:626-658 | While unclaimed prekeys of an earlier publication are left, a claim hands out one of those. |
| Prekeys.RepublishAddsNothing | server/upm-server/src/db.rs:612-623 | Republishing known identifiers does nothing. |
| ServerRuns.PrekeyHandedOutOnce | server/upm-server/src/db.rs:598-658 | Over any run two claims hand out the same prekey only if the account it was published for was deleted in between. |
| Database.Connection.EnqueueMessage | server/upm-server/src/db.rs:718-796 | The checks and the insert compute MessageQueue.Enqueue. |
| Database.Connection.HandleSend | server/upm-server/src/api.rs:905-999 | Version, retention window and sender checks around the enqueue compute MessageQueue.Send. |
| Database.Connection.PullMessages | server/upm-server/src/db.rs:801-830 | Deletes the expired rows of all devices and returns the device's whole queue, each once, oldest first. |
| Database.Connection.AckMessages | server/upm-server/src/db.rs:835-849 | The delete loop removes exactly the listed envelopes addressed to the device and counts each once. |
| MessageQueue.RetryChangesNothing | server/upm-server/src/db.rs:751-766 | Re-enqueuing an accepted envelope succeeds and changes nothing, whatever its time stamps. |
| MessageQueue.QueuedContentIsFixed | server/upm-server/src/db.rs:751-766 | A queued identifier is never overwritten; other content under it is refused. |
| MessageQueue.AckByAnotherDevice | server/upm-server/src/db.rs:835-849 | Acknowledging envelopes of another device removes nothing and counts nothing. |
| MessageQueue.AckTwice | server/upm-server/src/db.rs:835-849 | A second acknowledgement of the same identifiers changes nothing and counts nothing. |
| MessageQueue.RefusedExactlyWhenFull | server/upm-server/src/db.rs:767-795 | Between registered devices a new, well-formed message is refused if and only if the recipient's queue or the server's is full; if accepted it is queued as sent, with its retention time. |
| MessageQueue.AcceptedIff | server/upm-server/src/api.rs:905-1000 | Every request is accepted if and only if its version and time to live are allowed, sender and recipient are registered, and, if the identifier is queued, the content is the very same, else there is room; a refusal changes nothing. |
| MessageQueue.AcceptedIsQueued | server/upm-server/src/db.rs:718-849 | A new message accepted is queued with its content and time stamps, survives pulls until it expires, and goes when its recipient acknowledges it. |
| MessageQueue.AcknowledgedExactly | server/upm-server/src/db.rs:835-849 | An acknowledgement removes exactly the listed rows addressed to the device, and answers how many they were. |
| ServerRuns.LiveMailStays | server/upm-server/src/db.rs:671-849 | No operation of the server touches an unexpired envelope except its recipient's acknowledgement and the deletion of an account. |
| MessageQueue.PullDropsOldMail | server/upm-server/src/db.rs:801-806 | What survives a pull is not older than the retention window. |
| ServerRuns.QueueAlwaysBounded | server/upm-server/src/db.rs:767-779 | In every reachable state a device has at most 10,000 and the server at most 100,000 envelopes, each expiring within fourteen days of its arrival. |
| ServerRuns.EveryEnvelopeIsAccountedFor | server/upm-server/src/db.rs:718-849 | Accepted = queued + acknowledged + expired + removed by account deletion, over any run. |
| Database.Connection.CreateAttachment | server/upm-server/src/db.rs:889-936 | The quota check and insert compute Attachments.Create. |
| Database.Connection.MarkAttachmentUploaded | server/upm-server/src/db.rs:968-978 | Marks the owner's slot if it is not marked and says whether it did. |
| Database.Connection.DeleteAttachment | server/upm-server/src/db.rs:980-990 | Deletes the owner's slot and says whether it existed. |
| Database.Connection.ReapExpired | server/upm-server/src/db.rs:671-696 | Deletes the expired rows of four tables and returns the blob names of the deleted attachments. |
| Attachments.CreateKeepsQuota | server/upm-server/src/db.rs:903-919 | Creating a slot through the handler's size check keeps every device within its quota from now on. |
| Attachments.CreatedExactlyWithinQuota | server/upm-server/src/api.rs:1073-1105 | A slot of an allowed size is granted if and only if the device's live bytes leave room for it, and then counts in full. |
| Attachments.CommittedCounts | server/upm-server/src/db.rs:889-919 | What counts against a device is the sizes of its own unexpired rows, row by row. |
| Attachments.CreatedSlotExpires | server/upm-server/src/db.rs:903-936 | A slot granted has the identifier, owner, size and file name asked for, and counts until its thirty days are over. |
| Attachments.ReapedExactlyExpired | server/upm-server/src/db.rs:671-696 | The sweep removes exactly the expired rows of four tables and names exactly the files of the attachments removed, one for each. |
| Attachments.SelectionKeepsQuota | server/upm-server/src/db.rs:671-696 | Deleting rows, by any of the clauses used, never takes quota. |
| Attachments.MarkedOnlyOnce | server/upm-server/src/db.rs:968-978 | A slot is marked uploaded at most once. |
| ServerRuns.QuotaAlways | server/upm-server/src/db.rs:883-936 | In every reachable state, and as time passes, no device holds more unexpired bytes than its quota. |
| Database.Connection.IssueChallenge | server/upm-server/src/auth.rs:142-162 | Issues or replaces the device's challenge. |
| Database.Connection.VerifyAndIssueSession | server/upm-server/src/auth.rs:168-217 | Consumes the challenge first, then refuses or grants, in the source's order of checks. |
| Database.Connection.Authenticate | server/upm-server/src/auth.rs:221-241 | Resolves a token and deletes the row of an expired one. |
| Database.Connection.RevokeSession | server/upm-server/src/auth.rs:244-253 | Removes exactly the token's session. |
| Auth.GrantedExactlyToKeyHolder | server/upm-server/src/auth.rs:168-217 | A session is granted if and only if the signature is by the device's registered key over its open, unexpired challenge. |
| Auth.AnsweredNonceIsGranted | server/upm-server/src/auth.rs:142-217 | The nonce answered is the one stored, and the registered key's signature over it is granted until the challenge runs out and refused as expired from then on. |
| Auth.GrantedTokenAuthenticates | server/upm-server/src/auth.rs:196-241 | A granted token authenticates as its device until its thirty days are over; after that it is refused and its row deleted. |
| Auth.RefusalReasons | server/upm-server/src/auth.rs:168-217 | An open challenge is refused as expired exactly when late, and for its signature exactly when in time and not signed by the registered key; it is spent in any case. |
| Auth.ChallengeIsSpent | server/upm-server/src/auth.rs:164-186 | After one attempt, successful or not, the same challenge cannot be tried again. |
| ServerRuns.AuthenticatedProvenance | server/upm-server/src/auth.rs:142-241 | Over any run, a token that authenticates as a device was granted, at most thirty days ago and not revoked since, to a signature by that device's registered key over a challenge issued to it at most 120 seconds before the grant. |
| ServerRuns.DistinctSessionsDistinctChallenges | server/upm-server/src/auth.rs:164-217 | Two sessions never come from one challenge. |
| ServerRuns.AuthenticatesExactlyWhenGranted | server/upm-server/src/auth.rs:168-253 | Before its thirty days are over a token authenticates if and only if it was granted and neither revoked nor its account deleted since. |
| ServerRuns.RevokedForEver | server/upm-server/src/auth.rs:243-253 | With tokens never drawn twice, a granted and revoked token never authenticates again. |
| ServerRuns.RegisteredDeviceSignsIn | server/upm-server/src/auth.rs:142-241 | From any state, an account registered, challenged and signed in with its key is who its token says. |
| ServerRuns.AcceptedMailIsQueued | server/upm-server/src/db.rs:718-849 | From any state, a message sent is queued, stays through a pull and goes when acknowledged. |
| ServerRuns.PublishedPrekeyIsHandedOut | server/upm-server/src/db.rs:592-658 | From any state, a new prekey of a device with none left is what a claim answers, with the key and signature published, and is claimed then. |
| ServerRuns.GrantedSlotIsKept | server/upm-server/src/db.rs:889-990 | From any state, a slot granted is there, is marked when its file is reported and goes when its owner deletes it. |
| BlobProtocol.NoOrphanBlobs | server/upm-server/src/api.rs:1107-1205 | Under every interleaving of uploads, owner deletions, account deletions and sweeps, whenever no handler is under way every blob file belongs to a row. |
| BlobProtocol.StepKeepsInv | server/upm-server/src/main.rs:238-256 | Every single step of every handler keeps every file accounted for by a row, a finished but unmarked upload, or a pending removal. |
| BlobProtocol.AdminDeleteKeeps | server/upm-server/src/admin.rs:105-119 | Deleting an account's rows under the lock hands its file names to the pending removals. |
| BlobProtocol.MarkedRowHasFileIff | server/upm-server/src/api.rs:1143-1205 | Over any interleaving of all handlers, a marked row that no mark step has found marked has its file at every moment; and whenever no handler is under way a marked row has its file if and only if no mark step of the run found it marked. |
| BlobProtocol.MarkListsIff | server/upm-server/src/api.rs:1193-1199 | A mark step puts its row's file up for removal if and only if the row is marked already. |
| BlobProtocol.UploadedRowHasBlob | server/upm-server/src/api.rs:1143-1205 | If no slot is uploaded twice, every row marked uploaded has its file at every moment of every interleaving. |
| BlobProtocol.ReuploadRemovesTheFile | server/upm-server/src/api.rs:1193-1199 | In any state of the server, with any other handlers under way, an upload that finds its row already uploaded removes the file of a row that stays marked. |
| BlobProtocol.UploadedRowCanLoseItsFile | server/upm-server/src/api.rs:1143-1205 | A concrete run in which that happens. |
| BlobHandlers.Server.HandleAttachmentUpload | server/upm-server/src/api.rs:1143-1205 | Run alone, an upload is accepted if and only if the slot is the caller's, live, of this size and the file can be written, and each refusal has its own exact condition; it is then the protocol's steps in order, marked exactly if the slot was not marked before, and success is reported exactly if the file is there. A refusal leaves tables and files as they were. |
| BlobHandlers.Server.HandleAttachmentDelete | server/upm-server/src/api.rs:1107-1137 | Run alone, deletion succeeds if and only if the caller owns the slot; it is then the protocol's steps in order and the file is gone. |
| BlobHandlers.Server.RunSweep | server/upm-server/src/main.rs:238-256 | The sweep and its unlink loop are the sweep steps in order. |
| BlobHandlers.Server.AdminDeleteAccountJson | server/upm-server/src/admin.rs:105-119 | Deletes one account of that name and exactly the files of its attachment rows. |
| RateLimiter.RateLimiter.CheckCall | server/upm-server/src/ratelimit.rs:62-83 | The map update with sweep, reset and fail-open computes Check. |
| RateLimiter.CheckRefines | server/upm-server/src/ratelimit.rs:62-83 | One call keeps the table a part of the unbounded one, answers as it does, and fails open exactly when the key is untracked and at least the maximum number of keys have live windows. |
| RateLimiter.SweepingIsInvisible | server/upm-server/src/ratelimit.rs:62-83 | Over any calls with a monotone clock the bounded limiter answers as the unbounded one, except the fail-open calls, which the unbounded one does not count. |
| RateLimiter.AllowedByHistory | server/upm-server/src/ratelimit.rs:62-83 | The law on the call history alone: windows are cut from the times of a key's counted calls, the first opening one and the next opened by the first call a window length later. In every run with a monotone clock a counted call is let through if and only if fewer than the limit precede it in its window; past 2^32 calls in one window, as many as the 32-bit counter shows. Blocked calls do not put off the next window. |
| RateLimiter.TableStaysBounded | server/upm-server/src/ratelimit.rs:66-71 | The map never exceeds its bound, whatever the clock does. |
| RateLimiter.SlidingBound | server/upm-server/src/ratelimit.rs:66-82 | In any stretch of one window length at most twice the limit less one counted calls of a key are allowed (at most the limit if the limit is at most one or the window one second), evictions included. |
| RateLimiter.BoundIsAttained | server/upm-server/src/ratelimit.rs:66-82 | For every configuration that tracks keys a run with a monotone clock attains that bound. |
| RateLimiter.PromiseHoldsIff | server/upm-server/src/ratelimit.rs:18-83 | At most `limit` counted hits in every stretch of `window_secs` seconds, over every run in which no 32-bit counter wraps, if and only if the limit is at most one or the window is one second. Calls that fail open are not counted. |
| RateLimiter.ZeroWindowNeverBlocks | server/upm-server/src/ratelimit.rs:77-82 | With a window of zero seconds and a positive limit no call is blocked. |
| Base64Loops.EncodeBuffer | server/upm-server/src/util.rs:26-47 | The chunk loop, with the source's 32-bit shifts, masks, `|` and table, computes Encode. |
| Base64Loops.DecodeBuffer | server/upm-server/src/util.rs:49-79 | Filtering, validating and the chunk loop with its or-assignments compute Decode, with its failures. |
| Base64Loops.SextetsAreDigits | server/upm-server/src/util.rs:33-44 | The masked shifts of a 24-bit word are its four base-64 digits. |
| Base64Loops.JoinedGroup | server/upm-server/src/util.rs:32-32 | The three bytes joined by shifts and `|` do not overlap: the word is their weighted sum. |
| Base64Loops.OrNext | server/upm-server/src/util.rs:66-68 | The or-assignment of a symbol puts it in its own place beside those already read. |
| Base64Loops.OctetsAreDigits | server/upm-server/src/util.rs:69-75 | The truncating casts of the shifted word are its three bytes. |
| Base64.RoundTrip | server/upm-server/src/util.rs:26-79 | decode(encode(x)) = x for every byte sequence, in 4 * ceil(length / 3) characters (section 4 of RFC 4648). |
| Base64.KnownEncodings | server/upm-server/src/util.rs:24-47 | Test vectors of section 10 of RFC 4648. |
| Base64.FixedRoundTrip | server/upm-server/src/util.rs:84-87 | A field of N bytes accepts encode(x) if and only if x has N bytes. |
| Base64.DecodableIff | crates/upm-core/src/ratchet.rs:434-464 | Text decodes if and only if every character is of the alphabet or padding, padding standing anywhere. |
| Identity.LocalIdentity.FindOneTimePrekey | clients/upm-windows/src/identity.rs:68-73 | Returns the secret of the first entry with the identifier. |
| Identity.FirstEntryIsFound | clients/upm-windows/src/identity.rs:68-73 | What is found is the secret of the first entry with the identifier. |
| Identity.FoundIffHeld | clients/upm-windows/src/identity.rs:68-73 | A secret is found if and only if the first entry with the identifier holds it. |
| Identity.LocalIdentity.RemoveOneTimePrekey | clients/upm-windows/src/identity.rs:75-77 | Keeps, in order, exactly the entries with other identifiers. |
| Identity.LocalIdentity.EnsureOneTimePrekeyPool | clients/upm-windows/src/identity.rs:79-85 | Appends exactly as many new entries as are missing. |
| Identity.UsedKeyIsReplaced | clients/upm-windows/src/identity.rs:68-85 | Removing a key and topping up: that key is gone, every other key is found as before, the pool is full. |
| LocalStore.LocalStore.PinOrVerifyPeer | clients/upm-windows/src/local_store.rs:129-152 | Pins the first identity key seen for a peer and accepts only that one later. |
| LocalStore.TrustedIffFirst | clients/upm-windows/src/local_store.rs:129-152 | After any run of the store a peer's key is accepted if and only if no other key was seen for it first. |
| LocalStore.LocalStore.LoadMessages | clients/upm-windows/src/local_store.rs:104-127 | Returns the peer's rows in order. |
| LocalStore.ShownInOrder | clients/upm-windows/src/local_store.rs:104-127 | A row committed later is shown after all others of its peer, and to no other peer. |
| LocalStore.ShownRows | clients/upm-windows/src/local_store.rs:104-127 | Exactly the peer's rows are shown. |
| LocalStore.LocalStore.IsMessageProcessed | clients/upm-windows/src/local_store.rs:186-200 | True only if the log holds the id for this very peer. |
| LocalStore.LocalStore.LoadOutbox | clients/upm-windows/src/local_store.rs:164-176 | Lists the whole outbox, each item once, oldest first. |
| LocalStore.SavedLastIsListedLast | clients/upm-windows/src/local_store.rs:154-176 | An item saved later than the rest of the outbox is the last to be retried. |
| LocalStore.LocalStore.CommitIncomingMessage | clients/upm-windows/src/local_store.rs:202-235 | Adds the row, the session's snapshot and the processed mark together, keeping an existing mark. |
| LocalStore.LocalStore.CommitOutgoingDelivery | clients/upm-windows/src/local_store.rs:237-268 | Adds the row and the session's snapshot and removes the outbox item together. |
| LocalStore.LocalStore.LoadPeerSession | clients/upm-windows/src/local_store.rs:319-342 | Returns the stored session, or none if there is none or its snapshot is refused. |
| LocalStore.CommittedSessionReloads | clients/upm-windows/src/local_store.rs:202-342 | After a commit exactly the committed session is reloaded if it has at most MAX_SKIP skipped keys, and none at all otherwise. |
| LocalStore.DeliveredSessionReloads | clients/upm-windows/src/local_store.rs:237-342 | After the commit of a delivered message exactly the session committed is reloaded if it has at most MAX_SKIP skipped keys, and none otherwise. |
| LocalStore.OtherSessionsStay | clients/upm-windows/src/local_store.rs:202-268 | Neither commit changes the stored session of another peer. |
| LocalStore.DuplicateIff | clients/upm-windows/src/local_store.rs:186-235 | Of the store's calls after decryption: a message already in the history is stored a second time if and only if the log holds its id for another peer. |
| LocalStore.CopiesAfterRun | clients/upm-windows/src/local_store.rs:129-268 | After any run of the store's calls, a peer's message is in the history once if that peer was the first to use its id, and otherwise as often as it was decrypted and handed to the store; the log names the first peer. |
| LocalStore.StoredTwiceIff | clients/upm-windows/src/local_store.rs:186-235 | A run of the store's calls keeps a message more than once if and only if it was handed to the store more than once and another peer used its id first. Redelivery.StoredAgainIff says when the client does so. |
| LocalStore.DuplicateInRunIff | clients/upm-windows/src/local_store.rs:186-235 | After any run of the store's calls the next call with a stored message adds a copy if and only if another peer was the first to use its id. |
| LocalStore.SharedIdIsStoredTwice | clients/upm-windows/src/local_store.rs:186-235 | A concrete case of three calls of the store with two peers using one id. Redelivery.FirstMessageStoredTwice is the case in the client. |
| Delivery.StoredAtMostOnce | clients/upm-windows/src/app.rs:880-1128 | With unique message ids, whatever is resent, redelivered or lost in a crash, a message enters its recipient's history at most once, and only as sent to it by its sender. |
| Delivery.ServerKeepsUntilCommitted | server/upm-server/src/db.rs:718-849 | The server gives up an accepted envelope only after the recipient committed it, it expired, or an account was deleted. |
| Delivery.ComposedIsKept | clients/upm-windows/src/app.rs:702-760 | A composed message is in the outbox or, once, in the sender's history, never both and never neither, and it is shown as sent only after the server accepted it. |
| Delivery.UndisturbedDelivery | clients/upm-windows/src/app.rs:702-1128 | From any state that meets the invariant, a message composed while the server has room is, once sent and once the recipient has polled, in both histories once, off the outbox and off the server: for every order in which the recipient's queue may come and whatever becomes of the other items in it. |
| Delivery.StepKeepsInv | clients/upm-windows/src/app.rs:702-1128 | Each step of any client, of the server or of a crash keeps the invariant behind these three. |
| Delivery.HandledClient | clients/upm-windows/src/app.rs:936-1121 | One turn of the poll loop keeps a client's history, log and acknowledgements consistent, whatever decryption and the disk do. |
| Delivery.StepIsServerOp | server/upm-server/src/db.rs:718-849 | Seen from the server the delivery protocol is a run of the operations of ServerRuns: each step is one of them or leaves the tables alone. |
| Delivery.CrashLosesWhatIsInHand | clients/upm-windows/src/app.rs:880-1128 | A crash loses what a client had pulled, confirmed and not yet acknowledged, and nothing that is stored; acknowledgements are cleared when sent. |
| ClientApp.UpmApp.HandleItem | clients/upm-windows/src/app.rs:936-1121 | The body of the poll loop, with all its early exits, computes Receive, and what it commits is a snapshot of the session after the item was read. |
| ClientApp.UpmApp.Poll | clients/upm-windows/src/app.rs:898-1121 | The poll loop reads the items in order, collects exactly the ids to acknowledge, and commits with each item a snapshot of the session open at that point. |
| ClientApp.UpmApp.EstablishResponderSession | clients/upm-windows/src/app.rs:828-878 | Identity, signature and prekey checks and the response compute EstablishResponder. |
| ClientLaws.EstablishedIff | clients/upm-windows/src/app.rs:828-878 | A session is set up if and only if the contact looked up is the sender and has the signer's key, the bootstrap is signed by it for this device over the very keys and prekey it names, the prekey is in the pool and no key is degenerate; a wrong or missing signature is refused as such. |
| ClientLaws.GreetedIff | clients/upm-windows/src/app.rs:966-1012 | An unknown sender is let in if and only if its bootstrap is genuine in that sense and its signer is contradicted by neither the pinned nor the looked-up key. |
| ClientLaws.StrangerIsRefused | clients/upm-windows/src/app.rs:936-1021 | With no conversation open for the sender, an unprocessed item without such a bootstrap is not acknowledged and leaves the conversation, sessions, history, log and prekeys as they were, and every pinned key. |
| ClientApp.UpmApp.OpenConversation | clients/upm-windows/src/app.rs:506-541 | Keeps the open conversation with the contact or opens one with the stored session. |
| ClientLaws.OpenedSessionIsStored | clients/upm-windows/src/app.rs:506-541 | Opening a conversation that is not open takes the stored session of the contact; one that is open stays. |
| ClientApp.UpmApp.SendChatPayload | clients/upm-windows/src/app.rs:543-760 | Packet, outbox, send, commit: computes SendPayload, whose session moves on only if the server took the message; the outbox item and the commit hold snapshots of the session that sealed the packet. |
| ClientLaws.SentSessionReloads | clients/upm-windows/src/app.rs:702-760 | After a send that is saved, taken and committed, the session in memory is the one that sealed the packet, the stored one reloads as it if it holds at most MAX_SKIP keys and as none otherwise, other peers' sessions are unchanged, and the message is shown last. |
| ClientLaws.SentSessionSurvivesRestart | clients/upm-windows/src/app.rs:506-760 | After such a send and a restart, the conversation opened again has the session that sealed the packet. |
| ClientApp.UpmApp.RetryOutbox | clients/upm-windows/src/app.rs:880-896 | Retries every outbox item once, oldest first; finishes exactly those the server takes and whose saved session can be restored, each committed with a snapshot of that session. |
| ClientLaws.RetriedSessionReloads | clients/upm-windows/src/app.rs:880-896 | After a finished retry the stored session reloads as the one saved with the item, and the message is shown. |
| ClientLaws.RetriedItemsAreGone | clients/upm-windows/src/app.rs:880-896 | A retry of the outbox removes exactly the items that the server takes and whose session restores. |
| ClientLaws.ReceiveIsDeliveryStep | clients/upm-windows/src/app.rs:936-1121 | Reading any item in any state of the client moves the store and the acknowledgements as one step of the delivery protocol, an accepting step exactly if the item is newly read. |
| ClientLaws.SendIsDelivery | clients/upm-windows/src/app.rs:702-760 | Sending, in any state and with any answers of disk and server, is the protocol's Compose, Post and CommitSent, as far as it gets, with the encoded packet and the snapshots it was given. |
| ClientLaws.RetryIsDelivery | clients/upm-windows/src/app.rs:880-896 | Retrying the outbox is one Post for each item and one CommitSent for each that is finished, whatever the server answers. |
| ClientLaws.AcknowledgedSessionReloads | clients/upm-windows/src/app.rs:1060-1110 | After a newly read item is acknowledged, the stored session reloads as the one in memory if that holds at most MAX_SKIP skipped keys, and as none otherwise. |
| EndToEnd.PollIsDelivery | clients/upm-windows/src/app.rs:898-1128 | The whole poll loop is a run of the delivery protocol, one turn for each item, ending in the same store and acknowledgements. |
| EndToEnd.FirstMessageArrivesIff | clients/upm-windows/src/app.rs:543-1128 | An honest first packet, composed in any encoding that decodes to it and accepted by the server, is after the recipient's next poll in both histories once and off the server if and only if, when its turn comes, the recipient still has the secret of the prekey it names, whatever else is in the queue. |
| ClientLaws.PrekeyKeptUntilUsed | clients/upm-windows/src/app.rs:1103-1108 | Over any run of the poll loop a one-time prekey keeps its secret until a message whose bootstrap names it is committed. |
| ClientLaws.PrekeyAfter | clients/upm-windows/src/app.rs:1103-1108 | Such a commit uses the prekey up and refills the pool, and nothing else uses it. |
| ClientLaws.FirstMessageIsReadIff | clients/upm-windows/src/app.rs:543-1108 | The first message of an honest initiator is read, stored and acknowledged if and only if the responder's first entry under the named prekey holds the advertised secret; it is then used up. |
| ClientLaws.ClaimedPrekeyWorks | clients/upm-windows/src/app.rs:828-1108 | If the pool's first entry under the named identifier holds the advertised secret, then whatever traffic came in between without using the prekey, the message of the one who claimed it is read. |
| Retries.NextPacketRepeatsIff | clients/upm-windows/src/app.rs:640-760 | In an established conversation the next packet has this one's header, and its message key, if and only if the send failed after this packet was made. |
| Retries.NextContactIsFirstIff | clients/upm-windows/src/app.rs:543-760 | On first contact the next packet starts a handshake of its own if and only if the send failed. |
| Retries.SendIsEvent | clients/upm-windows/src/app.rs:640-760 | A send is, for the conversation, an encryption if the client moves on and a sealing on a copy if it does not. |
| Retries.SecondUnderOneHeaderIsNeverRead | crates/upm-core/src/ratchet.rs:311-361 | Once the recipient has read a message, no other message under its header is read in any continuation, whether the first was read from the stash, on the chain or by a turn. |
| Retries.LostIsNeverAcknowledged | clients/upm-windows/src/app.rs:936-1121 | The client never acknowledges an item with a lost message, in any continuation. |
| Retries.OtherFirstContactIsRefused | clients/upm-windows/src/app.rs:936-1075 | While a conversation from one handshake is open, the first packet of another one from the same peer is refused and changes nothing. |
| Retries.FailedItemIsNeverRead | clients/upm-windows/src/app.rs:702-1121 | From any moment of any conversation: after a failed send and a successful one whose item was acknowledged, the first item is never acknowledged, in any continuation. |
| Retries.RetriedItemIsShown | clients/upm-windows/src/app.rs:880-896 | When the server takes the retried item it leaves the outbox and is shown as sent. |
| Retries.AcceptedItemIsNeverRead | clients/upm-windows/src/app.rs:543-1121 | A composed run for every honest setup: first contact, a failed send, a send that is acknowledged. A server with room then takes the failed item when it is retried, its saved session restores, it leaves the outbox and is shown as sent; its message was not read and is not acknowledged in any continuation of the open conversation. |
| Redelivery.StoredIff | clients/upm-windows/src/app.rs:936-1110 | With a conversation open in any state of it, the latest or one reloaded, an item is stored if and only if the log does not name it for this peer, its message is deliverable in that state and the disk works. |
| Redelivery.ReadIsNotStoredAgain | clients/upm-windows/src/app.rs:936-1110 | While the conversation stays open, an item whose message was read changes nothing when it comes again, whatever the log says. |
| Redelivery.FirstPacketReplaysIff | clients/upm-windows/src/app.rs:936-1110 | A first packet that was read is read again after a logout, whatever came in between and under any id, if and only if it names no one-time prekey and the log does not name that id for its sender. |
| Redelivery.StoredAgainIff | clients/upm-windows/src/app.rs:936-1110 | After a logout the same item is stored a second time if and only if its packet names no one-time prekey and its id was another peer's before. |
| Redelivery.FirstMessageStoredTwice | clients/upm-windows/src/app.rs:456-1110 | For every honest setup without a one-time prekey, such an item delivered twice with a logout between is acknowledged twice and leaves two rows. |
| Redelivery.FailedCommitIsRefusedNext | clients/upm-windows/src/app.rs:1013-1102 | An item that decrypts but cannot be shown or stored is not acknowledged, and not in any continuation of the open conversation. |
| Redelivery.FailedCommitIsReadAfterReopening | clients/upm-windows/src/app.rs:506-1102 | If the store held the session of before, such an item is read after the conversation is opened from it. |
| Redelivery.FailedCommitIsLostByTheNext | clients/upm-windows/src/app.rs:506-1102 | Once a later item has been committed, such an item is refused by the session the store gives back too. |

## Left out

- The insides of Ed25519, X25519, HKDF, ChaCha20-Poly1305, SHA-256 and the random generators (crates/upm-crypto): symbolic terms stand for them.
- JSON, base64 and hex framing of messages, packets and identifiers: messages and identifiers are values; a text that does not decode is a value of its own.
- Conversations.DecryptsExactlyUnreadMessages: assumes that send counters stay below 2^32 and that generated keys are new; the wrap of the release build is in the functions but no theorem follows a conversation through it.
- RateLimiter.PromiseHoldsIff: with a full table calls of an untracked key fail open without limit, as RateLimiter.CheckRefines says; they are not among the hits counted.
- RateLimiter.SlidingBound: for runs in which no 32-bit counter wraps; calls that fail open are not counted, as in the source.
- Accounts.RegistersExactlyFreeNames: case folding is the ASCII part of `to_lowercase`.
- ServerRuns.QuotaAlways: sizes go through the handler's check, which bounds them to 1..100 MiB, and a sum beyond 64 bits is not modelled.
- BlobProtocol.NoOrphanBlobs: assumes that workers do not crash and unlinks succeed; the source ignores a failed unlink and a crash between write and mark leaves a file behind. The temporary `.blob.part` file is part of the write step.
- Delivery.StoredAtMostOnce: assumes clients that follow the protocol and draw unique message ids, and a local store whose reads succeed; the source treats a failing lookup of the processed log as "not processed", and without a store it acknowledges without storing.
- ClientApp.UpmApp.HandleItem: the text shown for a decrypted payload, including the download of an attachment, is an input; the chat lines held in memory for display are not kept.
- Records of the local store that no longer decrypt under the local key: they are always readable here.
- An operation that reads the clock more than once reads it once here.
- Schema creation and migration, memberships and conversations tables, directory visibility, device-key updates, admin statistics.
- Monotonicity of the stored session: it does not hold in the code, since a retried item writes back the session saved with it. What a client reads after reloading such a session is Redelivery.StoredIff at the state reloaded; no run is followed through it.
- Retries.OtherFirstContactIsRefused: for a conversation that is open; after a restart the other first packet may be read and replaces the session.
- HTTP routing and headers, error texts, logging, the admin pages, the service wrapper, the thread pool, the user interface, the credential store, version negotiation, safety numbers, time formatting and hex encoding.
