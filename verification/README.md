# Verification models

Dafny models of the parts of this repository where a mistake is hardest to see by reading: the observer's
command mailbox, the stream collector and its revision-guarded records, the interface toolkit, the USB
diagnostics collector, and the patch and image formats. `dafny verify dfyconfig.toml` checks everything.

Each model takes the branches, constants and error paths of its source; the properties are stated for all
inputs, all runs or all interleavings.

## How the pieces are modelled

**Concurrent protocols** (`admission.dfy`, `mailbox*.dfy`, `seqlock.dfy`). Every actor is a small program whose
`Move` performs one atomic load, store or read-modify-write; `Step` lets any actor move, and `Exec` runs a
schedule, that is, any sequence of such moves. A theorem about `Exec` is a theorem about every interleaving of
every length. All memory orders are taken as sequentially consistent. An actor that dies is one that is never
scheduled again. Resolution of a request, the native call and the answers of other receipt families are
arbitrary (`choice`). `command_request_read` is a stable read, `claim_result` an exclusive claim that may fail
spuriously.

- `admission.dfy`: enrolment, lanes, hook entry and exit, the owner guard, the external gate, the closer's scan;
  `admission_close.dfy`: close safety; `admission_scan.dfy`: the scan by itself.
- `requests.dfy`: requests and `command_conflict`.
- `mailbox.dfy` is the machine: 32 slots, the owner serving them, one hook program for each of the 8 lanes, the
  consumer, the writer. `mailbox_words`, `mailbox_owner`, `mailbox_hooks`, `mailbox_retire` prove the invariant of
  its words; `mailbox_barrier` the seal barrier and honest reclamation; `mailbox_counts` the counters;
  `mailbox_conflicts` serialisation; `mailbox_receipts` and `mailbox_causal` the causal receipts;
  `mailbox_refusal` a run that shows where honest reclamation ends.
- `seqlock.dfy`: records of any number of words, one writer, any number of readers; the effects, Q-Link and I/O
  interests and the copied effects state are its instances.

**State changed in place** (`collector.dfy`, `sha256_stream.dfy`, `verification.dfy`, `epochs.dfy`, `export.dfy`, `ui*.dfy`, and
the methods of `patch.dfy`, `image.dfy`, `utf8name.dfy`) is classes, arrays and loops, proved against
specification functions whose own properties are lemmas. `sha256.dfy` is the standard itself. Host calls of the
toolkit are an oracle: any call may fail, in any order. The consumers' callbacks are scripts that may call back
into any app host to any depth. `ui_lifetime.dfy` and `ui_close.dfy` treat one object at a time; `ui_client.dfy` is a
consumer with any number of parents and screens.

## What turned out not to hold

Each of these is kept as the code has it, with a concrete witness and the exact condition.

- A refused request can carry `done`: if the refusal comes after the request was made active, and the application
  queues an item of its own with the same program, controller, kind and value in between
  (`MailboxRefusal.RefusedYetDone`). A reclaimed request carries `done` exactly when it was made active and one
  lane holds a complete triple for it (`MailboxCausal.DoneExactly`); a request refused before activation never does.
- A successful demand read need not be exactly one publication: the lease can have been renewed under it
  (`Seqlock.RenewedLeaseIsReturned`). Reads are exact if and only if no lease other than the published one was
  stored over a publication (`Seqlock.ReadIsExactExactly`, `Seqlock.ReadsAreExactExactly`); the other words always
  are (`Seqlock.SnapshotIsOnePublication`).
- `loadPatch` accepts manifests whose int64 sums wrap: in a span (`Patch.AcceptedOutOfRange`) or in the slot of the
  key (`Patch.LoadedOutOfRange`). A loaded manifest can be applied exactly when none of these sums does
  (`Patch.LoadedExactly`; for the spans alone, `Patch.AcceptedExactly`).
- `decodeRootBytes` returns a printed root exactly when it has the one size it expects (`Image.RoundTrip`).
- A hide that throws inside the visibility calls leaves earlier children hidden although the screen stays visible
  (`UiScreens.TornHide`). Which answers of the host leave the children consistent is `UiScreens.Mends`; they do
  exactly then (`UiScreens.HideLeaves`). The visibility of screens is not affected.
- A close attempted in a callback that the depth counts (a click, a selection, a slider event) is turned away before
  anything becomes closing; the silence of a screen begins with the first attempt at depth 0 (`UiClose.Close`).
- The callback for the text of a row is not counted. A close made from there is let in, and the painting reads the
  list afterwards, which by then has been destroyed exactly when the host let go of the screen (`UiClose.Paint`; a
  run in which it has is `UiClient.ClosedWhilePainting`).
- A close of a consumer runs inside whatever callbacks its operation was called in. An open may be called in any
  (`UiApp.OpenInsideCallback`); a drain or a forced destroy runs the close exactly when no counted callback and no
  other operation on the same host is under way (`UiApp.DoDrain`, `UiApp.DoDestroy`), so inside the painting of rows
  and operations on other app hosts, and nothing else (`UiApp.ProperExactly`, `UiApp.DrainWhilePainting`).

## Model

| member | source | states |
|---|---|---|
| `Admission.StepKeepsInv` | `controllers/program-observer/command-capture.c:46-52` | every atomic access of every actor (threads enrolling, taking a lane, entering and leaving a hook, the UI owner, the writer, the closer) keeps the admission invariant: lane tokens and claims belong to one live thread each, the enrolment count is exactly the set of threads it stands for, a flag is raised only by its lane's thread |
| `Admission.Exec` | `controllers/program-observer/command-capture.c:110-166` | the invariant holds after every schedule of such accesses, of any length and by any number of threads |
| `AdmissionClose.CloseSafety` | `controllers/program-observer/command-capture.c:109-118` | in every schedule: once `observer_running` is 0 and a step-by-step scan of `command_quiescent` has returned 1, no thread is inside a lane-guarded or owner-guarded publication or still enrolling for a first lane, and none is after any further schedule; the lane registry no longer changes |
| `AdmissionClose.CloseIsFinal` | `controllers/program-observer/command-capture.c:779-793` | the same from any reachable state: everything scheduled after the scan leaves the observer closed and the external gate shut |
| `AdmissionClose.LanesAreExclusive` | `controllers/program-observer/command-capture.c:121-133` | no schedule gives two live threads the same lane |
| `AdmissionClose.CountIsBounded` | `controllers/program-observer/command-capture.c:46-52` | the enrolment count never exceeds the number of threads, whatever exclusives are lost, so it cannot wrap |
| `AdmissionScan.ScanAloneIsExact` | `controllers/program-observer/command-capture.c:110-118` | left alone, the scan returns 1 exactly when every word it reads is clear: running, owner flag, gate, enrolment and all lane flags |
| `AdmissionClose.QuietIsClosed` | `controllers/program-observer/command-capture.c:110-118` | what a scan that returned 1 proves about every thread, the owner and the writer |
| `Requests.ConflictIsSymmetric` | `controllers/program-observer/command-state.h:277-304` | `command_conflict` does not depend on the order of its arguments, over all requests |
| `MailboxWords.InitialInv` | `controllers/program-observer/command-capture.c:95-103` | the fresh mailbox satisfies the invariant of its words |
| `MailboxRetire.StepKeepsInv` | `controllers/program-observer/command-capture.c:356-379` | every atomic access of the owner, of each lane's hook, of the consumer and of the writer keeps the invariant: each mark of a request rests on the earlier ones, a sample always names its slot's current, unsealed, unreclaimed request, at most the writer's two stores are in flight |
| `MailboxRetire.Exec` | `controllers/program-observer/command-capture.c:401-475` | the invariant holds after every schedule of these accesses |
| `Mailbox.Find` | `controllers/program-observer/command-state.h:269-276` | the slot a sequence is published in, or none |
| `MailboxBarrier.SealBarrier` | `controllers/program-observer/command-capture.c:351-379` | when the consumer has found slot and lanes clear, seals or reclaims sequence s: no thread inside a hook holds s in its sampled `source_requests`, and s is no longer active to be sampled |
| `MailboxBarrier.BarrierStep` | `controllers/program-observer/command-capture.c:171-181` | each later access leaves the barrier standing and the slot's logs and marks untouched, until the writer reuses the reclaimed slot for a larger sequence |
| `MailboxBarrier.BarrierIsFinal` | `controllers/program-observer/command-capture.c:134-180` | the same over every schedule, also after the writer has reused the slot: no thread holds s in its sampled `source_requests`, no slot is active with s, and every event for s in any lane of any slot was there when the barrier stood; as long as the slot still publishes s its logs and marks are untouched, and once it does not, it publishes something larger |
| `MailboxBarrier.GracePeriod` | `controllers/program-observer/command-capture.c:351-379` | the grace period from the start: after any schedule in which the consumer has found a slot clear and sealed or reclaimed it, no later schedule lets anyone hold its sequence or append an event for it |
| `MailboxBarrier.HonestReclamation` | `controllers/program-observer/command-capture.c:356-379` | a reclaimed sequence was either refused, never native-started and carries none of dispatched, returned, sealed, settled, or it was executed and has processed, returned, done, sealed and settled all equal to it; a refused one that was never made active has no done either |
| `MailboxBarrier.HonestReclamationAlways` | `controllers/program-observer/command-capture.c:401-475` | exactly one of the two, after every schedule |
| `MailboxCounts.CountersAreExact` | `controllers/program-observer/command-capture.c:374-377` | after every schedule `consumed` and `reclaimed` count sets of sequences, each sequence once, with reclaimed <= consumed <= published |
| `MailboxCounts.StepKeepsCounts` | `controllers/program-observer/command-capture.c:474-475` | every access keeps the counters exact, whoever moves |
| `MailboxCounts.AfterOwnerCounts` | `controllers/program-observer/command-capture.c:432-432` | the owner counts exactly the request it has just marked processed |
| `MailboxConflicts.ConflictsAreSerialised` | `controllers/program-observer/command-capture.c:416-425` | after every schedule, for any order in which the owner visits the slots and any reuse of slots: two conflicting requests are never both accepted (or refused) and unreclaimed |
| `MailboxConflicts.ProcessedAfterOlder` | `controllers/program-observer/command-capture.c:416-425` | the access that marks a request processed finds every older conflicting one reclaimed |
| `MailboxConflicts.NeverBothTaken` | `controllers/program-observer/command-capture.c:528-540` | the state form of the same: of two taken, unreclaimed requests neither conflicts with the other |
| `MailboxReceipts.ChainShows` | `controllers/program-observer/command-capture.c:182-228` | reading a lane's log event by event finds exactly its shape: nothing, one QUEUE, then one BODY, then one DONE, linked COMMITs only between BODY and DONE, all with one capture and the dispatched value |
| `MailboxCausal.CausalReceipt` | `controllers/program-observer/command-capture.c:182-228` | after every schedule without a trace error, on the native queue path: `done` equal to the sequence implies a complete triple in one lane, and every lane's log of an activated request is an ordered call |
| `MailboxCausal.LogsAreOrdered` | `controllers/program-observer/command-capture.c:760-768` | at most one QUEUE, then BODY, then DONE in each lane's log, linked COMMITs only in between |
| `MailboxCausal.MatchIsAttributed` | `controllers/program-observer/command-capture.c:193-204` | the attribution loop settles on a slot only through a sample that names that slot's admitted request and its dispatched value |
| `MailboxCausal.StepKeepsReceipts` | `controllers/program-observer/command-capture.c:171-228` | every access of every actor keeps logs and threads in agreement, or latches a trace error for good |
| `MailboxCausal.DoneExactly` | `controllers/program-observer/command-capture.c:448-453` | a reclaimed request of the queue path, refused or not, carries `done` exactly when it had been made active and one lane holds a complete triple for it |
| `MailboxRefusal.RefusedYetDone` | `controllers/program-observer/command-capture.c:448-453` | a complete schedule in which a request refused after its activation is reclaimed with `done` equal to its sequence, because the application queued an identical item in between |
| `Seqlock.StepKeepsInv` | `controllers/program-observer/command-client.c:362-363` | every store of the writer and every load of every reader keeps the invariant and every completed publication |
| `Seqlock.SnapshotIsOnePublication` | `controllers/program-observer/effects-state.h:35-46` | over every interleaving, a successful read returns the words of one completed publication; only the lease word may be a renewal stored while that publication was current, and the read is exactly the publication if and only if the lease it returned is the published one |
| `Seqlock.ReadIsExactExactly` | `controllers/program-observer/effects-state.h:35-46` | for a record of any size in any reachable state between two writes: a read begun now returns the words as they stand, which are the current publication if and only if the lease as it stands is the published one |
| `Seqlock.ReadsAreExactExactly` | `controllers/program-observer/effects-state.h:35-46` | over every run and record size: a reader that comes along gets exactly one publication, at whatever point between writes it comes, if and only if no lease other than the published one was ever stored over a publication |
| `Seqlock.SnapshotIsExact` | `controllers/program-observer/effects-state.h:35-46` | under that condition every read of every interleaving, however disturbed, is exactly one completed publication |
| `Seqlock.RenewedLeaseIsReturned` | `controllers/program-observer/mirror-input-core.h:92-93` | a run on the six words of the effects interest: the lease is renewed, and a read returns the five older words with a lease that was never published with them |
| `Seqlock.RevisionsAreNotReused` | `controllers/program-observer/command-client.c:362-363` | whatever follows, a completed publication keeps its revision and words, the revision never reaches UINT32_MAX, and no reader goes back to an older one |
| `Seqlock.RefusedExactlyWhenFull` | `controllers/program-observer/command-client.c:362-362` | between writes a publication is refused exactly when 2^31 - 1 publications have been made |
| `Collector.Cursor.Gap` | `controllers/program-observer/command-client.c:285-285` | one gap line accounts for each ticket of its range once more, and for no other; an empty range prints nothing |
| `Collector.Cursor.Gaps` | `controllers/program-observer/command-client.c:294-300` | the scan reports every unseen ticket before the run still open, and no seen one |
| `Collector.Cursor.Advance` | `controllers/program-observer/command-client.c:292-301` | tickets that left the ring unseen are reported once each, also when more than a whole turn was missed |
| `Collector.Cursor.Records` | `controllers/program-observer/command-client.c:302-306` | every ticket in the ring that can be read and was not yet seen becomes one record and is remembered; if the output fails on one, none has been reported twice |
| `Collector.Cursor.Collect` | `controllers/program-observer/command-client.c:289-311` | one call keeps every ticket below the ring reported once and those in it exactly when seen; a final call leaves 1..count partitioned |
| `Collector.Stream` | `controllers/program-observer/command-client.c:320-340` | for any nondecreasing counts, any read successes and any number of polls before the final one: the records and gaps partition 1..count |
| `Collector.PartitionMeans` | `controllers/program-observer/command-client.c:286-288` | a partition is one line for every ticket, no line shared, nothing else reported |
| `Sha256Standard.RoundConstants` | `firmware/usb-diagnostics.c:114-114` | each of the 64 table entries is the first 32 bits of the fraction of the cube root of the corresponding prime (section 4.2.2 of FIPS 180-4) |
| `Sha256Standard.InitialValue` | `firmware/usb-diagnostics.c:121-121` | the initial value is the fractions of the square roots of the first eight primes (section 5.3.3) |
| `Sha256Standard.Rotations` | `firmware/usb-diagnostics.c:112-112` | the shift-and-or rotation is the rotation, for every amount used |
| `Sha256Standard.PaddingIsLeast` | `firmware/usb-diagnostics.c:123-123` | the zero bits appended are the least number that satisfies section 5.1.1 |
| `Sha256Standard.OctetsValue` | `firmware/usb-diagnostics.c:123-123` | the eight bytes written are the number of bits, most significant first |
| `Sha256Stream.Sha.Absorb` | `firmware/usb-diagnostics.c:113-120` | `sha_block` is the compression function of section 6.2.2 |
| `Sha256Stream.Sha.Update` | `firmware/usb-diagnostics.c:122-122` | `sha_add` appends its bytes to what has been fed, for any length and any fill of the buffer |
| `Sha256Stream.Sha.Finish` | `firmware/usb-diagnostics.c:123-123` | `sha_end` absorbs exactly the padded message and returns the chaining value as bytes |
| `Sha256Stream.FinishedIsDigest` | `firmware/usb-diagnostics.c:123-123` | that is the standard's digest for every message below 2^61 bytes, in spite of the wrapping counter |
| `Sha256Stream.Hash` | `firmware/usb-diagnostics.c:121-123` | `sha_init`, any sequence of `sha_add` calls and `sha_end` give the digest of sections 5.1.1, 5.3.3 and 6.2 of FIPS 180-4 of the whole message |
| `Verification.Cache.Request` | `firmware/usb-diagnostics.c:292-299` | all invariants of the cache survive; a known file keeps its entry, a new one takes the first unused slot or the least recently used evictable one, hashing and exact entries are never evicted, and none is returned exactly when every entry is busy or exact |
| `Verification.Cache.Step` | `firmware/usb-diagnostics.c:301-311` | all invariants survive; at most one entry is worked on, a hash starts only when none runs and the interval has passed, exact entries stay, and the result is true exactly when something a report shows has changed |
| `Verification.Cache.Start` | `firmware/usb-diagnostics.c:303-303` | hashing starts exactly when the descriptor opened, names the entry's file and the process is the one asked about; otherwise no descriptor is left open |
| `Verification.Cache.Tick` | `firmware/usb-diagnostics.c:308-310` | one turn adds at most the allowed bytes, or closes the descriptor: unavailable on a failed read or a changed file, exact or mismatch by the digest of all bytes fed |
| `Verification.Cache.Vacate` | `firmware/usb-diagnostics.c:294-294` | which slot gives way |
| `Verification.ReplaceKeeps` | `firmware/usb-diagnostics.c:291-299` | changing one entry keeps the keys distinct and at most one entry hashing |
| `Verification.ExactMeans` | `firmware/usb-diagnostics.c:309-309` | an exact entry's digest is the expected one, computed over all bytes read from a descriptor that named the same unchanged file at both ends, and no descriptor is open for it |
| `Verification.DigestedIsStandard` | `firmware/usb-diagnostics.c:123-123` | the digest compared is the standard's for files below 2^61 bytes |
| `Verification.VerdictIsStandard` | `firmware/usb-diagnostics.c:309-309` | below 2^61 bytes an exact entry's bytes have the expected digest by the standard, a mismatching entry's have another, and both were read under one unchanged key |
| `Verification.Run` | `firmware/usb-diagnostics.c:292-311` | the cache the program builds, through any sequence of requests and turns: every exact and every mismatch verdict is the standard's |
| `Export.Collector.Admit` | `firmware/usb-diagnostics.c:236-244` | a destination is ready exactly when it is the one marked candidate or an only candidate that could be marked; the marker is attempted exactly for an only, unmarked candidate |
| `Export.Collector.External` | `firmware/usb-diagnostics.c:255-279` | a report is in place after success, and may be after a failure that came after the rename |
| `Export.Collector.Write` | `firmware/usb-diagnostics.c:473-474` | the collector turns clean only in a turn that wrote the report everywhere it still writes; after invalidation nothing is written outside |
| `Export.Collector.Loop` | `firmware/usb-diagnostics.c:460-475` | one turn of the main loop keeps all of this and never takes back an invalidation |
| `Export.Run` | `firmware/usb-diagnostics.c:456-475` | over whole runs: the marker is attempted at most once, at most one destination is ever admitted, export_valid is the negation of export_invalidated, no report is written outside after invalidation, reports go to the admitted destination and are at least the interval apart |
| `Epochs.History.Add` | `firmware/usb-diagnostics.c:426-431` | the window keeps the newest eight epochs in order, the counters say what it has lost |
| `Epochs.Run` | `firmware/usb-diagnostics.c:426-431` | after any number of epochs the window holds exactly the last ones, with consecutive ordinals up to the total, and dropped and truncated say what is missing |
| `Epochs.NewestMore` | `firmware/usb-diagnostics.c:427-427` | one more epoch pushes out exactly the oldest of a full window |
| `Patch.Diff` | `firmware/make-patch.py:16-27` | for any two equal-length images: the spans tile the root in order, use the patch bytes in order, cover exactly the differing bytes and carry the new ones |
| `Patch.MakePatch` | `firmware/make-patch.py:9-29` | output is produced exactly for two images of the pinned size and, with SSH, a key line that occurs exactly once; its manifest describes it |
| `Patch.CheckSpans` | `builder/patch.go:91-101` | the loop computes the verdict of `Checked`, in wrapping int64 arithmetic |
| `Patch.AcceptedExactly` | `builder/patch.go:91-101` | the spans tile the patch within the root exactly when they are accepted and no span's sums leave int64 |
| `Patch.AcceptedOutOfRange` | `builder/patch.go:92-92` | an accepted span outside the root, whose end wraps |
| `Patch.LoadedExactly` | `builder/patch.go:56-102` | a manifest that was loaded can be applied, spans and key slot in range, exactly when no span's sums and not the end of the key slot leave int64 |
| `Patch.LoadedOutOfRange` | `builder/patch.go:82-82` | a manifest that is loaded, whose spans tile and whose key slot lies outside the root, because its end wraps |
| `Patch.PatchByteOnce` | `builder/patch.go:91-101` | every patch byte is used by exactly one span |
| `Patch.ApplySpans` | `builder/patch.go:143-145` | the in-place copies compute `Applied`, span after span |
| `Patch.ApplyPatchBytes` | `builder/patch.go:139-154` | when the result is accepted, and what the root holds afterwards, also on refusal |
| `Patch.AppliedAt` | `builder/patch.go:143-145` | in any order and however often: the target's byte where a faithful span was copied, the root's elsewhere |
| `Patch.AppliedIsTarget` | `builder/patch.go:143-145` | the differ's spans in any order turn the original into the patched image |
| `Patch.RoundTrip` | `builder/patch.go:85-154` | what the differ prepares is accepted by the loader, tiles the patch, and applied in any order gives the patched image, its checksum and the key in place |
| `Image.CheckHeader` | `builder/image.go:124-157` | accepts exactly the headers of the format |
| `Image.InspectBytes` | `builder/image.go:120-172` | accepts exactly the well-formed images, and returns their layout, in wrapping int64 arithmetic |
| `Image.InspectFile` | `builder/image.go:52-118` | the file parser accepts exactly the same byte strings with the same layout |
| `Image.Ends` | `builder/image.go:160-165` | where the sums for the end of the root wrap, the length test refuses |
| `Image.EncodeBytes` | `builder/image.go:206-231` | the buffers filled in place hold the printed image |
| `Image.EncodeFile` | `builder/image.go:296-361` | the file encoder, which writes the header last, produces the same bytes |
| `Image.RoundTrip` | `builder/image.go:120-231` | printing with any parsed layout gives an image that parses to the new size and digest and otherwise the same header, and that decodes to the root exactly when the root has the one size the decoder takes |
| `Utf8Name.CopyName` | `controllers/program-observer/native-name.h:4-23` | success gives a well-formed prefix; a text that fits is taken whole if and only if it is well formed; a longer one is taken if and only if it has whole characters up to the limit and at most the start of one more, and exactly those characters are kept |
| `Utf8Name.Decode` | `controllers/program-observer/native-name.h:10-19` | the decoder accepts exactly the characters of section 4 of RFC 3629 and reports a cut one exactly when its announced length exceeds what is left |
| `Utf8Name.PointIsSyntax` | `controllers/program-observer/native-name.h:12-18` | the arithmetic test on the code point is the standard's syntax table |
| `Utf8Name.LongestPrefix` | `controllers/program-observer/native-name.h:21-22` | what is kept is the longest well-formed prefix within the limit |
| `Utf8Name.WellFormedIsKept` | `controllers/program-observer/native-name.h:16-22` | every well-formed text has such a part, so it is never refused |
| `UiScreens.SetVisible` | `ui/mpclearn-ui.cc:1937-1960` | which widgets were set before a host call threw, and how many calls were made |
| `UiScreens.HideVisible` | `ui/mpclearn-ui.cc:1989-2006` | a hide succeeds exactly when the host takes every call; a failed one leaves the screen visible; which call it stopped at, how far the children were restored, how many calls were made and every child as it is then |
| `UiScreens.ShowHidden` | `ui/mpclearn-ui.cc:1967-1987` | a show succeeds exactly when the host takes the focus and every visibility call, and then shows exactly the requested, attached children; a failed one stays hidden, and every child is as this says: hidden again up to where the restoration got, shown from there to where the throw was, untouched beyond |
| `UiScreens.Show` | `ui/mpclearn-ui.cc:1967-1987` | a closing screen is never shown; a visible one is left alone |
| `UiScreens.HideLeaves` | `ui/mpclearn-ui.cc:1989-2006` | a hide of a consistent screen leaves it consistent exactly when, by the host's answers from the next call on, it goes through, or no child that is to be seen is come to before the refused call, or, when that is the focus call, every such child is come to again |
| `UiScreens.TornHide` | `ui/mpclearn-ui.cc:1997-2004` | a host that throws at the second of two buttons leaves the first one hidden in a visible screen |
| `UiSuspend.Suspend` | `ui/mpclearn-ui.cc:978-1034` | success hides exactly the visible screens and remembers them; failure restores the exact prior visibility or ends suspended with the remembered set kept; refusal changes nothing |
| `UiSuspend.Resume` | `ui/mpclearn-ui.cc:1036-1085` | success gives every remembered screen back and forgets; failure stays suspended with the remembered set intact; refusal changes nothing |
| `UiSuspend.Cycle` | `ui/mpclearn-ui.cc:978-1085` | a suspend, any number of failed resumes and a successful one give every screen its original visibility |
| `UiClose.Deliver` | `ui/mpclearn-ui.cc:240-250` | a click, selection or slider event reaches its owner exactly when its widget is live, its screen is not closing and the other tests of the event accept it; the callback depth balances |
| `UiClose.LetGo` | `ui/mpclearn-ui.cc:540-586` | success means the host holds no reference to any widget; no failure reconnects one; it succeeds exactly by the answers `LetsGo` names, whatever becomes of the hide in between |
| `UiClose.Unlink` | `ui/mpclearn-ui.cc:2054-2061` | the screen is found and taken out of its parent's list, which stays linked; the branch that would not find it is unreachable |
| `UiClose.Strike` | `ui/mpclearn-ui.cc:2054-2064` | the counters of parent and context remain the lengths of their lists |
| `UiClose.Close` | `ui/mpclearn-ui.cc:2008-2067` | a close at a positive callback depth changes nothing; any other makes the screen closing and silent for good, and destroys it exactly when the host's answers let every disconnection through; then it is out of every list and count |
| `UiClose.Paint` | `ui/mpclearn-ui.cc:284-313` | the owner is asked for a row's text exactly when the list is live, its screen not closing and the row fits; a close made from there leaves the list destroyed, when the painting reads it again, exactly when the depth is 0, the host lets go and there was an answer to draw or a throw |
| `UiClose.Place` | `ui/mpclearn-ui.cc:1844-1873` | placing a widget attaches it whether or not its screen is closing, and makes it visible exactly when the screen is; out of bounds nothing changes |
| `UiClose.AfterClose` | `ui/mpclearn-ui.cc:2008-2067` | however often close is retried, whatever the host fires or paints and whichever widget is placed again in between, no callback of a closing screen runs again, not even for the text of a row, and nothing is destroyed while connected |
| `UiLifetime.ParentCreate` | `ui/mpclearn-ui.cc:784-834` | the counters remain the lists |
| `UiLifetime.ParentDestroy` | `ui/mpclearn-ui.cc:836-850` | a parent is freed exactly when its counters are zero, and then no screen and no app host refers to it |
| `UiLifetime.ContextDestroy` | `ui/mpclearn-ui.cc:767-782` | a context is freed exactly when its counters and the callback depth are zero, and then nothing refers to it |
| `UiLifetime.ScreenCreate` | `ui/mpclearn-ui.cc:1212-1241` | a new screen heads its parent's list; the counters remain the lists |
| `UiLifetime.HostCreate` | `ui/mpclearn-ui.cc:852-882` | one app host for a parent without screens; the counters remain the lists |
| `UiLifetime.HostFree` | `ui/mpclearn-ui.cc:1186-1193` | the host leaves parent and context; the counters remain the lists |
| `UiLifetime.WidgetCreate` | `ui/mpclearn-ui.cc:1243-1540` | a closing screen gets no widget; a new one heads those of its kind, and the screen still owns distinct widgets |
| `UiClient.CloseScreen` | `ui/mpclearn-ui.cc:2008-2067` | with several parents and screens in one context: every other parent, its list and its counters, and every other screen with its widgets, remain in order |
| `UiClient.FreeParent` | `ui/mpclearn-ui.cc:836-850` | with several parents: a parent goes exactly when its lists are empty, and everything else remains in order |
| `UiClient.Run` | `ui/mpclearn-ui.cc:767-2067` | any sequence of calls that create, place, show, hide, click, close and destroy over any number of parents, screens, widgets and app hosts (opened and closed at will), with the host failing anywhere, ends in order; the context is gone only if nothing made in it is left |
| `UiClient.NothingDangles` | `ui/mpclearn-ui.cc:767-850` | what order means: a screen or app host that has not been freed belongs to a parent that has not been freed, a parent counts exactly the screens and app hosts that refer to it, a destroyed widget of a remaining screen is disconnected, and of a context that is gone everything has been freed |
| `UiClient.ClosedWhilePainting` | `ui/mpclearn-ui.cc:295-297` | with a host that takes every call: an owner that closes the screen when asked for a row's text has destroyed the list before the painting reads it |
| `UiApp.DoOpen` | `ui/mpclearn-ui.cc:915-948` | an open either leaves the consumer open with screens, or runs its close once, inside exactly the callbacks the open was called in; turned away it changes nothing |
| `UiApp.DoDrain` | `ui/mpclearn-ui.cc:1104-1142` | the consumer's close runs exactly when it is ready, its close was requested, and neither a counted callback nor a transition of this host is under way; the consumer is closed only when that succeeded with no screens left, and otherwise stays open with its close request |
| `UiApp.DoDestroy` | `ui/mpclearn-ui.cc:1144-1193` | a host goes only when its consumer is closed, at depth 0 and outside its own transitions; a forced destroy runs the close exactly when it is ready and the guards let it |
| `UiApp.Perform` | `ui/mpclearn-ui.cc:884-1193` | every call on any of several app hosts, with callbacks calling back in to any depth: the flags' implications and the depth are kept, the depth is the number of counted callbacks under way, a transition flag is raised exactly while that host's consumer is being called, and a call made during a transition of a host changes no flag of it but the close request |
| `UiApp.Run` | `ui/mpclearn-ui.cc:884-1193` | over all call sequences on any number of fresh hosts, with widgets' callbacks, rows being painted and the consumers' own callbacks calling back in: close_requested implies opened, opened implies registered, suspended implies opened, the callback depth balances, no close of a consumer runs during another transition of its host, and none runs for a drain or destroy called in a counted callback |
| `UiApp.ProperExactly` | `ui/mpclearn-ui.cc:1104-1162` | a drain's or destroy's close is proper exactly when all that was under way when it was called is rows being painted and operations on other hosts |
| `UiApp.OpenInsideCallback` | `ui/mpclearn-ui.cc:937-939` | an open called in a widget's callback: its unwinding close runs inside that callback |
| `UiApp.DrainWhilePainting` | `ui/mpclearn-ui.cc:295-295` | a drain called when a row's text is asked for: the consumer's close runs inside that callback |
| `UiGrid.AcceptedCellsFit` | `ui/mpclearn-ui.cc:1902-1935` | accepted cells lie within the screen |
| `UiGrid.DisjointExactly` | `ui/mpclearn-ui.cc:1902-1935` | the bounds of two placements on one grid overlap exactly when they share a cell |

## Left out

- Memory orders weaker than sequential consistency: every load and store is one step in a single order.
- ARM detours, native object layout, vtable checks and the other capture families: hardware and unseen code.
- `Mailbox.OwnerMove`: models the ordinary operations of `service_one`; requests handed to other services (chooser, I/O, Q-Link, jog, wheel, focus, master, global) only occupy their slots.
- `Mailbox.OwnerPrepare`: the metadata of an admitted request is stored in one step, before the request is made active and visible to any hook.
- `Mailbox.HookMove`: the search for the slot of an event and the append are one step, and one hook program stands for the live thread of each lane, which `AdmissionClose.LanesAreExclusive` justifies; a thread that dies inside a followed native call and whose token, and with it the lane, is taken by a new thread with a zeroed `invocation` is not among the schedules.
- `Mailbox.RetireCheck`: enrolment and the receipts of other families are arbitrary answers here; enrolment itself is module Admission.
- `Mailbox.WriterMove`: the loads of a publication that only the writer changes are taken with its first step, and its own refusal of a conflicting request is not relied on.
- `Seqlock.Step`: the writer's exclusivity comes from the file lock and the external gate, which are not part of this module.
- The words of a processor observation and the ring's own producers: whether a ticket can be read is an arbitrary answer in every poll.
- `Verification.Cache.Tick`: interrupted reads are retried without effect and do not appear; the embedded hash state is the bytes fed to it.
- `Export.Collector.Admit`: discovery of mounts and the identity checks of a destination are inputs, as are the clock (positive and monotone) and the result of each file operation.
- `Patch.ApplySpans`: demands spans in range, where Go would panic; so does `Patch.ApplyPatchBytes`, with the slot of the key. `Patch.LoadedExactly` says when the loader guarantees both.
- `Image.RoundTrip`: compression is any function with a left inverse and nonempty output, SHA-1 any function with 20 bytes of output; progress reports, file handles and the streaming decoder `decodeRoot` are not modelled.
- `UiClose.Deliver`: the body of a widget's callback is not run here; callbacks that call back in are module UiApp.
- `UiClose.Paint`: closing the screen is the one call the owner may make there, and the drawing after the list is read again is not modelled; `UiApp.Run` lets it make any call on the app hosts.
- A parent's attach, detach and focus callbacks answer like any other host call; they do not call back in.
- `UiApp.DoSuspend`: only the flags; what happens to the screens is module UiSuspend. The forced invalidation of screens by a refused destroy is not modelled there.
- `UiLifetime.WidgetCreate`: one answer of the host stands for all the calls of a creation; what a failed creation cleans up is not modelled.
- Thread checks of the toolkit (`on_ui_thread`), fonts, drawing and text: every call is on the UI thread, and the distinction between a failed allocation and a throwing one is dropped.
- Widgets are one sequence for each screen instead of three linked lists; screens are a linked list as in the source.
- ALSA and button adapters, `/proc`, DRM and mount parsing, SSH keys, assets and wasm glue: device and library plumbing that would only add easy members.
