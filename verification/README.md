# Ardents network: verified protocol cores

A Dafny model of the parts of the Ardents network repository in which something must stay true over whole runs:
crashes, retries, interleavings, clock changes and conflicting inputs included. Where the original updates state step
by step, the model is a class whose methods are its operations or critical sections; where it computes, the model is
functions and lemmas. Check it with `dafny verify dfyconfig.toml`.

## What is modelled

**Contributor update** (`ContributorDisk`, `ContributorHost`, `ContributorRecovery`, `ContributorUpdate`). One host's
disk: program and configuration directories at current, previous and next, the management executable, the installation
record and the update marker. Every rename, removal and atomic write is a step that the environment may refuse and in
which the process may die; a dead process changes nothing more, so a contract speaks about every interruption point.
What happens to which step is a script given beforehand, so particular runs can be followed as well. `faults` counts
refused and cut-short steps, so "left in peace" is `faults == old(faults)`.

**Custody** (`AuthorityFloor`, `FloorText`, `FloorStore`, `RecoveredAuthority`, `FloorProgress`, `AdmissionJournal`,
`AdmissionJournalCodec`, `AdmissionAuthority`, `AdmissionProgress`, `ServiceCredential`, `ServiceProgress`). The floor file as one sorted list for all bindings,
with the text it is written as and both of its limits; the activation of a recovered authority; the admission ledger
with its hourly quota and its binary journal; and the chain of service credentials. Both vaults work on the one shared
floor file, while other authorities move their floors in it. A durable write is `Done`, `Lost` (no effect) or
`Unconfirmed` (it took effect and an error was returned, or the process died right after); a record that was not
written may leave its temporary among the records. SHA-256 is collision-free on
the values that occur, signatures always succeed, encrypted envelopes are transparent.

**Text contexts** (`DispatchState`, `DispatchContext`, `DispatchProgress`, `TokenIssuance`, `TokenProgress`,
`DescriptorFloor`, `OpeningRate`). Introduction dispatch as a state machine: a state holds where every concurrent call, recovery owner and expiry goroutine stands, and
what every one-slot channel and local variable holds; each critical section, channel operation or completion is one
method. Token issuance in its critical sections before, during and after an exchange, the per-target descriptor floor,
and the four-slot opening limiter.

**Alpha control** (`AlphaCatalog`, `AlphaReader`). The two catalog decoders over arbitrary bytes, the inspection
against a floor, the floor file with the temporary it is written through, and runs with deaths and reopening.

**R-149 arithmetic** (`Binomial`, `CatchUpRace`, `EventualCatchUp`, `Quorums`, `Committees`, `JointCommittees`,
`FiniteSets`). What the experiment scripts assert on a few instances, for all parameters, and what their catch-up number
is the chance of.

A module named for progress says when an operation does what it is there for, with its conditions written out in numbers
and fields instead of the predicates by which the operation is specified.

## Where the code falls short of a plain statement

- *Without an update marker the management executable is the recorded program.* An update of a managed host breaks this
  exactly if the fourth rename of the switch is refused, so is the removal that undoes the third, and every step needed
  to drop the marker goes well (`Strays` in `Update`); read off the disk, exactly if no marker is there and the program
  in place is not the recorded one. In such a run a calm recovery makes the host clean and leaves the wrong executable
  (`StrayRun`).
- *An interrupted update is recovered by the next call.* Not if the process died over the first staged directory: half a
  pair at next without a marker is refused by every recovery and every update, which touch nothing (`HalfStagedRun`).
  Exactly such unpaired residue is refused; a whole staged pair is cleared away (`Recover`, `StagedRun`).
- *An interrupted admission issuance is recovered by the next call.* Only the very first one (`Adopts`, `AdoptedRun`);
  after any later one (`InterruptedRun`) the authority refuses everything for good (`Interrupted`).
- *A delivery for a retained connection is buffered if an owner of it is due.* Exactly if, besides, time is left and the
  owner the search happens to find has no goroutine at work (`RoutesToOwner`, `RoutesAway`).
- *A credential generation belongs to one request.* False after an interruption between record and floor
  (`SharedGeneration`); `PresentGeneration` says exactly for which requests a generation can be given out.
- *The floor file can take any number of bindings.* An advance leaves it readable exactly if there are at most 1,024
  bindings and at most 1 MiB of text then (`AdvancedIsReadableExactly`); 88 advances with the largest watermarks fill it
  with text alone (`Overfill`). An unreadable file (`UnreadableRun`) refuses every authority in it for good
  (`Unreadable`).
- *A service authority can always issue its next credential.* Not once a process died over the temporary of a record
  (`LitteredRun`): no record is made again, and only requests that have one are still served (`Littered`).
- *Decoding a journal undoes encoding it.* Exactly if no identifier and no digest is zero (`EncodingDecodesExactly`),
  and one allocation with a zero identifier shows it (`ZeroIdentifier`); requests with such an identifier never get that
  far.
- *The reader's floor file never forks.* False when a write takes effect without being confirmed and the reader goes on
  (`ForkedFile`). A write follows what the file holds exactly if the catalog and its accepted components extend it
  (`Reader.Inspect`), and always if the file holds the reader's floor (`AllowedExtendsOwn`); the floors the reader itself
  goes by never fork (`AlphaReader.Run`).
- *A reader can be opened again.* Exactly if no temporary is left in its root (`Reader.Reopen`). A process that dies over
  its temporary (`StrandedRun`) leaves a root that is refused for good (`Stranded`).
- *Issuing tokens never costs any.* With an open prefix every exchange that is let ask takes one Control token, even if it
  comes to nothing (`Owner.Exchange`, `CostlyRun`); a refill still gains, which is what its room of two is for
  (`Owner.Prepare`).

## Model

| member | source | states |
|---|---|---|
| ContributorDisk.HalvesSurvive | internal/contributor/recovery.go:33-55 | in every state an interruption can leave, each half of the recorded generation is intact at current or previous |
| ContributorDisk.RecoveredIsStable | internal/contributor/recovery.go:11-116 | a finished recovery is clean, is not refused, and recovering again changes nothing |
| ContributorHost.Host.constructor | internal/contributor/install.go:13-63 | the host a finished installation leaves: clean, managed, no faults |
| ContributorHost.Host.Restart | internal/contributor/apply.go:13-61 | a new process finds the disk unchanged |
| ContributorHost.Host.Ask | internal/contributor/apply.go:115-120 | one supervisor call, lifecycle wait or lifecycle removal: succeeds exactly if the process lives and the script grants the step |
| ContributorHost.Host.AskActive | internal/contributor/recovery.go:41-45 | a status question that may fail like any other call; a granted one is answered |
| ContributorHost.Host.Rename | internal/contributor/apply.go:121-137 | succeeds exactly if the step is granted, the directory exists and the target does not; any failure leaves the disk as it was |
| ContributorHost.Host.RemoveAll | internal/contributor/apply.go:158 | succeeds only with the directory gone; refused or interrupted it may leave it broken, and nothing else changes |
| ContributorHost.Host.WriteManagement | internal/contributor/apply.go:164-166 | replaces the management executable or leaves the disk as it was |
| ContributorHost.Host.WriteMarker | internal/contributor/apply.go:74 | writes or drops the update marker atomically |
| ContributorHost.Host.WriteRecord | internal/contributor/apply.go:153-155 | commits the new record atomically |
| ContributorHost.Host.WriteNext | internal/contributor/install.go:81-98 | staging succeeds only with the directory as asked for; a failure may leave it broken |
| ContributorHost.Host.RestoreManagement | internal/contributor/apply.go:168-174 | copies the current program's executable if that is readable |
| ContributorHost.Host.RemoveBoth | internal/contributor/recovery.go:30-31 | attempts the second removal whatever the first did and changes no other position |
| ContributorHost.Host.RestartCurrentGeneration | internal/contributor/apply.go:176-186 | three environment calls, no effect on the disk |
| ContributorRecovery.CompletePreviousMove | internal/contributor/recovery.go:122-147 | pairs up the recorded generation at previous from any recoverable disk, or leaves the disk as it was |
| ContributorRecovery.RecoverInstalled | internal/contributor/recovery.go:21-56 | from an installed disk: without a marker it clears whole pairs at previous and next away, and refuses half a pair and touches nothing; with one it ends clean unless disturbed; durable at every point |
| ContributorRecovery.RecoverPrevious | internal/contributor/recovery.go:57-115 | from a disk that is not installed: left in peace it ends clean on the recorded generation, and is durable at every point |
| ContributorRecovery.MovePreviousBack | internal/contributor/recovery.go:92-97 | both halves come back or the pair stays recoverable |
| ContributorRecovery.RestoreRecovered | internal/contributor/recovery.go:98-115 | finishes exactly on the recovered disk, restoring the management executable when a marker asks for it |
| ContributorRecovery.Recover | internal/contributor/recovery.go:11-116 | from every durable disk, interrupted anywhere, the disk stays durable and the record untouched; undisturbed it succeeds exactly if there is a marker, or the recorded generation is not whole at current, or previous and next each hold both halves or neither, and it leaves them and the marker gone; otherwise it touches nothing |
| ContributorUpdate.Stage | internal/contributor/apply.go:71-73 | both directories complete exactly if all four steps are granted, or at most residue at next; one refusal alone leaves nothing behind |
| ContributorUpdate.Switch | internal/contributor/apply.go:121-137 | all four renames done, or the old generation still recoverable under its marker; a single refusal undoes everything, and exactly which scripts leave the successor's program in place |
| ContributorUpdate.UndoThird | internal/contributor/apply.go:132-137 | undisturbed it restores the disk before the switch; the successor's program stays in place exactly if its removal is refused with nothing done; the old generation is recoverable in any case |
| ContributorUpdate.Rollback | internal/contributor/apply.go:188-201 | success means the old generation installed; always recoverable |
| ContributorUpdate.Unwind | internal/contributor/apply.go:87-113 | the deferred handler stays durable, ends clean on the old generation if undisturbed, drops the marker exactly if its restart and its copy succeed, and leaves the right executable if and only if the marker stays or the program in place is the recorded one |
| ContributorUpdate.Begin | internal/contributor/apply.go:63-86 | staging, marker and management executable: done exactly if all six steps are granted; a death before the marker leaves the staged pair, one over the first directory half of it |
| ContributorUpdate.Attempt | internal/contributor/apply.go:114-156 | the steps up to the commit: all of them, or the old generation recoverable under its marker with every switch either finished or undone as far as the script allows |
| ContributorUpdate.Transact | internal/contributor/apply.go:114-162 | between marker and commit: durable at every point, the record is the old or the new one, one refusal ends clean on one of them, and exactly which scripts lose the right executable |
| ContributorUpdate.Settle | internal/contributor/apply.go:158-161 | after the commit the new generation stays installed and managed; one refusal still ends clean |
| ContributorUpdate.Update | internal/contributor/apply.go:63-162 | success is exactly the clean successor; whatever stops it, the disk is durable on generation g or g+1; a managed host loses its executable if and only if the script jams the last undo and grants the rest of the rollback; and exactly what a death while staging leaves |
| ContributorUpdate.Apply | internal/contributor/apply.go:28-50 | undisturbed it succeeds if and only if the disk is not refused residue and the bundle continues the deployment by one generation; half a staged pair refuses it with nothing touched |
| ContributorUpdate.Lifetime | internal/contributor/apply.go:13-61 | over any history of updates, recoveries and crashes the committed generations form a chain and one undisturbed recovery makes the disk clean on the newest one, or refuses and leaves it alone |
| ContributorUpdate.StrayRun | internal/contributor/apply.go:87-137 | an update with two refused steps and a calm recovery after it: clean on the old generation with the successor's management executable and no marker |
| ContributorUpdate.StagedRun | internal/contributor/apply.go:71-74 | an update killed between staging and marker, and a calm recovery after it: clean on the recorded generation |
| ContributorUpdate.HalfStagedRun | internal/contributor/install.go:81-98 | an update killed over the first staged directory: recovery and any later update are refused |
| AuthorityFloor.ValidIsSorted | internal/custody/authority_floor.go:218-231 | accepted watermarks are strictly sorted by domain |
| AuthorityFloor.Search | internal/custody/authority_floor.go:182-183 | the binary search finds the first domain that is not before the wanted one |
| AuthorityFloor.StrictlyHigher | internal/custody/authority_floor.go:178-189 | the binary-search form holds exactly if generation and revision rise and every earlier watermark is exceeded |
| AuthorityFloor.HigherIrreflexive | internal/custody/authority_floor.go:178-189 | no marks are higher than themselves |
| AuthorityFloor.HigherTransitive | internal/custody/authority_floor.go:178-189 | being higher composes, and no domain is dropped on the way |
| AuthorityFloor.RisingThroughout | internal/custody/authority_floor.go:42-64 | along a chain of advances every later floor is higher than every earlier one |
| AuthorityFloor.AdvancedWatermarks | internal/custody/vault_reconciliation.go:104-116 | every value one up, refused exactly for invalid watermarks or a full counter |
| RecoveredAuthority.RaisedPasses | internal/custody/vault_reconciliation.go:59-75 | the raised state passes a floor, read separately, if and only if the published generation and revision do and the recovered state reached each of its watermarks |
| RecoveredAuthority.RaisedOnce | internal/custody/vault_reconciliation.go:59-95 | once the floor has passed a raised state, that recovered state never passes again, whatever is published |
| RecoveredAuthority.Vault.constructor | internal/custody/vault_reconciliation.go:18-21 | a vault without records |
| RecoveredAuthority.Vault.Activate | internal/custody/vault_reconciliation.go:13-102 | exactly when a recovered authority is activated, and which record, temporary and floors each interruption leaves; a call that got as far as its record is the last |
| RecoveredAuthority.Run | internal/custody/vault_reconciliation.go:13-102 | over any attempts, published states, interruptions and other authorities in the same file at most one activation succeeds |
| FloorStore.KeyInjective | internal/custody/authority_floor.go:161-163 | the concatenated key tells all bindings apart, in spite of the kind's varying length |
| FloorText.DocumentSize | internal/custody/authority_floor.go:105-106 | the length of the file is decided floor by floor |
| FloorStore.AscendingIsUnique | internal/custody/authority_floor.go:62-63 | a sorted list is determined by its entries, so any sort gives this one |
| FloorStore.AdvancedIsUpdate | internal/custody/authority_floor.go:42-64 | the rewritten file answers as a map update: its own binding gets the new marks and no other changes |
| FloorStore.AdvancedIsReadableExactly | internal/custody/authority_floor.go:78-103 | the rewritten file can be read again if and only if the number of bindings and the added text stay within 1,024 entries and 1 MiB |
| FloorStore.KnownBindingAdvances | internal/custody/authority_floor.go:42-64 | for a binding that has a floor and passes it, an advance moves that floor exactly if the file is readable, touches no other binding, and leaves the file readable if and only if the gain fits |
| FloorStore.Replace | internal/custody/authority_floor.go:50-61 | the loop replaces the binding's entry in place or appends it |
| FloorStore.Store.AdvanceFloor | internal/custody/authority_floor.go:42-64 | success exactly if the advance is due, confirmed and fits both limits; otherwise which file is left |
| FloorStore.Store.AdvanceKnown | internal/custody/authority_floor.go:42-64 | the same for an authority that passes its own floor: the file is then one variable of that authority |
| FloorStore.Store.AdvanceOther | internal/custody/authority_floor.go:42-64 | another authority's advance never changes the watched binding |
| FloorStore.AdvanceTracks | internal/custody/authority_floor.go:42-64 | an advance extends its binding's chain and no other; the file is unreadable only if it holds 1,025 bindings or more than 1 MiB |
| FloorStore.Advances | internal/custody/authority_floor.go:42-122 | over any run of advances with any failures every binding's floors form a strictly rising chain that ends in the file, and only one of the two limits makes the file unreadable |
| FloorStore.CrowdedOut | internal/custody/canonical_envelope.go:20-25 | 88 bindings with the largest watermarks the vault accepts are more than 1 MiB of text |
| FloorStore.Overfill | internal/custody/authority_floor.go:42-64 | from any file with room for them, 88 valid and written advances of name authorities make it unreadable by its text alone and leave every other authority's floor where it was |
| FloorProgress.Advances | internal/custody/authority_floor.go:42-103 | on a readable file an advance is made exactly if the binding has no entry or one with lower generation, revision and watermarks, and confirmed exactly within 1,024 entries and 1 MiB |
| FloorProgress.Activates | internal/custody/vault_reconciliation.go:13-102 | a recovered state that was never recorded, is older than what was published and reaches its floor is activated, each watermark one up |
| AdmissionJournal.CheckBudget | internal/custody/admission_authority.go:246-261 | the loop decides the budget per role and in total |
| AdmissionJournal.TotalIsGranted | internal/custody/admission_authority.go:246-261 | the total is the sum over the two roles |
| AdmissionJournal.BudgetBounds | internal/custody/admission_authority.go:246-261 | the role limits alone keep a journal within 20,480 entries and make the 65,536 issuer limit redundant |
| AdmissionJournal.SelectWindow | internal/custody/admission_authority.go:263-271 | keeps exactly the allocations of the hour, in order |
| AdmissionJournal.WindowRegressed | internal/custody/admission_authority.go:276-283 | true exactly if a later hour is already booked |
| AdmissionJournal.SortMembers | internal/custody/admission_authority.go:289-290 | ordering by identifier changes neither the allocations nor their budget |
| AdmissionJournal.SortOrders | internal/custody/admission_authority.go:294-297 | the ordered list is strictly ascending exactly if no identifier repeats |
| BigEndian.PrecedesIsLess | internal/custody/admission_authority.go:290-297 | comparing equal-length byte strings at their first difference compares the numbers they spell |
| AdmissionJournalCodec.Encode | internal/custody/admission_authority.go:285-308 | writes exactly the lists within budget without repeated identifiers, as the image of their ordering |
| AdmissionJournalCodec.Decode | internal/custody/admission_authority.go:310-343 | accepts the empty string and exactly the images of canonical journals, and returns what they hold |
| AdmissionJournalCodec.EncodingDecodesExactly | internal/custody/admission_authority.go:285-343 | decoding an encoding gives the ordered allocations if and only if no identifier or digest is zero, and is refused otherwise |
| AdmissionJournalCodec.ZeroIdentifier | internal/custody/admission_authority.go:294-337 | a one-entry list the encoder takes and whose bytes the decoder refuses |
| AdmissionJournalCodec.DecodingEncodes | internal/custody/admission_authority.go:285-343 | re-encoding anything accepted from a non-empty string gives the same bytes |
| AdmissionJournalCodec.CanonicalIsSmall | internal/custody/admission_authority.go:304-306 | the budget alone implies the entry and 3 MiB limits |
| AdmissionAuthority.NextFollows | internal/custody/admission_authority.go:429-439 | the successor's marks pass both the floor check and the one-step-ahead check |
| AdmissionAuthority.MarksAreValid | internal/custody/admission_authority.go:185-198 | the floor file accepts every sequence's marks |
| AdmissionAuthority.Vault.constructor | internal/custody/admission_authority.go:37-58 | a new authority has no ledger, its base floor in the shared file and nothing released |
| AdmissionAuthority.Vault.Open | internal/custody/admission_authority.go:356-427 | opens exactly if the shared file is readable and the ledger is not ahead, or is ahead of the base alone and its floor can be written; on success the state equals the floor |
| AdmissionAuthority.Consider | internal/custody/admission_authority.go:96-122 | refuses, repeats or reserves exactly as the journal and the budget say; what it reserves decodes to the extended hour |
| AdmissionAuthority.Find | internal/custody/admission_authority.go:106-107 | finds the allocation with the identifier if there is one |
| AdmissionAuthority.Retry | internal/custody/admission_authority.go:106-117 | an allocation under the request's identifier is its own exactly if the digests agree |
| AdmissionAuthority.Enter | internal/custody/admission_authority.go:119-141 | one more allocation keeps one hour per journal, the books of earlier hours frozen, and every released permission covered |
| AdmissionAuthority.Persists | internal/custody/admission_authority.go:200-211 | the successor's journal bytes decode to exactly the extended hour |
| AdmissionAuthority.Vault.Commit | internal/custody/admission_authority.go:441-488 | ledger first, floor second: the ledger is never more than one step ahead, and only both confirmed writes, with the file readable afterwards, release the permission |
| AdmissionAuthority.Vault.Issue | internal/custody/admission_authority.go:69-143 | exactly when a permission is released, within its own hour, and exactly which ledger and which shared floor file every outcome leaves |
| AdmissionAuthority.PartIsNoMore | internal/custody/admission_authority.go:246-261 | distinct entries of a list never add up to more than the list |
| AdmissionAuthority.Quota | internal/custody/admission_authority.go:69-143 | different permissions released for one hour stay within the budget of each role |
| AdmissionAuthority.Perform | internal/custody/admission_authority.go:69-143 | one event, a call or another authority's advance, keeps the invariant; an unreadable file or an orphaned ledger past the base changes nothing |
| AdmissionAuthority.Run | internal/custody/admission_authority.go:69-143 | over any requests, any clock, any interrupted writes and any advances of other authorities in the same file, at most 4,096 user and 16,384 publisher tokens are given out per hour |
| AdmissionAuthority.Interrupted | internal/custody/admission_authority.go:410-416 | a ledger ahead of any floor but the base is refused for ever, with nothing changed |
| AdmissionAuthority.InterruptedRun | internal/custody/admission_authority.go:441-488 | a run that gets there: one issuance done, the next cut off between ledger and floor |
| AdmissionAuthority.Unreadable | internal/custody/admission_authority.go:356-427 | once the shared floor file is unreadable every request is refused for ever, with nothing changed |
| AdmissionAuthority.UnreadableRun | internal/custody/authority_floor.go:78-103 | a run that gets there: a vault whose floor file 88 other authorities filled |
| AdmissionProgress.GrantsFresh | internal/custody/admission_authority.go:69-143 | a well-put request of the present hour, new and within what is left of 4,096 or 16,384 tokens, is granted and booked |
| AdmissionProgress.GrantsAgain | internal/custody/admission_authority.go:106-117 | a request already booked is given out again and nothing is written |
| AdmissionProgress.Adopts | internal/custody/admission_authority.go:410-427 | a ledger one step ahead of the base is taken over: the floor moves onto it and it is what opens |
| AdmissionProgress.AdoptedRun | internal/custody/admission_authority.go:410-488 | the first issuance dies between ledger and floor, and the next call gives the permission out |
| ServiceCredential.SuccessorIsNext | internal/custody/service_credential.go:146-169 | the successor is exactly one generation on with the request's end, and passes the floor check |
| ServiceCredential.MarksAreValid | internal/custody/service_credential.go:157-160 | the two watermark domains are in order, so the floor file accepts every generation's marks |
| ServiceCredential.Vault.constructor | internal/custody/service_authority.go:15-41 | a new authority has its root record at its floor in the shared file and nothing released |
| ServiceCredential.Vault.Record | internal/custody/service_credential.go:177-215 | a record is created only under a parent that stands at the floor; a write cut short leaves nothing or its temporary |
| ServiceCredential.Vault.Advance | internal/custody/service_credential.go:80-83 | the floor moves to the record, opening the next generation with the request's end |
| ServiceCredential.Vault.Serve | internal/custody/service_credential.go:76-86 | record first, floor second, and exactly what each interruption of the two leaves |
| ServiceCredential.Vault.Issue | internal/custody/service_credential.go:22-93 | exactly when a credential is given out, and exactly which records, temporary and shared floor file every outcome leaves; a record needs room among 1,024 and no temporary, an expired request can only repeat, an unreadable file gives nothing out, and what is given out lasts a day at most and ends within two days of the clock |
| ServiceCredential.Vault.Proceed | internal/custody/service_credential.go:60-93 | the same with the outcome of the record's write decided: parent at the floor, record, floor, in this order |
| ServiceCredential.Placed | internal/custody/service_credential.go:146-169 | a credential starts no earlier than the generation before ended and ends as its own generation does |
| ServiceCredential.GivenOutApart | internal/custody/service_credential.go:22-93 | credentials of different generations are never valid together; those of one generation end together |
| ServiceCredential.TidyIsUnique | internal/custody/service_credential.go:76-86 | without interruptions a generation belongs to one record |
| ServiceCredential.PresentGeneration | internal/custody/service_credential.go:72-86 | the present generation can be given out for a request if and only if the file is readable and its record is there one generation down and ends when the generation does |
| ServiceCredential.Perform | internal/custody/service_credential.go:22-93 | one event, a call or another authority's advance, keeps the chain, every record and every credential given out |
| ServiceCredential.Run | internal/custody/service_credential.go:22-93 | over any run with stale identifiers, retries, interruptions and other authorities in the same file, credentials of different generations are disjoint in time, and undisturbed runs have one request per generation |
| ServiceCredential.SharedGeneration | internal/custody/service_credential.go:217-220 | a run in which one generation goes to two requests |
| ServiceProgress.IssuesNext | internal/custody/service_credential.go:22-93 | from any record at the floor the next generation is given out for a request that starts after the last one ended, lasts at most 86,400 seconds and ends at most 172,800 after the clock |
| ServiceProgress.IssuesAgain | internal/custody/service_credential.go:72-93 | the present generation is given out again for the request it was made for, with nothing written |
| ServiceProgress.TwoGenerations | internal/custody/service_credential.go:22-93 | a run of two generations, the second under the first |
| ServiceCredential.Littered | internal/custody/vault_operation.go:338-362 | with a temporary among the records no record is ever made again, and only requests whose record was there are served |
| ServiceCredential.LitteredRun | internal/custody/vault_operation.go:276-309 | one issuance that dies over its temporary gets there |
| DispatchState.MoveOwned | internal/endpoint/text_introduction_dispatch.go:96-100 | handing a delivery on to an empty channel or local keeps one owner for each |
| DispatchState.AnswerOwned | internal/endpoint/text_introduction_dispatch.go:357-369 | whoever holds a delivery is the first to complete it, and nobody can again |
| DispatchState.FireStep | internal/endpoint/text_introduction_dispatch.go:262-276 | an expiry goroutine whose turn it still is finds its own delivery and no other |
| DispatchState.KeepStep | internal/endpoint/text_introduction_dispatch.go:225-238 | a buffered delivery gets its own armed goroutine and everything else keeps its invariant |
| DispatchState.TakeOverStep | internal/endpoint/text_introduction_dispatch.go:164-179 | a matching buffered delivery moves to the new waiter and its goroutine loses its turn |
| DispatchState.OneOwner | internal/endpoint/text_introduction_dispatch.go:50-337 | a claimed delivery is in exactly one place, or was completed, or was given up |
| DispatchState.OneConsumer | internal/endpoint/text_introduction_dispatch.go:73-114 | at most one call is inside the gate, and it holds the token, so giving it back never blocks |
| DispatchState.ReturnedIsWanted | internal/endpoint/text_introduction_dispatch.go:424-426 | a returned delivery has the generation asked for and, beyond the first, the connection |
| DispatchState.IdleIsEmpty | internal/endpoint/text_introduction_dispatch.go:225-250 | when all calls, goroutines and releases are done, no channel and no local holds a delivery; a retained owner's buffer is never without its goroutine |
| DispatchState.AllAnswered | internal/endpoint/text_introduction_dispatch.go:50-337 | when all calls, goroutines and releases are done in a living context with no failed completion, every claimed delivery was completed; retained owners' buffers are empty by then |
| DispatchContext.Context.Register | internal/endpoint/text_introduction_dispatch.go:123-181 | registers exactly under the stated conditions; takes over a buffered delivery exactly if it matches; sends only to an empty channel |
| DispatchContext.Context.Joined | internal/endpoint/text_introduction_dispatch.go:129-134 | a registration that took over goes on once the goroutine ended |
| DispatchContext.Context.Receive | internal/endpoint/text_introduction_dispatch.go:63-70 | a receive from the own channel makes the call leave with it |
| DispatchContext.Context.Cancel | internal/endpoint/text_introduction_dispatch.go:71-72 | a cancelled call leaves, whatever its channel holds |
| DispatchContext.Context.TakeGate | internal/endpoint/text_introduction_dispatch.go:73 | the token has one holder |
| DispatchContext.Context.Recheck | internal/endpoint/text_introduction_dispatch.go:77-82 | inside the gate a delivery that came meanwhile is taken and the token given back |
| DispatchContext.Context.Claim | internal/endpoint/text_introduction_dispatch.go:84-89 | a claimed delivery is new and owned by the consumer; a failed claim gives the token back |
| DispatchContext.Context.ClaimRefused | internal/endpoint/text_introduction_dispatch.go:339-351 | an unreadable delivery is completed once, on the spot |
| DispatchContext.Context.Route | internal/endpoint/text_introduction_dispatch.go:90-114 | exactly where a delivery goes: a matching empty waiter, else a recovery owner with room, time and no goroutine at work, else refusal outside the gate |
| DispatchContext.Context.Refuse | internal/endpoint/text_introduction_dispatch.go:114-118 | the refused delivery is completed once; a failure ends the call |
| DispatchContext.Context.Release | internal/endpoint/text_introduction_dispatch.go:186-203 | the waiter goes and a delivery assigned meanwhile is taken out with it |
| DispatchContext.Context.Settle | internal/endpoint/text_introduction_dispatch.go:199-202 | the stray delivery is completed unless the lifetime ended; if that fails the call's own delivery is given up too |
| DispatchContext.Context.Answer | internal/endpoint/text_introduction_exchange.go:145-153 | the caller completes what it was given, once |
| DispatchContext.Context.Retain | internal/endpoint/text_introduction_dispatch.go:285-303 | a recovery owner at generation two, if the job lives and there is room |
| DispatchContext.Context.Fire | internal/endpoint/text_introduction_dispatch.go:257-273 | in its turn the goroutine takes the delivery it was started for; out of turn it touches nothing |
| DispatchContext.Context.Stop | internal/endpoint/text_introduction_dispatch.go:257-260 | a stopped goroutine ends without touching anything |
| DispatchContext.Context.Expire | internal/endpoint/text_introduction_dispatch.go:274-282 | the expired delivery is completed, or given up if the lifetime ended |
| DispatchContext.Context.Close | internal/endpoint/text_introduction_dispatch.go:243-250 | the goroutine clears its mark only if it is still the owner's |
| DispatchContext.Context.Retire | internal/endpoint/text_introduction_dispatch.go:305-329 | the owner leaves the registry and its goroutine is told to stop, in one section |
| DispatchContext.Context.Drain | internal/endpoint/text_introduction_dispatch.go:330-336 | what was buffered is completed after the goroutine ended, or given up if the lifetime ended |
| DispatchContext.Run | internal/endpoint/text_introduction_dispatch.go:50-337 | in every interleaving: one owner per delivery, at most one completion, returned deliveries match, and only an ended lifetime or a failed completion leaves one uncompleted once nobody has work left |
| DispatchState.RouteStep | internal/endpoint/text_introduction_dispatch.go:90-114 | whichever way a delivery goes, every call, owner and goroutine keeps its invariant |
| DispatchProgress.RoutesToWaiter | internal/endpoint/text_introduction_dispatch.go:205-212 | if a waiter with an empty channel asks for the generation, and beyond the first for the connection, one that does gets the delivery |
| DispatchProgress.RoutesToOwner | internal/endpoint/text_introduction_dispatch.go:214-238 | if nobody asks, an owner of the connection is at the generation or one below, none such has a goroutine at work and time is left, the delivery is buffered and the gate kept |
| DispatchProgress.RoutesAway | internal/endpoint/text_introduction_dispatch.go:214-238 | in every other case where nobody asks it is refused outside the gate |
| DispatchProgress.Registers | internal/endpoint/text_introduction_dispatch.go:123-181 | a live caller is registered for generation one, and beyond it under an owner at that generation or one below; what is buffered for exactly this key moves to it |
| DispatchProgress.ReturnedIsAskedFor | internal/endpoint/text_introduction_dispatch.go:424-426 | what a call returns has the generation it asked for and, beyond the first, the connection |
| DispatchProgress.HandoverRun | internal/endpoint/text_introduction_dispatch.go:123-238 | a capsule of generation three that comes while the owner is at two is buffered, and is what the call for generation three returns |
| TokenIssuance.AddToken | internal/endpoint/text_issuance.go:211-223 | a token joins the stock of its own challenge and no other, and challenges stay distinct |
| TokenIssuance.AddBatch | internal/endpoint/text_issuance.go:211-224 | per challenge the stock grows by exactly the tokens made for it, in order |
| TokenIssuance.Look | internal/endpoint/text_issuance.go:111-123 | a receiver is found exactly if its last entry has a duty and no earlier one does |
| TokenIssuance.Build | internal/endpoint/text_issuance.go:107-125 | challenges for all receivers at their duties, or none if one has no duty or an entry after one |
| TokenIssuance.NoWrap | internal/endpoint/text_issuance.go:138 | the unsigned subtraction never wraps |
| TokenIssuance.ReserveIsSound | internal/endpoint/text_issuance.go:148-153 | a reservation with room keeps every account in balance |
| TokenIssuance.Owner.constructor | internal/endpoint/text_issuance.go:67-226 | a fresh permission has nothing reserved and nothing pending |
| TokenIssuance.Owner.Reserve | internal/endpoint/text_issuance.go:84-159 | starts exactly if the pending batch is the one asked for, or there is none and the class and the bootstrap allowance have room; a retry reserves nothing |
| TokenIssuance.Owner.Conclude | internal/endpoint/text_issuance.go:176-226 | which outcome keeps, burns or finishes the batch, and where the tokens go |
| TokenIssuance.Owner.Exchange | internal/endpoint/text_issuance.go:84-226 | to the token: a prefixed exchange takes one issuer admission exactly if it asks for one in order and one is in stock, and makes its tokens exactly if that admission went through; otherwise nothing leaves the stock |
| TokenIssuance.Owner.Spend | internal/endpoint/text_token_transfer.go:58-89 | the oldest token of the challenge leaves the stock for good, other challenges untouched |
| TokenIssuance.Owner.Present | internal/endpoint/text_issuer_stock.go:70-87 | takes the issuer's own Control token for the exchange under way and through its own prefix only; the token is gone even if it cannot be presented |
| TokenIssuance.Owner.Admit | internal/route/closed_source_control.go:81-86 | an exchange is admitted exactly without a prefix or with a token taken and marked |
| TokenIssuance.Owner.Reopen | internal/endpoint/text_issuance.go:134 | the prefix changes and no account does |
| TokenIssuance.Owner.Renew | internal/endpoint/text_issuance.go:186-190 | a new permission starts empty, and a flight under the old one can no longer touch it |
| TokenIssuance.Owner.CountReady | internal/endpoint/text_issuer_stock.go:49-55 | counts exactly the issuer's own Control tokens |
| TokenIssuance.RefillIsOwn | internal/endpoint/text_issuer_stock.go:31-37 | a pending refill is always of Control tokens for the issuer, so the binding check never fails |
| TokenIssuance.Owner.Prepare | internal/endpoint/text_issuer_stock.go:15-68 | succeeds if and only if all is available and its refill, resumed or new, if any, makes its tokens; after success no refill is pending and no stock shrank; a refill through a prefix costs the one admission left and leaves two or more, and where none was needed nothing changed |
| TokenIssuance.Owner.Issue | internal/endpoint/text_issuance.go:67-226 | the mutual recursion with the refill ends; succeeds if and only if its arguments are in order, the preparation through a prefix succeeds and the exchange from what that leaves makes its tokens; with one admission left and two allocations or more it has drawn on what remains, up to 32, first; failure costs at most two admissions and never an allocation given back |
| TokenIssuance.LastIsReplenished | internal/endpoint/text_issuer_stock.go:56-67 | the preparation with the last admission leaves as many as remained, up to 32, less the one the work costs |
| TokenIssuance.ReplenishedRun | internal/endpoint/text_issuer_stock.go:56-67 | a run: 39 allocations left and one admission, work for another receiver, 32 made first and 31 left |
| TokenProgress.KnownIsListed | internal/endpoint/text_issuance.go:111-123 | a receiver's duty is that of its last entry, if no entry before it has one |
| TokenProgress.IssuesFirst | internal/endpoint/text_issuance.go:67-226 | without a prefix each of the first two batches within its allocation is made and reserved |
| TokenProgress.IssuesThrough | internal/endpoint/text_issuance.go:67-226 | through a prefix with two admissions in stock the batch is made without a refill |
| TokenProgress.IssuesPending | internal/endpoint/text_issuance.go:126-133 | a pending batch is resumed for the same receivers at unchanged duties, and nothing more is reserved |
| TokenIssuance.CostlyRun | internal/endpoint/text_issuer_stock.go:70-87 | a run in which an admitted exchange fails: no token was made and the last one is gone |
| TokenIssuance.Run | internal/endpoint/text_issuance.go:67-226 | in any order of critical sections and presentations finished, burned and pending tokens add up to what is reserved, within the maximum, with at most two bootstrap batches |
| DescriptorFloor.Step | internal/endpoint/text_descriptor_floor.go:28-79 | one more descriptor keeps what the floor must remember of all earlier ones |
| DescriptorFloor.FloorsTrack | internal/endpoint/text_descriptor_floor.go:28-79 | the floor a history leaves remembers all that the history showed of its target |
| DescriptorFloor.AcceptedRespects | internal/endpoint/text_descriptor_floor.go:28-79 | in any history an accepted descriptor follows what was accepted before, conflicts with no branch seen of the generation then held, and is not valid together with one it supersedes |
| DescriptorFloor.AcceptedExactly | internal/endpoint/text_descriptor_floor.go:28-79 | in any history a descriptor is accepted if and only if it respects everything noticed of its target before |
| DescriptorFloor.NewerIsAccepted | internal/endpoint/text_descriptor_floor.go:37-78 | accepted if all presented for its target before is of an older generation that ended by its start, of the same publication with a lower revision, or itself |
| DescriptorFloor.FewAreNoticed | internal/endpoint/text_descriptor_floor.go:71-73 | the first 128 targets always have room |
| DescriptorFloor.Context.constructor | internal/endpoint/text_descriptor_floor.go:73-75 | a context starts without floors |
| DescriptorFloor.Judge | internal/endpoint/text_descriptor_floor.go:37-69 | the branches accept exactly newer generations beyond the retained end, newer revisions and repetitions, and record every conflict |
| DescriptorFloor.Context.Accept | internal/endpoint/text_descriptor_floor.go:28-79 | accepted exactly if the target has room and its floor allows it; no other floor changes and none is evicted |
| DescriptorFloor.Run | internal/endpoint/text_descriptor_floor.go:28-79 | the floors are the fold of what was presented, acceptance is decided by it, and per target generations and revisions never fall, conflicts stay closed, and accepted generations are disjoint in time from all branches seen before |
| OpeningRate.AtMostFour | internal/endpoint/text_introduction_accept.go:150-155 | any second, wherever it starts, holds at most four openings |
| OpeningRate.Limiter.constructor | internal/endpoint/text_introduction_accept.go:141-156 | the buffer starts with four zero times |
| OpeningRate.Limiter.Purge | internal/endpoint/text_introduction_accept.go:142-146 | exactly the expired nonces go |
| OpeningRate.Limiter.Shift | internal/endpoint/text_introduction_accept.go:153-154 | the array moves down one slot in place and takes the new time |
| OpeningRate.Limiter.Reserve | internal/endpoint/text_introduction_accept.go:141-156 | granted exactly if the nonce is new, there is room, time did not go back and the fourth opening before is a second old; the buffer is always the last four openings |
| OpeningRate.Limiter.Keep | internal/endpoint/text_introduction_accept.go:134-137 | an accepted nonce is remembered with its expiry |
| OpeningRate.Run | internal/endpoint/text_introduction_accept.go:141-156 | over any history and any clock each request is decided by the fold of what came before, the openings let through never go back in time and no second holds more than four |
| OpeningRate.Perform | internal/endpoint/text_introduction_accept.go:134-156 | one event changes replay map and opening times exactly as the fold does |
| OpeningRate.KeptIsRefused | internal/endpoint/text_introduction_accept.go:141-149 | a nonce that was kept is not let through again before its expiry, if the clock did not reach it in between |
| OpeningRate.HeldExactly | internal/endpoint/text_introduction_accept.go:134-146 | a nonce is held with an expiry exactly if it was kept with it, not anew since, and no clock since has reached it |
| OpeningRate.GrantedExactly | internal/endpoint/text_introduction_accept.go:141-156 | in any history a request is let through if and only if its nonce is not held any more, fewer than 2,640 are, the clock is set and not behind an opening, and fewer than four openings lie in the second before it |
| OpeningRate.FourRun | internal/endpoint/text_introduction_accept.go:141-156 | four openings in one second, no fifth, and an expired nonce let through again |
| AlphaCatalog.Decode | internal/alphacontrol/catalog_codec.go:36-86 | total over all byte strings, and accepts exactly the images of valid catalogs |
| AlphaCatalog.DecodeComponents | internal/alphacontrol/catalog_v2.go:60-81 | reads the components or stops at a truncated one or an expiry beyond 63 bits |
| AlphaCatalog.DecodedByReading | internal/alphacontrol/catalog_codec.go:36-102 | a payload means a catalog exactly if its lengths agree and what stands at the offsets is valid |
| AlphaCatalog.EncodedDecodes | internal/alphacontrol/catalog_codec.go:36-86 | encoding any valid catalog and decoding it is the identity |
| AlphaCatalog.PlainDecodes | internal/alphacontrol/catalog_codec.go:36-102 | at times that do not wrap, a catalog decodes from its image if and only if it names a cohort of at most 64 bytes, has a generation and a validity, and its components are complete, in order, of at most 64 MiB and valid no longer than it |
| AlphaCatalog.Canonical | internal/alphacontrol/catalog_codec.go:82-85 | two accepted payloads of one catalog are the same bytes |
| AlphaCatalog.OneVersion | internal/alphacontrol/catalog_v2.go:37-39 | no payload is accepted as both versions |
| AlphaReader.Examine | internal/alphacontrol/inspect.go:15-56 | the floor moves exactly for a signed, current and allowed catalog, each component exactly if it was accepted |
| AlphaReader.AcceptedIsGenuine | internal/alphacontrol/inspect.go:29-52 | a component is accepted if and only if what was supplied has the catalog's size and digest, has not expired at the clock and its own verifiers take it |
| AlphaReader.AllowedExactly | internal/alphacontrol/inspect.go:58-84 | allowed exactly if the catalog is the first, the one held or a later one that names it, and no component falls behind or forks |
| AlphaReader.Takes | internal/alphacontrol/reader.go:76-95 | with a write that goes through, a catalog valid at the clock is taken if and only if it continues the one held and upholds its components |
| AlphaReader.MadeLinks | internal/alphacontrol/inspect.go:58-84 | an allowed step never lowers or forks catalog or component floors, and a strict advance names the digest held before |
| AlphaReader.FollowsFileExactly | internal/alphacontrol/inspect.go:40-84 | the next floor neither falls below nor forks what the file holds if and only if the catalog and its accepted components extend it |
| AlphaReader.AllowedExtendsOwn | internal/alphacontrol/inspect.go:58-84 | an allowed catalog always extends the reader's own floor |
| AlphaReader.ReadFloor | internal/alphacontrol/reader_store.go:49-84 | no file is the empty floor; otherwise exactly the well-formed, consistent files are read |
| AlphaReader.FloorReads | internal/alphacontrol/reader_store.go:49-96 | reading a written floor gives it back |
| AlphaReader.Reader.constructor | internal/alphacontrol/reader.go:41-71 | a new root starts from the empty floor |
| AlphaReader.Reader.Inspect | internal/alphacontrol/reader.go:76-95 | the result is given exactly if the next floor is on disk, and only then adopted; what each failure and each death leaves of file and temporary; a component's floor moves if and only if what was supplied is genuine; and a write follows the file if and only if the catalog extends what it holds |
| AlphaReader.Reader.Publish | internal/alphacontrol/reader_store.go:86-121 | the file changes exactly if the rename happened, and the temporary stays exactly after a failed removal or a death in between |
| AlphaReader.Reader.Reopen | internal/alphacontrol/reader_store.go:30-46 | a root opens if and only if no temporary is left in it, on exactly the floor last written |
| AlphaReader.RisesThroughout | internal/alphacontrol/inspect.go:58-84 | along linked floors no generation falls and one generation has one digest |
| AlphaReader.Run | internal/alphacontrol/reader.go:41-95 | over any run with deaths and reopening the floors gone by form a hash chain that never falls or forks; no unconfirmed write, no gap between file and reader; no temporary left, always reopened |
| AlphaReader.ForkedFile | internal/alphacontrol/reader_store.go:113-119 | a run in which the file changes its digest within one generation |
| AlphaReader.Stranded | internal/alphacontrol/reader_store.go:41-45 | a root left with its temporary is refused by every later process, and nothing in it changes |
| AlphaReader.StrandedRun | internal/alphacontrol/reader_store.go:98-113 | one inspection that dies before its rename leaves such a root |
| CatchUpRace.TailIsRace | experiments/r-149-coupled-feasibility/calculate.py:18-26 | the binomial tail is the probability of so many successes before so many failures |
| CatchUpRace.WaitingSumIsRace | experiments/r-149-coupled-feasibility/calculate.py:29-35 | the negative-binomial sum is the same probability |
| CatchUpRace.RaceIsDecided | experiments/r-149-coupled-feasibility/calculate.py:18-35 | one side wins with probability one |
| CatchUpRace.CatchUpIsRace | experiments/r-149-coupled-feasibility/calculate.py:18-26 | the first formula is twice the probability of winning the race |
| CatchUpRace.NegativeBinomialIsRace | experiments/r-149-coupled-feasibility/calculate.py:29-35 | so is the second |
| CatchUpRace.FormulasAgree | experiments/r-149-coupled-feasibility/calculate.py:18-35 | the two formulas are equal for every rational share and every depth |
| EventualCatchUp.LevelTendsBelow | experiments/r-149-coupled-feasibility/calculate.py:18-26 | with less than half of the work the chance of drawing level from d behind within n blocks tends to (q/p)^d from below |
| EventualCatchUp.LevelTendsFromHalf | experiments/r-149-coupled-feasibility/calculate.py:20-21 | from half of the work on it tends to one |
| EventualCatchUp.EverIsTwiceRace | experiments/r-149-coupled-feasibility/calculate.py:18-26 | the chance of being first to z or level later is twice that of being first |
| EventualCatchUp.CatchUpIsEventual | experiments/r-149-coupled-feasibility/calculate.py:18-26 | for every share and depth the formula is the limit of the chance, block by block, of being level at the z-th honest block or within n blocks after it |
| CatchUpRace.DeeperIsSafer | experiments/r-149-coupled-feasibility/calculate.py:163-164 | one more confirmation strictly lowers a positive risk, so the search for the least depth is sound |
| EventualCatchUp.RaceBounded | experiments/r-149-coupled-feasibility/calculate.py:18-26 | the race is no likelier than (2q)^m (2p)^t |
| EventualCatchUp.DeepEnough | experiments/r-149-coupled-feasibility/calculate.py:163-164 | below half of the work every positive risk is met from some depth on, so the search for the least depth ends |
| Quorums.ThresholdQuorums | experiments/r-149-operation-invariants/analyze.py:17-30 | the quorums of a uniform threshold are exactly the groups of at least its size |
| Quorums.ThresholdIntersection | experiments/r-149-operation-invariants/analyze.py:33-37 | all quorums meet if and only if 2t > n |
| Quorums.SurvivingQuorum | experiments/r-149-operation-invariants/analyze.py:66-70 | a crash set leaves a quorum if and only if at least t nodes are left |
| Quorums.ReducedQuorums | experiments/r-149-operation-invariants/analyze.py:40-42 | after deleting f < t faulty nodes the quorums are exactly the groups of at least t - f others |
| Quorums.ReducedIntersection | experiments/r-149-operation-invariants/analyze.py:40-63 | the reduced quorums all meet if and only if 2t - n > f |
| Committees.SampleCount | experiments/r-149-task-committees/analyze.py:125-130 | every weight is the number of committees with that many hostile members, so the distribution is that of a uniform draw |
| Committees.Vandermonde | experiments/r-149-task-committees/analyze.py:12-21 | all weights together count all committees |
| Committees.WeightsSum | experiments/r-149-task-committees/analyze.py:14-20 | so do those in the range the script sums over |
| Committees.SumsToOne | experiments/r-149-task-committees/analyze.py:21 | the probabilities sum to one |
| Committees.MeanOfDistribution | experiments/r-149-task-committees/analyze.py:22-24 | the mean is size times hostile over population |
| JointCommittees.BetweenCount | experiments/r-149-task-committees/analyze.py:28-32 | the tail counts the committees with at least so many hostile members |
| JointCommittees.JointCount | experiments/r-149-task-committees/analyze.py:131-141 | all ordered pairs of disjoint committees, summed over the first one's hostile members |
| JointCommittees.JointDraw | experiments/r-149-task-committees/analyze.py:131-142 | for every population, sizes and thresholds the share of disjoint pairs with enough hostile members in both is the script's sum |
| Committees.Envelope | experiments/r-149-voting-envelope/analyze.py:35-40 | 2A > n + f and A <= n - f, and A is the least such threshold |
| Committees.CertificatesMeet | experiments/r-149-voting-envelope/analyze.py:35-40 | two certificates of one jury share more than f members, hence an honest one, and the honest members reach the threshold |
| Committees.OppositeCertificates | experiments/r-149-task-committees/analyze.py:145-168 | the least overlap of an acceptance and a rejection is exactly max(0, a + r - n), and some pair attains it |

## Left out

- ContributorHost.Host.Ask: does not tell supervisor calls, lifecycle waits and lifecycle-file removals apart, because none of them changes the modelled disk.
- ContributorHost.Host.constructor: starts from the disk a finished first installation leaves; the installation protocol and its own marker are not modelled.
- AdmissionAuthority.Vault.Issue: passwords, signatures, envelope encryption and the network and authority-key checks are decided before the model's request exists.
- ServiceCredential.Vault.Issue: the limit of 1 GiB on all records together is part of the outcome `Dropped`; record files are named by parent and request instead of a truncated hash; purging records, importing them and creating arbitrary service states by other operations are not modelled.
- DispatchContext.Context.Claim: decryption, the opening limiter and the registration checks decide the key or the refusal outside the model; that a nonce is accepted at most once is not claimed.
- DispatchContext.Context.Route: time is the flag `inTime`, and handing the gate back is part of the same step.
- TokenIssuance.Owner.Conclude: blinding and token contents are opaque; after a successful result there is one token per challenge.
- TokenIssuance.Owner.Issue: nothing else runs between its critical sections; interleavings are the subject of `TokenIssuance.Run`.
- TokenIssuance.Owner.Present: the hello, the source selection, the token's verification and the journal mark are the supplied passage.
- OpeningRate.Limiter.Keep: the capacity of the replay map is checked when an opening is reserved, not when its nonce is kept, so no bound on the map is claimed.
- FloorStore.Store.AdvanceFloor: the text of the file is modelled as it is written; that decoding it gives the same floors back is not.
- RecoveredAuthority.Vault.Activate: starts from the decoded quarantined state; the reconciliation proof behind the published generation and revision, the quarantine directory and other operations on the records are not modelled.
- AlphaReader.Reader.Publish: a rename that was not synced stays in effect; a machine crash that undoes it is not modelled, nor is the reader's lock.
- AlphaReader.Examine: the catalog's signature decides whether there is an input at all; component signatures and the caller's verifier are the supplied verdict.
- Other custody operations (paper backup, export, import, purging).
- The closed route protocols, the namespace, application and update components, and all command-line programs.
- Floating-point reporting in the experiment scripts: the model is exact.
