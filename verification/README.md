# Verification of HDNS

HDNS keeps the A records of DNS zones at Hetzner in step with a changing public address, issues
certificates for them over ACME, stores the certificates as files, and fires webhook tasks that hand
the material on; a worker on another machine receives it. This Dafny project models the parts of the
repository where a mistake would be hard to see, and proves what they promise. `dafny verify
dfyconfig.toml` checks all of it.

| files | what they model |
|---|---|
| `CertificateNames`, `IssuanceModel`, `IssuanceSafety`, `IssuanceLifecycle`, `IssuanceDelivery`, `IssuanceProgress`, `IssuanceOutcomes`, `IssuanceCompletion`, `IssuanceBodies` | Certificate issuance: manual starts, synchronous issues and renewal scans as threads with program counters, which share the in-memory slot map, the tables and the certificate files. One step is one slot operation, database statement, file operation, ACME order or webhook request; every one of them may fail, and records may be created, edited and deleted in between. |
| `IssuanceHistory`, `IssuanceFirings`, `IssuanceRequests`, `IssuanceClashes`, `IssuanceWitnesses`, `IssuanceSharing` | Whose certificate a webhook request carries. Beside the issuances there are requests made without a job, after an address change or on demand, which read whatever directory the certificate row names. When a record can receive the material of another one is settled in both directions, for every history of the records table. |
| `Wire`, `WireMessages`, `WireLayout`, `WireRoundTrip`, `WireCoders`, `ApiSchema` | The protobuf coders of the front end. All generated coders are the same text over different field lists, so they are written once, over schemas; `ApiSchema` holds the 24 field lists. Functions on bytes carry the proofs, the writer and reader methods are proved to compute them, and `WireLayout` says which bytes those are. |
| `Consensus`, `AddressHistory` | Choosing the public address from many resolvers, and the table that remembers it. |
| `Tasks`, `Hetzner`, `Reconciler` | Firing tasks, the DNS record sets, and the refresh that drives many record sets to one address. |
| `Cooldown` | The mail cooldown and how many reports it lets through. |
| `Challenge` | DNS-01 challenge publication (section 8.4 of RFC 8555) and zone-relative names. |
| `Template` | Task bodies and their placeholders. |
| `WorkerConfiguration`, `WorkerRules`, `WorkerExecution` | The worker: validation that normalises in place, the rules it comes to, and the execution of a task. |
| `Common` | Option, Result and the string helpers of the Go library. |

Failures of the outside world (which statement, request or write fails, and what it leaves behind) are
parameters of the methods and choices of the steps; every result holds for all of them unless it says
otherwise.

## What the proofs found

- Certificate records can share a directory: the apex record (`@`) and the wildcard record (`*`) of one zone
  always do, and so do `sub` and `*.sub` (`SameDomainSharing`, `WildcardShares`). Then a task can send out the
  certificate and the private key of the other record. What counts is not only the table as it stands. An
  issuance works with the version of the record it loaded, and tasks fired by an address change, or run on
  demand, read the directory that the certificate row still names after the record has been renamed. For any
  history of creates, edits and deletes some run sends foreign material if and only if one record may write
  where another may read, that is, two versions stored along the history share a directory, or a certificate row
  at the start names the directory of another record's version; or if such a row names a file that is another
  record's from the start (`ForeignDeliveryIffSharing`). From a start without either, it is enough to rule it out
  that each create and edit avoids the directories of the other rows, of the versions that issuances
  work with, of the other records' certificate rows, and of the requests that are just reading
  (`GuardedRunsDeliverOwn`); a create or edit that fails this makes a foreign request possible
  (`UnguardedGivesForeign`). The program checks nothing of the kind.
- A request made without a job can mix two orders of its own record, as it holds no slot (`OwnRequestMayMix`);
  it carries one order when each file had been written in full for the same job (`RequestCarriesOneOrder`).
- An address pair (IPv4 and IPv6) that comes back after another pair was current is refused by the
  unique key, after the reset has already cleared the current row. From then on every update fails as long as
  the pair stays and, if each statement commits on its own, no row is current (`SucceedsIff`,
  `ReturningPairStaysRefused`).
- A cooldown of more than 153722867 minutes overflows and is not the configured one (`CooldownIsConfiguredIff`):
  for every such value some run breaks the configured bound (`BoundIsConfiguredIff`), and one minute more than
  the limit lets every report through (`FirstOverflow`, `OverflowLetsAllThrough`).
- A report uses up the cooldown even if the mail manager is not running (`Notifier.SendReport`).
- When only saving `address_id` fails, the record counts as failed, and later refreshes with the same address
  never save it (`LostAddressIdStays`): a refresh saves the id exactly of the records it reports as updated
  (`AddressIdStoredIff`), and a fault-free one updates those whose record set does not lead with the address
  (`SecondRefreshStoresIff`).
- Selection does not need the consensus threshold: below it the candidate is used with a warning
  (`ResolveWithConsensus`).
- `@` written as a label below the zone has the same relative name as the zone itself (`AttachInvertsIff`).
- A double -0 is not encoded and comes back as 0 (`NegativeZeroIsLost`). A submessage sent twice is replaced,
  where the Protocol Buffers Encoding guide ("Last One Wins") merges it; the model follows the code (`LastValueWins`).
- `{{pkcs12_json}}` alone does not make the archive be built (`FormatIsInferredIff`).
- The worker accepts a `cert_save` action whose only file name is blank; it writes nothing and succeeds (`WritesNothingIff`).
- An upsert of an existing record set keeps its old TTL (`Client.Upsert`).

## Model

| member | source | states |
|---|---|---|
| CertificateNames.BuildDomainsShape | backend/pkg/dns/certificate.go:325-346 | the primary name comes first, the wildcard follows exactly when asked for and the primary is none, and no name is listed twice |
| CertificateNames.DirBaseOf | backend/pkg/dns/certificate.go:350-354 | the directory name of every record: a label made from its name, and the domain |
| CertificateNames.SameDomainSharing | backend/pkg/dns/certificate.go:325-354 | two records of one domain share a directory if and only if their names have the same label, whatever stars they hold |
| CertificateNames.WildcardShares | backend/pkg/dns/certificate.go:325-354 | the apex shares with its wildcard, and a name with the wildcard below it |
| CertificateNames.PlainNamesShareIff | backend/pkg/dns/certificate.go:325-354 | names without a star share if and only if they are equal or both name the apex |
| IssuanceModel.ParentDirOf | backend/pkg/tasks/task.go:339-378 | the parent of a stored path is the directory it was written to |
| IssuanceSafety.StepKeeps | backend/pkg/dns/certificate.go:76-321 | every step of every program point keeps the tables right, its own facts, and all rows, jobs and slots of other records |
| IssuanceSafety.Stable | backend/pkg/dns/certificate.go:22-25 | what one thread relies on survives every step of another that holds a different slot |
| IssuanceSafety.NextKeepsInv | backend/pkg/dns/certificate.go:76-321 | every action, thread step or change of the records table, keeps the invariant |
| IssuanceSafety.RunKeepsInv | backend/pkg/dns/certificate.go:76-321 | the invariant holds in every state of every run |
| IssuanceLifecycle.SingleFlight | backend/pkg/dns/certificate.go:94-138 | in every run the slot map is exactly the records of the live issuances, and no record has two |
| IssuanceLifecycle.OnlyTheHolderReleases | backend/pkg/dns/certificate.go:94-138 | a slot is only ever removed by the release step of the thread holding it, on the early-error path too |
| IssuanceLifecycle.RunningJobs | backend/pkg/dns/certificate.go:144-198 | a job is running if and only if a live owner has it or its finishing statement was lost; the owner holds the record's slot; with no slot taken only lost ones are running |
| IssuanceLifecycle.JobsEndOnce | backend/pkg/dns/certificate.go:260-276 | a job that has left running never changes again |
| IssuanceLifecycle.SuccessWasPersisted | backend/pkg/dns/certificate.go:178-198 | before a job turns successful its certificate row was valid with the dates and serial of that order's leaf and both paths |
| IssuanceLifecycle.CertificateRows | backend/pkg/dns/certificate.go:280-307 | never two rows for one record, inserts only where there is none, valid rows are complete |
| IssuanceLifecycle.StaysRenewable | backend/pkg/database/schema/certificates.sql.go:302-312 | an expiry date once set stays until the record is deleted, so every late enough renewal list names the certificate |
| IssuanceDelivery.StepKeepsFiles | backend/pkg/dns/certificate.go:366-388 | what each step does to the files: only the writing steps touch them, and only in their own directory |
| IssuanceDelivery.RunKeepsDelivery | backend/pkg/dns/certificate.go:144-198 | while live issuances use distinct directories, every thread's files stay its own up to the last read |
| IssuanceDelivery.DeliversOwnIssuance | backend/pkg/tasks/task.go:339-378 | while live issuances use distinct directories, every request with material made for a job carries the four pieces that job obtained, fullchain being certificate and chain |
| IssuanceHistory.RunKeepsHistory | backend/pkg/dns/certificate.go:119-138 | along every run the table is the one its creates, edits and deletes give, and every issuance works with a version that was stored before |
| IssuanceFirings.IssuancesRun | backend/pkg/tasks/task.go:55-98 | requests made without a job take nothing away: the issuances of a run of the whole program make a run of their own |
| IssuanceFirings.RunKeepsMarks | backend/pkg/dns/certificate.go:366-388 | in every run a file last written in full by a job holds that piece of the job's order, and so does what was read of it |
| IssuanceFirings.WritesAreMarked | backend/pkg/dns/certificate.go:366-388 | a write that went through marks the file as its job's in full, a failed one as incomplete, and nothing else changes what is known about who wrote a file |
| IssuanceFirings.RequestCarriesOneOrder | backend/pkg/tasks/task.go:339-378 | a request made without a job carries the four pieces of one order if each file, when it was read, had last been written in full for that job |
| IssuanceClashes.RunKeepsClaims | backend/pkg/tasks/task.go:339-378 | along every run, what certificate rows, readers and requests name, and what was written there, goes back to the start or to a version stored by then |
| IssuanceClashes.RunKeepsFilesThere | backend/pkg/dns/certificate.go:366-388 | in every run a certificate row with paths names a directory with all four files |
| IssuanceClashes.NoClashNoForeign | backend/pkg/dns/certificate.go:350-354 | a run in which no record may write where another may read sends nothing foreign, for a job or without one, whatever changes on the way |
| IssuanceClashes.RunKeepsApart | backend/pkg/dns/certificate.go:350-388 | under the guard, versions in the table and in use keep their directories apart, and no other record writes where a certificate row or a reader points |
| IssuanceClashes.GuardedRunsDeliverOwn | backend/pkg/web/api/record.go:131-195 | if every create and edit avoids the directories of the other rows, of the versions in use, of the other certificate rows and of the readers, nothing foreign is sent |
| IssuanceClashes.UnguardedIsClash | backend/pkg/web/api/record.go:131-195 | a create or edit that does not avoid them lets its record write where another may read |
| IssuanceSharing.Lift | backend/pkg/tasks/task.go:80-98 | every run of the issuances is a run of the whole program, with the readers standing still beside it |
| IssuanceSharing.ForeignDeliveryIffSharing | backend/pkg/tasks/task.go:339-378 | for every start and every history of creates, edits and deletes: foreign material is sent in some run with that history if and only if some record may write where another may read, or a row of the start names a file of another record |
| IssuanceSharing.UnguardedGivesForeign | backend/pkg/web/api/record.go:131-195 | whenever a create or edit of a run fails the guard, some run with the same changes up to it sends foreign material |
| IssuanceSharing.MixedStartGivesForeign | backend/pkg/tasks/task.go:339-378 | files that are mixed already at the start are sent in some run of every history |
| IssuanceSharing.OwnRequestMayMix | backend/pkg/tasks/task.go:339-378 | an issuance between two reads of a request for the same record makes it mix two orders |
| IssuanceRequests.EveryTaskIsCalled | backend/pkg/tasks/task.go:55-98 | after an address change each listed task with that trigger or both, and on demand each given one, gets one turn in list order: it is called, with material exactly if it includes the certificate, unless its own row, files or body could not be had; nothing else is called |
| IssuanceOutcomes.EveryTaskIsFired | backend/pkg/tasks/task.go:80-98 | in every run, from listing the tasks to giving the slot back, each listed task with the certificate trigger or both gets one turn in list order: it is called for that job, with material exactly if it includes the certificate, unless its own row, files or body could not be had; nothing else is called |
| IssuanceOutcomes.FiringJobSucceeded | backend/pkg/dns/certificate.go:195-196 | in every run whoever fires tasks has a job recorded as a success, unless the statement was lost or the row deleted |
| IssuanceOutcomes.JobEndsAsItShould | backend/pkg/dns/certificate.go:157-195 | once the finishing statement has gone through, the job row says success for an issuance that stored its certificate and failure for any other, for good |
| IssuanceOutcomes.FailureStopsIssuance | backend/pkg/dns/certificate.go:147-193 | a failure before the job gives the slot back and touches no table; one from the order to storing marks the certificate, then the job, and nothing is called |
| IssuanceOutcomes.PassedWithAcme | backend/pkg/dns/certificate.go:87-125 | no issuance goes on unless ACME was switched on when it passed the gate |
| IssuanceOutcomes.LoadTakesTheRow | backend/pkg/dns/certificate.go:56-92 | a manual or synchronous issuance whose record is stored comes to the gate with its row |
| IssuanceOutcomes.DeleteTakesItsOwn | backend/pkg/database/migrations/002_certs_tasks.sql:8-26 | deleting a record takes its certificate and jobs along and no others |
| IssuanceCompletion.IssuanceCompletes | backend/pkg/dns/certificate.go:116-198 | an issuance of any kind to which every step is answered leaves the four files, the valid row with dates, serial and paths, a successful job, one request for each matching task in order, and the slot free; a renewal goes on with its list |
| IssuanceBodies.BodyCarriesOwnIssuance | backend/pkg/tasks/task.go:243-307 | while live issuances use distinct directories, the body sent for a job is the task body with the pieces of that job in place of the placeholders |
| IssuanceBodies.BlankBodyCarriesOwnIssuance | backend/pkg/tasks/task.go:267-286 | in the same runs a task with a blank body sends the JSON object of the pieces of its job, with the archive only for a stated pkcs12 format |
| IssuanceProgress.RankFalls | backend/pkg/dns/certificate.go:144-198 | every step between taking and giving back the slot lowers a measure, whatever fails |
| IssuanceProgress.IssuanceReleases | backend/pkg/dns/certificate.go:106-137 | an accepted issuance gives its slot back within 7m + 17 of its own steps, m the most tasks listed |
| IssuanceProgress.ScanInExpiryOrder | backend/pkg/dns/certificate.go:202-239 | a scan takes up its list in expiry order, each record at most once, and ends only after the whole list |
| IssuanceProgress.ScanTakesList | backend/pkg/dns/certificate.go:202-220 | a scan begins exactly if ACME is switched on and its list could be read, and goes through all of that list |
| IssuanceProgress.LeftWasTurnedDown | backend/pkg/dns/certificate.go:202-239 | a scan leaves out no entry without a reason: each one it is past was tried for, or its record could not be loaded or wants no certificate, or ACME had been switched off |
| Wire.VarintRoundTrip | frontend/src/app/global/model/api.ts:704-748 | reading a written varint gives the number and leaves what follows |
| Wire.Uint32RoundTrip | frontend/src/app/global/model/api.ts:761-762 | tags and lengths are read back |
| Wire.SkipExtends | frontend/src/app/global/model/api.ts:871-874 | skipping a field does not depend on what follows it, groups included |
| WireMessages.ReadItemExtends | frontend/src/app/global/model/api.ts:750-876 | the value of a field does not depend on what follows it |
| WireMessages.DecodeLoopResumes | frontend/src/app/global/model/api.ts:750-876 | stopping the loop at an earlier end and going on is the same as not stopping |
| WireMessages.DecodeComposes | frontend/src/app/global/model/api.ts:750-876 | after whole fields a, decoding a + b is decoding b into what a gave, for every b |
| WireMessages.ForeignFieldIsSkipped | frontend/src/app/global/model/api.ts:3147-3305 | an unknown field, or a known number with another wire type, changes nothing at any field boundary |
| WireLayout.VarintDigits | frontend/src/app/global/model/api.ts:704-748 | a varint holds the digits to base 128, lowest first, with the high bit on all bytes but the last, and is as short as can be |
| WireLayout.NumbersAreVarints | frontend/src/app/global/model/api.ts:479-483 | int64, int32 and uint32 are the varint of the number modulo 2^64, booleans 0 or 1, for every number in range |
| WireLayout.VarintsAreNumbers | frontend/src/app/global/model/api.ts:3803-3812 | every varint of 64 bits is read as the number of its kind it is congruent to, an int64 that is no safe integer refused |
| WireLayout.LengthsComeFirst | frontend/src/app/global/model/api.ts:714-734 | text and messages stand behind the number of their bytes, doubles are their eight bytes |
| WireLayout.SingularFields | frontend/src/app/global/model/api.ts:479-497 | defaults are left out, any other value stands behind 8 times its number plus its wire type |
| WireLayout.RepeatedFields | frontend/src/app/global/model/api.ts:2008-2019 | every element of a repeated field has its own tag |
| WireLayout.PayloadIsSkipped | frontend/src/app/global/model/api.ts:871-874 | skipping a varint, eight or four bytes, a length and that many bytes, or a group of such fields leaves exactly what follows |
| WireLayout.BrokenIsRefused | frontend/src/app/global/model/api.ts:871-874 | a group closed by another number, a payload cut short and the other wire types are refused |
| WireLayout.UnknownFieldIsIgnored | frontend/src/app/global/model/api.ts:750-876 | a field with an unknown number, or a known one with another wire type, may stand anywhere between fields and changes nothing |
| WireLayout.EndTagStops | frontend/src/app/global/model/api.ts:868-870 | a zero tag or an end tag ends the message where it stands |
| WireRoundTrip.ItemRoundTrip | frontend/src/app/global/model/api.ts:704-876 | every value is read back and the reader stands right behind it |
| WireRoundTrip.SubmessageRoundTrip | frontend/src/app/global/model/api.ts:833-835 | a nested decode ends exactly at its declared end |
| WireRoundTrip.LastValueWins | frontend/src/app/global/model/api.ts:828-860 | of two values of a singular field the second counts; a submessage is replaced |
| WireRoundTrip.MsgRoundTrip | frontend/src/app/global/model/api.ts:1994-2101 | decode of encode reads every byte and gives the message back, with -0 turned into 0 |
| WireRoundTrip.RoundTripExactly | frontend/src/app/global/model/api.ts:3088-3305 | the message comes back unchanged if and only if no double in it is -0 |
| WireRoundTrip.NegativeZeroIsLost | frontend/src/app/global/model/api.ts:3105-3110 | a message that only has -0 in a double comes back as the base message |
| WireCoders.BinaryWriter.Join | frontend/src/app/global/model/api.ts:732-734 | ending a fork writes its bytes behind their length |
| WireCoders.WriteItem | frontend/src/app/global/model/api.ts:704-748 | the writer appends exactly the encoding of the value |
| WireCoders.WriteItems | frontend/src/app/global/model/api.ts:2008-2019 | a repeated field is written tag by tag, nothing elided |
| WireCoders.Encode | frontend/src/app/global/model/api.ts:704-748 | encode appends the encoding of the message and leaves the forks as they were |
| WireCoders.BinaryReader.Uint32 | frontend/src/app/global/model/api.ts:754-756 | the reader moves forward past the varint it reads |
| WireCoders.BinaryReader.Scalar | frontend/src/app/global/model/api.ts:3803-3812 | scalar reads, with int64 outside the safe integers refused |
| WireCoders.BinaryReader.Skip | frontend/src/app/global/model/api.ts:871-874 | a skip moves the reader to the end of the field |
| WireCoders.Decode | frontend/src/app/global/model/api.ts:750-876 | the decode loop computes the decoding of the declared length, advances the reader in every round, and ends |
| WireCoders.ReadValue | frontend/src/app/global/model/api.ts:833-860 | one field is read as a scalar or by a nested decode |
| WireMessages.GuideVarints | frontend/src/app/global/model/api.ts:705-737 | two numbers as the Protocol Buffers Encoding guide writes them: least significant group first, negative int32 in ten bytes |
| WireMessages.GuideSubmessage | frontend/src/app/global/model/api.ts:732-734 | the guide's number and submessage, byte for byte |
| WireMessages.GuideText | frontend/src/app/global/model/api.ts:714-716 | the guide's string, byte for byte |
| ApiSchema.TagsOfTheFile | frontend/src/app/global/model/api.ts:478-1185 | the field lists of addresses, records and certificates give the tag constants in the file, in encoding order |
| ApiSchema.CertificateTags | frontend/src/app/global/model/api.ts:1442-1786 | the same for certificate artifacts, issuance jobs and task runs |
| ApiSchema.MoreTagsOfTheFile | frontend/src/app/global/model/api.ts:1994-3145 | the same for certificate details, tasks and the configuration |
| ApiSchema.SchemasAreValid | frontend/src/app/global/model/api.ts:319-3546 | every message type of the file has distinct field numbers in range, so the results above hold for it |
| Consensus.AnswersAreCounted | backend/pkg/dns/address.go:108-134 | each address is answered as often as its responses come, and the rest of the responses are failures |
| Consensus.AnswersInOrder | backend/pkg/dns/address.go:108-134 | the answers stand in the order of the responses |
| Consensus.WinnerIffWins | backend/pkg/dns/address.go:136-189 | an answer wins if and only if it comes most often among the responses, and first among those that come as often |
| Consensus.Tally | backend/pkg/dns/address.go:108-134 | the counting loop finds for every address how often and when first it was answered, and the counts sum to the successful responses |
| Consensus.TallyIsFaithful | backend/pkg/dns/address.go:108-134 | every count is between 1 and the number of successful responses, and no two addresses were first seen together |
| Consensus.PickConsensusCandidate | backend/pkg/dns/address.go:169-189 | under every iteration order of the map the pick has the highest count and among those the earliest first answer |
| Consensus.ResolveWithConsensus | backend/pkg/dns/address.go:103-167 | the selected address is the earliest of maximal multiplicity, agreement is its rounded share, above 0 and at most 1, and it is selected below the threshold too |
| Consensus.WinnerIsUnique | backend/pkg/dns/address.go:169-189 | there is one such address |
| Consensus.OrderIsIrrelevantIffClear | backend/pkg/dns/address.go:169-189 | the selection is the same for every order of the answers if and only if no other answer is as frequent |
| Consensus.MajorityIsStable | backend/pkg/dns/address.go:136-166 | rounded agreement at a threshold above one half means a strict majority, selected under every order |
| AddressHistory.AddressStore.GetCurrentAddress | backend/pkg/database/schema/addresses.sql.go:72-81 | a current row, or an empty one when there is none |
| AddressHistory.AddressStore.ResetCurrentAddresses | backend/pkg/database/schema/addresses.sql.go:136-142 | no row is current any more, nothing else changes |
| AddressHistory.AddressStore.CreateAddress | backend/pkg/database/migrations/001_setup.sql:30 | the insert is refused exactly for a stored pair of both families |
| AddressHistory.AddressStore.UpdateAddress | backend/pkg/dns/address.go:25-68 | the table and result of a call for every pair and every set of refused statements |
| AddressHistory.OneCall | backend/pkg/dns/address.go:25-83 | exactly when a call changes the table, adds a row and succeeds, for every pair and whatever fails; a row is only added for a pair that is not current and not stored in both families |
| AddressHistory.UpdatedIsOk | backend/pkg/dns/address.go:32-67 | a call keeps at most one row current and alters no stored address |
| AddressHistory.SuccessIsCurrent | backend/pkg/dns/address.go:32-67 | no error means exactly one current row, which carries the resolved pair |
| AddressHistory.EveryRunKeepsHistory | backend/pkg/dns/address.go:25-68 | both over every sequence of calls, whatever statements fail |
| AddressHistory.SucceedsIff | backend/pkg/dns/address.go:32-67 | with nothing failing a call succeeds if and only if the pair is current already or not stored; otherwise no row is left current |
| AddressHistory.ReturningPairStaysRefused | backend/pkg/dns/address.go:32-67 | a returning pair is refused at every further call |
| AddressHistory.ReturningPairExample | backend/pkg/database/migrations/001_setup.sql:30 | a concrete run of three resolutions that ends in the refusal |
| Tasks.FiresExactly | backend/pkg/tasks/task.go:80-98 | fired are exactly the enabled tasks of the record with a matching trigger, each as often as listed |
| Tasks.FiresInOrder | backend/pkg/tasks/task.go:80-98 | tasks are fired in list order |
| Tasks.TaskStore.RunTask | backend/pkg/tasks/task.go:101-161 | the webhook is called even when the run row cannot be created; the result is recorded on the task, and the row ends as the call did |
| Tasks.TaskStore.FireTasks | backend/pkg/tasks/task.go:80-98 | the matching tasks are called one after the other past every failure, with their results and run rows |
| Tasks.FiredRows | backend/pkg/tasks/task.go:80-98 | the fired rows of the table, by position: enabled, of the record, with the trigger or both, in table order |
| Tasks.CallIsLogged | backend/pkg/tasks/task.go:101-161 | the run row names task, record, job and event and ends as the call did; the result of the call is that of the task |
| Tasks.RunsAreFinished | backend/pkg/tasks/task.go:101-161 | no row of a firing stays running if the rows can be finished, and each carries the job id |
| Tasks.ResultsAreOwn | backend/pkg/tasks/task.go:122-140 | each fired task ends with its own result, if that could be recorded, and all other tasks keep theirs |
| Hetzner.QuotingIsIdempotent | backend/pkg/dns/hetzner.go:165-170 | the result is quoted, quoting twice changes nothing, and values without quotes stay apart |
| Hetzner.Client.Upsert | backend/pkg/dns/hetzner.go:185-213 | creates the set or replaces the values of the existing one, whose TTL stays; a failed write may have done so all the same |
| Hetzner.Client.UpsertTxtRecord | backend/pkg/dns/hetzner.go:113-144 | the same for quoted TXT values |
| Hetzner.Client.DeleteTxtRecord | backend/pkg/dns/hetzner.go:148-161 | removes the set; one that is not there is a success |
| Challenge.AttachInvertsIff | backend/pkg/dns/acme.go:246-257 | putting the zone back undoes relativeName if and only if the name is not "@" written below the zone |
| Challenge.OthersStayWhole | backend/pkg/dns/acme.go:246-257 | a name outside the zone stays as it is but for a final dot |
| Challenge.RelativeNamesCollideIff | backend/pkg/dns/acme.go:246-257 | exactly which names of a zone share a relative name |
| Challenge.Provider.Present | backend/pkg/dns/acme.go:219-229 | the value is kept and all values of the name are published |
| Challenge.Provider.CleanUp | backend/pkg/dns/acme.go:232-241 | the values of the name are dropped and its set is deleted |
| Challenge.PublishesOutstanding | backend/pkg/dns/acme.go:219-241 | after any calls, a name whose last call succeeded has exactly the quoted values presented since its last clean-up, and no set when there are none |
| Challenge.OthersUntouched | backend/pkg/dns/acme.go:219-241 | no other record set changes |
| Challenge.CleanedUpLeavesNothing | backend/pkg/dns/acme.go:232-241 | a successful clean-up leaves no challenge set behind |
| Reconciler.Service.UpdateRecord | backend/pkg/dns/hetzner.go:62-88 | upsert and saving of the address id, with each failure; an address without IPv4 is written as an empty value |
| Reconciler.Service.RefreshRecordStatus | backend/pkg/dns/service.go:150-185 | verdict and effect for one record |
| Reconciler.Service.RefreshRecord | backend/pkg/dns/service.go:187-226 | one record against the current address: result, effect, calls and run rows |
| Reconciler.Service.RefreshAll | backend/pkg/dns/service.go:87-103 | the loop over the records: statuses, counters, record sets, calls and run rows |
| Reconciler.Service.Refresh | backend/pkg/dns/service.go:54-145 | the report, its severity and all effects; nothing happens without an address or a record list |
| Reconciler.IpCallsAreDue | backend/pkg/dns/service.go:87-97 | the calls of a refresh are exactly one for each record reported as updated whose task list loads and each of its enabled tasks with the address trigger or both, in the order of report and table |
| Reconciler.ReportedExactly | backend/pkg/dns/service.go:150-185 | a record is unchanged exactly when its set was found to lead with the address, updated exactly when not and all writes worked; a written set has the address as its one value and keeps its TTL |
| Reconciler.CountIsNumber | backend/pkg/dns/service.go:91-102 | each counter is the number of records reported that way |
| Reconciler.DdnsInOrder | backend/pkg/dns/service.go:87-90 | the DDNS records keep the order of the list |
| Reconciler.ReportConserves | backend/pkg/dns/service.go:87-142 | updated, failed and unchanged add up to the DDNS records, each reported once and in order |
| Reconciler.DdnsExactly | backend/pkg/dns/service.go:87-103 | the refreshed records are exactly those with a DDNS purpose |
| Reconciler.EachAlone | backend/pkg/dns/service.go:150-185 | with unique names every record is judged and changed as if refreshed alone |
| Reconciler.Converges | backend/pkg/dns/service.go:87-103 | every record not reported failed ends with the address first in its A set; all other sets are unchanged |
| Reconciler.QuietWhenUpToDate | backend/pkg/dns/service.go:150-185 | a refresh of records that are up to date writes nothing, reports all unchanged and fires no task |
| Reconciler.SecondRefreshIsQuiet | backend/pkg/dns/service.go:54-145 | a second refresh after a clean one changes nothing and fires nothing |
| Reconciler.SecondRefreshRepairs | backend/pkg/dns/service.go:54-145 | after failures, a second refresh updates exactly the records that are not up to date, and then all are |
| Reconciler.LostAddressIdStays | backend/pkg/dns/hetzner.go:62-88 | a lost save of the address id is never repaired by later refreshes with that address |
| Reconciler.AddressIdStoredIff | backend/pkg/dns/hetzner.go:62-88 | after a refresh the id of a record is stored if and only if it was before or the record is reported as updated |
| Reconciler.SecondRefreshStoresIff | backend/pkg/dns/service.go:54-145 | a fault-free second refresh stores a missing id if and only if the record set did not lead with the address |
| Cooldown.CooldownIsConfiguredIff | backend/pkg/mail/mail.go:213-235 | the cooldown in force is the configured one if and only if it is at most 153722867 minutes |
| Cooldown.Notifier.AllowBySeverity | backend/pkg/mail/mail.go:213-235 | decision and stamps after a report |
| Cooldown.Notifier.SendReport | backend/pkg/mail/mail.go:159-208 | the gates come before the cooldown, which is used up even when the manager is not running or the message cannot be built |
| Cooldown.StampsStand | backend/pkg/mail/mail.go:213-235 | over every run, with the cooldown configured anew for each report, the stamp of a severity is that of the last report let through that no failure has flushed |
| Cooldown.LetThroughIff | backend/pkg/mail/mail.go:213-235 | a report is held back if and only if a cooldown is configured and such an earlier report of its severity is less than the cooldown old |
| Cooldown.StampsAreKept | backend/pkg/mail/mail.go:213-235 | the stamps are those of the last reports let through, the success stamp flushed by failures |
| Cooldown.LetThroughApart | backend/pkg/mail/mail.go:213-235 | failures let through are a cooldown apart; two closer successes have a failure between them |
| Cooldown.FailureFlushesSuccess | backend/pkg/mail/mail.go:213-235 | after a failure let through the next success passes |
| Cooldown.FailuresIgnoreSuccesses | backend/pkg/mail/mail.go:213-235 | failure decisions are the same with all successes left out of the history |
| Cooldown.WindowBound | backend/pkg/mail/mail.go:213-235 | a window of length W lets through at most W/c + 1 failures and W/c + failures + 1 successes |
| Cooldown.ConfiguredWindowBound | backend/pkg/mail/mail.go:213-235 | the bound for a configured cooldown that does not overflow |
| Cooldown.OverflowLetsAllThrough | backend/pkg/mail/mail.go:222-226 | a cooldown that has overflowed to nothing or less lets every report of a forward clock through |
| Cooldown.BoundIsConfiguredIff | backend/pkg/mail/mail.go:213-235 | every run keeps the bound of the configured cooldown if and only if that is at most 153722867 minutes; beyond, two failures slip into one cooldown |
| Cooldown.FirstOverflow | backend/pkg/mail/mail.go:222 | the first configured value beyond the limit is such a one |
| Template.PrefixFree | backend/pkg/tasks/task.go:288-306 | no placeholder is the beginning of another |
| Template.NoOverlap | backend/pkg/tasks/task.go:288-306 | no placeholder starts inside another |
| Template.ReplaceIsRender | backend/pkg/tasks/task.go:288-306 | the one pass over the text is substitution into any reading of it as characters and placeholders |
| Template.ReadingReads | backend/pkg/tasks/task.go:288-306 | every body has such a reading |
| Template.EveryPlaceholderIsRead | backend/pkg/tasks/task.go:288-306 | the reading misses no placeholder |
| Template.OrderIsIrrelevant | backend/pkg/tasks/task.go:288-306 | the order of the pairs does not matter |
| Template.OnlyHolesChange | backend/pkg/tasks/task.go:288-306 | putting each placeholder in for itself changes nothing |
| Template.RenderAppend | backend/pkg/tasks/task.go:288-306 | the parts of a body are substituted each on its own |
| Template.PlainBodyIsSent | backend/pkg/tasks/task.go:243-256 | without the certificate the body is sent as it is; with it nothing is sent when the material cannot be loaded |
| Template.RenderBodySubstitutes | backend/pkg/tasks/task.go:243-307 | a body that is not blank is sent with each placeholder replaced by its value, inserted text never scanned again; nothing is sent when the archive cannot be built |
| Template.BlankBodySendsAll | backend/pkg/tasks/task.go:267-286 | a blank body is sent as the JSON object of the material, with the archive only for a stated pkcs12 format |
| Template.PayloadHoldsAll | backend/pkg/tasks/task.go:268-279 | that object has every piece under its own name, and the archive exactly when there is one |
| Template.CertificatesAreSent | backend/pkg/tasks/task.go:289-291 | a certificate placeholder alone is sent as its own piece, in every format |
| Template.KeyAndArchiveAreSent | backend/pkg/tasks/task.go:293-294 | so is the private key; and the archive, which is empty when the format is stated as pem |
| Template.JsonVariants | backend/pkg/tasks/task.go:289-304 | every plain placeholder has a JSON variant, sent as the escaped text of the plain one |
| Template.FormatIsSent | backend/pkg/tasks/task.go:296 | the format placeholder alone is sent as the format in force |
| Template.FormatInAnyCase | backend/pkg/tasks/task.go:311-318 | a format is recognised in any case and with spaces around it |
| Template.FormatIsInferredIff | backend/pkg/tasks/task.go:311-326 | the archive format is chosen if and only if it is stated, or none is and one of the two plain archive placeholders is in the body; otherwise it is pem |
| WorkerConfiguration.WorkerConfig.Validate | worker/pkg/config/config.go:152-179 | an acceptable configuration is left normalised, otherwise the first problem is reported and only what precedes it is normalised |
| WorkerConfiguration.WorkerConfig.Defaults | worker/pkg/config/config.go:182-261 | one action is accepted exactly when its fields allow, and is normalised in place |
| WorkerConfiguration.CheckCertSave | worker/pkg/config/config.go:185-205 | the checks of cert_save, combined files and parts included |
| WorkerConfiguration.CheckFortiOS | worker/pkg/config/config.go:263-281 | the FortiOS settings are checked and the scope is normalised |
| WorkerConfiguration.CheckUpdates | worker/pkg/config/config.go:228-249 | the profile updates are normalised up to the first that is refused |
| WorkerConfiguration.WorkerConfig.TaskByName | worker/pkg/config/config.go:357-364 | the first task of the name; on an accepted configuration the only one |
| WorkerRules.AcceptedByType | worker/pkg/config/config.go:182-281 | which settings each type of action needs, in literal names; no other type is accepted |
| WorkerRules.MethodInAnyCase | worker/pkg/config/config.go:234-248 | a method is accepted in any case and with spaces around it |
| WorkerRules.OnlyDefaultsAreFilledIn | worker/pkg/config/config.go:231-281 | an accepted action changes only where scope or method are left out, vdom and PUT, or have space around them |
| WorkerRules.RefusedKeepsTheRest | worker/pkg/config/config.go:231-281 | a refused action is left alone behind the point of refusal |
| WorkerRules.AcceptedConfiguration | worker/pkg/config/config.go:152-179 | a configuration is accepted if and only if it has a port, different names that are not blank, and acceptable actions in every task |
| WorkerConfiguration.NormalActionIsUsable | worker/pkg/config/config.go:228-281 | after acceptance scopes, paths, fields and methods have the values the requests need |
| WorkerConfiguration.AcceptedIsFixed | worker/pkg/config/config.go:152-281 | an accepted configuration, normalised, is a fixed point of validation |
| WorkerConfiguration.RefusedIsFixed | worker/pkg/config/config.go:152-281 | validating what a refusal left reports the same problem and changes nothing |
| WorkerConfiguration.ProblemIsUnique | worker/pkg/config/config.go:152-281 | a configuration with a problem is not acceptable, and problem and remaining state are determined |
| WorkerExecution.Combine | worker/pkg/task/cert.go:73-84 | the content is the blocks of the listed parts, or the first part the payload lacks |
| WorkerExecution.Machine.SaveEntries | worker/pkg/task/cert.go:52-63 | the individual files in order, up to the first that lacks content or fails, which the error names |
| WorkerExecution.Machine.SaveCombined | worker/pkg/task/cert.go:73-88 | the combined files in order, up to the first that lacks a part or fails, which the error names |
| WorkerExecution.Machine.Save | worker/pkg/task/cert.go:18-91 | the files and the error of cert_save for every payload and every failing write |
| WorkerExecution.Machine.Execute | worker/pkg/task/executor.go:26-57 | what has run is a prefix of the actions up to the first failure, whatever their commands do to the files; on accepted actions the unknown-type branch is never reached |
| WorkerExecution.CarriedIff | worker/pkg/task/cert.go:52-88 | the save succeeds if and only if no named file lacks its content and no write fails |
| WorkerExecution.CarryTouches | worker/pkg/task/cert.go:52-88 | only the named files are touched, whatever fails |
| WorkerExecution.CarryLeaves | worker/pkg/task/cert.go:52-88 | after success each file holds what was last written to it |
| WorkerExecution.BlocksAppend | worker/pkg/task/cert.go:73-84 | a combined file is its listed parts in order |
| WorkerExecution.BlockEndsOnce | worker/pkg/task/cert.go:73-84 | each part of a combined file is its piece with exactly one newline at the end, and not blank |
| WorkerExecution.PartsArePieces | worker/pkg/task/cert.go:66-71 | cert, chain, fullchain and key mean those pieces of the payload |
| WorkerExecution.FirstMissingIsReported | worker/pkg/task/cert.go:44-58 | the first piece in the order of the source that is to be saved and missing ends the save, and only files before it are touched |
| WorkerExecution.OtherActionsAreDelegated | worker/pkg/task/executor.go:31-47 | commands and restarts do to the files what they do, FortiOS actions nothing, and each succeeds as it reports |
| WorkerExecution.FilesAreSaved | worker/pkg/task/cert.go:44-63 | after a successful save to different files each named file holds its own piece of the payload, which is not empty |
| WorkerExecution.CombinedIsSaved | worker/pkg/task/cert.go:73-88 | after a successful save a combined file holds its parts in order, none of them blank |
| WorkerExecution.WritesNothingIff | worker/pkg/config/config.go:186-191 | an accepted cert_save writes nothing, and succeeds, if and only if all its names are blank |
| WorkerExecution.ChainAppend | worker/pkg/task/executor.go:26-57 | running a list of actions after another happens only if all of the first succeeded, from the state they left |
| WorkerExecution.ChainEndsAtFailure | worker/pkg/task/executor.go:26-57 | the actions before the end of the chain succeeded, and the one it ended at failed |

## Left out

- HTTP, DNS, ACME, Hetzner and FortiOS clients: each is a choice of success or failure with its effect on the modelled state. Shell commands and service restarts of the worker also do anything to its files.
- Cryptography, X.509, PEM and PKCS#12 contents, token and header encryption, base64: opaque values and functions.
- Text as UTF-8: strings of the wire format are their bytes, and a conversion that replaces ill-formed text is not modelled; doubles are their eight bytes, so NaN payloads are kept.
- JSON conversions of the front end, the Go protobuf and JRPC glue, the RPC handlers and the configuration mapping: field by field.
- Encoding of a message whose properties have the wrong JavaScript type: the encoder functions write nothing there.
- The generated coders are written once over schemas instead of once a message; that a message of the file has the listed fields is a matter of reading `ApiSchema`, whose tags are compared with those in the file.
- `certificate.go` as classes: the issuance is a step machine on values, because its threads share everything and interleave at every step.
- A process killed in the middle of an issuance: the runs start with a fresh process, and jobs left running by an earlier one count as lost.
- A failed database statement is taken to have had no effect, and each statement of an address update to commit on its own: the query helper lies outside the repository, and if it ran the statements of one call in a transaction, a refused insert would also undo the reset. A failed file write may leave anything behind, and a failed request to Hetzner may have taken effect.
- Task run rows and results are not part of the step machine, where a firing is a sequence of requests; `Tasks` has them.
- Tasks.TaskStore.RunTask: the status text and the times of the run row and of the task row are not modelled; a result is success or failure.
- Tasks.TaskStore.FireTasks: the same texts and times are not modelled.
- Downloads of certificate files through the web interface: they read the directory of the certificate row as the requests do, and are not part of the machine.
- IssuanceSharing.ForeignDeliveryIffSharing: a file of which it is not known who wrote it before the start counts as nobody's; a certificate row with paths is taken to name existing files at the start, which every run keeps (`RunKeepsFilesThere`).
- IssuanceFirings.RequestCarriesOneOrder: says when a request is of one order, not that it is otherwise a mixture, as two orders may agree in a piece.
- Collation of the unique keys: strings are compared exactly, where MySQL may ignore case.
- The data directory in front of the certificate directories, and path cleaning.
- Consensus.ResolveWithConsensus: agreement is a real number under any rounding that keeps the order and the values 1 and one half, for fewer than 2^53 responses, in place of the exact 64-bit rounding; which resolver failed and why is not kept.
- Concurrent address updates and overlapping TXT upserts, which the code does not serialise: those results are about sequential runs.
- The IP address validators, cron expressions, logging and mail rendering.
- Reconciler.Service.Refresh: the certificate statuses appended to the report, each a lookup of a row, and the texts of the report are not modelled.
- Stored certificates other than through issuance.
- ToUpper and ToLower are modelled as far as they can produce ASCII letters, which is all that their callers compare with; a refused HTTP method is left behind with its other letters as they were.
- FortiOS flags that validation does not look at (TLS verification, dry run), and the worker's secret and log level.
- The Angular user interface, authentication, and the migrations runner.
