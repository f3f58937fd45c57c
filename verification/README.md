# Identity projection, schema publishing and control-plane pieces of an IAM service, verified

The service keeps three things in step that live in different places: a directory
of organizations, groups and users; a store of authorization tuples such as
`group:g#member@user:u`; and the schema those tuples must follow. This project
models the code that keeps them in step and proves what it keeps, over every run.

**Projection.** Every directory change becomes an event: tuples to write, or a list
of delete filters with the tuples captured for a rollback. The tuple store is a set
in which each call may fail (`Projection.RelationshipStore`), filters are predicates,
an event is a plan of store calls that may stop part way, and the dispatcher is a
class with an event table and a clock (`Dispatcher`), proved equal to a state machine
whose runs are studied in `DispatcherRuns`, `Recovery` and `RetryHistory`. `Delivery` asks when the
final store is independent of order, repetition and interruption. `Directory` and
`EventPlans` say what each directory operation writes or deletes; `Mirror`,
`Membership`, `Rollback`, `Effects`, `Agreement`, `Drift`, `Startup` and `Offboarding` say what
that does to the store. `Operations` and `Admin` are the decorated identity provider, failures
included; `DispatchOrder` and `FaultyRuns` put operations, faults and retries together and
say when the recovered store agrees with the directory.

**Schema.** `SchemaComments`, `SchemaScan` and `SchemaParse` are the comment stripper,
hand-written scanners with the priorities of the two regular expressions, brace
matching and the parser. `SchemaBlocks` characterizes what the parser accepts without
its loop and `SchemaRender` is its inverse. `SchemaDiff` is the comparison, and
`SchemaBootstrap` the gates and the runs of start-ups.

**Manifest and administrators.** `Manifest` validates a manifest against a schema and
resolves roles by iterating a map in an arbitrary order; `AdminBootstrap` builds the
administrators' tuples from it.

**Control plane.** `RoleTemplates` (optimistic concurrency), `Where` (the query
builder, read back by a small SQL lexer and parser) and `Paging`.

## Assumptions

- An empty field of a delete or read filter is a wildcard.
- An object or subject reference is zero when its type or id is blank.
- `WriteRelationships` is an atomic set union, and a failing store call has no effect.
- Updates of the event table succeed; the code ignores their errors
  (internal/data/identity_mode.go:166-179). JSON payloads come back as they were stored.
- Delete filters without a resource type are honoured by the store. The comments at
  internal/data/identity_mode.go:769-771 and 792-795 disagree with each other and with
  the filters at 746-752; the model follows the code.
- Where a lemma says `CleanEvent`, `Canonical` or `Separable`: ids contain no `#`, types
  no `:`, relations no `@`, and stored ids are trimmed. `Relationships.KeyCollision`
  shows why.
- The provider addresses groups through their organization and gives new groups fresh ids.
- Strings are sequences of code points. White space is `unicode.IsSpace` in trimming
  and the ASCII class `\s` in the scanners.

## Findings

- Normalizing a payload twice is not normalizing it once: a filter that names nothing
  but a blank id becomes the filter that selects every tuple, and the second pass drops
  it (`Projection.NormalizeIdempotent`, `Projection.BlankIdWitness`).
- With direct apply, `retry_count` is 2f - 1 after f failed attempts
  (`Recovery.RetryCountIsFailures`, `Recovery.TwoFailuresCountThree`). Through DTM, a successful
  resubmission leaves the row due (`Recovery.DtmDoesNotDrain`).
- A compensation that fails part way is marked like a failed application, so a minute later the
  event it was to undo is submitted again (`RetryHistory.FailedUndoIsSubmittedAgain`).
- Compensating a removal writes the memberships back whether or not they had been there, and
  cannot restore what it took out of zones it did not name (`Effects.RemovalRollbackExactIff`).
- Compensating a DeleteGroup loses the tuples that name the group as subject, and keeps
  the parent/member mirror exactly when the group had neither parent nor children
  (`Rollback.GroupRollback`, `Rollback.GroupRollbackMirrorIff`). Deleting a group that is
  not a leaf leaves the index out of step (`Agreement.DeleteKeepsIffLeaf`).
- An update whose detach failed and that was then repeated with success can be undone in
  part by the retry of that detach: the group loses its zone
  (`FaultyRuns.RetriedDetachLosesZone`). An update that stops between its two events leaves
  a torn group (`FaultyRuns.SyncedServiceAgreesIff`).
- RemoveUserFromGroup without an organization takes the user out of every zone
  (`Offboarding.ZoneLocalIff`).
- The directory projection filters nobody out, so a disabled user whom the provider still
  lists is written back by the next reconcile (`Offboarding.DisabledUserReturnsIff`).
- A page token near the end of the integer range makes the start of the slice overflow: the
  token 9223372036854775807 with pages of 100 items panics even on an empty list, and
  others show a page again under another number (`Paging.LargestTokenPanics`,
  `Paging.RoundTokenRepeats`, `Paging.SliceIff`).
- The last byte of an unterminated block comment survives stripping
  (`SchemaComments.UnterminatedBlock`).
- The comment at internal/data/authz_bootstrap.go:24-25 says changed and removed
  declarations are rejected; the code accepts them behind two flags (94-115).
- Validation does not guarantee that `zone#platform` is declared, though administrators'
  tuples may use it (`AdminBootstrap.DeclaredIff`).
- The in-memory repository stores the grant count it computed on reading, so it is added
  again by the next read (`RoleTemplates.WrittenCountIsAddedAgain`). The database
  repository raises the caller's version even when the update conflicts
  (`RoleTemplates.RetryAfterConflict`).

## Model

| member | source | states |
|---|---|---|
| Relationships.KeyInjective | internal/data/identity_mode.go:891-891 | two tuples whose parts hold no separator have the same key only if they are equal |
| Relationships.KeyCollision | internal/data/identity_mode.go:891-891 | two different non-zero tuples with the same key, when an id may hold a separator |
| Relationships.DedupeRelationships | internal/data/identity_mode.go:884-899 | the loop over a seen-map keeps the first tuple of each key and no zero tuple |
| Relationships.DedupeOrder | internal/data/identity_mode.go:884-899 | the output lists, in input order and each once, exactly the input positions that hold the first non-zero tuple with their key |
| Relationships.DedupeExact | internal/data/identity_mode.go:884-899 | no non-zero tuple is lost if and only if the keys tell the non-zero input tuples apart; keys never repeat |
| Relationships.DedupeSeparable | internal/data/identity_mode.go:884-899 | without separators in the parts, the output is the set of non-zero input tuples, each once |
| Relationships.DedupeIdempotent | internal/data/identity_mode.go:884-899 | removing duplicates a second time changes nothing |
| Projection.NormalizeProjectionPayload | internal/data/identity_mode.go:854-880 | the two loops trim ids, drop zero tuples, empty filters and duplicates, and default the operation |
| Projection.NormalizeIdempotent | internal/data/identity_mode.go:854-880 | a second normalization changes nothing if and only if no filter names nothing but a blank id |
| Projection.BlankIdFilterSelectsAll | internal/data/identity_mode.go:870-877 | such a filter is normalized into one that selects every tuple, and normalized again into none |
| Projection.BlankIdWitness | internal/data/identity_mode.go:870-877 | such a filter: one blank as resource id and nothing else |
| Projection.NormalizeKeeps | internal/data/identity_mode.go:859-868 | without separators, normalization loses no non-zero tuple: the result is the set of trimmed ones |
| Projection.OperationMeans | internal/data/identity_mode.go:612-661 | a blank operation and "write" write, "delete" deletes, every other name is refused, and the compensation of each is the other |
| Projection.ApplyIdentityAuthZProjection | internal/data/identity_mode.go:612-636 | store, number of calls, progress and outcome: one union, or the filters in turn up to the first failing call; also the number deleted |
| Projection.CompensateIdentityAuthZProjection | internal/data/identity_mode.go:637-661 | the reverse plan: a write is undone by deleting each tuple by a full filter, a delete by writing the captured tuples back |
| Delivery.DeliverySettles | internal/data/identity_mode.go:199-261 | if no written tuple is selected by a delete filter, every order, repetition and interruption that completes each event at least once ends in (initial minus all deletes) plus all writes |
| Delivery.ConfluentIff | internal/data/identity_mode.go:199-261 | all such deliveries agree if and only if no written tuple is selected by a delete filter |
| Dispatcher.IdentityProjectionDispatcher.OnApply | internal/data/identity_mode.go:162-180 | an apply callback is the machine's step: whole effect on table, store, clock and history, with status synced or failed |
| Dispatcher.IdentityProjectionDispatcher.OnCompensate | internal/data/identity_mode.go:182-197 | the same for a compensate callback, archived after a whole compensation, otherwise failed and counted |
| Dispatcher.IdentityProjectionDispatcher.SubmitEvent | internal/data/identity_mode.go:246-261 | applies at once, or asks DTM for an id, marks submitted and submits |
| Dispatcher.IdentityProjectionDispatcher.DispatchEvent | internal/data/identity_mode.go:138-160 | an empty payload leaves everything alone, any other becomes a row due in a minute and is submitted |
| Dispatcher.IdentityProjectionDispatcher.Retry | internal/data/identity_mode.go:199-225 | the loop is the machine's RetryOnce: the oldest due rows up to the normalized limit, in order, failures marked again |
| DispatcherRuns.EveryRunIsGood | internal/data/identity_mode.go:138-279 | after every run of dispatches, retries, waiting and callbacks, direct or through DTM: a row is synced if and only if its last attempt was a whole application and archived if and only if it was a whole compensation, no row's next_run_at is more than a minute ahead, rows are in the order of created_at, and the store is the replay of the attempts |
| Recovery.EveryDirectRun | internal/data/identity_mode.go:138-279 | in every direct-mode run, between calls each event is synced or failed, synced exactly when its last attempt applied all of it, and its retry count is 2f - 1 after f > 0 failed attempts |
| Recovery.RetryCountIsFailures | internal/data/identity_mode.go:170-173 | retry_count equals the number of failed attempts if and only if there was at most one |
| Recovery.TwoFailuresCountThree | internal/data/identity_mode.go:170-173 | a run with two failed attempts whose retry_count is three |
| Recovery.RetryLeavesOthersAlone | internal/data/identity_mode.go:206-224 | a row that is not due, in particular a synced one, is neither changed nor attempted, in any mode |
| Recovery.RetryOnceDrains | internal/data/identity_mode.go:199-225 | one direct call takes exactly limit rows, or all, out of the due set, whatever fails |
| Recovery.DueDrains | internal/data/identity_mode.go:199-225 | n calls leave max(0, due - n * limit) rows due, so ceil(due / limit) calls drain them |
| Recovery.DtmDoesNotDrain | internal/data/identity_mode.go:246-256 | through DTM a row that was resubmitted without error is still due |
| Recovery.ReplayIsDelivery | internal/data/identity_mode.go:162-180 | the history of a direct run is a delivery of its events with the same store |
| Recovery.SyncedIsSettled | internal/data/identity_mode.go:199-261 | when all rows are synced and no events conflict, the store is exactly initial minus deletes plus writes |
| Recovery.EveryRunRecovers | internal/data/identity_mode.go:199-279 | after any direct run, one minute after faults end, ceil(due / limit) calls bring every event to synced and a conflict-free store to its settled state |
| RetryHistory.RetryTakesTheOldest | internal/data/identity_mode.go:199-225 | in direct mode a retry attempts, in order and each once, the oldest rows that are pending, submitted or failed with no later next_run_at: min(due, limit) of them, the limit being 50 unless it is between 1 and 200; what it reports is the number of whole applications; failed rows are put off by 60 seconds |
| RetryHistory.OlderAttemptedFirst | internal/data/identity_mode.go:206-206 | in every reachable direct world, when a row is attempted by a retry every due row with an earlier created_at has been attempted before it |
| RetryHistory.DtmRetrySubmits | internal/data/identity_mode.go:199-256 | through a DTM that answers, a retry marks exactly the same oldest due rows submitted and changes nothing else |
| RetryHistory.DtmDispatchOutcome | internal/data/identity_mode.go:246-256 | a dispatch through DTM writes no tuple; the row is submitted if and only if an id was given, and the dispatch succeeds if and only if the saga was accepted as well |
| RetryHistory.DtmRunOnlySubmits | internal/data/identity_mode.go:246-261 | over every run without callbacks DTM mode writes no tuple and attempts nothing, and every row stays to be retried: all submitted if DTM answers, none if it never does |
| RetryHistory.NewEventDue | internal/data/identity_mode.go:146-160 | a recorded event carries its payload and creation time and is due from 60 seconds on, not before, unless it was applied at once |
| RetryHistory.CompensatedStaysUndone | internal/data/identity_mode.go:182-225 | in every reachable world: a row whose last attempt was its whole compensation is archived, and no run without a further callback for it changes it, submits it again or attempts it |
| RetryHistory.AppliedStaysDone | internal/data/identity_mode.go:162-225 | the same for a whole application and synced |
| RetryHistory.UnfinishedIsOverdueSoon | internal/data/identity_mode.go:199-225 | a row is due within a minute if and only if its last attempt was neither |
| RetryHistory.FailedUndoIsSubmittedAgain | internal/data/identity_mode.go:186-206 | a compensation that stops part way leaves the row failed, and a minute later a retry that takes it submits the event for application again |
| Directory.BuildDirectoryProjectionRelationships | internal/data/identity_mode.go:663-694 | the nested loops collect platform link, zone members, memberships and topology of the organization, without duplicates; nothing for a blank organization |
| EventPlans.WriteEventPlan | internal/data/identity_mode.go:138-160 | what a write event does after both normalizations: it adds exactly its non-zero tuples, trimmed; its undo deletes each of those |
| EventPlans.DeleteEventPlan | internal/data/identity_mode.go:608-610 | delete filters reach the store exactly as the operation built them |
| Mirror.AppliedKeepsMirrored | internal/data/identity_mode.go:719-752 | each event applied in full, and each write event compensated, keeps `group:g#parent@group:p` and `group:p#member@group:g#member` in step |
| Mirror.EveryStoreIsMirrored | internal/data/identity_mode.go:612-661 | so does every sequence of them, in any order with any repetition, including reconciles and organization deletes |
| Mirror.NamingHits | internal/data/identity_mode.go:643-655 | undoing a write reaches a tuple if and only if it, or its variant without subject relation, was written |
| Membership.BelongsIffBelow | internal/data/identity_mode.go:730-755 | in a mirrored store a user belongs, through nested member usersets, to exactly the groups above a group with the user as direct member, at any distance |
| Membership.UserFilterHits | internal/data/identity_mode.go:801-825 | the filters of a user select a tuple if and only if the user is its subject and its resource type is one of the seventeen |
| Membership.PurgedBelongsNowhere | internal/data/identity_mode.go:543-571 | after DeleteUser or DisableUser is applied the user belongs to no group, and everybody else to the same groups as before |
| Rollback.CaptureRelationships | internal/data/identity_mode.go:774-790 | on a store of canonical tuples: exactly the stored tuples selected by the filters with a resource type, as far as the reads got |
| Rollback.RollbackExactIff | internal/data/identity_mode.go:620-657 | any prefix of the filters, then the compensation, restores the store if and only if every tuple deleted had been captured |
| Rollback.UserRollbackIsExact | internal/data/identity_mode.go:543-571 | with a complete capture, rollback of DeleteUser or DisableUser restores the store from every point of failure |
| Rollback.GroupRollback | internal/data/identity_mode.go:487-494 | for DeleteGroup: exact until the subject filters run, from then on the store minus precisely the tuples of other objects whose subject is the group |
| Rollback.GroupRollbackMirrorIff | internal/data/identity_mode.go:746-752 | that loss keeps the mirror if and only if the group had neither parent nor children |
| Effects.OwnerAfterCreation | internal/data/identity_mode.go:400-452 | for every group and subject: the creation adds exactly the owner tuple of the signed-in creator with a visible id, kept as service or service_account and otherwise turned into a user, on the new group |
| Effects.OwnerAfterCreate | internal/data/identity_mode.go:426-460 | so after CreateGroup has reported success in direct mode: a subject owns a group if and only if it did before or is that creator of the new group |
| Effects.PlacedAfterCreation | internal/data/identity_mode.go:719-737 | apart from owners, a creation adds exactly the zone edge and the two parent edges of the group, unless its parent is itself or its organization; the provider's answer decides before the request |
| Effects.PlacedAfterAttach | internal/data/identity_mode.go:719-737 | the same for the second half of an update |
| Effects.LinkedAfterCreation | internal/data/identity_mode.go:415-424 | CreateOrganization adds exactly the platform link of the zone, nothing for a blank id |
| Effects.LinkedAfterReconcile | internal/data/identity_mode.go:663-701 | of all platform links a reconcile adds exactly that of its organization |
| Effects.GoneAfterDelete | internal/data/identity_mode.go:577-606 | DeleteOrganization takes exactly the tuples on its zone and those that have a listed group as resource or subject, a group being named by its id or else its name; a blank organization takes none |
| Effects.RemovalRollback | internal/data/identity_mode.go:505-537 | RemoveUserFromGroup compensated after any of its deletes: the store minus exactly what those deletes select, plus both memberships, stored before or not |
| Effects.RemovalRollbackExactIff | internal/data/identity_mode.go:520-536 | that is the old store if and only if the group membership, and with the last group of a named zone its membership, had been stored, and the deletes took no variant with a subject relation and nothing of an unnamed zone; both memberships are there after every rollback |
| Effects.BlankRemovalIsIgnored | internal/data/identity_mode.go:512-514 | without a group or a user nothing is dispatched |
| Agreement.OperationKeepsHealthy | internal/data/identity_mode.go:426-537 | each operation keeps the group tuples equal to the projection of the directory, and members of a zone's groups members of the zone |
| Agreement.DeleteKeepsIffLeaf | internal/data/identity_mode.go:487-494 | DeleteGroup keeps that agreement if and only if no other group is projected with the deleted one as its parent |
| Agreement.EveryRunAgrees | internal/data/identity_mode.go:426-571 | so does every run in which deleted groups are leaves |
| Operations.OperateDone | internal/data/identity_mode.go:426-571 | an operation that reports success in direct mode has brought its whole change to the store |
| Operations.OperateFailed | internal/data/identity_mode.go:426-571 | one that reports failure stopped at some event, which is recorded, failed and due in a minute; the store has the events before it and some of its store calls, not all |
| Operations.DoneKeepsHealthy | internal/data/identity_mode.go:426-571 | after success a store that agreed with the directory agrees with the changed one, if deleted groups are leaves |
| Admin.ProjectingIdentityAdmin.Create | internal/data/identity_mode.go:426-460 | refused by the provider nothing changes; accepted, directory, event table, store, calls and history are exactly those of the dispatches, failures included |
| Admin.ProjectingIdentityAdmin.Update | internal/data/identity_mode.go:461-486 | the same over the two events of an update: old topology out, then, if that went through, new topology in |
| Admin.ProjectingIdentityAdmin.Delete | internal/data/identity_mode.go:487-494 | the same, with the capture between provider and projection; what is dispatched for a rollback is what a read of the store answers for the filters, all of it unless a read failed |
| Admin.ProjectingIdentityAdmin.Assign | internal/data/identity_mode.go:495-504 | the same for the group and zone membership of a user |
| Admin.ProjectingIdentityAdmin.Remove | internal/data/identity_mode.go:505-537 | the same; the zone membership goes only with the user's last group of the zone |
| Admin.ProjectingIdentityAdmin.Purge | internal/data/identity_mode.go:543-554 | the same for all tuples of a deleted user; what is dispatched for a rollback is what was read for the filters |
| Admin.ProjectingIdentityAdmin.SuccessKeepsHealthy | internal/data/identity_mode.go:426-571 | a method's successful outcome in direct mode keeps the store in agreement with the directory |
| DispatchOrder.LastAttemptsDecide | internal/data/identity_mode.go:199-261 | when every event's last attempt was complete, a tuple is stored if and only if a write of it was attempted after every delete of it, or it was there and nobody deletes it |
| DispatchOrder.InOrderIff | internal/data/identity_mode.go:199-261 | a tuple is as if the events had been applied once in dispatch order if and only if nobody contests it or last attempts and last dispatches name the same winner |
| DispatchOrder.ConflictsInOrderSettle | internal/data/identity_mode.go:199-261 | if conflicting events were last attempted in dispatch order, the whole store is as if applied in that order |
| FaultyRuns.EveryRunOrdered | internal/data/identity_mode.go:199-261 | over every run of operations, faults, retries and waiting, the recorded events applied in order agree with the directory except at groups whose last update stopped between its events |
| FaultyRuns.SyncedServiceAgreesIff | internal/data/identity_mode.go:461-486 | once all events are synced: without torn groups the store agrees with the directory if and only if every contested group tuple has the right winner; with right winners throughout it is healthy if and only if no group is torn |
| FaultyRuns.ConflictsInOrderWin | internal/data/identity_mode.go:199-225 | winners are right when conflicting events were last attempted in dispatch order |
| FaultyRuns.RecoveredServiceAgreesIff | internal/data/identity_mode.go:199-279 | a minute after faults end, ceil(due / limit) retries sync every event of any such run, and the store then agrees with the directory under exactly those conditions |
| FaultyRuns.RetriedDetachLosesZone | internal/data/identity_mode.go:478-484 | for every group: a failed detach retried after the update was repeated takes the group out of its zone, where dispatch order would have kept it |
| Offboarding.RemovalHits | internal/data/identity_mode.go:517-535 | a removal selects the user's membership of the group and, with the last group, of its zone, or of every zone when the organization is blank |
| Offboarding.ZoneLocalIff | internal/data/identity_mode.go:505-537 | a removal takes tuples of no other zone if and only if it names an organization or leaves the zones alone |
| Offboarding.DisabledUserReturnsIff | internal/data/identity_mode.go:560-571 | after DisableUser and the next reconcile the user belongs to some group if and only if the directory's answer still names a membership, and to the zone if and only if it lists the user |
| Drift.DetectDirectoryProjectionDrift | internal/data/identity_mode.go:703-717 | the desired tuples the store answers no read for, in order; on a read error a prefix of them |
| Drift.MaskedIff | internal/data/identity_mode.go:708-713 | a desired tuple is hidden from drift if and only if it is absent, has no subject relation, and a variant with one is stored |
| Drift.DriftExactIff | internal/data/identity_mode.go:703-717 | drift is desired minus store, in desired order, if and only if no desired tuple is hidden that way |
| Drift.DirectoryProjectionOps.Reconcile | internal/service/directory_projection.go:120-136 | a blank organization or a failed listing changes nothing; otherwise the desired tuples are dispatched and counted |
| Drift.DirectoryProjectionOps.Drift | internal/service/directory_projection.go:138-155 | the numbers and tuples reported are those of the organization's desired tuples against the store |
| Drift.ReconcileAdds | internal/service/directory_projection.go:120-136 | a successful direct reconcile adds exactly the desired tuples, removes none, and repeating it changes nothing |
| Drift.NoDriftAfterReconcile | internal/service/directory_projection.go:120-155 | after it, drift of the unchanged directory is empty, whatever was stored before |
| Drift.ReconcileKeepsMirrored | internal/service/directory_projection.go:120-136 | a successful direct reconcile keeps the parent/member mirror |
| Drift.ReconcileMatchesEvent | internal/service/directory_projection.go:128-132 | what Reconcile dispatches, duplicates removed, writes the same tuples as the organization's whole projection |
| Drift.DesiredIsProjection | internal/data/identity_mode.go:663-694 | the group tuples that reconcile and drift want are exactly the projection the single operations maintain |
| Drift.HealthyHasNoGroupDrift | internal/service/directory_projection.go:138-155 | in every store that agrees with the directory, drift reports no group tuple |
| Startup.ReconcileDirectoryOnStartup | internal/data/data.go:450-473 | the loop with a retry store: blank organizations skipped, failed dispatches passed over, the first failed listing ends it |
| Startup.StartupHealsOrRetries | internal/data/data.go:450-473 | a direct start that lists every organization removes no tuple and leaves each without drift or with its event recorded, failed and due in a minute |
| Startup.StartupSucceedsIff | internal/data/data.go:450-473 | a start succeeds if and only if every organization that is not blank can be listed, however many dispatches fail; otherwise all before the first unlisted one was done |
| SchemaComments.StripSchemaComments | internal/permissionmanifest/schema.go:156-182 | the index loops with their builder produce the stripped text |
| SchemaComments.StrippedIsFree | internal/permissionmanifest/schema.go:156-182 | no comment opener is left, whatever the text, even with unterminated comments |
| SchemaComments.StripIdempotent | internal/permissionmanifest/schema.go:156-182 | stripping changes a text if and only if it has a comment opener, and a second time never |
| SchemaComments.StripKeepsLines | internal/permissionmanifest/schema.go:156-182 | the number of lines stays, and each output line is a subsequence of the same input line |
| SchemaComments.UnterminatedBlock | internal/permissionmanifest/schema.go:165-177 | an unterminated block comment leaves its newlines and the text's last character |
| SchemaComments.BlockCommentLeaves | internal/permissionmanifest/schema.go:165-177 | any block comment leaves its newlines; the text behind its end marker follows, or, if and only if there is none, what is left of the text |
| SchemaComments.LineCommentLeaves | internal/permissionmanifest/schema.go:156-182 | a line comment goes to the end of its line and the line break stays |
| SchemaComments.CodeStays | internal/permissionmanifest/schema.go:156-182 | text without an opener stays in front of whatever follows |
| SchemaScan.FindHeadShift | internal/permissionmanifest/schema.go:33-33 | searching a suffix that starts at a word boundary finds what searching the whole text from there finds |
| SchemaScan.MatchingBrace | internal/permissionmanifest/schema.go:131-145 | the depth loop returns the closing index of the specification |
| SchemaScan.CloseExact | internal/permissionmanifest/schema.go:131-145 | that index is the least one that balances the opening brace; there is none if and only if the text never balances it |
| SchemaParse.ParseDefinition | internal/permissionmanifest/schema.go:90-107 | the loop over the declarations builds the definition or stops at the first repeated member |
| SchemaParse.MembersExact | internal/permissionmanifest/schema.go:90-107 | a body is rejected if and only if a member is declared twice, in either kind, naming the first repeated one; otherwise the definition is its set of declarations |
| SchemaParse.ParseSchema | internal/permissionmanifest/schema.go:30-55 | the offset loop terminates on every text with the result of the specification |
| SchemaBlocks.BlocksShape | internal/permissionmanifest/schema.go:32-53 | the definitions found are whole matches with their least closing brace, disjoint and in order, and nothing between or behind them matches |
| SchemaBlocks.SuffixScan | internal/permissionmanifest/schema.go:32-53 | scanning from behind any definition finds the remaining ones as if the text before were not there |
| SchemaBlocks.ParseExact | internal/permissionmanifest/schema.go:30-55 | a text is rejected if and only if a body is never closed, a definition is repeated or a body repeats a member; otherwise the schema is exactly what the bodies declare |
| SchemaBlocks.ParsedIsWellNamed | internal/permissionmanifest/schema.go:26-27 | every name in a parsed schema is an identifier |
| SchemaRender.ParseRendered | internal/permissionmanifest/schema.go:26-55 | parsing rendered definitions gives exactly those definitions, each with its name, members, kinds and expressions |
| SchemaRender.EveryPlainSchemaParses | internal/permissionmanifest/schema.go:30-55 | round trip: every schema with identifier names and expressions free of white space, braces and comment openers is what its rendered text parses to |
| SchemaDiff.CompareSchemas | internal/permissionmanifest/schema.go:57-80 | both lists are the sorted rendering of exactly the additions and the conflicts |
| SchemaDiff.DiffIsDetermined | internal/permissionmanifest/schema.go:57-80 | the result does not depend on the order in which the maps are iterated |
| SchemaDiff.DiffIsExact | internal/permissionmanifest/schema.go:57-129 | for identifier names the lists have no duplicates and a rendered difference is listed if and only if it is one |
| SchemaDiff.DiffMeaning | internal/permissionmanifest/schema.go:82-88 | no conflicts if and only if current is contained in desired; no differences if and only if they are equal; additive if and only if the containment is strict |
| SchemaDiff.ContainedTransitive | internal/permissionmanifest/schema.go:86-88 | additive steps compose |
| SchemaDiff.SwappedDiff | internal/permissionmanifest/schema.go:57-129 | swapping the arguments turns each addition into an "exists only" conflict and back, and keeps the changed set |
| SchemaBootstrap.AuthorizeSchemaConflicts | internal/data/authz_bootstrap.go:94-115 | blocked are exactly the conflicts whose gate is closed |
| SchemaBootstrap.CountConflicts | internal/data/authz_bootstrap.go:117-135 | the number of conflicts with the given ending |
| SchemaBootstrap.ConflictGate | internal/data/authz_bootstrap.go:94-110 | every conflict of a comparison falls in exactly one of the two gates, the one its meaning asks for |
| SchemaBootstrap.ConflictCountsPartition | internal/data/authz_bootstrap.go:117-135 | changed plus deleted counts equal the number of conflicts |
| SchemaBootstrap.AuthorizedIff | internal/data/authz_bootstrap.go:94-115 | the gates let the conflicts through if and only if no expression changes or the first is open, and no declaration goes or the second is open |
| SchemaBootstrap.SchemaManager.BootstrapAuthzSchema | internal/data/authz_bootstrap.go:31-88 | outcome, active text and number of writes of a start-up, error paths included |
| SchemaBootstrap.PublishesIff | internal/data/authz_bootstrap.go:31-88 | a start-up publishes if and only if its file is readable, parses, declares something else, the gates its differences need are open, and the manager validates and writes it; it is unchanged exactly when both texts declare the same |
| SchemaBootstrap.OnlyValidatedBecomesActive | internal/data/authz_bootstrap.go:78-85 | over every run of start-ups the active text is the first one or a file that parsed and was validated and written; a refused text is never active |
| SchemaBootstrap.ClosedRunKeepsEverything | internal/data/authz_bootstrap.go:59-115 | with both gates closed over any run of start-ups, every declaration ever active stays active with the same expression |
| SchemaBootstrap.MigratingRunDropsNothing | internal/data/authz_bootstrap.go:59-115 | with deletions closed over any run, no declaration is ever dropped |
| SchemaBootstrap.DeletingPublishChangesNothingKept | internal/data/authz_bootstrap.go:59-115 | with migrations closed, a publish keeps the expression of every member it keeps |
| SchemaBootstrap.RestartPublishesNothing | internal/data/authz_bootstrap.go:73-76 | starting again with the same file writes nothing |
| Manifest.OrderIndependentIff | internal/permissionmanifest/manifest.go:85-101 | resolution is independent of map order if and only if no two roles share an alias that is no role's name and that some string can ask for |
| Manifest.ValidateExactSet | internal/permissionmanifest/validate.go:111-138 | accepts if and only if no value is blank and the trimmed values are exactly the schema's names |
| Manifest.ValidateBootstrap | internal/permissionmanifest/validate.go:53-109 | accepts if and only if ids, definitions, distinct names and aliases, scopes, relations, default role and platform resources are all in order |
| Manifest.Validate | internal/permissionmanifest/validate.go:9-51 | accepts if and only if types are distinct and match their definitions, role templates name declared relations, and the bootstrap is valid |
| Manifest.AcceptedMatchesSchema | internal/permissionmanifest/validate.go:13-51 | in an accepted manifest each type lists, trimmed, exactly the relations and permissions of its definition, type names are unique, and each role template grants a relation of its type |
| Manifest.ValidIsOrderIndependent | internal/permissionmanifest/validate.go:66-78 | a valid policy resolves every string the same way in every map order |
| Manifest.ValidResolution | internal/permissionmanifest/manifest.go:85-101 | under a valid policy a string resolves to a role if and only if it is, trimmed, that role's name or alias; the blank string always resolves |
| AdminBootstrap.BootstrapControlPlaneAdmins | internal/data/data.go:297-364 | nothing is written when disabled, without subjects, on a blank platform, or when a subject fails; after a success under a valid policy the store is the old one plus exactly the tuples of `AdminBootstrap.AdminTuplesExact` |
| AdminBootstrap.AdminTuplesExact | internal/data/data.go:306-353 | under a valid policy a tuple is built if and only if it is the platform link of a platform resource, that of a found subject's zone, or the relation of the role that subject names, by name or alias, held by it on the platform or on its zone |
| AdminBootstrap.StoredExactly | internal/data/data.go:355-361 | without separators in the names, duplicate removal leaves exactly those of them that are not zero |
| AdminBootstrap.FailsIffRejected | internal/data/data.go:319-344 | with a valid policy it fails before writing if and only if a subject asks for an unknown role, its lookup fails, or a zone role comes without a zone |
| AdminBootstrap.DeclaredIff | internal/data/data.go:306-353 | with a valid policy every tuple uses a declared relation, unless a found subject names a zone and the schema declares no `zone#platform` |
| AdminBootstrap.SameInEveryOrder | internal/data/data.go:319-320 | with a valid policy what is written does not depend on map order |
| AdminBootstrap.ResolvedScope | internal/data/data.go:331-344 | with a valid policy every resolved role is held on the platform or a zone, with a relation declared there |
| RoleTemplates.MemoryControlPlaneRepository.GetRoleTemplate | internal/data/memory.go:386-402 | some template with the id, with the number of its grants that are neither revoked nor expired added; none if and only if no template has the id |
| RoleTemplates.MemoryControlPlaneRepository.UpdateRoleTemplate | internal/data/memory.go:404-426 | outcome and whole new state: template with the next version, audit and events on success |
| RoleTemplates.UpdateEffect | internal/data/memory.go:404-426 | a failed update changes nothing; a successful one expected the stored version, raises it by one, replaces that template only, stores the audit if given, and of the events the last of each id, pending when it has no status |
| RoleTemplates.WriteOutcome | internal/data/memory.go:407-413 | in every reachable system a client's update succeeds if and only if the template is found and nobody's update succeeded since the client read or stored it |
| RoleTemplates.EveryInterleaving | internal/data/memory.go:386-426 | over every interleaving of reads, updates and grant changes the invariant holds: each template's successes lead from what was stored first to what is stored now |
| RoleTemplates.SuccessesFormAChain | internal/data/memory.go:404-426 | the i-th success was made from version v0 + i and from exactly what the one before stored, and no two expected the same version |
| RoleTemplates.WrittenCountIsAddedAgain | internal/data/memory.go:391-398 | storing back what was read makes the next read report the active grants once more; the count is right if and only if there were none |
| RoleTemplates.DBMatchesMemory | internal/data/resource_repository.go:291-314 | the database update accepts the same updates and stores the same templates, when the fixed columns are those of the row |
| RoleTemplates.DBKeepsFixedColumns | internal/data/resource_repository.go:291-314 | whatever the caller passes, an update changes no id, type, key or grant count, and no row but the one with that id and version |
| RoleTemplates.RetryAfterConflict | internal/data/resource_repository.go:293-303 | after a conflict, a second try with the version left in the caller's template overwrites the winner if and only if it was the only update missed |
| Where.QueryBuilder.Equal | internal/data/resource_repository.go:543-553 | appends text and argument, or nothing for nil and blank strings |
| Where.QueryBuilder.AnyLike | internal/data/resource_repository.go:555-567 | appends one alternative and one argument per column, or nothing for a blank query or no columns |
| Where.QueryBuilder.Null | internal/data/resource_repository.go:569-572 | appends the condition, without an argument |
| Where.QueryBuilder.NotNull | internal/data/resource_repository.go:574-577 | the same for the opposite condition |
| Where.QueryBuilder.Build | internal/data/resource_repository.go:579-584 | no query if and only if every condition was left out; otherwise the joined text and all arguments |
| Where.QueryMeansConjunction | internal/data/resource_repository.go:536-584 | the text reads back as SQL with as many placeholders as arguments, the i-th compared with the column of the i-th argument, and is true of a row if and only if every condition holds |
| Where.SearchFinds | internal/data/resource_repository.go:555-567 | with ILIKE spelled out, a search for a text without wildcards holds of a row if and only if one of the columns contains that text, trimmed, up to case |
| Paging.AtoiOfItoa | internal/service/control_plane.go:679-691 | every 64-bit page number survives the token |
| Paging.SliceIff | internal/data/memory.go:75-83 | a page number yields a slice if and only if the 64-bit product (page - 1) * size is not negative, and that slice is the intended page if and only if the exact product fits or the wrapped one lands beyond the list |
| Paging.FirstPageShows | internal/data/memory.go:62-84 | the first page shows the first min(n, size) items, at most 100, and says there is more exactly when some are left |
| Paging.LargestTokenPanics | internal/data/memory.go:75-83 | the token of the largest int, and every larger one, panics with pages of 100 items on every list |
| Paging.RoundTokenRepeats | internal/data/memory.go:75-83 | with pages of 64 items a page number whose product comes round to zero shows the first page again |
| Paging.WalkVisitsEachOnce | internal/data/memory.go:62-84 | from the empty token, following next-page tokens never panics, shows every item once and in order and stops by itself after max(1, ceil(n / size)) pages, size being the defaulted one capped at 100 |
| Paging.OtherTokens | internal/service/control_plane.go:679-685 | a token that is no positive number starts over; a page beyond the last is empty and ends the walk if and only if its exact product fits or the wrapped one lands beyond the list |

## Left out

- Dispatcher without an event table: the model always has one; without it nothing is recorded and `RetryOnce` does nothing (internal/data/identity_mode.go:199-202).
- Event columns for source, aggregate, last error and update time, and a process that dies while a row is projecting; such a row is never selected again.
- Ties in `created_at`: the due rows are taken in insertion order.
- Failing updates of the event table (internal/data/identity_mode.go:166-179).
- Dispatcher.IdentityProjectionDispatcher.DispatchEvent: the insert of the event row succeeds; when it fails the code returns the error and does nothing else (internal/data/identity_mode.go:155-157).
- Dispatcher.IdentityProjectionDispatcher.Retry: the select of due rows succeeds and every stored payload can be decoded (internal/data/identity_mode.go:208-217).
- Directory.BuildDirectoryProjectionRelationships: the directory's answer is a parameter, so its limit of 10000 groups and users and its errors are outside the method (internal/data/identity_mode.go:668-675); lemmas about a whole organization assume an answer that was not cut off.
- Agreement.OperationKeepsHealthy: deleted groups are leaves and ids are trimmed.
- Agreement.EveryRunAgrees: membership changes only by assign, remove and purge of users; each provider and projection step succeeds; DisableUser, which leaves memberships in the directory, is not a step of these runs; organizations, owners and the platform link are outside the index; an update gives the parent explicitly.
- Admin.ProjectingIdentityAdmin.Create: the group's display data and the generation of its id are not modelled.
- Admin.ProjectingIdentityAdmin.Delete: an organization or id that the provider does not know is refused; blank ones are not looked at further.
- Admin.ProjectingIdentityAdmin.Assign: a blank organization, for which the code writes the group membership alone, is refused by the model's provider.
- Admin.ProjectingIdentityAdmin.Purge: DisableUser dispatches the same event and leaves the directory as it is; it is covered by `Offboarding.DisabledUserReturnsIff`, not by this method.
- Admin.ProjectingIdentityAdmin.Update: the rejection of a renamed group by case-insensitive comparison, the group's other fields and a failing GetGroup are not modelled.
- Admin.ProjectingIdentityAdmin.Remove: the organization is not blank and the listing of remaining groups succeeds. Its limit of 1000 makes no difference, since only emptiness is asked for.
- Rollback.CaptureRelationships: on a store with tuples that are not canonical only the error behaviour is stated.
- Drift.DirectoryProjectionOps.Reconcile: missing dependencies (nil receivers) are left out.
- Drift.DirectoryProjectionOps.Drift: missing dependencies and the rendering of missing tuples as strings are left out.
- Startup.ReconcileDirectoryOnStartup: the variant without a retry store, in which a failed dispatch ends the start (internal/data/data.go:462-468), is left out.
- FaultyRuns.SyncedServiceAgreesIff: direct mode; deleted groups are leaves; operations arrive one at a time.
- Effects.RemovalRollback: that the directory itself still has the user removed after the rollback is not stated; only the projection is compensated.
- AdminBootstrap.StoredExactly: names with separators, for which the loss is that of `Relationships.DedupeExact`.
- Where.SearchFinds: patterns with a backslash, and searches that contain `%` or `_` themselves, which are passed on unescaped.
- Manifest.Validate: which of several errors is reported first, the error texts and a nil manifest are not modelled.
- AdminBootstrap.BootstrapControlPlaneAdmins: looking up the configured subject in the directory (internal/data/data.go:366-398) is a parameter, as is the order of role resolution, which is one for all subjects of a start; `AdminBootstrap.SameInEveryOrder` shows that under a valid policy the order does not matter.
- RoleTemplates.EveryInterleaving: UpsertRoleTemplate and SaveRoleTemplate over an existing template set its version freely and are not steps of the runs; versions do not wrap at 64 bits.
- RoleTemplates.DBMatchesMemory: the permission rows, the description column and a transaction that fails after the version check are left out.
- Where.QueryMeansConjunction: column names are identifiers that are no SQL keyword; the meaning of ILIKE on a text and a pattern is a parameter, made concrete in `Where.SearchFinds`.
- Paging.WalkVisitsEachOnce: the list and the requested size do not change during the walk, and the list leaves room in an int for one more page.
- Paging.OtherTokens: the list leaves room in an int for one more page.
- SchemaRender.EveryPlainSchemaParses: expressions with nested braces are covered by the parser's characterization, not by the round trip; parsed expressions never hold white space.
- SchemaBootstrap.SchemaManager.BootstrapAuthzSchema: logging, and the texts of the errors.
- Invalid UTF-8 in schema texts: the model works on characters, the stripper on bytes; they agree on valid texts.
- DTM itself: a saga is "apply or compensate is called later, any number of times".
- The external directory wrapper, token exchange, header injection, the group metadata decorator, transport, wiring and generated code, and the outbox, grant and access-query services.
- The repository's list, grant and resource operations other than those above: they would add only easy members.
