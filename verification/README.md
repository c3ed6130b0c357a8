# Verification model of the OpenWrt ExternalDNS webhook

The webhook keeps the `domain` and `cname` sections of a router's dhcp configuration in step with the A and CNAME
records ExternalDNS asks for. This project models the stateful core of it and proves what it promises:

- **Records** (`Types`, `Spelling`, `Uci`, `Graph`): canonical spelling, validation and identity of a record, how a
  section holds one, and the graph the CNAMEs span. Three rules decide whether dnsmasq starts and answers everything:
  one CNAME per alias, no address beside a CNAME, no CNAME loop (section 3.6.2 of RFC 1034).
- **Reconcile engine** (`IndexTable`, `Reconcile`, `OpenWrt`): a change set removes, then adopts, creates or skips
  each record, writing to the router and to an in-memory index. `Reconcile` is the specification, `OpenWrt.Engine` the
  program proved against it. About the specification: `Safety` (the index follows the router, the three rules hold
  over every run), `Refusals` (what is skipped, and only that, would have broken one of them), `Ownership` (what
  happens to sections of others), `Counts` (what is managed afterwards), `Convergence` (repetition), `MapOrder`
  (independence of map order) and `Limits` (exact conditions where a promise stops, with the inputs past them).
- **Session protocol** (`Rpcd`, `Ubus`, `Visibility`): rpcd keeps a committed configuration and what each session
  staged on it; any call may be denied, fail, find its session expired, or be executed and its reply lost. The client
  decides when it may log in again. A change set is all or nothing through all of it.
- **Plans** (`Order`, `Plan`, `Grouping`, `Adjusting`, `Cancelling`): endpoints into records and back, cancelling what
  a plan withdraws and writes alike, and filtering what could never be written.
- **Status** (`Tracking`, `Plain`, `Prediction`, `Forecast`, `Provider`, `Webhook`): the tracker's three observations,
  its prediction of what the router holds after a change set, and the whole path of a request. `Example` and
  `Scenario` are change sets that meet the hypotheses.
- **Mirror** (`Syncing`, `Kick`): one sync of the objects on the API server and the one-slot kick that starts it.

`Site` carries the ownership ID (empty: ownership off) and which texts read as an IPv6 address. Go's random map order
is a choice of any element; the sections it offers for adoption and the names of new ones are the `picks` of the
specification, and every theorem holds for all of them.

## Findings

Five promises hold of the code for less than every input it accepts. Each has an exact condition:

- `CanonicalName` takes one final dot off, so a name typed with two stays one dot away from canonical. Such a record
  is written under one name and read back under another: `Uci.WriteReadRoundTrip` and `Safety.CreateSynced` hold
  exactly for stable records, `Limits.RepeatIdleExactly` says which of the others are written again,
  `Safety.ChangeSafeExactly` which do harm, and `Limits.DottedAliasUnsafe` shows a second CNAME written for an alias
  that has one. `Types.ValidStability` says which valid records are stable.
- `Key` joins its parts with a pipe, which `Validate` lets through. `Limits.KeyUniqueExactly` says whose key is its
  own; past it `Limits.PipedSilentlyMissing` shows a CNAME taken to be there already and reported as written. Where
  the first of two records with one key is refused and the second is not, the key is reported skipped and is managed,
  and a repetition no longer skips it (`Limits.PipedSkippedYetManaged`); `Counts.ManagedAfter` and
  `Convergence.Converges` say when this cannot be.
- The section adopted is the first the router's map order offers. Unmarked sections with one key can hold different
  records, names with pipes or dots being what they are, and then the outcome depends on that order:
  `MapOrder.OrderIndependentExactly`.
- The tracker expects on the router whatever a plan asks for. `Forecast.PredictionExactly` says which rows it tells
  right. An endpoint without targets passes `AdjustEndpoints` and is left out when flattened, yet shown as there until
  the next `Records()` (`Limits.UntellableForetoldWrong`); so is a target listed twice, a CNAME target with its final
  dot, or a name ending in two dots (`Limits.DottedForetoldWrong`).
- A change set that removes and adds the same record writes again every time it is repeated
  (`Convergence.RepeatsIdleExactly`); `cancelOut` is what keeps such change sets from the engine.

## Model

| member | source | states |
|---|---|---|
| Types.ValidStability | pkg/openwrt/types.go:46-61 | a record that passes validation is unchanged by canonicalising its canonical form exactly when neither canonical name ends in a dot |
| Types.ThriceCanonical | pkg/openwrt/types.go:74-84 | the two further canonicalisations a write and a read add bring a valid record back only if it was stable |
| Types.KeyInjective | pkg/openwrt/types.go:63-72 | for canonical names without a pipe, equal keys mean equal canonical type, name and value, and the other way round |
| Spelling.TypedAround | pkg/openwrt/types.go:46-61 | white space around a name and one final dot make no other name |
| Spelling.SameNameExactly | pkg/openwrt/types.go:46-61 | two names typed without those are canonically one if and only if they differ in nothing but case |
| Spelling.SameKey | pkg/openwrt/types.go:63-72 | records so typed have one key |
| Spelling.TooLongExactly | pkg/openwrt/types.go:120-125 | a name is too long if and only if it has more than 253 characters, or 64 in a row without a dot |
| Spelling.OctetExactly | pkg/openwrt/types.go:86-118 | an octet is what a number up to 255 is written as in decimal, no other text |
| Spelling.IPv4Exactly | pkg/openwrt/types.go:86-118 | an address is IPv4 if and only if it is four such numbers with dots between |
| Spelling.ValidExactly | pkg/openwrt/types.go:86-141 | a record can be written if and only if both its sides, canonical, are names DNS and dnsmasq can take, and an address is IPv4 |
| Uci.ParseSection | pkg/openwrt/openwrt.go:118-154 | the step-by-step reading of a section is the function `Parse`, of which `Uci.ReadExactly` says what it is |
| Uci.ReadExactly | pkg/openwrt/openwrt.go:94-154 | on the options: a section is read if and only if it is a `domain` with a name and an address that is not IPv6, or a `cname` with an alias and a target, none of them a list; what is read is the canonical record they say, with the marker as owner |
| Uci.ManagedExactly | pkg/openwrt/openwrt.go:70-92 | a section is reported if and only if it holds a record and, with ownership on, is marked with this ID |
| Uci.WriteReadRoundTrip | pkg/openwrt/openwrt.go:339-369 | what a valid record is written as reads back as that canonical record with this owner exactly when it is stable, and then has the same key |
| Uci.WrittenKeys | pkg/openwrt/openwrt.go:339-369 | a new section has its type, both its sides, the marker if there is an ID, and no other option |
| Graph.Shortcut | pkg/openwrt/index.go:65-85 | a path that uses a new CNAME ends where one from its target without it ends |
| Graph.AcyclicExtended | pkg/openwrt/openwrt.go:281-292 | a CNAME closes no loop when its alias, in any spelling, was not reachable from its target |
| IndexTable.SectionIndex.constructor | pkg/openwrt/index.go:17-23 | the index of all sections, each once, under its own key, in any order of them |
| IndexTable.SectionIndex.Owned | pkg/openwrt/index.go:25-36 | lists exactly the sections with the key that this instance may modify, none twice |
| IndexTable.SectionIndex.FirstUnowned | pkg/openwrt/index.go:38-48 | finds an unmarked section with the key if and only if there is one |
| IndexTable.SectionIndex.Named | pkg/openwrt/index.go:50-63 | lists exactly the sections of a type whose record has the canonical name |
| IndexTable.SectionIndex.ClosesCnameLoop | pkg/openwrt/index.go:65-85 | the worklist search ends and answers true exactly when the alias is reachable from the target through indexed CNAMEs, both being the same included, with any number of CNAMEs per alias and any bucket order |
| IndexTable.SectionIndex.Add | pkg/openwrt/index.go:87-92 | the index gains one section with the canonical record and the given owner, and stays well-formed |
| IndexTable.SectionIndex.MarkOwned | pkg/openwrt/index.go:94-101 | only the named section under the key changes, and of it only the owner; nothing happens when it is not there |
| IndexTable.SectionIndex.Drop | pkg/openwrt/index.go:103-114 | only the named section under the key goes, and no empty bucket is left |
| IndexTable.DropKeeps | pkg/openwrt/index.go:103-114 | taking an entry out of its bucket, or the bucket with its last entry, keeps every other section under its own key |
| Reconcile.PicksAgree | pkg/openwrt/openwrt.go:199-211 | what the first additions do depends on the sections chosen for them alone |
| Safety.RemoveSynced | pkg/openwrt/openwrt.go:232-250 | after a removal the index is what reading the staged sections afresh would build |
| Safety.CreateSynced | pkg/openwrt/openwrt.go:316-336 | after a creation the index is what reading the staged sections afresh would build exactly when the record is stable |
| Safety.AddSynced | pkg/openwrt/openwrt.go:252-337 | after adopting, creating or skipping a stable record the index is what reading afresh would build |
| Safety.UnobstructedSafe | pkg/openwrt/openwrt.go:281-314 | one more section keeps the three rules when no CNAME has its name and, for a CNAME, no address has it and it closes no loop |
| Safety.ObstructedUnsafe | pkg/openwrt/openwrt.go:281-314 | with any of these in the way it breaks one of the three rules |
| Safety.CreateSafeExactly | pkg/openwrt/openwrt.go:281-369 | a router with a new section for any valid record is safe if and only if it was safe without and nothing stands in the way of the record as it will be read back |
| Safety.IndexPath | pkg/openwrt/index.go:65-92 | a way through the router's CNAMEs, however spelled, is one through the index |
| Safety.CreateUnobstructed | pkg/openwrt/openwrt.go:281-314 | a stable record the index lets through has nothing in its way on the router itself |
| Safety.StampSafe | pkg/openwrt/openwrt.go:264-279 | stamping a section neither makes a router safe nor unsafe |
| Safety.AddSafeExactly | pkg/openwrt/openwrt.go:252-337 | whatever becomes of a valid record, the router is safe afterwards exactly when it was before and, if the record was created, nothing stood in its way as it will be read back |
| Safety.StableHarmless | pkg/openwrt/openwrt.go:281-314 | with the index in step, nothing stands in the way of a stable record that is created |
| Safety.ResultIsStart | pkg/openwrt/openwrt.go:184-211 | at the end of a change set of stable records its index is the one the next change set would build |
| Safety.ChangeSafeExactly | pkg/openwrt/openwrt.go:281-314 | a change set of any valid records keeps the three rules if and only if nothing on the router stands in the way of any record it creates, whoever owns the sections and whatever is removed; `Safety.ChangeKeepsSafe` concludes that every change set of stable records does |
| Safety.RunSafeExactly | pkg/webhook/webhook.go:157-163 | a safe router is safe after every change set of a run, each gone through completely or not at all, if and only if each created only what nothing stood in the way of; `Safety.RunKeepsSafe` concludes that every run of stable records keeps it safe |
| Refusals.RefusalBreaks | pkg/openwrt/openwrt.go:281-314 | a stable record is refused only if written it would break the very rule its reason names |
| Refusals.RefusedExactly | pkg/openwrt/openwrt.go:255-314 | on a safe router with canonical names, a record with nothing to adopt is refused if and only if written it would make the router unsafe |
| Refusals.SkipsInOrder | pkg/openwrt/openwrt.go:199-211 | the skipped list holds the additions refused, each as often as it was, in their order, with the reason of that moment |
| Refusals.SkippedBreaks | pkg/openwrt/openwrt.go:281-314 | every record skipped would, in any section it could have been given then, have broken the rule its reason names |
| Refusals.SkippedBreaksStill | pkg/openwrt/openwrt.go:281-314 | written to what the change set leaves it would make that unsafe, unless its key was let through for another record |
| Ownership.ChangeRespectsOthers | pkg/openwrt/openwrt.go:234-279 | a section marked with another ID comes out unchanged; an unmarked one keeps every option and is at most stamped, and then only for an added record with its very key |
| Ownership.OriginsKept | pkg/openwrt/openwrt.go:264-279 | an unmarked section indexed at the end was indexed at the start under the same key |
| Ownership.ChangeSparesUnread | pkg/openwrt/openwrt.go:94-116 | a section that holds no record is never touched, with ownership on or off |
| Ownership.NothingSpared | pkg/openwrt/openwrt.go:118-154 | on the options: a section of another type, with a list or nothing on either side, or with an IPv6 address, is not reported and comes out of every change set unchanged |
| Ownership.UnmarkedAdopted | pkg/openwrt/openwrt.go:264-279 | a record that is on the router unmarked is never written a second time: where this instance has no section for it one of them is marked, and nothing else changes |
| Ownership.RemovesExactly | pkg/openwrt/openwrt.go:184-250 | what a change set deletes are the managed sections that hold a record with the key of one to be removed, with ownership off whoever marked them, and nothing else |
| Ownership.RunSparesForeign | pkg/openwrt/openwrt.go:234-279 | a section marked with another ID is never changed or deleted over any run of change sets |
| Counts.RemovedKeys | pkg/openwrt/openwrt.go:184-197 | the removals leave no section of this instance's under a removed key and all under every other |
| Counts.AddEffect | pkg/openwrt/openwrt.go:252-337 | an addition can only give its own key a section, exactly one, and only where it had none |
| Counts.AddedKeys | pkg/openwrt/openwrt.go:199-211 | over all additions a key keeps the sections it had, or gets exactly one, or none if every record with it was refused |
| Counts.RefusedStays | pkg/openwrt/openwrt.go:281-314 | what blocks a skipped record is not lifted by any later addition of the change set |
| Counts.LetThroughStays | pkg/openwrt/openwrt.go:255-262 | a record let through is there at the end of the change set |
| Counts.SkippedAlwaysOrNever | pkg/openwrt/openwrt.go:199-211 | within one change set a key is skipped for every record that has it, or for none |
| Counts.SkipsAreRefusals | pkg/openwrt/openwrt.go:199-211 | a key is among the skipped exactly when a record with it was refused |
| Counts.KeyCount | pkg/openwrt/openwrt.go:163-230 | how many sections of its own a key has in what is committed afterwards: as many as the removals left, or, where they left none, exactly one if an addition with the key was let through and none if not; only a key they left none of can be skipped |
| Counts.ManagedAfter | pkg/openwrt/openwrt.go:163-230 | the managed keys of what is committed afterwards are those before less the removed plus the additions let through; and nothing skipped is managed if and only if no key was both skipped and let through |
| Counts.ThroughOrSkipped | pkg/openwrt/openwrt.go:199-211 | the keys added are those let through and those skipped |
| Counts.FaithfulSkipsApart | pkg/openwrt/openwrt.go:199-211 | where keys tell the added records apart no key is both skipped and let through |
| Counts.ManagedUnskipped | pkg/openwrt/openwrt.go:163-230 | there the managed keys afterwards are those before less the removed plus the added that were not skipped, and nothing skipped is managed |
| Counts.NoSecondOwned | pkg/openwrt/openwrt.go:255-262 | no key gains a second section of this instance's by a change set of stable records, pipes or not |
| Counts.RunNoSecondOwned | pkg/openwrt/openwrt.go:255-262 | nor does any over a run of them |
| Counts.PipeFreeFaithful | pkg/openwrt/types.go:63-72 | among records without a pipe in their names the key says which record it is |
| Convergence.RefusedAfter | pkg/openwrt/openwrt.go:281-314 | an addition refused is refused at the end of the change set if and only if no addition with its key was let through |
| Convergence.Converges | pkg/webhook/webhook.go:157-163 | a change set of stable records that replaces nothing, repeated, makes no write and leaves the configuration as it is; it skips the same records if and only if no key was both skipped and let through |
| Convergence.RepeatsIdleExactly | pkg/openwrt/openwrt.go:184-211 | the repetition makes no write if and only if every addition whose key is removed as well was refused |
| MapOrder.SameStep | pkg/openwrt/index.go:38-48 | whichever unmarked section is offered for adoption, routers with the same records stay routers with the same records, when what is offered holds one record |
| MapOrder.OrderIndependent | pkg/openwrt/openwrt.go:184-211 | the multiset of records and owners in what is committed afterwards, and the skipped list, do not depend on map order or on the names of new sections, when every key adopted for has unmarked sections alike |
| MapOrder.OrderIndependentExactly | pkg/openwrt/index.go:38-48 | the outcome of a change set is the same for every order if and only if every key it adopts for, which can be told from the router before, has unmarked sections that hold one record; with ownership off it always is |
| Limits.KeyUniqueExactly | pkg/openwrt/types.go:69-72 | a valid record's key is no other record's if and only if neither canonical side holds a pipe |
| Limits.SecondVerdict | pkg/openwrt/openwrt.go:252-314 | on any router, what was just created is found present by the next change set when it is stable; else a CNAME with a stable alias is refused for it, one that then closes a loop for that, and all others are created again |
| Limits.RepeatIdleExactly | pkg/openwrt/types.go:59-61 | on any router, adding again what was just created writes nothing if and only if the record is stable, or is a CNAME whose alias is stable or which the first one makes close a loop |
| MapOrder.AdoptionChoiceExactly | pkg/openwrt/index.go:38-48 | for one addition the choice among unmarked sections does not show in the records afterwards if and only if all of them hold the same record |
| Limits.DottedIsValid | pkg/openwrt/types.go:86-118 | validation takes a name ending in two dots, which is not stable |
| Limits.DottedAliasUnsafe | pkg/openwrt/openwrt.go:281-314 | an alias ending in two dots is written beside the CNAME its name already has, with ownership on or off, and the router is no longer safe |
| Limits.UntellableForetoldWrong | internal/provider/status.go:108-123 | an address without targets passes `AdjustEndpoints` and, like a type the router does not hold, is not written, yet the tracker takes it to be there |
| Limits.DottedForetoldWrong | internal/provider/status.go:108-123 | an address whose name ends in two dots is written and read back under another name than the tracker shows |
| Limits.PipedCollide | pkg/openwrt/types.go:127-141 | two valid CNAMEs for different aliases have one key |
| Limits.PipedSilentlyMissing | pkg/openwrt/openwrt.go:255-262 | of those two added together only the first is written, and nothing is reported skipped |
| Limits.PipedSkippedYetManaged | pkg/openwrt/openwrt.go:281-314 | where the alias of the first is taken it is reported skipped, the second is written, and the key it shares is managed |
| Rpcd.ExecView | pkg/openwrt/openwrt.go:33-39 | a staged change shows in the view of its session alone, and a session with nothing staged sees what is committed |
| Rpcd.Host.Serve | pkg/ubus/ubus.go:252-319 | every answer the environment may give a request and what it may have done by then, the fault-free answer fixed |
| Rpcd.Host.Login | pkg/ubus/ubus.go:218-240 | a new session is one nobody held, and nothing is staged or committed by logging in |
| Ubus.Client.Call | pkg/ubus/ubus.go:154-188 | a call that goes through does so as a whole on the configuration the client saw, in whichever session; one that fails committed nothing, unless it was an apply, which then committed exactly what the client saw; without a fault it fails only for a stranded session or a request rpcd objects to |
| Ubus.Client.Send | pkg/ubus/ubus.go:252-319 | one request over one session leaves every other session as it was and commits only by an apply |
| Ubus.Client.Login | pkg/ubus/ubus.go:218-240 | a session is reused if there is one, else a new one with nothing staged is taken |
| Ubus.Client.Track | pkg/ubus/ubus.go:203-216 | only the current session's own write or apply changes whether it counts as holding changes |
| Ubus.Client.Forget | pkg/ubus/ubus.go:242-250 | only the session named is given up |
| Ubus.Client.Reset | pkg/ubus/ubus.go:190-195 | the session is given up with what it staged |
| OpenWrt.Engine.ReadSections | pkg/openwrt/openwrt.go:94-116 | the sections of what the session sees, and nothing staged or committed by reading |
| OpenWrt.Engine.RemoveRecord | pkg/openwrt/openwrt.go:232-250 | exactly the owned sections with the key go, from the staged configuration and the index alike, one write each |
| OpenWrt.Engine.CreateSection | pkg/openwrt/openwrt.go:339-369 | one write stages the record's options under the new name |
| OpenWrt.Engine.SetOwner | pkg/openwrt/openwrt.go:371-374 | one write stages the marker and leaves the section's other options |
| OpenWrt.Engine.Obstacle | pkg/openwrt/openwrt.go:281-314 | finds the reason a record must not be created, in the source's order of rules, exactly when there is one; `Refusals.RefusedExactly` says when there is |
| OpenWrt.Engine.AddRecord | pkg/openwrt/openwrt.go:252-337 | rejects exactly invalid records; else configuration and index follow the specification's verdict on the record, skipping with its reason exactly when it refuses, with at most one write |
| OpenWrt.Engine.RemoveAll | pkg/openwrt/openwrt.go:184-197 | the removals of a change set, counting what they wrote |
| OpenWrt.Engine.AddAll | pkg/openwrt/openwrt.go:199-211 | the additions of a change set, counting what they wrote and listing what they skipped |
| OpenWrt.Engine.RunChange | pkg/openwrt/openwrt.go:175-230 | a change set commits its complete result in one commit or nothing, and commits nothing when it wrote nothing |
| OpenWrt.Engine.ApplyDnsRecords | pkg/openwrt/openwrt.go:163-230 | whatever fails at whichever call, what is committed is what was or the complete result; the next change set starts with nothing staged; at most one apply is sent that may have committed; it fails only for a fault, a session lost with changes staged, or an invalid record |
| OpenWrt.Engine.GetDnsRecords | pkg/openwrt/openwrt.go:70-92 | exactly the managed part of the configuration committed at that moment, the writer's session left as it was; it fails only for a fault |
| Visibility.ReadsCommitted | pkg/openwrt/openwrt.go:33-39 | in every interleaving a read gives the configuration committed at that moment |
| Visibility.CommitsFollowApplies | pkg/openwrt/openwrt.go:213-230 | nothing but an apply that went through, or whose answer was lost, commits, and each commits once |
| Visibility.AppliesByOthers | pkg/openwrt/openwrt.go:33-39 | the readers apply nothing: the calls without theirs hold as many applies |
| Visibility.AllOrNoneVisible | pkg/openwrt/openwrt.go:70-92 | reads interleaved with a change set, whose own calls hold one such apply, see all of it or none, and once a read saw it every later one does |
| Visibility.ReadersErased | pkg/openwrt/openwrt.go:33-39 | whatever a change set goes through while readers read, it can go through alone, with the same calls, the same answers and the same router afterwards |
| Order.OneListing | internal/provider/status.go:185-187 | an order leaves one way to list given elements |
| Order.AscendingUnique | internal/provider/status.go:137-183 | keys in strict order are determined by which they are |
| Plan.EndpointsToRecords | internal/provider/provider.go:237-265 | the loops give the list `Plan.FlattenAt` and `Plan.FlattenLength` determine |
| Plan.FlattenAt | internal/provider/provider.go:237-265 | each target of each A or CNAME endpoint has its record, endpoint by endpoint and target by target in order |
| Plan.FlattenLength | internal/provider/provider.go:237-265 | and there is no other record |
| Plan.CancelOut | internal/provider/provider.go:159-172 | each list keeps exactly the records whose key the two lists do not hold equally often |
| Plan.KeepUnbalanced | internal/provider/provider.go:174-184 | given the balance of every key, keeps the records with an unbalanced one |
| Plan.UnbalancedCount | internal/provider/provider.go:174-184 | a key keeps all its records or none |
| Plan.UnbalancedOrder | internal/provider/provider.go:174-184 | what is kept is a subsequence of the list |
| Plan.CancelKeepsDifference | internal/provider/provider.go:159-184 | cancelling keeps each key's count difference and, without repetitions, leaves no key in both lists |
| Plan.CancelEmpties | internal/provider/provider.go:159-184 | it empties both lists if and only if they are permutations of each other's keys |
| Cancelling.NothingSkipped | pkg/openwrt/openwrt.go:294-303 | addresses for names without a CNAME are never skipped |
| Cancelling.CancellingChangesNothing | internal/provider/provider.go:43-64 | for an honest, repetition-free plan of addresses on CNAME-free names every key has as many sections in what is committed afterwards as without cancelling |
| Grouping.RecordsToEndpoints | internal/provider/provider.go:186-235 | one endpoint per canonical name and type, in strict order, each with every held value as often as it is held, sorted, whatever the map order |
| Grouping.GroupsUnique | internal/provider/provider.go:186-235 | there is one such list for given sections |
| Grouping.GroupingRoundTrip | internal/provider/provider.go:199-265 | flattening the grouped sections gives back every type, canonical name and value as often as sections hold it |
| Adjusting.AdjustEndpoints | internal/provider/provider.go:86-142 | the passing endpoints come back in order, trimmed in place; the others stay as they were; per row the last refusal is recorded |
| Adjusting.PassingExactly | internal/provider/provider.go:95-142 | an endpoint comes back if and only if it is in the request, not nil, and can be represented, in the order of the request and as often as given |
| Adjusting.RejectionsExactly | internal/provider/provider.go:86-127 | the keys recorded as refused are those of the supported endpoints that cannot be represented |
| Adjusting.LastRejection | internal/provider/provider.go:86-127 | each with the sorted targets and the reason of the last of them |
| Adjusting.ReasonExactly | internal/provider/provider.go:105-127 | the reason is the wildcard, else the second target of a CNAME, else the first target that cannot be written |
| Provider.Controller.AdjustEndpoints | internal/provider/provider.go:66-146 | all of that; the tracker is told what passed and what was refused and publishes; and what comes back has the set identifier and properties `Records()` reports for such a row and no TTL above zero, its name, type, targets and labels unchanged |
| Adjusting.PassesExactly | internal/provider/provider.go:98-127 | an endpoint passes if and only if its type is A or CNAME, its name no wildcard, a CNAME's target single, and every target one that can be written; it is refused if and only if only the type is right |
| Adjusting.UnrefusedNeverRejected | internal/provider/provider.go:66-84 | no record of what is not refused can fail a change set for being invalid |
| Tracking.Tracker.ObserveRecords | internal/provider/status.go:62-73 | the board holds each endpoint's sorted targets under its key as the router's |
| Tracking.Tracker.ObserveDesired | internal/provider/status.go:75-88 | the board holds the adjusted endpoints and the refusals, and a snapshot is published once both sides are known |
| Tracking.Tracker.ObserveApply | internal/provider/status.go:90-125 | attempted, failed, conflict and the predicted router state after a change set, and a snapshot |
| Tracking.Tracker.Snapshot | internal/provider/status.go:137-183 | the rows are strictly sorted, exactly one for each known key that has one, as `Tracking.RowsSay` spells out |
| Tracking.RowsSay | internal/provider/status.go:159-181 | the one row of each known record, with its targets, state and reason, read off the six maps |
| Tracking.StatesExact | internal/provider/status.go:159-181 | Rejected, Orphan, Ready, Conflict, Error and Pending each hold of a record if and only if the maps say just that |
| Tracking.FailureShows | internal/provider/status.go:97-106 | after a change set that failed, every record it was to write that is asked for, not refused and not on the router as asked shows the error |
| Tracking.SkipShows | internal/provider/status.go:108-111 | after one that went through, a skipped record not on the router as asked shows as a conflict, with the reason of the last skip of its row |
| Forecast.WrittenShows | internal/provider/status.go:108-123 | a record it wrote with the targets asked for, not skipped and not refused, shows as ready |
| Tracking.RefusalShows | internal/provider/status.go:75-88 | a record shows as rejected if and only if the last adjustment refused it, with that refusal |
| Tracking.TargetsExactly | internal/provider/status.go:62-88 | the keys on the router or asked for are those of the endpoints shown |
| Tracking.LastTargets | internal/provider/status.go:62-88 | each with the sorted targets of the last endpoint that has it |
| Tracking.AlwaysConsistent | internal/provider/status.go:90-125 | over every sequence of observations failed and conflict keys are disjoint and were attempted |
| Tracking.RowsExact | internal/provider/status.go:137-183 | Ready means exactly not rejected, desired and on the router with equal targets; a known key has no row exactly when it is not rejected, desired, off the router and never attempted |
| Prediction.OwnedIsRow | internal/provider/provider.go:186-235 | the sections a key owns are the managed ones of its row with its value |
| Prediction.FlattenKeyCount | internal/provider/provider.go:237-265 | a flattened plan holds a key as often as its row lists the target |
| Prediction.ReadBackUnique | internal/provider/status.go:62-73 | there is one way to list what the router holds |
| Prediction.ObservedExactly | internal/provider/status.go:62-73 | what the tracker makes of `Records()` is that list if and only if the name of every row is canonical |
| Forecast.CancelledPlain | internal/provider/provider.go:43-64 | an honest plan hands the engine only stable records whose keys tell them apart |
| Forecast.CountAfter | pkg/openwrt/openwrt.go:163-230 | how many sections hold a target of a row after the change set, from what was held, removed, added and skipped |
| Forecast.SkipsAsked | internal/provider/status.go:104-107 | whatever the plan, only rows it asked to write are skipped |
| Forecast.SkippedRowGone | internal/provider/status.go:108-123 | a row with a skipped record has nothing on the router afterwards: its targets are skipped all or none |
| Forecast.RowWanted | internal/provider/status.go:108-123 | a target asked for is held by no section when its row is skipped, else by as many as before if as often asked for, else by one |
| Forecast.RowOther | internal/provider/status.go:108-123 | a row not asked for is held as before, or not at all when withdrawn |
| Forecast.AfterwardsClean | pkg/openwrt/openwrt.go:281-314 | a clean router is clean after the change set |
| Forecast.PredictionExactly | internal/provider/status.go:108-123 | from a clean router and a plan honest about it, the tracker's prediction lists exactly what the router holds after the change set, conflicts included, if and only if every row asked for and not skipped has a type the router holds and targets, canonical ones, none twice unless it was held twice already |
| Example.AllHypothesesMeet | internal/provider/provider.go:43-64 | the hypotheses of the prediction, the repetition, the counts and the cancelling theorems hold together: one address asked for on a router without records |
| Scenario.MixedForetold | internal/provider/provider.go:43-64 | the hypotheses of the prediction hold, and it comes true, for a change set with an update, a withdrawal, an adoption and a record skipped |
| Provider.Controller.ApplyChanges | internal/provider/provider.go:43-64 | the cancelled plan is committed completely or, on an error, completely or not at all; the tracker is told; from a clean router and an honest plan it then shows what the router holds exactly when every row written can be told; and a plan with no endpoint `AdjustEndpoints` refuses fails only for a fault or a session lost with changes staged |
| Provider.Controller.Records | internal/provider/provider.go:148-157 | the managed sections committed at that moment, grouped, and the tracker told so; it then shows what the router holds if and only if the name of every row is canonical; it fails only for a fault |
| Provider.NextReadAgrees | internal/provider/status.go:108-123 | when the tracker shows what the router holds, the next `Records()` changes nothing on its board if and only if the name of every row is canonical |
| Webhook.Server.ApplyChanges | pkg/webhook/webhook.go:135-172 | requests run one after the other, each completely or not at all, and with an error only for a fault, a session lost with changes staged, or an endpoint `AdjustEndpoints` refuses; from a safe start every configuration of the run is safe if and only if each change set created only what nothing stood in the way of, as those of stable records do; sections with another ID stay as they were |
| Webhook.ApplyCopy | pkg/webhook/webhook.go:157-163 | of two queued copies of a change set that replaces nothing the second writes and commits nothing, skips the same records if and only if no key was both skipped and let through, and if it fails leaves what is committed as it was |
| Syncing.ObjectNameInjective | pkg/status/syncer.go:140-153 | two rows, of any types spelled without small letters, dots and dashes, whose digests do not collide share an object name exactly when they share their key |
| Syncing.ObjectNameLegal | pkg/status/syncer.go:140-153 | an object has the name its type and name make if Kubernetes takes that, else one with the digest, which Kubernetes takes too |
| Syncing.SnapshotNamesDistinct | pkg/status/syncer.go:140-153 | no two rows of a snapshot share an object, unless digests of its own rows collide |
| Syncing.PublishedCanBeSynced | internal/provider/status.go:127-183 | whatever the tracker observed, of types the router holds or not, the rows it publishes have distinct object names, as a sync needs |
| Syncing.GroupedTyped | internal/provider/provider.go:199-235 | what `Records()` groups is of types so spelled |
| Syncing.AdjustedTyped | internal/provider/provider.go:86-142 | so is all that `AdjustEndpoints` lets through or refuses |
| Syncing.Sync | pkg/status/syncer.go:78-132 | without a failure the objects are exactly the snapshot, each with the time it had if it was there in the same state with a time and with the new time if not, and only what differs is written or deleted; whatever fails, every object is as it was or as its row wants it, and only those no row wants are gone |
| Syncing.SecondSyncIdle | pkg/status/syncer.go:78-132 | once the objects mirror a snapshot, syncing it again writes and deletes nothing and keeps every time |
| Kick.NoLostWakeUp | pkg/status/syncer.go:48-76 | in every interleaving of publishers and the runner, the newest snapshot was read, or a kick waits, or a publisher is about to send, or the runner is about to read; and it never reads more often than it was kicked |
| Kick.QuietIsCurrent | pkg/status/syncer.go:48-76 | when all have sent and the runner waits with no kick left, it has read the newest snapshot |
| Kick.Catches | pkg/status/syncer.go:60-76 | once all have sent, at most three steps of the runner bring it to the newest snapshot |

## Left out

- HTTP, TLS, JSON, media types, listeners, shutdown, logging, metrics and configuration: plumbing around the core. A
  ubus request is reduced to what rpcd did and what came back.
- `droppedByType` (pkg/webhook/webhook.go:201-227): a counter for a log line.
- The check that warns about an A record next to another address of its name: it only logs.
- The wording of skip and validation reasons past their fixed beginning: the section or the quoted value is not
  rendered.
- IPv6 parsing: `Site.isIPv6` is any set of texts. IPv4 dotted quads are concrete.
- Characters past ASCII, in case folding and white space.
- Record types other than A and CNAME inside the engine: plans are filtered when flattened, and `RecordType` has the
  two.
- Section names: the random part is an input, taken to be new to the router, as the source takes it. No other writer
  commits between the read and the apply of a change set.
- Sections that hold a list of names or an IPv6 address: the program does not read them, and the three rules are about
  those it reads.
- Calls by several goroutines on one client: the client's mutex is not modelled. Interleavings of whole calls are
  modelled as steps (`Visibility`, `Kick`).
- Context cancellation: it comes to a fault of a call.
- The Kubernetes client: list, apply and delete on one owner's objects, any of which may fail, with or without effect.
  Names of different owners are taken to be disjoint.
- SHA-256: a `digest` function, collision-free where names must differ.
- Clock times: inputs of `Sync`, one per row.
- Sorting: the library sorts are a `Sort` function proved to give the same elements in order.
- Nil endpoints in a plan: `Adjusting.AdjustEndpoints` skips them as the source does; plans are taken to have none. A
  nil tracker, for a provider without a mirror, is not modelled.
- Rpcd.Host.Serve: a status 0 without data is never the answer to a get. The source would take it for an empty
  configuration and go on; rpcd always gives the values, which is taken for granted here.
- Ubus.Client.Track: an apply that rpcd answers with no data leaves the client counting the session as holding
  changes, as in the source; a change set then may be refused a new session it could have had, which is the stranded
  case of `OpenWrt.Engine.ApplyDnsRecords`.
- Forecast.PredictionExactly: for plans honest about the router with one target at most to a CNAME, as
  `AdjustEndpoints` sees to, whose names and CNAME targets do not end in two dots, where the prediction fails
  (`Limits.DottedForetoldWrong`), and whose names hold no pipe, where one record can be taken for another
  (`Limits.PipedSilentlyMissing`); a plan made from an older read is corrected by the next `Records()`.
- Cancelling.CancellingChangesNothing: for addresses on names without a CNAME, where nothing is skipped; with CNAMEs
  the order of removing and adding decides what is skipped.
