# Book a Secure Move: a verified model of its event, notification and reference-data rules

This project models, in Dafny, the self-contained business rules at the core of
the Book a Secure Move API and proves properties about them:

- **Generic events** (`GenericEvents`): the record every move, journey and person
  event is stored as. The model covers its canonical replay order (ascending
  `occurred_at`), its base validations, the declared `details` accessors, the
  eventable-type check, the feed projection `for_feed` (with the `GenericEvent::`
  namespace stripped from `type`) and the subtype naming of `from_event`.
- **Incident events** (`Incidents`): the rules that the `Incident` class installs
  on every direct subclass. These are its details keys, the `Move`/`Person` eventable
  restriction, the `fault_classification` enumeration and the ISO 8601
  `reported_at` check. The check is defined in `IsoDateTime` as the extended
  complete representation `YYYY-MM-DDThh:mm:ss` with an optional `Z` or
  `±hh:mm` zone, and proved a round trip.
- **Move notifications** (`MoveNotifications`): the job that walks a move's
  suppliers and their kept, enabled subscriptions. For each one it creates a
  webhook notification and, when the move should be emailed, an email
  notification, and enqueues a delivery job per record. The job is a class over
  an append-only notification table and nested loops. Each loop is proved
  against a specification function whose properties are proved as lemmas.
- **Assessment answers** (`Profiles`): `merge_assessment_answers!` on a profile.
  The answers of other categories are kept, manually created answers of the
  category are kept and the new answers are appended. The profile's validations
  are modelled too.
- **NOMIS mapping assignment** (`FrameworkNomisMappings`): the importer builds a
  code-id → mappings table. Each mapping goes to every exactly matching code,
  otherwise to the first fallback code of its type. The importer then gives each
  framework response the concatenation of its codes' lists and records three
  sync statuses on the person escort record.
- **Move references** (`MoveReferences`): the retry loop that draws eight
  distinct symbols from a 26-symbol alphabet until the result is unused.
- **Record validators** (`Allocations`, `Flags`): presence and enum-inclusion
  validations and the enum name ↔ stored-value tables.

`Common` holds `Option` and Rails' notion of a present (non-blank) string.

Where the specification's tests and the code disagree, the model follows the
code. The example specs of the move-approve and move-lockout events expect the
feed `type` to keep its `GenericEvent::` prefix. `for_feed` in
`app/models/generic_event.rb` removes it, and so does `GenericEvents.ForFeed`.

## Model

| member | source | states |
|---|---|---|
| GenericEvents.AppliedOrderSortedPermutation | app/models/generic_event.rb:96 | the applied order is sorted by ascending `occurred_at` (events without it last) and is a permutation of the events |
| GenericEvents.AppliedOrderOfEventable | app/models/generic_event.rb:96 | the applied order of one eventable's events is sorted, a permutation of them, and holds exactly the log's events of that eventable |
| GenericEvents.AppliedOrderOfSorted | app/models/generic_event.rb:96 | events already in order are left as they are |
| GenericEvents.AppliedOrderIdempotent | app/models/generic_event.rb:96 | ordering an applied order again changes nothing |
| GenericEvents.ReplayDeterministic | app/models/generic_event.rb:93-96 | when no two events share an `occurred_at`, every arrangement of the same events has the same applied order |
| GenericEvents.SortedPermutationUnique | app/models/generic_event.rb:96 | two sorted arrangements of the same events with distinct times are equal |
| GenericEvents.PrecedesTotal | app/models/generic_event.rb:96 | the order on `occurred_at` is total, and two events tie exactly when their times are equal |
| GenericEvents.Attributes | app/models/generic_event.rb:104 | the row's columns include every feed attribute, `type`, `created_by` and `supplier_id` |
| GenericEvents.FeedDocument | app/models/generic_event.rb:103-108 | feed keys come only from FEED_ATTRIBUTES, `type` and (with a supplier id) the supplier's feed keys; `type` is the stored type with the namespace removed unless the supplier overrides it; supplier values win |
| GenericEvents.ForFeed | app/models/generic_event.rb:103-108 | the feed fails, as `merge!(nil)` raises, exactly when the event has a supplier id but no supplier row is found; otherwise it is the document above, merged with the supplier's feed when there is one |
| GenericEvents.FeedWithoutSupplier | app/models/generic_event.rb:104-106 | with no supplier id, the feed is produced whatever the supplier lookup gives, no supplier field enters it, and neither do `created_by` nor `supplier_id` |
| GenericEvents.FeedTypeUnqualified | app/models/generic_event.rb:105 | the feed type of `GenericEvent::X` is `X` |
| GenericEvents.FeedEventableColumns | app/models/generic_event.rb:104 | the feed publishes the stored `eventable_type` and `eventable_id` columns, whether or not the row they name exists |
| GenericEvents.FirstIndexOf | app/models/generic_event.rb:105 | the index `sub` replaces at is the first occurrence of the pattern, or there is none |
| GenericEvents.StripNamespaceOfQualified | app/models/generic_event.rb:105 | removing the first `GenericEvent::` from `GenericEvent::` + x gives x |
| GenericEvents.StripNamespaceOfUnqualified | app/models/generic_event.rb:105 | a type without the namespace is left unchanged |
| GenericEvents.StripNamespaceExample | app/models/generic_event.rb:105 | `GenericEvent::MoveLockout` is published as `MoveLockout` |
| GenericEvents.Capitalize | app/models/generic_event.rb:111 | `capitalize` keeps the length, upcases the first letter and downcases the rest |
| GenericEvents.CapitalizeIdempotent | app/models/generic_event.rb:111 | capitalising twice is capitalising once |
| GenericEvents.FromEventFeedType | app/models/generic_event.rb:105-111 | the feed publishes a converted event as eventable type + capitalised event name |
| GenericEvents.ResolveFromEvent | app/models/generic_event.rb:110-114 | `from_event` resolves exactly when eventable type + capitalised name is one of STI_CLASSES (lines 15-83), and then to that name under `GenericEvent::` |
| GenericEvents.FromEventExample | app/models/generic_event.rb:110-114 | a Move `approve` event becomes `GenericEvent::MoveApprove` |
| GenericEvents.RuleErrors | app/models/generic_event.rb:153-161 | a details key has an error exactly when one of its rules fails |
| GenericEvents.Errors | app/models/generic_event.rb:88-91 | an error for an eventable that does not load, a blank type, missing `occurred_at` or `recorded_at`, an eventable type outside the list `eventable_types` declares (line 158), and each failing details rule |
| GenericEvents.MissingCoreAttributeInvalid | app/models/generic_event.rb:88-91 | an event whose eventable does not load (a column unset or no such row), or that misses its type, `occurred_at` or `recorded_at`, is invalid |
| GenericEvents.IncompatibleEventableInvalid | app/models/generic_event.rb:153-161 | an `eventable_type` column that is unset or outside the declared `eventable_types` makes the event invalid |
| GenericEvents.DanglingEventableReported | app/models/generic_event.rb:85-88 | when the columns name an accepted kind but no existing row, the eventable presence check fails and the `eventable_type` inclusion check does not |
| GenericEvents.BaseSchemaValidity | app/models/generic_event.rb:88-91 | with no declared rules, validity is exactly the four presence checks |
| GenericEvents.GenericEventRecord.Get | app/models/generic_event.rb:123-126 | a declared accessor reads its `details` key, nil when absent |
| GenericEvents.GenericEventRecord.Set | app/models/generic_event.rb:128-130 | a declared setter writes its `details` key; the getter then returns the value and every other accessor is unchanged |
| GenericEvents.GenericEventRecord.Trigger | app/models/generic_event.rb:101 | the default trigger, although allowed to update the record, leaves it unchanged |
| GenericEvents.SetThenGet | app/models/generic_event.rb:123-131 | set then get returns the written value, leaves another accessor unchanged and adds only that key |
| Incidents.FaultClassificationStoredAsName | app/models/generic_event/incident.rb:9-13 | the enum hash has exactly one entry per fault classification, and each is stored as its own name |
| Incidents.FaultClassificationFromValue | app/models/generic_event/incident.rb:9-13 | a stored value reads back to the member stored under it, and an unknown value to none |
| Incidents.FaultClassificationsAreEnumNames | app/models/generic_event/incident.rb:9-19 | the inclusion list holds exactly the enum's names, the keys of its hash |
| Incidents.DefineClass | app/models/generic_event/incident.rb:5-8 | a direct subclass of Incident gets the incident schema; a class further below Incident fails to be defined; any other class keeps what it declares |
| Incidents.IncidentAccessors | app/models/generic_event/incident.rb:6-7 | incident subclasses get accessors for exactly the four details keys and `location_id` |
| Incidents.IncidentValidity | app/models/generic_event/incident.rb:8-19 | an incident is valid iff the four presence checks hold, its `eventable_type` is Move or Person, `reported_at` is an ISO 8601 date-time, `fault_classification` is present and one of the three names, and the mixed-in location and personnel-number validations accept it |
| Incidents.IncidentSchemaValidity | app/models/generic_event/incident.rb:8-19 | the same iff for the incident schema alone, without the mixed-in validations |
| Incidents.IncidentRejectsOtherEventables | app/models/generic_event/incident.rb:5-8 | every direct subclass of Incident rejects an `eventable_type` that is unset or neither Move nor Person |
| Incidents.IncidentDetailRules | app/models/generic_event/incident.rb:5-19 | every direct subclass of Incident rejects a bad `reported_at` or `fault_classification` |
| Incidents.IncidentClassItselfUnrestricted | app/models/generic_event/incident.rb:5-21 | the rules are not installed on Incident itself |
| Incidents.BelowIncidentSubclassFails | app/models/generic_event/incident.rb:5-6 | a class defined below a subclass of Incident fails to be defined, as the inherited hook calls the parent's zero-argument `details_attributes` reader with arguments |
| IsoDateTime.FormatThenParse | app/models/generic_event/incident.rb:18 | every valid date-time, written out, reads back as itself |
| IsoDateTime.ParseThenFormat | app/models/generic_event/incident.rb:18 | an accepted text is the canonical writing of what it reads as |
| IsoDateTime.ZoneRoundTrip | app/models/generic_event/incident.rb:18 | a zone designator, written out, reads back as itself |
| IsoDateTime.AcceptsUtcExample | app/models/generic_event/incident.rb:18 | `2020-01-30T10:15:00Z` is accepted |
| IsoDateTime.RejectsSlashesExample | app/models/generic_event/incident.rb:18 | `2019/01/01` is refused |
| IsoDateTime.RejectsMissingDayExample | app/models/generic_event/incident.rb:18 | 29 February of a common year is refused |
| MoveNotifications.EventType | app/jobs/prepare_move_notifications_job.rb:48-55 | create, update, update_status and destroy map to their four event types, each iff, and any other action to nil |
| MoveNotifications.EventTypeInjective | app/jobs/prepare_move_notifications_job.rb:48-55 | different known actions get different event types |
| MoveNotifications.SubscriptionYield | app/jobs/prepare_move_notifications_job.rb:12-26 | a subscription yields at most one webhook and one email, the webhook first; a webhook iff kept, enabled with a callback URL; an email iff kept, enabled with an address and the move should be emailed |
| MoveNotifications.DispatchMembership | app/jobs/prepare_move_notifications_job.rb:10-26 | a notification is created iff some supplier's subscription yields it |
| MoveNotifications.SupplierMembership | app/jobs/prepare_move_notifications_job.rb:11-26 | a supplier's notifications are exactly those its subscriptions yield |
| MoveNotifications.DispatchShape | app/jobs/prepare_move_notifications_job.rb:12-46 | every notification concerns the move, carries the action's event type and belongs to a kept, enabled subscription; emails only for a move that should be emailed |
| MoveNotifications.NoEmailWhenProposedOrCompleted | app/jobs/prepare_move_notifications_job.rb:41-46 | a proposed or completed move yields only webhooks |
| MoveNotifications.WebhookAlwaysSent | app/jobs/prepare_move_notifications_job.rb:14-19 | a kept, enabled subscription with a callback URL always gets its webhook |
| MoveNotifications.NotificationsPerSubscription | app/jobs/prepare_move_notifications_job.rb:14-46 | for a subscription whose id is unique among the move's suppliers, each call creates exactly one webhook when it is kept, enabled and has a callback URL, and none otherwise; and exactly one email when it is kept, enabled and has an address and the move is emailable and current, and none otherwise |
| MoveNotifications.EmailSentIff | app/jobs/prepare_move_notifications_job.rb:21-46 | a subscription's email is created iff it is kept, enabled and has an address, and the move's status is requested, booked, in transit or cancelled and the move is current |
| MoveNotifications.DispatchAppend | app/jobs/prepare_move_notifications_job.rb:10 | notifications follow supplier order |
| MoveNotifications.InactiveSubscriptionsSilent | app/jobs/prepare_move_notifications_job.rb:11-12 | subscriptions that are not kept or not enabled produce nothing |
| MoveNotifications.Jobs | app/jobs/prepare_move_notifications_job.rb:16-26 | each stored notification gets one delivery job of its type with its id |
| MoveNotifications.NotificationTable.Create | app/jobs/prepare_move_notifications_job.rb:33-39 | `create!` appends the record and returns its id |
| MoveNotifications.NotifySubscription | app/jobs/prepare_move_notifications_job.rb:12-26 | the records one subscription adds, and their jobs, are those of the specification |
| MoveNotifications.NotifySupplier | app/jobs/prepare_move_notifications_job.rb:11-27 | a supplier's subscriptions add their records and jobs in order |
| MoveNotifications.Perform | app/jobs/prepare_move_notifications_job.rb:7-29 | the job appends exactly the dispatch's records, in supplier then subscription order, and enqueues one job per record with its id |
| Profiles.OtherCategoriesMembership | app/models/profile.rb:25 | `reject` by category keeps exactly the answers of other categories |
| Profiles.ManuallyCreatedMembership | app/models/profile.rb:32-34 | the manually created answers are exactly those not imported from NOMIS |
| Profiles.InCategoryMembership | app/models/profile.rb:26 | `select` by category keeps exactly the answers of that category |
| Profiles.OtherCategoriesOfOthers | app/models/profile.rb:25 | answers all of other categories are kept unchanged, in order |
| Profiles.OtherCategoriesCount | app/models/profile.rb:25 | as many answers are kept as there are of other categories |
| Profiles.ManualInCategoryCount | app/models/profile.rb:26-34 | as many manual answers are kept as there are manual answers of the category |
| Profiles.MergedShape | app/models/profile.rb:24-27 | the merged length is #(other category) + #(manual, in category) + #new; the other-category answers come first, unchanged; the new answers come last, in the given order |
| Profiles.MergedMembership | app/models/profile.rb:24-34 | an answer survives the merge iff it was of another category, or manual, or is new |
| Profiles.ImportedAnswersReplaced | app/models/profile.rb:25-34 | an imported answer of the category that is not among the new answers is removed |
| Profiles.MergeIdempotent | app/models/profile.rb:23-28 | merging the same imported answers of the category twice is merging them once |
| Profiles.Profile.MergeAssessmentAnswers | app/models/profile.rb:23-28 | the answers become the merge of the old answers and the new ones; nothing else changes |
| Profiles.Profile.Errors | app/models/profile.rb:11-45 | errors for a missing person, blank last name or first names, and an `assessment_answers` error iff some answer is invalid |
| Profiles.MissingNameInvalid | app/models/profile.rb:11-13 | a profile without person, last name or first names is invalid |
| Profiles.MergePreservesAnswerValidity | app/models/profile.rb:23-45 | merging valid new answers into valid answers leaves every answer valid |
| FrameworkNomisMappings.MatchingCodesMembership | app/services/framework_nomis_mappings/importer.rb:75 | the exact matches are the codes with equal `code` and `code_type` |
| FrameworkNomisMappings.FallbackCodesMembership | app/services/framework_nomis_mappings/importer.rb:68-70 | the fallback codes are exactly the codes with `fallback?` |
| FrameworkNomisMappings.FindByType | app/services/framework_nomis_mappings/importer.rb:76 | `find` gives the first fallback of the type, or none exists |
| FrameworkNomisMappings.GroupByCodeTypePartition | app/services/framework_nomis_mappings/importer.rb:64-66 | grouping by code type is keyed by exactly the occurring types, and each group is the codes of its type, in order |
| FrameworkNomisMappings.AddMappingLookup | app/services/framework_nomis_mappings/importer.rb:74-85 | one mapping appends itself to a code's list once per matching code with that id, or else to the first fallback of its type |
| FrameworkNomisMappings.BuildTableLookup | app/services/framework_nomis_mappings/importer.rb:72-87 | each code id's list is what each persisted mapping contributes to it, in mapping order |
| FrameworkNomisMappings.ContributionsAppend | app/services/framework_nomis_mappings/importer.rb:74 | contributions of mappings joined end to end are joined end to end |
| FrameworkNomisMappings.ContributionsMembership | app/services/framework_nomis_mappings/importer.rb:74-85 | a mapping is in a code's list iff some persisted mapping contributes it |
| FrameworkNomisMappings.ExactMatchAttached | app/services/framework_nomis_mappings/importer.rb:75-81 | a mapping is attached to every code it matches exactly |
| FrameworkNomisMappings.FallbackOnly | app/services/framework_nomis_mappings/importer.rb:76-84 | with no exact match, a mapping is attached to a code iff that code is the first fallback of its type |
| FrameworkNomisMappings.TableGrowsOnly | app/services/framework_nomis_mappings/importer.rb:80-83 | every code's list only grows as mappings are added; nothing is replaced or dropped |
| FrameworkNomisMappings.DistinctProperties | app/services/framework_nomis_mappings/importer.rb:22 | `slice` keeps each requested key once and keeps every key |
| FrameworkNomisMappings.DistinctOfDistinct | app/services/framework_nomis_mappings/importer.rb:22 | keys that are already distinct are kept in order |
| FrameworkNomisMappings.SliceValuesEmpty | app/services/framework_nomis_mappings/importer.rb:21-22 | a response with no codes ends with no mappings |
| FrameworkNomisMappings.SliceValuesOfDistinct | app/services/framework_nomis_mappings/importer.rb:21-22 | a response's mappings are its codes' lists concatenated in code order |
| FrameworkNomisMappings.ConcatAppend | app/services/framework_nomis_mappings/importer.rb:22 | flattening over joined key lists is the joined flattenings |
| FrameworkNomisMappings.BuildTableLoop | app/services/framework_nomis_mappings/importer.rb:72-87 | the nested loop builds exactly the specified table |
| FrameworkNomisMappings.AssignMappings | app/services/framework_nomis_mappings/importer.rb:20-23 | every response gets the table values of its own code ids |
| FrameworkNomisMappings.Call | app/services/framework_nomis_mappings/importer.rb:7-37 | skipped iff there is no record, no response or no code; nothing changes when no mapping was persisted; otherwise every response gets its mappings and the sync status is alerts, care needs, adjustments in that order |
| MoveReferences.AlphabetSize | app/services/moves/reference_generator.rb:13 | the alphabet has 26 distinct symbols |
| MoveReferences.AlphabetCharacterization | app/services/moves/reference_generator.rb:13 | a symbol is permissible iff it is an upper-case letter or a digit 1-9 and not confusable |
| MoveReferences.NoConfusableCharacters | app/services/moves/reference_generator.rb:7-13 | no sample contains 0, B, D, G, I, L, O, Q, S or Z |
| MoveReferences.CandidateExists | app/services/moves/reference_generator.rb:7-12 | an 8-symbol sample exists, so a draw can always be made |
| MoveReferences.Call | app/services/moves/reference_generator.rb:5-12 | every draw is 8 distinct permissible symbols; a returned reference is the first unused draw and every earlier draw was in use |
| Allocations.PrisonerCategoryFromValue | app/models/allocation.rb:4-8 | a stored category reads back to its member, and an unknown value to none |
| Allocations.SentenceLengthFromValue | app/models/allocation.rb:10-13 | a stored sentence length reads back to its member, and an unknown value to none |
| Allocations.EnumTablesAreBijections | app/models/allocation.rb:4-13 | b↔B, c↔C, d↔D, short↔16_or_less and long↔more_than_16 are bijections |
| Allocations.Errors | app/models/allocation.rb:18-25 | errors exactly for a missing location, moves count or date, and for an enum value that is given but not one of its names |
| Allocations.ValidIff | app/models/allocation.rb:18-25 | an allocation is valid iff both locations, the moves count and the date are present and each enum is nil or one of its names |
| Allocations.ValueReadBackValid | app/models/allocation.rb:4-22 | enum members read back by name pass the inclusion checks |
| Flags.FlagTypeFromName | app/models/flag.rb:4-9 | a name reads back to its flag type, and an unknown name to none |
| Flags.ValueIsName | app/models/flag.rb:4-9 | each flag type has an entry in the enum hash and is stored as its own name, and the hash's keys are exactly the four names |
| Flags.Errors | app/models/flag.rb:11-15 | errors for a blank flag type, one outside the four names (nil included), a blank name or question value, and a framework question that does not exist |
| Flags.ValidIff | app/models/flag.rb:11-15 | a flag is valid iff its type names one of the four types, its name and question value are present and its framework question exists |
| Flags.NamesArePresent | app/models/flag.rb:4-11 | a known flag type also passes the presence check |

## Left out

- The event runner and the per-variant `trigger` bodies are not part of this model. Only the default `trigger`, which does nothing, is modelled.
- `constantize` of a type that is not listed in STI_CLASSES, and the per-variant `from_event` it calls, are not part of this model. `GenericEvents.ResolveFromEvent` only returns the class name.
- GenericEvents.ForFeed: a Ruby hash keeps insertion order but the model's map does not, so the feed's key order is not modelled.
- GenericEvents.ForFeed: the supplier's own `for_feed` is taken as an input map, or None when no supplier row is found.
- GenericEvents.ReplayDeterministic: it requires distinct `occurred_at` values. Between equal times the database gives no order, and the model breaks ties by input order.
- Events without `occurred_at` are sorted last, as an ascending database sort does. Such events fail validation anyway.
- LocationValidations and SupplierPersonnelNumberValidations, which Incident mixes in, are not part of this model. Their verdict is the predicate parameter of `Incidents.IncidentValid`.
- Incidents.DefineClass: a class below an incident subclass is modelled only as failing to be defined. The exception raised, and the effect of a subclass body that calls `details_attributes` itself, are not modelled.
- GenericEvents.ForFeed: when the supplier row is missing the model returns None; the `TypeError` itself is not modelled.
- IsoDateTime: the `iso_date_time` validator's code is not shown. The model accepts the ISO 8601 extended complete date-time `YYYY-MM-DDThh:mm:ss` with an optional `Z` or `±hh:mm` zone, and no other ISO 8601 forms such as fractions, week dates or basic format. A nil `reported_at` is treated as invalid.
- Common.Present and GenericEvents.Capitalize work on ASCII only. Rails' `blank?` and Ruby's `capitalize` also handle Unicode whitespace and letters.
- `Move.find`, `Move#suppliers`, `Move#current?` and `subscriptions.kept` are inputs: the move, its suppliers' subscription lists and the `kept` and `current` flags.
- `perform_later` is modelled as the returned list of delivery jobs, in enqueue order. The queue is not modelled.
- Notification ids are table positions, and timestamps are not modelled.
- `set_assessment_answers`, the `before_validation` hook, only sets timestamps and copies question attributes. It is not part of this model.
- The validity of a single assessment answer is taken as a predicate parameter.
- The NOMIS clients (Alerts, PersonalCareNeeds, ReasonableAdjustments) and `FrameworkNomisMapping.import` are inputs. `FrameworkNomisMappings.Call` receives the persisted mappings and the three sync statuses.
- FrameworkNomisMappings.Call: a failing `update` of the sync status is not modelled. The transaction, persistence and `all_or_none` rollback are not modelled either.
- FrameworkNomisMappings.Call: the join behind `responses_to_codes` is modelled as each response's own code list, in stored order. The database's row order is not modelled.
- MoveReferences.Call: the random draw is a nondeterministic choice. The unbounded retry loop is bounded by a `maxDraws` parameter, so the model does not capture a call that never returns. The existing references are a set parameter.
- The Rails enum setter's casting, and the `ArgumentError` it raises on an unknown value, are not modelled. Validations see the name that would be read back.
- The required `belongs_to` associations (an allocation's two locations, a flag's framework question, an event's eventable) are modelled by whether the referenced row is found. The model does not distinguish an unset foreign key from one naming a missing row, except for the eventable, whose two columns are kept apart from the row lookup.
