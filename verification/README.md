# Airbyte platform decision logic in Dafny

This project models the decision-making core of the Airbyte platform's web UI and worker. The model is pure: it covers the branches, edge cases and constants of each piece and leaves out rendering, I/O and concurrency. The pieces are:

- **Connection replication page** (`ConnectionReplication`, over the shared `Catalog` model). It decides whether a saved catalog differs from the form's catalog. It decides whether a schema diff touches an enabled stream. It builds the update payload. It runs the submit flow: look up the state type, ask for reset confirmation, save, record analytics. It also picks the schema-change banner.
- **Airbyte message tracker** (`MessageTracker`). It routes messages from the source and the destination into the state trackers, the stats tracker and the per-origin lists of error traces. It blames a failed job on one side's first error trace: the side whose first error was emitted earlier, the source on a tie.
- **Streams table header** (`StreamsConfigTableHeader`). It drives the "sync all streams" switch: toggling, checked/indeterminate state, disabling. It applies the namespace and stream-name modal results to the form.
- **Feature service** (`FeatureService`). It resolves a feature flag from the defaults, the user overwrites and the development-only environment overwrites.
- **Connector builder page display** (`PageDisplay`). It lays out the records/request/response tabs and formats the HTTP response body.
- **Stream statuses repository** (`StreamStatusesRepository`). It turns filter parameters into a conjunction of column constraints plus a pageable. The rows it selects, before the requested page is cut, are exactly those that match every given parameter.
- **Variable input field form** (`VariableInputFieldForm`). It computes the initial value of an array item: default values collected from the item's form blocks.
- **OAuth authenticate button** (`AuthButton`). It chooses the Google, the QuickBooks or the generic button and its label, and shows the required-field message.
- **Source overview page** (`SourceOverviewPage`). It builds the destination dropdown and navigates to the new-connection page.

`Wrappers` (Option/Result) and `JsonValues` (a JSON value with JavaScript truthiness) are shared helpers.

## Model

| member | source | states |
|---|---|---|
| Catalog.SelectedOnly | airbyte-webapp/src/pages/connections/ConnectionReplicationPage/ConnectionReplicationPage.tsx:152-153 | the filtered catalog holds exactly the streams whose configuration is selected, and is no longer than the input |
| Catalog.SelectedOnlySingleton | airbyte-webapp/src/pages/connections/ConnectionReplicationPage/ConnectionReplicationPage.tsx:152-153 | a single stream is kept exactly when it is selected |
| Catalog.SelectedOnlyAppend | airbyte-webapp/src/pages/connections/ConnectionReplicationPage/ConnectionReplicationPage.tsx:152-153 | filtering a concatenation is the concatenation of the filtered parts, so kept streams stay in catalog order and duplicates are kept |
| ConnectionReplication.FindStream | airbyte-webapp/src/pages/connections/ConnectionReplicationPage/ConnectionReplicationPage.tsx:143-145 | the lookup fails exactly when no stream has the transform's name and namespace; otherwise it returns the first such stream |
| ConnectionReplication.HasDiffInEnabledStreamIff | airbyte-webapp/src/pages/connections/ConnectionReplicationPage/ConnectionReplicationPage.tsx:141-147 | a diff touches an enabled stream exactly when a diff exists and some transform's stream, looked up first-match, is selected |
| ConnectionReplication.UserChangesIffEnabledStreamEdited | airbyte-webapp/src/pages/connections/ConnectionReplicationPage/ConnectionReplicationPage.tsx:151-154 | with the same streams enabled at the same positions, the catalog counts as changed exactly when some enabled stream differs from its saved version |
| ConnectionReplication.ReorderingEnabledStreamsIsAChange | airbyte-webapp/src/pages/connections/ConnectionReplicationPage/ConnectionReplicationPage.tsx:151-154 | swapping two distinct enabled streams counts as a user change, because the comparison is order-sensitive |
| ConnectionReplication.OtherSettingEditIsAChange | airbyte-webapp/src/pages/connections/ConnectionReplicationPage/ConnectionReplicationPage.tsx:151-154 | editing only a setting the model does not interpret, such as the column selection, of an enabled stream counts as a user change, because the comparison is deep |
| ConnectionReplication.CatalogHasChanged | airbyte-webapp/src/pages/connections/ConnectionReplicationPage/ConnectionReplicationPage.tsx:139-156 | confirmation is needed exactly when the enabled streams differ from the saved ones, in order, or some diff transform's first-matching form stream is selected |
| ConnectionReplication.UpdatePayload | airbyte-webapp/src/pages/connections/ConnectionReplicationPage/ConnectionReplicationPage.tsx:112-119 | the payload carries exactly the connection's update fields, the form fields, the connection id and skipReset; the form overrides the connection, and the id and skipReset override both |
| ConnectionReplication.SaveConnection | airbyte-webapp/src/pages/connections/ConnectionReplicationPage/ConnectionReplicationPage.tsx:107-188 | exactly one update is sent, carrying the caller's skipReset; a catalog edit is tracked only after the update went through; the page is marked saved after a successful update, and a thrown update becomes the submit error |
| ConnectionReplication.OnFormSubmit | airbyte-webapp/src/pages/connections/ConnectionReplicationPage/ConnectionReplicationPage.tsx:107-189 | an unchanged catalog is saved without a prompt and with skipReset; a changed one is saved only after the state type is fetched and the modal completes, with skipReset the negation of the modal's reason; a failure records its message and the saved flag keeps its earlier value; analytics fire exactly when a changed catalog is saved |
| ConnectionReplication.SyncModeEditAsksForConfirmation | airbyte-webapp/src/pages/connections/ConnectionReplicationPage/ConnectionReplicationPage.tsx:151-170 | changing an enabled stream's sync mode makes the submit fetch the state type and open the reset modal before any update |
| ConnectionReplication.SchemaChangeMessage | airbyte-webapp/src/pages/connections/ConnectionReplicationPage/ConnectionReplicationPage.tsx:53-87 | no banner after a refresh or without a schema change; otherwise a banner that is a warning with the refresh action exactly for a non-breaking change (a breaking one gets the error banner, whose refresh asks for confirmation when the form is dirty) |
| MessageTracker.HandleEmittedTrace | airbyte-commons-worker/src/main/java/io/airbyte/workers/internal/book_keeping/AirbyteMessageTracker.java:132-147 | an error trace is appended to its origin's list and to no other; an estimate trace is passed to the stats tracker, and no other trace is; output states and the aggregator never change |
| MessageTracker.AcceptFromSource | airbyte-commons-worker/src/main/java/io/airbyte/workers/internal/book_keeping/AirbyteMessageTracker.java:73-83 | a trace is routed as a source trace; a record adds one stats call and nothing else; a state becomes the source output state and adds its stats call; other kinds change nothing; the destination side is never touched |
| MessageTracker.AcceptFromDestination | airbyte-commons-worker/src/main/java/io/airbyte/workers/internal/book_keeping/AirbyteMessageTracker.java:86-95 | a trace is routed as a destination trace; a state is appended to the aggregator, whose aggregate becomes the destination output state, and adds its stats call; records and other kinds change nothing; the source side is never touched |
| MessageTracker.AcceptRouting | airbyte-commons-worker/src/main/java/io/airbyte/workers/internal/book_keeping/AirbyteMessageTracker.java:73-126 | per incoming message: an error trace lands in its origin's list only; only a source state moves the source output state; only a destination state is ingested, and its aggregate becomes the destination output state; the stats tracker gets exactly the call owed to a source record, a state from either side or an estimate; every other message, a destination record included, changes nothing |
| MessageTracker.RunCollectsErrorTraces | airbyte-commons-worker/src/main/java/io/airbyte/workers/internal/book_keeping/AirbyteMessageTracker.java:141-147 | after any message sequence, each origin's error list is exactly that origin's error traces in arrival order |
| MessageTracker.FirstErrorTrace | airbyte-commons-worker/src/main/java/io/airbyte/workers/internal/book_keeping/AirbyteMessageTracker.java:163-178 | the first error trace is absent exactly when the origin has none, and is otherwise the head of its list |
| MessageTracker.FirstErrorIsEarliest | airbyte-commons-worker/src/main/java/io/airbyte/workers/internal/book_keeping/AirbyteMessageTracker.java:163-178 | after a run, the first error trace of an origin is its error trace that arrived first |
| MessageTracker.ErrorTraceMessageFailure | airbyte-commons-worker/src/main/java/io/airbyte/workers/internal/book_keeping/AirbyteMessageTracker.java:181-203 | no failure exactly when neither side has errors; otherwise the failure carries the job id and attempt, and it is the source's first error exactly when the source has one no later than the destination's |
| MessageTracker.FailureIsEarliestFirstError | airbyte-commons-worker/src/main/java/io/airbyte/workers/internal/book_keeping/AirbyteMessageTracker.java:181-203 | the chosen trace's emission time is no later than either side's first error |
| MessageTracker.SourceOutputStateIsLatest | airbyte-commons-worker/src/main/java/io/airbyte/workers/internal/book_keeping/AirbyteMessageTracker.java:112-115 | after a run, the source output state is the last state the source emitted, or absent if it emitted none |
| MessageTracker.AggregatorIngestsDestinationStates | airbyte-commons-worker/src/main/java/io/airbyte/workers/internal/book_keeping/AirbyteMessageTracker.java:121-126 | after any message sequence, the aggregator has ingested exactly the destination states, in arrival order, and no source state |
| MessageTracker.DestinationOutputStateAggregatesAll | airbyte-commons-worker/src/main/java/io/airbyte/workers/internal/book_keeping/AirbyteMessageTracker.java:121-126 | from a fresh tracker, the destination output state is absent exactly when the destination sent no state, and otherwise is the aggregate of all its states in arrival order |
| StreamsConfigTableHeader.ToggleAllStreamsSync | airbyte-webapp/src/components/connection/syncCatalog/StreamsConfigTable/StreamsConfigTableHeader.tsx:71-79 | every stream keeps its identity and every configuration field except `selected`, which becomes the switch value |
| StreamsConfigTableHeader.IsPartOfStreamsSyncEnabled | airbyte-webapp/src/components/connection/syncCatalog/StreamsConfigTable/StreamsConfigTableHeader.tsx:80-82 | the catalog is partially enabled exactly when some stream is selected and some is not |
| StreamsConfigTableHeader.AreAllStreamsSyncEnabled | airbyte-webapp/src/components/connection/syncCatalog/StreamsConfigTable/StreamsConfigTableHeader.tsx:83 | all streams are enabled exactly when the catalog is non-empty and filtering the selected streams keeps them all |
| StreamsConfigTableHeader.SwitchStatesExclusive | airbyte-webapp/src/components/connection/syncCatalog/StreamsConfigTable/StreamsConfigTableHeader.tsx:80-83 | "all enabled" and "partially enabled" never hold together |
| StreamsConfigTableHeader.SyncAllSwitch | airbyte-webapp/src/components/connection/syncCatalog/StreamsConfigTable/StreamsConfigTableHeader.tsx:88-95 | checked exactly when the catalog is non-empty and every stream is selected; indeterminate exactly when some stream is selected and some is not; never both; disabled exactly when the caller disables it or the catalog is empty |
| StreamsConfigTableHeader.ToggleAllDecidesSwitch | airbyte-webapp/src/components/connection/syncCatalog/StreamsConfigTable/StreamsConfigTableHeader.tsx:71-83 | after toggling a non-empty catalog on, the switch is checked; toggled off, it is neither checked nor indeterminate |
| StreamsConfigTableHeader.ToggleAllLastWins | airbyte-webapp/src/components/connection/syncCatalog/StreamsConfigTable/StreamsConfigTableHeader.tsx:71-79 | two toggles in a row have the effect of the second alone |
| StreamsConfigTableHeader.DestinationNamespaceChange | airbyte-webapp/src/components/connection/syncCatalog/StreamsConfigTable/StreamsConfigTableHeader.tsx:56-62 | the namespace definition is written first, and the format is written exactly when the definition is a custom format |
| StreamsConfigTableHeader.NamespaceChangeEffect | airbyte-webapp/src/components/connection/syncCatalog/StreamsConfigTable/StreamsConfigTableHeader.tsx:56-62 | after the writes the form holds the new definition; the format is the new one for a custom format and otherwise unchanged; the prefix is untouched |
| StreamsConfigTableHeader.DestinationStreamNamesChange | airbyte-webapp/src/components/connection/syncCatalog/StreamsConfigTable/StreamsConfigTableHeader.tsx:64-69 | exactly one write, of the prefix: the given prefix for a prefix definition and empty for mirroring |
| StreamsConfigTableHeader.StreamNamesChangeEffect | airbyte-webapp/src/components/connection/syncCatalog/StreamsConfigTable/StreamsConfigTableHeader.tsx:64-69 | after the write only the prefix changes |
| FeatureService.FeatureSetFromList | airbyte-webapp/src/core/services/features/FeatureService.tsx:12-14 | the set holds exactly the listed features, each enabled |
| FeatureService.SetFeatureOverwrites | airbyte-webapp/src/core/services/features/FeatureService.tsx:71-73 | a list becomes the set of its items enabled; a set is kept as is; clearing removes all overwrites |
| FeatureService.EnvOverwrites | airbyte-webapp/src/core/services/features/FeatureService.tsx:38-56 | outside development there are none; in development a feature is overwritten exactly when its variable is set to a non-empty value, and the overwrite is on exactly when that value is "true" |
| FeatureService.CombinedFeatures | airbyte-webapp/src/core/services/features/FeatureService.tsx:58-67 | a feature is enabled exactly when the highest-priority source that mentions it (environment, then overwrites, then defaults) enables it |
| FeatureService.OverwriteRemovesDefault | airbyte-webapp/src/core/services/features/FeatureService.tsx:58-67 | an overwrite to false disables a default feature unless the environment re-enables it |
| FeatureService.UseFeature | airbyte-webapp/src/core/services/features/FeatureService.tsx:86-101 | without a provider the hook fails; otherwise it answers whether the feature is in the enabled list |
| FeatureService.UseFeatureResolves | airbyte-webapp/src/core/services/features/FeatureService.tsx:98-101 | under a provider, the hook's answer is the resolved priority value |
| PageDisplay.FormatResponse | airbyte-webapp/src/components/connectorBuilder/StreamTestingPanel/PageDisplay.tsx:43-61 | empty text exactly when there is no response, no body or an empty body; otherwise a formatted response whose status and headers pass through and whose body is the parsed value when the body parses and the raw text when it does not |
| PageDisplay.Layout | airbyte-webapp/src/components/connectorBuilder/StreamTestingPanel/PageDisplay.tsx:64-98 | records come first; the request tab is present exactly when there is a request and comes second; the response tab is present exactly when there is a response and comes last; the keys are distinct; the default tab is the response tab when the response status is 400 or more, else records |
| StreamStatusesRepository.GivenConstraintsComplete | airbyte-server/src/main/java/io/airbyte/server/repositories/StreamStatusesRepository.java:37-59 | every optional parameter that is given yields a constraint on its column |
| StreamStatusesRepository.BuildQuerySpec | airbyte-server/src/main/java/io/airbyte/server/repositories/StreamStatusesRepository.java:34-59 | the query always constrains the workspace, constrains each optional column exactly when its parameter is given, with that parameter's value, and never constrains a column twice |
| StreamStatusesRepository.BuildQuery | airbyte-server/src/main/java/io/airbyte/server/repositories/StreamStatusesRepository.java:35-65 | the query is unpaged without pagination, and otherwise a page request built from the pagination's offset field, passed as the page argument, and its size |
| StreamStatusesRepository.QueryMeansParams | airbyte-server/src/main/java/io/airbyte/server/repositories/StreamStatusesRepository.java:33-59 | a row satisfies the built query exactly when it matches every given filter parameter |
| StreamStatusesRepository.FindAllFiltered | airbyte-server/src/main/java/io/airbyte/server/repositories/StreamStatusesRepository.java:33-67 | before the page is cut, the rows selected are exactly the stored rows that match every given parameter; the requested pageable is passed along |
| StreamStatusesRepository.WorkspaceOnlyReturnsWholeWorkspace | airbyte-server/src/main/java/io/airbyte/server/repositories/StreamStatusesRepository.java:33-59 | with only the workspace given, every row of that workspace is returned and no other |
| VariableInputFieldForm.DefaultValuesSpec | airbyte-webapp/src/views/Connector/ConnectorForm/components/Sections/VariableInputFieldForm.tsx:46-53 | a key has a default exactly when some form item with a truthy default names it (a `false`, `0` or empty-string default adds no key), and its value is the last such item's default |
| VariableInputFieldForm.InitialValue | airbyte-webapp/src/views/Connector/ConnectorForm/components/Sections/VariableInputFieldForm.tsx:43-53 | an existing non-null item is kept as is; a missing or null one is replaced by the collected defaults |
| VariableInputFieldForm.OnMount | airbyte-webapp/src/views/Connector/ConnectorForm/components/Sections/VariableInputFieldForm.tsx:42-56 | mounting writes exactly once, to the item's path: the existing non-null item, or else an object holding exactly the keys some truthy-default form item names, each with the last such item's default |
| VariableInputFieldForm.Done | airbyte-webapp/src/views/Connector/ConnectorForm/components/Sections/VariableInputFieldForm.tsx:73-80 | the button is disabled when the form is disabled or not known to be valid, and submits the current value |
| AuthButton.GoogleConnectorsAreTheNine | airbyte-webapp/src/views/Connector/ConnectorForm/components/Sections/auth/AuthButton.tsx:19-35 | exactly the nine listed connector ids get the Google treatment |
| AuthButton.IsGoogleConnector | airbyte-webapp/src/views/Connector/ConnectorForm/components/Sections/auth/AuthButton.tsx:19-35 | an id is a Google connector exactly when it is one of the named connectors other than QuickBooks |
| AuthButton.GetButtonComponent | airbyte-webapp/src/views/Connector/ConnectorForm/components/Sections/auth/AuthButton.tsx:37-45 | the Google button exactly for Google connectors, the QuickBooks button for QuickBooks, the generic button otherwise |
| AuthButton.GetAuthenticateMessageId | airbyte-webapp/src/views/Connector/ConnectorForm/components/Sections/auth/AuthButton.tsx:47-52 | the sign-in-with-Google message exactly for Google connectors, the generic message otherwise |
| AuthButton.AuthRequiredError | airbyte-webapp/src/views/Connector/ConnectorForm/components/Sections/auth/AuthButton.tsx:60 | authentication is required exactly when some hidden auth field carries the empty-field error |
| AuthButton.Render | airbyte-webapp/src/views/Connector/ConnectorForm/components/Sections/auth/AuthButton.tsx:57-99 | nothing renders without a selected connector; the required message shows exactly when a hidden auth field has the empty-field error; the message is styled as an error exactly when it is required; the label is "re-authenticate" exactly when authentication is done, and otherwise names the connector with the Google or the generic message |
| SourceOverviewPage.DestinationDropdownOptions | airbyte-webapp/src/pages/source/SourceOverviewPage/SourceOverviewPage.tsx:28-40 | one option per destination, in order, rendered as a button carrying its id, name and icon, with the icon on the right |
| SourceOverviewPage.OnSelect | airbyte-webapp/src/pages/source/SourceOverviewPage/SourceOverviewPage.tsx:42-53 | always navigates to the new-connection path with the source id; a destination id is passed exactly when a destination was picked rather than "create new" |
| SourceOverviewPage.PickingDestinationNavigatesToIt | airbyte-webapp/src/pages/source/SourceOverviewPage/SourceOverviewPage.tsx:28-53 | picking a destination's dropdown option navigates with that destination's id |
| SourceOverviewPage.ConnectionsSection | airbyte-webapp/src/pages/source/SourceOverviewPage/SourceOverviewPage.tsx:63-67 | the table shows exactly when there are connections, the placeholder otherwise |

## Left out

- The connection form's catalog comparison is order-sensitive, as the code has it. It filters both catalogs and deep-compares the filtered arrays in order, so reordering enabled streams counts as a change; `ReorderingEnabledStreamsIsAChange` exhibits this.
- Trace emission times are doubles in the tracker. The model uses integers, so NaN and rounding are not modelled.
- The tracker's default branch for unknown trace types is not modelled. The trace type is a closed enumeration.
- The tracker's logging, its atomic references and the feature-flag check around logging are not modelled. They do not affect any output.
- The stats tracker and state aggregator are external collaborators. Calls to them are recorded as events, not computed.
- The destination output state is the aggregator's ingested list, not its merged state. The aggregation logic is not part of this model.
- Connector definition ids come from a connector table that is not part of this model. They are symbolic constructors.
- Route path constants are not part of this model. Route segments are symbolic.
- The feature list is produced by iterating over an object's entries, in key order. The model returns a set, so that order is not modelled.
- FormatResponse: JSON parsing is a function parameter, and pretty-printing is left abstract. The content names the value it would format.
- JSON numbers are integers.
- The inferred-schema tab, tab titles (translations) and all React rendering are not modelled.
- `tidyConnectionFormValues` is taken as the identity: the form values given to the model are already tidied.
- The state-type lookup, the confirmation modal and the update call are input outcomes, not computed.
- Analytics are counted, not their payload.
- The schema-change hook (`useSchemaChanges`) is not part of this model. Breaking and non-breaking are taken from the connection's schema-change status.
- The form-revalidation effect after a schema refresh is not modelled.
- A null workspace id in the stream-status filter is not modelled; the workspace id is a plain string.
- FindAllFiltered: the pageable's effect (which page of rows is cut) is left opaque, so the result states the full match set before paging. `BuildQuery` records the page argument and size it passes.
- FindStream: the form compares a stream's namespace with strict equality, so a null namespace and an absent one differ. The model has one `None` for both, so such a pair counts as a match.
- ErrorTraceMessageFailure: the tracker unboxes each trace's emission time, so a trace without one throws a null-pointer exception. The model's emission time is always present, so that failure is not modelled.
- Stream properties other than name and namespace, and stream settings other than the six the core reads, are opaque JSON maps. They take part in the catalog comparison (`HasUserChangesInEnabledStreams`, `CatalogHasChanged`) only through equality; their structure, for example the field list of column selection, is not modelled.
