# Dynamic Forms, modelled in Dafny

Dynamic Forms is a set of Lightning Web Components. They build a record form
out of independent pieces that talk over one message channel. Every piece is a
*form element*: it belongs to a *group* (by default the record id of its page),
broadcasts messages tagged with its group, and handles only the messages of
its own group.

This project models the pieces that decide how a form behaves:

- the base element (`FormElement`): groups, broadcasting, the message filter,
  configuration parsing and record navigation;
- the Save/Cancel footer (`SaveCancel`): pending edits, required fields, the
  Save button, the conflict check against changes saved by others, and the
  error toast;
- `reduceErrors` (`ReduceErrors`): every error shape the platform produces,
  flattened into a list of messages;
- the predefined-values element (`PredefinedValues`): values from the page URL
  or the configuration, announced as UPDATE messages for fields the user has
  not changed;
- the page-layout element (`PageLayout`): turns a record's page layout into
  section records, each listing its fields as one encoded text;
- the field section (`FieldSection`): the per-field view records, edit mode,
  hover and compact-layout flags, and the required-field announcements;
- the related-record element (`RelatedRecord`): finds a parent or child record,
  applying a strategy when none is found;
- the collapsible section (`CollapsibleSection`).

## How the model is built

- **JavaScript values.** They are the `JsValues.Value` datatype. `Truthy`,
  `StrictEquals` (`===`, with `NaN` unequal to itself), `??`, `||`, `&&` and
  property access are written out. A plain object is a `map<string, Value>`.
  The order in which `for ... in` or `Object.entries` visits an object is a
  sequence of keys, tied to the object by `Enumerates`.
- **Components.** A component whose fields its methods update is a `class`.
  Its methods use field-granular `modifies` clauses. Inheritance from
  `DynamicFormsElement` is composition: every component holds a
  `FormElement.Element`.
- **Outgoing effects.** Published messages are appended to the element's
  `outbox`. Toasts, `updateRecord` calls and `refreshApex` calls are logged
  in sequences.
- **Inputs from outside.** Wire results and server replies are parameters of
  the method that handles them. So are `JSON.parse` and `decodeURIComponent`,
  passed as functions that return `None` where the original throws.
- **Specifications.** Every loop is a method proved against a function
  (`Overrides`, `LayoutSections`, `RequiredFieldMessages`, `Scan`, ...). The
  properties the components promise are lemmas about those functions.

## Model

| member | source | states |
|---|---|---|
| JsValues.Coalesce | evolve-forms/main/default/lwc/dynamicFormsPredefinedValues/dynamicFormsPredefinedValues.js:88 | `a ?? b` is `a` unless it is null or undefined, else `b` |
| JsValues.Or | evolve-forms/main/default/lwc/dynamicFormsFieldSection/dynamicFormsFieldSection.js:84 | `a \|\| b` is truthy iff either operand is, and is one of them |
| JsValues.And | evolve-forms/main/default/lwc/dynamicFormsFieldSection/dynamicFormsFieldSection.js:96-101 | `a && b` is truthy iff both operands are, and is one of them |
| JsValues.Spread | evolve-forms/main/default/lwc/dynamicFormsPredefinedValues/dynamicFormsPredefinedValues.js:47-50 | `{...a, ...b}` has the keys of both, and `b`'s entries win |
| Strings.Split | evolve-forms/main/default/lwc/dynamicFormsPredefinedValues/dynamicFormsPredefinedValues.js:60-61 | `split` yields at least one piece, and no piece contains the separator |
| Strings.JoinSplit | evolve-forms/main/default/lwc/dynamicFormsPredefinedValues/dynamicFormsPredefinedValues.js:61 | joining the pieces of a split with the separator gives back the text |
| Strings.SplitJoin | evolve-forms/main/default/lwc/dynamicFormsPageLayout/dynamicFormsPageLayout.js:90 | splitting a join gives back the pieces when none contains the separator |
| Strings.SplitCount | evolve-forms/main/default/lwc/dynamicFormsPredefinedValues/dynamicFormsPredefinedValues.js:61-62 | a split has exactly one piece more than the separator count |
| Strings.LowerAscii | evolve-forms/main/default/lwc/dynamicFormsUtils/reduceErrors.js:43 | `toLowerCase` keeps the length and changes only upper-case ASCII letters |
| Strings.RemoveLineBreaks | evolve-forms/main/default/lwc/dynamicFormsElement/dynamicFormsElement.js:140 | the result has no line break and is no longer than the input; a text without line breaks is unchanged |
| FormElement.Published | evolve-forms/main/default/lwc/dynamicFormsElement/dynamicFormsElement.js:111-126 | `broadcast` publishes one message iff there is a message context, carrying the event type, the sender's group and the payload |
| FormElement.PublishedReachesSameGroup | evolve-forms/main/default/lwc/dynamicFormsElement/dynamicFormsElement.js:97-121 | a published message reaches a receiver iff the two groups are strictly equal |
| FormElement.RejectsMalformed | evolve-forms/main/default/lwc/dynamicFormsElement/dynamicFormsElement.js:98 | a missing message, or one without an event type, reaches no handler |
| FormElement.DefaultGroup | evolve-forms/main/default/lwc/dynamicFormsElement/dynamicFormsElement.js:74-79 | the default group is the page's record id, else its app api name, else `objectApiName.actionName`; it is never null |
| FormElement.TryToParseJson | evolve-forms/main/default/lwc/dynamicFormsElement/dynamicFormsElement.js:137-148 | an object passes through; text is parsed without its line breaks; unparsable text, and any value that is neither text nor an object, gives `{}` |
| FormElement.LineBreaksDoNotMatter | evolve-forms/main/default/lwc/dynamicFormsElement/dynamicFormsElement.js:140 | inserting a line break into configuration text never changes what it parses to |
| FormElement.EnterOrSpaceKeys | evolve-forms/main/default/lwc/dynamicFormsFieldSection/dynamicFormsFieldSection.js:145-147 | exactly the keys "Enter", "Space" and " " pass; a missing event or key does not |
| FormElement.RecordPageTarget | evolve-forms/main/default/lwc/dynamicFormsElement/dynamicFormsElement.js:151-159 | navigation opens the view page of the id cut to at most 15 characters |
| FormElement.SameTargetForLongId | evolve-forms/main/default/lwc/dynamicFormsElement/dynamicFormsElement.js:155 | the 18- and 15-character forms of an id open the same page |
| FormElement.Element.constructor | evolve-forms/main/default/lwc/dynamicFormsElement/dynamicFormsElement.js:40 | a fresh element has its group and message context, no subscription and an empty outbox |
| FormElement.Element.HandleParameters | evolve-forms/main/default/lwc/dynamicFormsElement/dynamicFormsElement.js:72-80 | keeps the page reference; only a null group is replaced, by `DefaultGroup`, and the group is then never null |
| FormElement.Element.SubscribeToMessageChannel | evolve-forms/main/default/lwc/dynamicFormsElement/dynamicFormsElement.js:84-93 | subscribes only when there is no subscription yet |
| FormElement.Element.UnsubscribeToMessageChannel | evolve-forms/main/default/lwc/dynamicFormsElement/dynamicFormsElement.js:130-133 | hands the subscription back and forgets it |
| FormElement.Element.Broadcast | evolve-forms/main/default/lwc/dynamicFormsElement/dynamicFormsElement.js:111-126 | the outbox grows by exactly `Published(...)` |
| ReduceErrors.Present | evolve-forms/main/default/lwc/dynamicFormsUtils/reduceErrors.js:32 | the falsy entries are removed and the order of the others is kept |
| ReduceErrors.KeepTruthy | evolve-forms/main/default/lwc/dynamicFormsUtils/reduceErrors.js:91 | exactly the truthy messages are kept, in order |
| ReduceErrors.MessagesAreTruthy | evolve-forms/main/default/lwc/dynamicFormsUtils/reduceErrors.js:91 | no message in the result is falsy |
| ReduceErrors.SingleIsOneElementList | evolve-forms/main/default/lwc/dynamicFormsUtils/reduceErrors.js:25-27 | a lone error is reduced like the one-element array holding it |
| ReduceErrors.FalsyEntriesDropped | evolve-forms/main/default/lwc/dynamicFormsUtils/reduceErrors.js:32 | a null or undefined entry anywhere in the list changes nothing |
| ReduceErrors.PresentAppend | evolve-forms/main/default/lwc/dynamicFormsUtils/reduceErrors.js:32 | the filter distributes over concatenation |
| ReduceErrors.ExtractAllAppend | evolve-forms/main/default/lwc/dynamicFormsUtils/reduceErrors.js:34-87 | the map distributes over concatenation, and the first throw ends it |
| ReduceErrors.FlattenAppend | evolve-forms/main/default/lwc/dynamicFormsUtils/reduceErrors.js:89 | flattening distributes over concatenation |
| ReduceErrors.KeepTruthyAppend | evolve-forms/main/default/lwc/dynamicFormsUtils/reduceErrors.js:91 | the final filter distributes over concatenation |
| ReduceErrors.ReduceAppend | evolve-forms/main/default/lwc/dynamicFormsUtils/reduceErrors.js:24-93 | reducing a concatenation gives the first list's messages followed by the second's |
| ReduceErrors.ReduceSingle | evolve-forms/main/default/lwc/dynamicFormsUtils/reduceErrors.js:34-91 | a lone error object reduces to the truthy part of its own messages |
| ReduceErrors.ArrayBodyGivesEntryMessages | evolve-forms/main/default/lwc/dynamicFormsUtils/reduceErrors.js:36-38 | an array body yields one message per entry, whatever else the error carries |
| ReduceErrors.RecordErrorWithCode | evolve-forms/main/default/lwc/dynamicFormsUtils/reduceErrors.js:47-52 | a record error whose first error code contains `_` reports that error's message |
| ReduceErrors.RecordErrorFromFieldErrors | evolve-forms/main/default/lwc/dynamicFormsUtils/reduceErrors.js:53-62 | with no errors listed, a record error reports its first field error's first message, and throws when that does not exist |
| ReduceErrors.RecordErrorOtherwiseEmpty | evolve-forms/main/default/lwc/dynamicFormsUtils/reduceErrors.js:46-63 | any other record error reports nothing |
| ReduceErrors.ShapePrecedence | evolve-forms/main/default/lwc/dynamicFormsUtils/reduceErrors.js:66-86 | a string `body.message`, with a string stack trace appended, beats the page errors, which beat `error.message`, which beats `statusText` |
| SaveCancel.TruthyEditNeverBlocks | evolve-forms/main/default/lwc/dynamicFormsSaveCancel/dynamicFormsSaveCancel.js:366-373 | giving a field a truthy value never disables Save |
| SaveCancel.FalsyRequiredFieldBlocks | evolve-forms/main/default/lwc/dynamicFormsSaveCancel/dynamicFormsSaveCancel.js:366-373 | giving a required field a falsy value disables Save |
| SaveCancel.UpdateRecordsEdit | evolve-forms/main/default/lwc/dynamicFormsSaveCancel/dynamicFormsSaveCancel.js:210-213 | an UPDATE records the value and the record id, keeps every other pending edit, and recomputes the Save state |
| SaveCancel.RequiredSetTransitions | evolve-forms/main/default/lwc/dynamicFormsSaveCancel/dynamicFormsSaveCancel.js:218-225 | REQUIRED_FIELD adds the field; NO_LONGER_REQUIRED_FIELD removes it and changes nothing when it was not required |
| SaveCancel.ModeTransitions | evolve-forms/main/default/lwc/dynamicFormsSaveCancel/dynamicFormsSaveCancel.js:205-217 | EDIT enters edit mode and recomputes the Save state, CANCEL leaves it, and neither touches the edits; CHECK_EDIT and unknown events change no edit |
| SaveCancel.FilledFieldUnblocks | evolve-forms/main/default/lwc/dynamicFormsSaveCancel/dynamicFormsSaveCancel.js:210-213 | after an UPDATE fills a field with a truthy value, Save stays disabled only because of some other required field |
| SaveCancel.ClassificationIsAPartition | evolve-forms/main/default/lwc/dynamicFormsSaveCancel/dynamicFormsSaveCancel.js:264-282 | an edited field is conflicting or mergeable, never both |
| SaveCancel.Scan | evolve-forms/main/default/lwc/dynamicFormsSaveCancel/dynamicFormsSaveCancel.js:263-283 | every row of the conflict table is the conflict row of one of the keys |
| SaveCancel.ConflictingKeys | evolve-forms/main/default/lwc/dynamicFormsSaveCancel/dynamicFormsSaveCancel.js:264-268 | exactly the conflicting keys, in order |
| SaveCancel.ScanStopsAtUnlabelled | evolve-forms/main/default/lwc/dynamicFormsSaveCancel/dynamicFormsSaveCancel.js:273 | the loop throws exactly when some conflicting field has no label |
| SaveCancel.ScanRowsAreConflicts | evolve-forms/main/default/lwc/dynamicFormsSaveCancel/dynamicFormsSaveCancel.js:264-274 | unless it throws, the rows are exactly the conflicting fields, in order |
| SaveCancel.ScanSkipsOnMergeable | evolve-forms/main/default/lwc/dynamicFormsSaveCancel/dynamicFormsSaveCancel.js:275-282 | unless it throws, the auto-save flag is set iff some field is mergeable |
| SaveCancel.ScanFindsConflicts | evolve-forms/main/default/lwc/dynamicFormsSaveCancel/dynamicFormsSaveCancel.js:263-283 | both of the above together |
| SaveCancel.NoConflictsWithoutCompetingChanges | evolve-forms/main/default/lwc/dynamicFormsSaveCancel/dynamicFormsSaveCancel.js:264-268 | when the database holds the snapshot's value or the edit for every field, nothing conflicts |
| SaveCancel.UnmodifiedRecordSaves | evolve-forms/main/default/lwc/dynamicFormsSaveCancel/dynamicFormsSaveCancel.js:262-294 | an unchanged last-modified date goes straight to saving |
| SaveCancel.ConflictPreventsSave | evolve-forms/main/default/lwc/dynamicFormsSaveCancel/dynamicFormsSaveCancel.js:284-285 | a conflicting edit is never saved: the table is shown, or the loop throws |
| SaveCancel.MergeableEditSaves | evolve-forms/main/default/lwc/dynamicFormsSaveCancel/dynamicFormsSaveCancel.js:286-291 | without conflicts, a modified record is saved when some edit can be merged |
| SaveCancel.UndoneEditsWait | evolve-forms/main/default/lwc/dynamicFormsSaveCancel/dynamicFormsSaveCancel.js:286-291 | when every pending edit equals the snapshot, Save neither saves nor shows a table |
| SaveCancel.FindConflicts | evolve-forms/main/default/lwc/dynamicFormsSaveCancel/dynamicFormsSaveCancel.js:263-283 | the loop computes `Scan` over the pending edits |
| SaveCancel.ThrowEndsScan | evolve-forms/main/default/lwc/dynamicFormsSaveCancel/dynamicFormsSaveCancel.js:273 | after a throw, later keys change nothing |
| SaveCancel.BulletLines | evolve-forms/main/default/lwc/dynamicFormsSaveCancel/dynamicFormsSaveCancel.js:384-386 | one bulleted line per message |
| SaveCancel.AsWrittenAlwaysHeading | evolve-forms/main/default/lwc/dynamicFormsSaveCancel/dynamicFormsSaveCancel.js:379-387 | as written, every message that does not throw starts with the heading |
| SaveCancel.BareHeadingHidesBodyMessage | evolve-forms/main/default/lwc/dynamicFormsSaveCancel/dynamicFormsSaveCancel.js:379-382 | as written, an error with no messages shows the bare heading and drops its `body.message` |
| SaveCancel.FallbackOnBodyMessage | evolve-forms/main/default/lwc/dynamicFormsSaveCancel/dynamicFormsSaveCancel.js:378-388 | with the correction, the heading appears only above a message, and an error without messages reports its `body.message` |
| SaveCancel.BulletsAppend | evolve-forms/main/default/lwc/dynamicFormsSaveCancel/dynamicFormsSaveCancel.js:384-386 | the bullets of a concatenation are each part's bullets, in order |
| SaveCancel.MessageLines | evolve-forms/main/default/lwc/dynamicFormsSaveCancel/dynamicFormsSaveCancel.js:383-387 | the toast reads back line by line: the heading, then one line per message, in order |
| SaveCancel.GenerateErrorMessage | evolve-forms/main/default/lwc/dynamicFormsSaveCancel/dynamicFormsSaveCancel.js:378-388 | the loop computes the message as written: the heading, then one bullet per message; it throws exactly when `reduceErrors` throws |
| SaveCancel.AsWrittenDiffersOnlyWhenEmpty | evolve-forms/main/default/lwc/dynamicFormsSaveCancel/dynamicFormsSaveCancel.js:379-382 | the message as written and the corrected one agree unless the error yields no message; then the first is the bare heading and the second is `body.message` |
| SaveCancel.FooterClasses | evolve-forms/main/default/lwc/dynamicFormsSaveCancel/dynamicFormsSaveCancel.js:151-160 | the two base classes always; the docked, pinned and boxed (`slds-box`) classes iff not detached; the utility-bar padding only when detached is falsy and the bar is shown |
| SaveCancel.FooterClassTokens | evolve-forms/main/default/lwc/dynamicFormsSaveCancel/dynamicFormsSaveCancel.js:161 | the class attribute splits back into exactly the listed classes |
| SaveCancel.QualifiedIsInjective | evolve-forms/main/default/lwc/dynamicFormsSaveCancel/dynamicFormsSaveCancel.js:74 | different fields get different qualified names |
| SaveCancel.QualifiedFieldNames | evolve-forms/main/default/lwc/dynamicFormsSaveCancel/dynamicFormsSaveCancel.js:72-77 | the loop gives the qualified name of every field, in order |
| SaveCancel.DatabaseState | evolve-forms/main/default/lwc/dynamicFormsSaveCancel/dynamicFormsSaveCancel.js:112-115 | the database state has the record's fields as keys and each field's value |
| SaveCancel.Controller.constructor | evolve-forms/main/default/lwc/dynamicFormsSaveCancel/dynamicFormsSaveCancel.js:40-60 | a fresh footer has no edits, no required fields and no snapshot |
| SaveCancel.Controller.CurrentState | evolve-forms/main/default/lwc/dynamicFormsSaveCancel/dynamicFormsSaveCancel.js:126-136 | the snapshot with the pending edits on top |
| SaveCancel.Controller.GetSaveIsDisabled | evolve-forms/main/default/lwc/dynamicFormsSaveCancel/dynamicFormsSaveCancel.js:366-373 | Save is disabled iff some required field is falsy in the current state |
| SaveCancel.Controller.ConditionalWarnings | evolve-forms/main/default/lwc/dynamicFormsSaveCancel/dynamicFormsSaveCancel.js:138-149 | one entry per configured warning, in order, and none without data |
| SaveCancel.Controller.HandleMessage | evolve-forms/main/default/lwc/dynamicFormsSaveCancel/dynamicFormsSaveCancel.js:204-227 | the edits change as `HandleEdits` says, and EDIT is broadcast only for a CHECK_EDIT in edit mode |
| SaveCancel.Controller.ApplyEdits | evolve-forms/main/default/lwc/dynamicFormsSaveCancel/dynamicFormsSaveCancel.js:205-225 | the branches that change the edits follow `HandleEdits` |
| SaveCancel.Controller.Receive | evolve-forms/main/default/lwc/dynamicFormsElement/dynamicFormsElement.js:97-101 | only messages of the footer's group are handled |
| SaveCancel.Controller.Cancel | evolve-forms/main/default/lwc/dynamicFormsSaveCancel/dynamicFormsSaveCancel.js:164-171 | forgets the edits and required fields, closes the modal, allows a new snapshot, and announces CANCEL |
| SaveCancel.Controller.Save | evolve-forms/main/default/lwc/dynamicFormsSaveCancel/dynamicFormsSaveCancel.js:173-179 | closes the modal, stamps the record id, announces SAVE_START and sends the edits |
| SaveCancel.Controller.SaveCompleted | evolve-forms/main/default/lwc/dynamicFormsSaveCancel/dynamicFormsSaveCancel.js:180-201 | success gives a success toast, a cancel and SAVE_END; a failure gives the error toast built as written and then SAVE_END; when building the message throws, there is no toast and no SAVE_END |
| SaveCancel.Controller.CheckWarningsAndSave | evolve-forms/main/default/lwc/dynamicFormsSaveCancel/dynamicFormsSaveCancel.js:303-307 | saves iff there are no warnings to confirm |
| SaveCancel.Controller.CheckRecordUpdatedByOthers | evolve-forms/main/default/lwc/dynamicFormsSaveCancel/dynamicFormsSaveCancel.js:258-261 | clears the conflict table and requests one refresh |
| SaveCancel.Controller.RecordRefreshed | evolve-forms/main/default/lwc/dynamicFormsSaveCancel/dynamicFormsSaveCancel.js:261-295 | the table, the modal and the save follow `Decide` |
| SaveCancel.Controller.HandleConflictOptionChange | evolve-forms/main/default/lwc/dynamicFormsSaveCancel/dynamicFormsSaveCancel.js:312-319 | a selected option becomes the field's pending edit; an unselected one changes nothing |
| SaveCancel.Controller.WireObjectInfo | evolve-forms/main/default/lwc/dynamicFormsSaveCancel/dynamicFormsSaveCancel.js:69-88 | fields give their labels and qualified names; an error gives a toast with the message built as written, or nothing when building it throws |
| SaveCancel.Controller.WireRecordInfo | evolve-forms/main/default/lwc/dynamicFormsSaveCancel/dynamicFormsSaveCancel.js:97-120 | an error gives a toast with the message built as written, or nothing when building it throws; before the field names are known nothing happens; otherwise the database state is kept and the first load becomes the snapshot |
| PredefinedValues.AssignmentShape | evolve-forms/main/default/lwc/dynamicFormsPredefinedValues/dynamicFormsPredefinedValues.js:61-62 | a piece is kept iff it has exactly one `=`, and then it is `key=value` |
| PredefinedValues.ExtractFields | evolve-forms/main/default/lwc/dynamicFormsPredefinedValues/dynamicFormsPredefinedValues.js:56-68 | a missing or empty parameter gives `{}`; otherwise the assignments of the comma-separated pieces |
| PredefinedValues.AssignKeys | evolve-forms/main/default/lwc/dynamicFormsPredefinedValues/dynamicFormsPredefinedValues.js:59-65 | the fields found are exactly the keys of the kept pieces, and each value is a decoded string |
| PredefinedValues.AssignLastWins | evolve-forms/main/default/lwc/dynamicFormsPredefinedValues/dynamicFormsPredefinedValues.js:63-65 | a later piece with the same key wins |
| PredefinedValues.AssignThrows | evolve-forms/main/default/lwc/dynamicFormsPredefinedValues/dynamicFormsPredefinedValues.js:64 | the extraction throws iff some kept piece's value does not decode |
| PredefinedValues.UrlOverrides | evolve-forms/main/default/lwc/dynamicFormsPredefinedValues/dynamicFormsPredefinedValues.js:47-50 | the keys of both parameters; a `c__fieldOverrides` entry beats a `defaultFieldValues` entry; it throws iff either extraction throws |
| PredefinedValues.UrlOverridesAreStrings | evolve-forms/main/default/lwc/dynamicFormsPredefinedValues/dynamicFormsPredefinedValues.js:47-50 | every URL override is a string |
| PredefinedValues.PredefinedValue | evolve-forms/main/default/lwc/dynamicFormsPredefinedValues/dynamicFormsPredefinedValues.js:86-90 | the URL value unless it is null or undefined, else the configured value |
| PredefinedValues.Overrides | evolve-forms/main/default/lwc/dynamicFormsPredefinedValues/dynamicFormsPredefinedValues.js:92-105 | each message is an UPDATE of the group for a visited field the user has not changed, carrying the merged value; nothing without a message context |
| PredefinedValues.OverridesStep | evolve-forms/main/default/lwc/dynamicFormsPredefinedValues/dynamicFormsPredefinedValues.js:94-104 | visiting one more key appends at most that key's message |
| PredefinedValues.OverridesCoverUnchangedFields | evolve-forms/main/default/lwc/dynamicFormsPredefinedValues/dynamicFormsPredefinedValues.js:94-104 | with a message context, every field the user has not changed is announced |
| PredefinedValues.NoFieldAnnouncedTwice | evolve-forms/main/default/lwc/dynamicFormsPredefinedValues/dynamicFormsPredefinedValues.js:94-104 | with distinct keys, no field is announced twice |
| PredefinedValues.MergedAgreesWithPredefinedValue | evolve-forms/main/default/lwc/dynamicFormsPredefinedValues/dynamicFormsPredefinedValues.js:86-97 | URL values win in the merge, and each announced value is the field's `getPredefinedValue` |
| PredefinedValues.TrackChangesCases | evolve-forms/main/default/lwc/dynamicFormsPredefinedValues/dynamicFormsPredefinedValues.js:74-82 | an UPDATE marks its field iff the value differs from the predefined one; CANCEL and SAVE_END forget every change |
| PredefinedValues.ChangedFieldNotOverridden | evolve-forms/main/default/lwc/dynamicFormsPredefinedValues/dynamicFormsPredefinedValues.js:75-98 | a field the user changed is not announced again until CANCEL or SAVE_END |
| PredefinedValues.CancelRestoresOverrides | evolve-forms/main/default/lwc/dynamicFormsPredefinedValues/dynamicFormsPredefinedValues.js:78-98 | after a CANCEL every field is announced again |
| PredefinedValues.NewConfigurationIsNewObject | evolve-forms/main/default/lwc/dynamicFormsPredefinedValues/dynamicFormsPredefinedValues.js:33-39 | only an object passed through keeps its identity; anything else is a new object |
| PredefinedValues.Component.constructor | evolve-forms/main/default/lwc/dynamicFormsPredefinedValues/dynamicFormsPredefinedValues.js:22-27 | no overrides and no changed fields |
| PredefinedValues.Component.SetPredefinedFieldValues | evolve-forms/main/default/lwc/dynamicFormsPredefinedValues/dynamicFormsPredefinedValues.js:33-39 | the parsed value is stored, and CHECK_OVERRIDES is published iff the object changed |
| PredefinedValues.Component.GetStateParameters | evolve-forms/main/default/lwc/dynamicFormsPredefinedValues/dynamicFormsPredefinedValues.js:44-52 | with `readValuesFromUrl` the URL overrides are replaced; otherwise, or on a throw, they are kept |
| PredefinedValues.Component.BroadcastFieldOverrides | evolve-forms/main/default/lwc/dynamicFormsPredefinedValues/dynamicFormsPredefinedValues.js:92-105 | the outbox grows by exactly `Overrides` of the merged entries |
| PredefinedValues.Component.HandleMessage | evolve-forms/main/default/lwc/dynamicFormsPredefinedValues/dynamicFormsPredefinedValues.js:71-83 | the changed set follows `TrackChanges`; CHECK_OVERRIDES publishes `Overrides` |
| PredefinedValues.Component.Receive | evolve-forms/main/default/lwc/dynamicFormsElement/dynamicFormsElement.js:97-101 | only messages of the group are handled |
| PageLayout.FieldString | evolve-forms/main/default/lwc/dynamicFormsPageLayout/dynamicFormsPageLayout.js:101-112 | anything but a field gives the empty text |
| PageLayout.FieldStringRoundTrip | evolve-forms/main/default/lwc/dynamicFormsPageLayout/dynamicFormsPageLayout.js:102-109 | a field's text reads back as its api name, whether it is required, and whether it is read-only in the current mode |
| PageLayout.DecodeEncoded | evolve-forms/main/default/lwc/dynamicFormsPageLayout/dynamicFormsPageLayout.js:106-108 | `[*]name[*]` with a name that is not empty and has no `*` decodes to what was encoded |
| PageLayout.ComponentFieldsInOrder | evolve-forms/main/default/lwc/dynamicFormsPageLayout/dynamicFormsPageLayout.js:78-82 | an item lists the text of each of its components, in order |
| PageLayout.ItemFieldsStep | evolve-forms/main/default/lwc/dynamicFormsPageLayout/dynamicFormsPageLayout.js:77-83 | one more item appends its components' texts |
| PageLayout.RowFieldsStep | evolve-forms/main/default/lwc/dynamicFormsPageLayout/dynamicFormsPageLayout.js:76-84 | one more row appends its items' texts |
| PageLayout.RowFieldsCount | evolve-forms/main/default/lwc/dynamicFormsPageLayout/dynamicFormsPageLayout.js:76-84 | a section lists one text per layout component |
| PageLayout.ItemFieldsCount | evolve-forms/main/default/lwc/dynamicFormsPageLayout/dynamicFormsPageLayout.js:77-83 | a row lists one text per component of its items |
| PageLayout.FormatSectionFields | evolve-forms/main/default/lwc/dynamicFormsPageLayout/dynamicFormsPageLayout.js:85-93 | both hide flags hold iff `useHeading === false`; the field list splits back into the texts when no api name has a comma |
| PageLayout.FormatSections | evolve-forms/main/default/lwc/dynamicFormsPageLayout/dynamicFormsPageLayout.js:72-95 | one section record per section, in order |
| PageLayout.LayoutSectionsFromRecordTypes | evolve-forms/main/default/lwc/dynamicFormsPageLayout/dynamicFormsPageLayout.js:70-97 | every section record comes from a section of a layout whose key starts with "012" |
| PageLayout.LayoutSectionsCoverRecordTypes | evolve-forms/main/default/lwc/dynamicFormsPageLayout/dynamicFormsPageLayout.js:70-97 | every section of every such layout has its section record |
| PageLayout.Component.constructor | evolve-forms/main/default/lwc/dynamicFormsPageLayout/dynamicFormsPageLayout.js:33-44 | no section records and no toasts |
| PageLayout.Component.SectionFieldStrings | evolve-forms/main/default/lwc/dynamicFormsPageLayout/dynamicFormsPageLayout.js:75-84 | the three nested loops compute `RowFields` of the section |
| PageLayout.Component.PushRowFields | evolve-forms/main/default/lwc/dynamicFormsPageLayout/dynamicFormsPageLayout.js:77-83 | the middle loop appends `ItemFields` |
| PageLayout.Component.PushItemFields | evolve-forms/main/default/lwc/dynamicFormsPageLayout/dynamicFormsPageLayout.js:78-82 | the inner loop appends the item's component texts |
| PageLayout.Component.ExtractLayoutSectionsFromResponse | evolve-forms/main/default/lwc/dynamicFormsPageLayout/dynamicFormsPageLayout.js:68-99 | the loops compute `LayoutSections` |
| PageLayout.Component.WiredUI | evolve-forms/main/default/lwc/dynamicFormsPageLayout/dynamicFormsPageLayout.js:51-62 | a named layout or a missing record id changes nothing; data replaces the section records; an error adds a toast |
| FieldSection.ToSectionElement | evolve-forms/main/default/lwc/dynamicFormsFieldSection/dynamicFormsFieldSection.js:69-85 | the label is hidden iff the overrides have the field as an own key; the help-text override wins unless nullish; a falsy read-only value becomes ""; the edit button starts inactive; the aria label is "Edit " and the label; the three focus flags start `false`; the field's name, label, value, required, reference and space properties are kept |
| FieldSection.ToSectionElements | evolve-forms/main/default/lwc/dynamicFormsFieldSection/dynamicFormsFieldSection.js:69-85 | one element per field, in order |
| FieldSection.MapElements | evolve-forms/main/default/lwc/dynamicFormsFieldSection/dynamicFormsFieldSection.js:160-162 | the rewrite applies to each element, in place and in order |
| FieldSection.Propagate | evolve-forms/main/default/lwc/dynamicFormsFieldSection/dynamicFormsFieldSection.js:344-350 | an element takes the value iff its field name is strictly equal; others are unchanged |
| FieldSection.Hover | evolve-forms/main/default/lwc/dynamicFormsFieldSection/dynamicFormsFieldSection.js:204-209 | the edit button shows iff the element is under the pointer, and nothing else changes |
| FieldSection.SetFlags | evolve-forms/main/default/lwc/dynamicFormsFieldSection/dynamicFormsFieldSection.js:216-230 | only a reference field with the name changes: it takes the lookup flag and the compact flag unless that is undefined, and shows the compact layout iff either flag is truthy |
| FieldSection.HoverIdempotent | evolve-forms/main/default/lwc/dynamicFormsFieldSection/dynamicFormsFieldSection.js:204-209 | hovering twice is hovering once |
| FieldSection.HoverMarksOnlyHoveredField | evolve-forms/main/default/lwc/dynamicFormsFieldSection/dynamicFormsFieldSection.js:204-209 | after the handler, exactly the hovered field's element shows the edit button, and running it again changes nothing |
| FieldSection.PropagateReachesOnlyItsField | evolve-forms/main/default/lwc/dynamicFormsFieldSection/dynamicFormsFieldSection.js:344-350 | an update sets the value of every element of its field, and changes no other element |
| FieldSection.HideSectionTitle | evolve-forms/main/default/lwc/dynamicFormsFieldSection/dynamicFormsFieldSection.js:96-101 | in edit mode the edit flag decides, otherwise the view flag |
| FieldSection.ColumnSize | evolve-forms/main/default/lwc/dynamicFormsFieldSection/dynamicFormsFieldSection.js:114-116 | "6" iff the columns are the text "2", else "12" |
| FieldSection.FindNonSpace | evolve-forms/main/default/lwc/dynamicFormsFieldSection/dynamicFormsFieldSection.js:391 | finds the first element that is not a space, iff one exists |
| FieldSection.ShouldRenderSection | evolve-forms/main/default/lwc/dynamicFormsFieldSection/dynamicFormsFieldSection.js:389-393 | rendered iff some element is not a space |
| FieldSection.RequiredElements | evolve-forms/main/default/lwc/dynamicFormsFieldSection/dynamicFormsFieldSection.js:380 | exactly the required elements |
| FieldSection.RequiredFieldMessagesInOrder | evolve-forms/main/default/lwc/dynamicFormsFieldSection/dynamicFormsFieldSection.js:378-386 | with a message context, one REQUIRED_FIELD per required element, in element order; without one, nothing |
| FieldSection.Component.constructor | evolve-forms/main/default/lwc/dynamicFormsFieldSection/dynamicFormsFieldSection.js:41-58 | no elements, not in edit mode, no spinner |
| FieldSection.Component.ForEachElement | evolve-forms/main/default/lwc/dynamicFormsFieldSection/dynamicFormsFieldSection.js:160-162 | each element is rewritten, in place and in order; without elements nothing happens |
| FieldSection.Component.BroadcastRequiredFields | evolve-forms/main/default/lwc/dynamicFormsFieldSection/dynamicFormsFieldSection.js:378-386 | the outbox grows by exactly `RequiredFieldMessages` |
| FieldSection.Component.HandleError | evolve-forms/main/default/lwc/dynamicFormsFieldSection/dynamicFormsFieldSection.js:270-279 | hides the spinner and shows an error toast |
| FieldSection.Component.ReceiveFieldInfo | evolve-forms/main/default/lwc/dynamicFormsFieldSection/dynamicFormsFieldSection.js:67-90 | the fields become the elements; only the first data publishes CHECK_OVERRIDES and the required fields |
| FieldSection.Component.WireFieldInfo | evolve-forms/main/default/lwc/dynamicFormsFieldSection/dynamicFormsFieldSection.js:66-94 | data as above; an error hides the spinner and shows a toast; neither changes nothing |
| FieldSection.Component.RemovePendingEdits | evolve-forms/main/default/lwc/dynamicFormsFieldSection/dynamicFormsFieldSection.js:156-163 | every element's value becomes undefined, and nothing else changes |
| FieldSection.Component.PropagateUpdate | evolve-forms/main/default/lwc/dynamicFormsFieldSection/dynamicFormsFieldSection.js:344-350 | every element is rewritten by `Propagate` |
| FieldSection.Component.HandleHoverChange | evolve-forms/main/default/lwc/dynamicFormsFieldSection/dynamicFormsFieldSection.js:204-209 | every element is rewritten by `Hover` |
| FieldSection.Component.HoverOverField | evolve-forms/main/default/lwc/dynamicFormsFieldSection/dynamicFormsFieldSection.js:193-197 | the pointer's field is stored and the edit buttons follow it |
| FieldSection.Component.HoverOffField | evolve-forms/main/default/lwc/dynamicFormsFieldSection/dynamicFormsFieldSection.js:199-202 | the pointer is cleared to "" and the edit buttons follow that name |
| FieldSection.Component.SetFlagsForCompactLayout | evolve-forms/main/default/lwc/dynamicFormsFieldSection/dynamicFormsFieldSection.js:211-230 | every element is rewritten by `SetFlags` |
| FieldSection.Component.HandleMessage | evolve-forms/main/default/lwc/dynamicFormsFieldSection/dynamicFormsFieldSection.js:318-342 | EDIT enters edit mode iff `readOnlyMode === false` or `startInEditMode`; CANCEL leaves it and clears the values; SAVE_START shows the spinner; SAVE_END refreshes, hides the spinner and clears the values; UPDATE propagates; RESET nulls every value; other events change nothing |
| RelatedRecord.RelatedRecordGroup | evolve-forms/main/default/lwc/dynamicFormsRelatedRecord/dynamicFormsRelatedRecord.js:109-113 | the page's group, a dash, then the related record id |
| RelatedRecord.DistinctRecordsDistinctGroups | evolve-forms/main/default/lwc/dynamicFormsRelatedRecord/dynamicFormsRelatedRecord.js:109-113 | different related records get different groups |
| RelatedRecord.ShouldRenderSection | evolve-forms/main/default/lwc/dynamicFormsRelatedRecord/dynamicFormsRelatedRecord.js:115-117 | rendered iff there is no error message and there is a record id |
| RelatedRecord.EmptyRecordStrategies | evolve-forms/main/default/lwc/dynamicFormsRelatedRecord/dynamicFormsRelatedRecord.js:98-107 | with a record nothing changes; Error keeps an existing message or shows "No record was found."; Hidden hides; other strategies change nothing |
| RelatedRecord.FailedLookupShowsError | evolve-forms/main/default/lwc/dynamicFormsRelatedRecord/dynamicFormsRelatedRecord.js:67-80 | a failed lookup shows a truthy message and renders no section, unless the server's message is ""; a found record changes nothing |
| RelatedRecord.Component.constructor | evolve-forms/main/default/lwc/dynamicFormsRelatedRecord/dynamicFormsRelatedRecord.js:29-51 | no error message and not hidden |
| RelatedRecord.Component.HandleEmptyRecord | evolve-forms/main/default/lwc/dynamicFormsRelatedRecord/dynamicFormsRelatedRecord.js:98-107 | the display changes as `AfterEmptyRecord` says |
| RelatedRecord.Component.ConnectedCallback | evolve-forms/main/default/lwc/dynamicFormsRelatedRecord/dynamicFormsRelatedRecord.js:53-65 | without a group the general error is shown and nothing else happens; otherwise the parent path is looked up first, a child relation second, and with neither the record counts as missing |
| RelatedRecord.Component.LookupSettled | evolve-forms/main/default/lwc/dynamicFormsRelatedRecord/dynamicFormsRelatedRecord.js:67-96 | a found id is stored; a failure shows the server's message or the general one; then the missing-record strategy applies |
| CollapsibleSection.SectionClass | evolve-forms/main/default/lwc/dynamicFormsCollapsibleSection/dynamicFormsCollapsibleSection.js:25-27 | the class has the open marker iff the section is open |
| CollapsibleSection.Toggled | evolve-forms/main/default/lwc/dynamicFormsCollapsibleSection/dynamicFormsCollapsibleSection.js:37 | the toggled state is truthy iff the old one was not |
| CollapsibleSection.ToggleTwice | evolve-forms/main/default/lwc/dynamicFormsCollapsibleSection/dynamicFormsCollapsibleSection.js:35-38 | two toggles give back the class, and the value when it was a boolean |
| CollapsibleSection.Component.constructor | evolve-forms/main/default/lwc/dynamicFormsCollapsibleSection/dynamicFormsCollapsibleSection.js:21 | the state as given |
| CollapsibleSection.Component.ConnectedCallback | evolve-forms/main/default/lwc/dynamicFormsCollapsibleSection/dynamicFormsCollapsibleSection.js:29-33 | a null or undefined state opens the section; any other state is kept |
| CollapsibleSection.Component.ToggleOpen | evolve-forms/main/default/lwc/dynamicFormsCollapsibleSection/dynamicFormsCollapsibleSection.js:35-38 | the open marker flips |
| CollapsibleSection.Component.HandleKeyPress | evolve-forms/main/default/lwc/dynamicFormsCollapsibleSection/dynamicFormsCollapsibleSection.js:40-44 | exactly Enter and Space toggle |

## Findings

| source | as written | input that shows it | evidently intended | confidence | as-written member | corrected member |
|---|---|---|---|---|---|---|
| evolve-forms/main/default/lwc/dynamicFormsSaveCancel/dynamicFormsSaveCancel.js:379-382 | `reduceErrors` always returns an array, and an array is truthy, so `if (!errorMessages)` never falls back to `error.body.message` | a record error (`enhancedErrorType` "RecordError") whose `output` lists no errors and no field errors, with `body.message` "Insufficient access": the toast shows only "The following errors occurred:" | fall back on `body.message` when the list is empty (`!errorMessages.length`) | not executed | SaveCancel.BareHeadingHidesBodyMessage | SaveCancel.FallbackOnBodyMessage |

The as-written message is `SaveCancel.GenerateErrorMessageAsWritten`. The
loop of `SaveCancel.GenerateErrorMessage` computes it, and the controller's three
error toasts use it, as the program does. The corrected message is
`SaveCancel.ErrorMessage`. `SaveCancel.AsWrittenDiffersOnlyWhenEmpty` proves that
the two differ only for an error that yields no message.

## Left out

- Asynchrony. Wire results, promise continuations and `setTimeout` callbacks
  are separate method calls. The model does not interleave them.
- The field section's `setTimeout` part of `setFlagsForCompactLayout` is left
  out. It re-applies a `false` lookup flag 200 ms later.
- The Save/Cancel warning flow (`handleSavePress`, `getCurrentWarnings`,
  `continueSave`) is left out. It evaluates flows on the server and waits on
  `Promise.allSettled`. `CheckWarningsAndSave` takes its outcome,
  `currentWarnings`, as state.
- `checkIfEditMode`, `dismissedWarnings`, `_getRecordResult` and
  `saveButtonIconName` are left out. Nothing modelled reads them.
- DOM work is left out: focus, `querySelector`, the pending-edit CSS classes
  (`addPendingEditClass`, and the class removal in `removePendingEdits`),
  `loadStyle`, `preventDefault`, the utility-bar probe and `console.error`.
- The Apex calls (`getPageLayout`, `fetchUserRecordAccess`,
  `getParentRecordId`, `getChildRecordId`, `updateRecord`, `refreshApex`) are
  left out. They are logged requests, and their replies are method parameters.
- The field section's `connectedCallback`, `checkAccess`,
  `generateUserAccessErrorMessage`, `renderedCallback` and
  `navigateToReference` are left out. So is the page layout's
  `getPageLayout`. They are lifecycle or server glue outside the modelled
  behaviour.
- The field section's `verifyAndHandleMessage` filter is modelled once, in
  `FormElement.Accepts`. `FieldSection.Component.HandleMessage` is the
  handler it calls.
- FieldSection.ToSectionElement keeps only the field properties that the
  component reads. Other properties spread from the field description are
  dropped.
- FieldSection.Component's handlers require the element list to be present.
  In the program, `sectionElements.forEach` and `.filter` throw a `TypeError`
  when a message or a hover arrives before the wire has filled the list. That
  throw is not modelled.
- PageLayout.Layouts maps each layout key straight to the sections of its full
  view layout. The `TypeError` thrown when a layout lacks the
  `Full[VIEW].sections` path is not modelled.
- The field section's elements are values in a sequence, not shared objects.
  Aliasing between an element and other references to it is not modelled.
- PageLayout.FormatSection does not model the `TypeError` that
  `section.columns.toString()` throws when `columns` is null or undefined. It
  uses the value's string form instead.
- `PageLayout.DecodeFieldString` has no counterpart in these files. The code
  that consumes `apiNamesCsv` is not part of this model. The decoder is a
  reference reading of the documented `[*]name[*]` format, used to state that
  the encoding loses nothing.
- JavaScript numbers are unbounded integers or `NaN`. Fractions, `-0` and
  infinities are left out.
- Objects are plain maps. Prototype properties, getters and the insertion
  order of integer-like keys are left out. Visiting order is an input, tied to
  the object by `Enumerates`.
- A `try`/`catch` around `publish` is left out. A publish that throws on an
  invalid message context is not modelled.
- FormElement.TryToParseJson has no `null` input. In the program,
  `typeof null` is "object", so a `null` configuration comes back as `null`,
  not as `{}`. The model's configuration is never `null`.
- `JSON.parse` results other than objects are left out. The configuration
  parsers take a function that gives an object or fails.
- The context components are not part of this model:
  - `dynamicFormsCreate`, `dynamicFormsFieldSet` and
    `calculatedFieldSection`;
  - `dynamicFormsCompactPageLayout` and `dynamicFormsHeadlessEdit`;
  - the Aura override and the console API utilities;
  - `displayToast`, which is modelled only as a toast logged by the caller.
