/** The Save/Cancel footer of a form group. It keeps the record as first loaded, the
    edits other components of the group report, and the set of fields that must be
    filled before Save is enabled. On Save it checks whether someone else changed the
    record in the meantime, classifying every edited field against the snapshot and
    the database, and either shows the conflicts or saves. Platform calls
    (`getRecord`, `getObjectInfo`, `refreshApex`, `updateRecord`) are inputs and
    logged requests; their replies arrive through separate methods. */
module SaveCancel {
  import opened Wrappers
  import opened JsValues
  import Strings
  import opened FormElement
  import ReduceErrors

  const LMD := "LastModifiedDate"
  const HEADING := "The following errors occurred:"
  /** Each message is put on a line of its own, indented and bulleted: "\n\t* ". */
  const INDENT := "\t* "
  const BULLET := "\n" + INDENT

  // ---------------------------------------------------------------------------
  // The current state of the record and the Save button

  /** The record as the user sees it: the snapshot with the pending edits on top. */
  function StateOf(initial: Record, pending: Record): (r: Record)
  {
    Spread(initial, pending)
  }

  /** Save is disabled when some required field reads as falsy in `state`. */
  predicate SaveBlocked(required: set<Value>, state: Record)
  {
    exists f :: f in required && !Truthy(GetBy(state, f))
  }

  /** Giving a field a truthy value never disables Save. */
  lemma TruthyEditNeverBlocks(required: set<Value>, initial: Record, pending: Record, field: Value, value: Value)
    requires Truthy(value)
    requires SaveBlocked(required, StateOf(initial, SetBy(pending, field, value)))
    ensures SaveBlocked(required, StateOf(initial, pending))
  {
    var f :| f in required && !Truthy(GetBy(StateOf(initial, SetBy(pending, field, value)), f));
    assert ToStr(f) != ToStr(field);
    assert GetBy(StateOf(initial, SetBy(pending, field, value)), f) == GetBy(StateOf(initial, pending), f);
  }

  /** Giving a required field a falsy value disables Save. */
  lemma FalsyRequiredFieldBlocks(required: set<Value>, initial: Record, pending: Record, field: Value, value: Value)
    requires field in required && !Truthy(value)
    ensures SaveBlocked(required, StateOf(initial, SetBy(pending, field, value)))
  {
    assert GetBy(StateOf(initial, SetBy(pending, field, value)), field) == value;
  }

  // ---------------------------------------------------------------------------
  // Messages

  /** The part of the controller's state that messages change. */
  datatype Edits = Edits(editMode: bool, saveIsDisabled: bool, pending: Record, required: set<Value>)

  /** How `handleMessage` changes the edits; `recordId` and `initial` are read only. */
  function HandleEdits(e: Edits, m: Message, recordId: Value, initial: Record): Edits
  {
    if StrictEquals(m.eventType, Str(EDIT)) then
      e.(editMode := true, saveIsDisabled := SaveBlocked(e.required, StateOf(initial, e.pending)))
    else if StrictEquals(m.eventType, Str(CANCEL)) then
      e.(editMode := false)
    else if StrictEquals(m.eventType, Str(UPDATE)) then
      var pending := SetBy(e.pending["Id" := recordId], m.fieldApiName, m.newValue);
      e.(pending := pending, saveIsDisabled := SaveBlocked(e.required, StateOf(initial, pending)))
    else if StrictEquals(m.eventType, Str(REQUIRED_FIELD)) then
      var required := e.required + {m.fieldApiName};
      e.(required := required, saveIsDisabled := SaveBlocked(required, StateOf(initial, e.pending)))
    else if StrictEquals(m.eventType, Str(NO_LONGER_REQUIRED_FIELD)) && m.fieldApiName in e.required then
      var required := e.required - {m.fieldApiName};
      e.(required := required, saveIsDisabled := SaveBlocked(required, StateOf(initial, e.pending)))
    else
      e
  }

  /** Whether `handleMessage` answers with an EDIT broadcast: only a CHECK_EDIT
      received in edit mode. */
  predicate RepliesEdit(editMode: bool, m: Message)
  {
    StrictEquals(m.eventType, Str(CHECK_EDIT)) && editMode
  }

  /** An UPDATE records the new value and the record id, keeps every other pending
      edit, and recomputes whether Save is disabled. */
  lemma UpdateRecordsEdit(e: Edits, m: Message, recordId: Value, initial: Record)
    requires m.eventType == Str(UPDATE)
    ensures var r := HandleEdits(e, m, recordId, initial);
      && GetBy(r.pending, m.fieldApiName) == m.newValue
      && (ToStr(m.fieldApiName) != "Id" ==> Get(r.pending, "Id") == recordId)
      && (forall k :: k != "Id" && k != ToStr(m.fieldApiName) ==> Get(r.pending, k) == Get(e.pending, k))
      && r.pending.Keys == e.pending.Keys + {"Id", ToStr(m.fieldApiName)}
      && r.editMode == e.editMode && r.required == e.required
      && (r.saveIsDisabled <==> exists f :: f in r.required && !Truthy(GetBy(StateOf(initial, r.pending), f)))
  {
  }

  /** REQUIRED_FIELD adds the field to the required set; NO_LONGER_REQUIRED_FIELD
      removes it, and changes nothing at all when the field was not required. Either
      way Save is disabled afterwards exactly when a required field is falsy. */
  lemma RequiredSetTransitions(e: Edits, m: Message, recordId: Value, initial: Record)
    ensures m.eventType == Str(REQUIRED_FIELD) ==>
      var r := HandleEdits(e, m, recordId, initial);
      && r.required == e.required + {m.fieldApiName}
      && r.pending == e.pending && r.editMode == e.editMode
      && (r.saveIsDisabled <==> SaveBlocked(r.required, StateOf(initial, r.pending)))
    ensures m.eventType == Str(NO_LONGER_REQUIRED_FIELD) && m.fieldApiName in e.required ==>
      var r := HandleEdits(e, m, recordId, initial);
      && r.required == e.required - {m.fieldApiName}
      && m.fieldApiName !in r.required
      && r.pending == e.pending && r.editMode == e.editMode
      && (r.saveIsDisabled <==> SaveBlocked(r.required, StateOf(initial, r.pending)))
    ensures m.eventType == Str(NO_LONGER_REQUIRED_FIELD) && m.fieldApiName !in e.required ==>
      HandleEdits(e, m, recordId, initial) == e
  {
  }

  /** EDIT enters edit mode and CANCEL leaves it; neither touches the edits. A
      CHECK_EDIT and any unknown event change nothing. */
  lemma ModeTransitions(e: Edits, m: Message, recordId: Value, initial: Record)
    ensures m.eventType == Str(EDIT) ==>
      var r := HandleEdits(e, m, recordId, initial);
      r.editMode && r.pending == e.pending && r.required == e.required
      && (r.saveIsDisabled <==> SaveBlocked(e.required, StateOf(initial, e.pending)))
    ensures m.eventType == Str(CANCEL) ==> HandleEdits(e, m, recordId, initial) == e.(editMode := false)
    ensures m.eventType !in {Str(EDIT), Str(CANCEL), Str(UPDATE), Str(REQUIRED_FIELD), Str(NO_LONGER_REQUIRED_FIELD)}
      ==> HandleEdits(e, m, recordId, initial) == e
  {
  }

  /** Once a required field has been filled with a truthy value by an UPDATE, that
      field is no longer what keeps Save disabled: if Save is still disabled, some
      other required field is falsy. */
  lemma {:induction false} FilledFieldUnblocks(e: Edits, field: Value, value: Value, recordId: Value, initial: Record)
    requires Truthy(value)
    requires ToStr(field) != "Id"
    ensures var r := HandleEdits(e, Message(Str(UPDATE), Null, field, value), recordId, initial);
      r.saveIsDisabled ==>
        exists f :: f in r.required && ToStr(f) != ToStr(field) && !Truthy(GetBy(StateOf(initial, r.pending), f))
  {
    var r := HandleEdits(e, Message(Str(UPDATE), Null, field, value), recordId, initial);
    if r.saveIsDisabled {
      var f :| f in r.required && !Truthy(GetBy(StateOf(initial, r.pending), f));
      assert GetBy(StateOf(initial, r.pending), field) == value;
      assert ToStr(f) != ToStr(field);
    }
  }

  // ---------------------------------------------------------------------------
  // Conflicts with changes saved by someone else

  /** One line of the conflict table. */
  datatype ConflictRow = ConflictRow(field: string, yourValue: Value, savedValue: Value, fieldLabel: Value)

  /** Someone else saved a different value of a field the user edited: the edit
      differs from both the snapshot and the database, which differ from each other. */
  predicate Conflicting(initial: Value, yours: Value, saved: Value)
  {
    !StrictEquals(yours, saved) && !StrictEquals(initial, yours) && !StrictEquals(initial, saved)
  }

  /** The user edited the field and either the database already holds the edit or
      the field was not changed in the database. */
  predicate Mergeable(initial: Value, yours: Value, saved: Value)
  {
    || (!StrictEquals(initial, yours) && StrictEquals(yours, saved))
    || (!StrictEquals(initial, yours) && StrictEquals(initial, saved))
  }

  /** A field the user really edited is either conflicting or mergeable, never both;
      a field whose edit equals the snapshot is neither. */
  lemma ClassificationIsAPartition(initial: Value, yours: Value, saved: Value)
    ensures !StrictEquals(initial, yours) ==> (Conflicting(initial, yours, saved) <==> !Mergeable(initial, yours, saved))
    ensures StrictEquals(initial, yours) ==> !Conflicting(initial, yours, saved) && !Mergeable(initial, yours, saved)
  {
  }

  predicate ConflictingAt(key: string, initial: Record, pending: Record, db: Record)
  {
    Conflicting(Get(initial, key), Get(pending, key), Get(db, key))
  }

  predicate MergeableAt(key: string, initial: Record, pending: Record, db: Record)
  {
    Mergeable(Get(initial, key), Get(pending, key), Get(db, key))
  }

  /** The rows found so far, whether a mergeable field was seen, and whether the
      loop stopped with a `TypeError` (a conflicting field without a label). */
  datatype ScanState = ScanState(rows: seq<ConflictRow>, skip: bool, thrown: bool)

  /** One iteration of the loop over the pending edits. */
  function ScanStep(acc: ScanState, key: string, initial: Record, pending: Record, db: Record,
                    labels: Option<map<string, Value>>): (r: ScanState)
    ensures || r.rows == acc.rows
            || (&& ConflictingAt(key, initial, pending, db) && labels.Some? && key in labels.value
                && r.rows == acc.rows + [ConflictRow(key, Get(pending, key), Get(db, key), labels.value[key])])
  {
    if acc.thrown then acc
    else if ConflictingAt(key, initial, pending, db) then
      if labels.Some? && key in labels.value then
        acc.(rows := acc.rows + [ConflictRow(key, Get(pending, key), Get(db, key), labels.value[key])])
      else acc.(thrown := true)
    else if MergeableAt(key, initial, pending, db) then acc.(skip := true)
    else acc
  }

  /** A row of the conflict table for a conflicting field: the user's value, the
      saved value and the field's label. */
  predicate IsConflictRow(row: ConflictRow, initial: Record, pending: Record, db: Record,
                          labels: Option<map<string, Value>>)
  {
    && ConflictingAt(row.field, initial, pending, db)
    && row.yourValue == Get(pending, row.field) && row.savedValue == Get(db, row.field)
    && labels.Some? && row.field in labels.value && row.fieldLabel == labels.value[row.field]
  }

  /** The loop over the pending edits in the order `keys` lists them. Every row is
      the conflict row of one of the keys. */
  function Scan(keys: seq<string>, initial: Record, pending: Record, db: Record,
                labels: Option<map<string, Value>>): (s: ScanState)
    ensures forall j :: 0 <= j < |s.rows| ==> s.rows[j].field in keys
    ensures forall j :: 0 <= j < |s.rows| ==> IsConflictRow(s.rows[j], initial, pending, db, labels)
  {
    if keys == [] then ScanState([], false, false)
    else
      var acc := Scan(keys[..|keys| - 1], initial, pending, db, labels);
      var key := keys[|keys| - 1];
      assert forall j :: 0 <= j < |acc.rows| ==> acc.rows[j].field in keys by {
        forall j | 0 <= j < |acc.rows| ensures acc.rows[j].field in keys {
          assert acc.rows[j].field in keys[..|keys| - 1];
        }
      }
      ScanStep(acc, key, initial, pending, db, labels)
  }

  /** The conflicting keys, in order. */
  function ConflictingKeys(keys: seq<string>, initial: Record, pending: Record, db: Record): (r: seq<string>)
    ensures forall i :: 0 <= i < |r| ==> r[i] in keys && ConflictingAt(r[i], initial, pending, db)
    ensures forall k :: k in keys && ConflictingAt(k, initial, pending, db) ==> k in r
  {
    if keys == [] then []
    else
      var init := ConflictingKeys(keys[..|keys| - 1], initial, pending, db);
      var key := keys[|keys| - 1];
      assert forall k :: k in keys ==> k in keys[..|keys| - 1] || k == key;
      if ConflictingAt(key, initial, pending, db) then init + [key] else init
  }

  function RowFields(rows: seq<ConflictRow>): (fields: seq<string>)
    ensures |fields| == |rows|
    ensures forall j :: 0 <= j < |rows| ==> fields[j] == rows[j].field
  {
    if rows == [] then [] else RowFields(rows[..|rows| - 1]) + [rows[|rows| - 1].field]
  }

  /** A conflicting field the loop cannot label: reading its label throws. */
  predicate Unlabelled(key: string, initial: Record, pending: Record, db: Record,
                       labels: Option<map<string, Value>>)
  {
    ConflictingAt(key, initial, pending, db) && !(labels.Some? && key in labels.value)
  }

  /** The loop stops exactly when some conflicting field has no label. */
  lemma {:induction false} ScanStopsAtUnlabelled(keys: seq<string>, initial: Record, pending: Record, db: Record,
                                                 labels: Option<map<string, Value>>)
    ensures Scan(keys, initial, pending, db, labels).thrown
        <==> exists i :: 0 <= i < |keys| && Unlabelled(keys[i], initial, pending, db, labels)
  {
    if keys != [] {
      var init := keys[..|keys| - 1];
      var last := |keys| - 1;
      ScanStopsAtUnlabelled(init, initial, pending, db, labels);
      var acc := Scan(init, initial, pending, db, labels);
      if acc.thrown {
        var i :| 0 <= i < |init| && Unlabelled(init[i], initial, pending, db, labels);
        assert keys[i] == init[i];
      } else if Unlabelled(keys[last], initial, pending, db, labels) {
      } else {
        forall i | 0 <= i < |keys| ensures !Unlabelled(keys[i], initial, pending, db, labels) {
          if i < last {
            assert keys[i] == init[i];
          }
        }
      }
    }
  }

  /** Unless the loop stops, its rows are exactly the conflicting fields, in order. */
  lemma {:induction false} ScanRowsAreConflicts(keys: seq<string>, initial: Record, pending: Record, db: Record,
                                                labels: Option<map<string, Value>>)
    ensures var s := Scan(keys, initial, pending, db, labels);
      !s.thrown ==> RowFields(s.rows) == ConflictingKeys(keys, initial, pending, db)
  {
    if keys != [] {
      var init := keys[..|keys| - 1];
      var key := keys[|keys| - 1];
      ScanRowsAreConflicts(init, initial, pending, db, labels);
      var acc := Scan(init, initial, pending, db, labels);
      var s := Scan(keys, initial, pending, db, labels);
      if !s.thrown && ConflictingAt(key, initial, pending, db) {
        assert s.rows == acc.rows + [s.rows[|s.rows| - 1]];
        assert RowFields(s.rows) == RowFields(acc.rows) + [key];
      }
    }
  }

  /** Unless the loop stops, the auto-save flag is set exactly when some field is
      mergeable. */
  lemma {:induction false} ScanSkipsOnMergeable(keys: seq<string>, initial: Record, pending: Record, db: Record,
                                                labels: Option<map<string, Value>>)
    ensures var s := Scan(keys, initial, pending, db, labels);
      !s.thrown ==> (s.skip <==> exists i :: 0 <= i < |keys| && MergeableAt(keys[i], initial, pending, db))
  {
    if keys != [] {
      var init := keys[..|keys| - 1];
      var last := |keys| - 1;
      ScanSkipsOnMergeable(init, initial, pending, db, labels);
      var acc := Scan(init, initial, pending, db, labels);
      var s := Scan(keys, initial, pending, db, labels);
      if !s.thrown {
        if acc.skip {
          var i :| 0 <= i < |init| && MergeableAt(init[i], initial, pending, db);
          assert keys[i] == init[i];
        } else if MergeableAt(keys[last], initial, pending, db) {
          ClassificationIsAPartition(Get(initial, keys[last]), Get(pending, keys[last]), Get(db, keys[last]));
        } else {
          forall i | 0 <= i < |keys| ensures !MergeableAt(keys[i], initial, pending, db) {
            if i < last {
              assert keys[i] == init[i];
            }
          }
        }
      }
    }
  }

  /** What the loop finds: unless it stops, the rows are exactly the conflicting
      fields in order, and the auto-save flag is set exactly when some field is
      mergeable. It stops exactly when a conflicting field has no label. */
  lemma ScanFindsConflicts(keys: seq<string>, initial: Record, pending: Record, db: Record,
                           labels: Option<map<string, Value>>)
    ensures var s := Scan(keys, initial, pending, db, labels);
      && (s.thrown <==> exists i :: 0 <= i < |keys| && Unlabelled(keys[i], initial, pending, db, labels))
      && (!s.thrown ==> RowFields(s.rows) == ConflictingKeys(keys, initial, pending, db))
      && (!s.thrown ==> (s.skip <==> exists i :: 0 <= i < |keys| && MergeableAt(keys[i], initial, pending, db)))
  {
    ScanStopsAtUnlabelled(keys, initial, pending, db, labels);
    ScanRowsAreConflicts(keys, initial, pending, db, labels);
    ScanSkipsOnMergeable(keys, initial, pending, db, labels);
  }

  /** When the database still holds the snapshot's value of every edited field, or
      already holds every edit, nothing conflicts. */
  lemma {:induction false} NoConflictsWithoutCompetingChanges(keys: seq<string>, initial: Record, pending: Record, db: Record)
    requires (forall k :: k in keys ==> StrictEquals(Get(initial, k), Get(db, k)))
          || (forall k :: k in keys ==> StrictEquals(Get(pending, k), Get(db, k)))
    ensures ConflictingKeys(keys, initial, pending, db) == []
  {
    if keys != [] {
      assert forall k :: k in keys[..|keys| - 1] ==> k in keys;
      NoConflictsWithoutCompetingChanges(keys[..|keys| - 1], initial, pending, db);
    }
  }

  /** `refreshApex(...).then` proceeds: show the conflicts, go on to
      `checkWarningsAndSave`, or wait; `Abandon` is a `TypeError` in the loop. */
  datatype Decision = Abandon | ShowConflicts | CheckWarnings | Wait

  /** The decision taken once the record has been refreshed. */
  function Decide(initial: Record, pending: Record, keys: seq<string>, db: Record,
                  labels: Option<map<string, Value>>, priorRows: seq<ConflictRow>): Decision
  {
    if StrictEquals(Get(db, LMD), Get(initial, LMD)) then CheckWarnings
    else
      var s := Scan(keys, initial, pending, db, labels);
      if s.thrown then Abandon
      else if |priorRows + s.rows| > 0 then ShowConflicts
      else if s.skip || pending == map[] then CheckWarnings
      else Wait
  }

  /** The conflict table after the refresh. */
  function RowsAfterRefresh(initial: Record, pending: Record, keys: seq<string>, db: Record,
                            labels: Option<map<string, Value>>, priorRows: seq<ConflictRow>): seq<ConflictRow>
  {
    if StrictEquals(Get(db, LMD), Get(initial, LMD)) then priorRows
    else priorRows + Scan(keys, initial, pending, db, labels).rows
  }

  /** An unchanged last-modified date goes straight to saving. */
  lemma UnmodifiedRecordSaves(initial: Record, pending: Record, keys: seq<string>, db: Record,
                              labels: Option<map<string, Value>>, priorRows: seq<ConflictRow>)
    requires StrictEquals(Get(db, LMD), Get(initial, LMD))
    ensures Decide(initial, pending, keys, db, labels, priorRows) == CheckWarnings
    ensures RowsAfterRefresh(initial, pending, keys, db, labels, priorRows) == priorRows
  {
  }

  /** A conflicting edit is never saved: when the record was modified and some edited
      field conflicts, the conflicts are shown (or the loop stops on a missing
      label), and with every label known the table lists exactly the conflicts. */
  lemma ConflictPreventsSave(initial: Record, pending: Record, keys: seq<string>, db: Record,
                             labels: Option<map<string, Value>>)
    requires !StrictEquals(Get(db, LMD), Get(initial, LMD))
    requires exists i :: 0 <= i < |keys| && ConflictingAt(keys[i], initial, pending, db)
    ensures Decide(initial, pending, keys, db, labels, []) in {Abandon, ShowConflicts}
    ensures labels.Some? && (forall k :: k in keys ==> k in labels.value) ==>
      && Decide(initial, pending, keys, db, labels, []) == ShowConflicts
      && RowFields(RowsAfterRefresh(initial, pending, keys, db, labels, [])) == ConflictingKeys(keys, initial, pending, db)
  {
    ScanFindsConflicts(keys, initial, pending, db, labels);
    var s := Scan(keys, initial, pending, db, labels);
    if !s.thrown {
      var i :| 0 <= i < |keys| && ConflictingAt(keys[i], initial, pending, db);
      assert keys[i] in ConflictingKeys(keys, initial, pending, db);
      assert |RowFields(s.rows)| > 0;
      assert [] + s.rows == s.rows;
    }
  }

  /** Without conflicts, a record modified by someone else is saved when some edit
      can be merged. */
  lemma MergeableEditSaves(initial: Record, pending: Record, keys: seq<string>, db: Record,
                           labels: Option<map<string, Value>>)
    requires !StrictEquals(Get(db, LMD), Get(initial, LMD))
    requires forall i :: 0 <= i < |keys| ==> !ConflictingAt(keys[i], initial, pending, db)
    requires exists i :: 0 <= i < |keys| && MergeableAt(keys[i], initial, pending, db)
    ensures Decide(initial, pending, keys, db, labels, []) == CheckWarnings
  {
    ScanFindsConflicts(keys, initial, pending, db, labels);
    var s := Scan(keys, initial, pending, db, labels);
    assert ConflictingKeys(keys, initial, pending, db) == [];
    assert |s.rows| == 0;
  }

  /** When the record was modified but every pending edit equals the snapshot (an
      edit undone, or only the record id), Save neither saves nor shows a table. */
  lemma UndoneEditsWait(initial: Record, pending: Record, keys: seq<string>, db: Record,
                        labels: Option<map<string, Value>>)
    requires Enumerates(keys, pending) && pending != map[]
    requires !StrictEquals(Get(db, LMD), Get(initial, LMD))
    requires forall i :: 0 <= i < |keys| ==> StrictEquals(Get(initial, keys[i]), Get(pending, keys[i]))
    ensures Decide(initial, pending, keys, db, labels, []) == Wait
  {
    ScanFindsConflicts(keys, initial, pending, db, labels);
    var s := Scan(keys, initial, pending, db, labels);
    assert !s.thrown;
    assert ConflictingKeys(keys, initial, pending, db) == [];
    assert |s.rows| == 0;
  }

  /** The conflict loop of `checkRecordUpdatedByOthers`. */
  method FindConflicts(keys: seq<string>, initial: Record, pending: Record, db: Record,
                       labels: Option<map<string, Value>>) returns (s: ScanState)
    ensures s == Scan(keys, initial, pending, db, labels)
  {
    s := ScanState([], false, false);
    var i := 0;
    while i < |keys|
      invariant 0 <= i <= |keys|
      invariant s == Scan(keys[..i], initial, pending, db, labels)
      invariant !s.thrown
    {
      assert keys[..i + 1][..i] == keys[..i];
      var key := keys[i];
      assert Scan(keys[..i + 1], initial, pending, db, labels) == ScanStep(s, key, initial, pending, db, labels);
      var yours := Get(pending, key);
      var saved := Get(db, key);
      var before := Get(initial, key);
      if !StrictEquals(yours, saved) && !StrictEquals(before, yours) && !StrictEquals(before, saved) {
        if labels.None? || key !in labels.value {
          s := s.(thrown := true);
          ThrowEndsScan(keys, i + 1, initial, pending, db, labels);
          return;
        }
        s := s.(rows := s.rows + [ConflictRow(key, yours, saved, labels.value[key])]);
      } else if (!StrictEquals(before, yours) && StrictEquals(yours, saved))
             || (!StrictEquals(before, yours) && StrictEquals(before, saved)) {
        s := s.(skip := true);
      }
      i := i + 1;
    }
    assert keys[..i] == keys;
  }

  /** A `TypeError` ends the loop: later keys change nothing. */
  lemma {:induction false} ThrowEndsScan(keys: seq<string>, i: nat, initial: Record, pending: Record, db: Record,
                                         labels: Option<map<string, Value>>)
    requires i <= |keys|
    requires Scan(keys[..i], initial, pending, db, labels).thrown
    ensures Scan(keys, initial, pending, db, labels) == Scan(keys[..i], initial, pending, db, labels)
    decreases |keys| - i
  {
    if i < |keys| {
      assert keys[..i + 1][..i] == keys[..i];
      ThrowEndsScan(keys, i + 1, initial, pending, db, labels);
    } else {
      assert keys[..i] == keys;
    }
  }

  // ---------------------------------------------------------------------------
  // Error messages for toasts

  /** The bullet list of messages, one line per message. */
  function Bullets(messages: seq<Value>): string
  {
    if messages == [] then ""
    else Bullets(messages[..|messages| - 1]) + BULLET + ToStr(messages[|messages| - 1])
  }

  /** The lines after the heading. */
  function BulletLines(messages: seq<Value>): (lines: seq<string>)
    ensures |lines| == |messages|
    ensures forall i :: 0 <= i < |messages| ==> lines[i] == INDENT + ToStr(messages[i])
  {
    if messages == [] then []
    else BulletLines(messages[..|messages| - 1]) + [INDENT + ToStr(messages[|messages| - 1])]
  }

  /** `error.body.message`, which throws when the error has no body. */
  function BodyMessage(error: ReduceErrors.Errors): Outcome<Value>
  {
    if error.One? && error.item.ErrorObject? then
      var body := error.item.body;
      if body.NoBody? then Throws
      else if body.ArrayBody? then Returns(Undefined)
      else Returns(body.message)
    else Throws
  }

  /** `generateErrorMessage` as written: `reduceErrors` always returns an array, which
      is truthy, so the fallback on `error.body.message` is never taken. */
  function GenerateErrorMessageAsWritten(error: ReduceErrors.Errors): Outcome<Value>
  {
    match ReduceErrors.Reduce(error)
    case Throws => Throws
    case Returns(messages) => Returns(Str(HEADING + Bullets(messages)))
  }

  /** The toast message: the heading and one bullet per message, or, when there are no
      messages, the error's own `body.message`. */
  function ErrorMessage(error: ReduceErrors.Errors): Outcome<Value>
  {
    match ReduceErrors.Reduce(error)
    case Throws => Throws
    case Returns(messages) =>
      if messages == [] then BodyMessage(error) else Returns(Str(HEADING + Bullets(messages)))
  }

  /** As written, every message that does not throw starts with the heading, even
      when there is nothing to list. */
  lemma AsWrittenAlwaysHeading(error: ReduceErrors.Errors)
    ensures GenerateErrorMessageAsWritten(error).Returns? ==>
      var v := GenerateErrorMessageAsWritten(error).value;
      v.Str? && Strings.StartsWith(v.s, HEADING)
    ensures ReduceErrors.Reduce(error) == Returns([]) ==> GenerateErrorMessageAsWritten(error) == Returns(Str(HEADING))
  {
    assert HEADING + Bullets([]) == HEADING;
    if GenerateErrorMessageAsWritten(error).Returns? {
      var v := GenerateErrorMessageAsWritten(error).value;
      assert v.s[..|HEADING|] == HEADING;
    }
  }

  /** The discrepancy: for a record error that lists neither errors nor field errors
      the toast as written shows the bare heading and drops the server's message;
      the corrected toast shows the message. */
  lemma BareHeadingHidesBodyMessage(b: ReduceErrors.Body, message: Value, statusText: Value)
    requires ReduceErrors.IsRecordError(b)
    requires b.output.value.errors == [] && b.output.value.fieldErrors.None?
    ensures GenerateErrorMessageAsWritten(ReduceErrors.One(ReduceErrors.ErrorObject(b, message, statusText)))
         == Returns(Str(HEADING))
    ensures ErrorMessage(ReduceErrors.One(ReduceErrors.ErrorObject(b, message, statusText))) == Returns(b.message)
  {
    ReduceErrors.RecordErrorOtherwiseEmpty(b, message, statusText);
    AsWrittenAlwaysHeading(ReduceErrors.One(ReduceErrors.ErrorObject(b, message, statusText)));
  }

  /** With the correction, the heading is shown only above at least one message, and
      an error that yields no message reports its body's message. */
  lemma FallbackOnBodyMessage(error: ReduceErrors.Errors)
    ensures ReduceErrors.Reduce(error) == Returns([]) ==> ErrorMessage(error) == BodyMessage(error)
    ensures ReduceErrors.Reduce(error).Returns? && ReduceErrors.Reduce(error).value != [] ==>
      ErrorMessage(error) == Returns(Str(HEADING + Bullets(ReduceErrors.Reduce(error).value)))
      && |Bullets(ReduceErrors.Reduce(error).value)| > 0
  {
  }

  /** Bullets of a concatenation are the bullets of each part, in order. */
  lemma {:induction false} BulletsAppend(a: seq<Value>, b: seq<Value>)
    ensures Bullets(a + b) == Bullets(a) + Bullets(b)
    decreases |b|
  {
    if b == [] {
      assert a + b == a;
    } else {
      var init := b[..|b| - 1];
      var last := ToStr(b[|b| - 1]);
      assert (a + b)[..|a + b| - 1] == a + init;
      assert (a + b)[|a + b| - 1] == b[|b| - 1];
      BulletsAppend(a, init);
      assert Bullets(a + b) == (Bullets(a) + Bullets(init)) + BULLET + last;
      Strings.Regroup(Bullets(a), Bullets(init), BULLET, last);
    }
  }

  /** The heading is a single line. */
  lemma HeadingIsOneLine()
    ensures '\n' !in HEADING
  {
  }

  /** The line a message adds, as the text after its line break. */
  lemma BulletsLast(heading: string, messages: seq<Value>)
    requires messages != []
    ensures heading + Bullets(messages)
      == (heading + Bullets(messages[..|messages| - 1])) + ['\n'] + (INDENT + ToStr(messages[|messages| - 1]))
  {
    var b := Bullets(messages[..|messages| - 1]);
    var last := ToStr(messages[|messages| - 1]);
    assert Bullets(messages) == b + BULLET + last;
    assert BULLET == ['\n'] + INDENT;
    Strings.Regroup(heading, b, BULLET, last);
    Strings.RegroupAround(heading + b, '\n', INDENT, last);
  }

  /** The message reads back line by line: the heading, then one line per message,
      in order, as long as neither the heading nor a message contains a line break. */
  lemma {:induction false} MessageLines(heading: string, messages: seq<Value>)
    requires '\n' !in heading
    requires forall i :: 0 <= i < |messages| ==> '\n' !in ToStr(messages[i])
    ensures Strings.Split(heading + Bullets(messages), '\n') == [heading] + BulletLines(messages)
  {
    if messages == [] {
      assert heading + "" == heading;
      Strings.SplitWithoutSeparator(heading, '\n');
    } else {
      var init := messages[..|messages| - 1];
      var line := INDENT + ToStr(messages[|messages| - 1]);
      assert forall i :: 0 <= i < |init| ==> init[i] == messages[i];
      MessageLines(heading, init);
      BulletsLast(heading, messages);
      assert '\n' !in INDENT;
      Strings.SplitLastPiece(heading + Bullets(init), line, '\n');
      assert BulletLines(messages) == BulletLines(init) + [line];
      assert [heading] + BulletLines(init) + [line] == [heading] + (BulletLines(init) + [line]);
    }
  }

  /** `generateErrorMessage` as the controller runs it: the heading and one bullet per
      message. The list `reduceErrors` returns is never falsy, so the `body.message`
      branch is not reached and an empty list gives the bare heading. */
  method GenerateErrorMessage(error: ReduceErrors.Errors) returns (r: Outcome<Value>)
    ensures r == GenerateErrorMessageAsWritten(error)
    ensures r.Returns? <==> ReduceErrors.Reduce(error).Returns?
    ensures r.Returns? ==> r.value.Str? && Strings.StartsWith(r.value.s, HEADING)
  {
    var reduced := ReduceErrors.Reduce(error);
    if reduced.Throws? {
      return Throws;
    }
    var messages := reduced.value;
    var message := HEADING;
    var i := 0;
    while i < |messages|
      invariant 0 <= i <= |messages|
      invariant message == HEADING + Bullets(messages[..i])
    {
      assert messages[..i + 1][..i] == messages[..i];
      Strings.Regroup(HEADING, Bullets(messages[..i]), BULLET, ToStr(messages[i]));
      message := message + BULLET + ToStr(messages[i]);
      i := i + 1;
    }
    assert messages[..i] == messages;
    AsWrittenAlwaysHeading(error);
    return Returns(Str(message));
  }

  /** The program and the corrected message differ only for an error that yields no
      message: there the program shows the bare heading and the correction shows
      `body.message`. */
  lemma AsWrittenDiffersOnlyWhenEmpty(error: ReduceErrors.Errors)
    ensures ReduceErrors.Reduce(error) != Returns([]) ==> GenerateErrorMessageAsWritten(error) == ErrorMessage(error)
    ensures ReduceErrors.Reduce(error) == Returns([]) ==>
      GenerateErrorMessageAsWritten(error) == Returns(Str(HEADING)) && ErrorMessage(error) == BodyMessage(error)
  {
    AsWrittenAlwaysHeading(error);
  }

  // ---------------------------------------------------------------------------
  // Getters

  /** The classes of the footer: docked, pinned and boxed unless detached, with room
      for the utility bar when one is displayed. */
  function FooterClasses(detach: Value, utilityBarIsDisplayed: bool): (classes: seq<string>)
    ensures |classes| >= 2
    ensures classes[0] == "slds-theme_default" && classes[1] == "slds-align_absolute-center"
    ensures "slds-docked-form-footer" in classes <==> !Truthy(detach)
    ensures "pinnedFooter" in classes <==> !Truthy(detach)
    ensures "slds-box" in classes <==> !Truthy(detach)
    ensures "utilityBarPadding" in classes <==> !Truthy(detach) && utilityBarIsDisplayed
    ensures forall i :: 0 <= i < |classes| ==> ' ' !in classes[i]
  {
    var base := ["slds-theme_default", "slds-align_absolute-center"];
    if Truthy(detach) then base
    else
      var docked := base + ["slds-docked-form-footer", "pinnedFooter", "slds-box"];
      if utilityBarIsDisplayed then docked + ["utilityBarPadding"] else docked
  }

  /** `footerClass`: the classes joined by spaces. */
  function FooterClass(detach: Value, utilityBarIsDisplayed: bool): string
  {
    Strings.Join(FooterClasses(detach, utilityBarIsDisplayed), " ")
  }

  /** The class attribute splits back into exactly the listed classes. */
  lemma FooterClassTokens(detach: Value, utilityBarIsDisplayed: bool)
    ensures Strings.Split(FooterClass(detach, utilityBarIsDisplayed), ' ') == FooterClasses(detach, utilityBarIsDisplayed)
  {
    Strings.SplitJoin(FooterClasses(detach, utilityBarIsDisplayed), ' ');
  }

  /** A warning configured for the object. */
  datatype WarningMetadata = WarningMetadata(masterLabel: Value, flowApiName: Value)

  /** A warning as the controller evaluates it. */
  datatype ConditionalWarning = ConditionalWarning(apiName: Value, flowApiName: Value)

  /** `objectApiName + "." + key`. */
  function Qualified(objectApiName: Value, key: string): string
  {
    ToStr(objectApiName) + "." + key
  }

  /** Qualified names of different fields differ. */
  lemma QualifiedIsInjective(objectApiName: Value, a: string, b: string)
    requires Qualified(objectApiName, a) == Qualified(objectApiName, b)
    ensures a == b
  {
    var n := |ToStr(objectApiName) + "."|;
    assert Qualified(objectApiName, a)[n..] == a;
    assert Qualified(objectApiName, b)[n..] == b;
  }

  /** The loop of `wireObjectInfo` collecting the qualified names of all fields. */
  method QualifiedFieldNames(objectApiName: Value, keys: seq<string>) returns (names: seq<string>)
    ensures |names| == |keys|
    ensures forall i :: 0 <= i < |keys| ==> names[i] == Qualified(objectApiName, keys[i])
  {
    names := [];
    for i := 0 to |keys|
      invariant |names| == i
      invariant forall j :: 0 <= j < i ==> names[j] == Qualified(objectApiName, keys[j])
    {
      names := names + [ToStr(objectApiName) + "." + keys[i]];
    }
  }

  /** A field of `getRecord`'s reply. */
  datatype FieldValue = FieldValue(value: Value, displayValue: Value)

  /** The loop of `wireRecordInfo` keeping only the value of every field. */
  method DatabaseState(fields: map<string, FieldValue>) returns (db: Record)
    ensures db.Keys == fields.Keys
    ensures forall k :: k in fields ==> db[k] == fields[k].value
  {
    db := map[];
    var todo := fields.Keys;
    while todo != {}
      invariant todo <= fields.Keys
      invariant db.Keys == fields.Keys - todo
      invariant forall k :: k in db ==> db[k] == fields[k].value
      decreases todo
    {
      var key :| key in todo;
      db := db[key := fields[key].value];
      todo := todo - {key};
    }
  }

  /** The reply of the `getObjectInfo` wire: the fields (their labels) when there is
      data, an error, or neither. */
  datatype ObjectInfoResult = ObjectInfoData(fields: Option<map<string, Value>>) | ObjectInfoError(error: ReduceErrors.Errors) | ObjectInfoNone

  /** The reply of the `getRecord` wire. */
  datatype RecordResult = RecordData(fields: map<string, FieldValue>) | RecordError(error: ReduceErrors.Errors) | RecordNone

  predicate HasWarnings(currentWarnings: Option<seq<Value>>)
  {
    currentWarnings.Some? && |currentWarnings.value| > 0
  }

  /** The controller of one Save/Cancel footer. */
  class Controller {
    const element: Element
    var recordId: Value
    var objectApiName: Value
    var detach: Value
    var configuredWarnings: Option<seq<WarningMetadata>>
    var currentWarnings: Option<seq<Value>>
    var utilityBarIsDisplayed: bool
    var allFieldApiNames: Option<seq<string>>
    /** The label of every field, once `getObjectInfo` has answered. */
    var fieldInfo: Option<map<string, Value>>
    var editMode: bool
    var saveIsDisabled: bool
    var initialRecordState: Record
    var initialRecordStateHasBeenSet: bool
    var currentDatabaseState: Option<Record>
    var pendingUpdates: Record
    var requiredFieldApiNames: set<Value>
    var conflictingFieldsTabData: seq<ConflictRow>
    var showModal: bool
    /** The `updateRecord` calls made, with the fields sent. */
    var updateRequests: seq<Record>
    /** The number of `refreshApex` calls made. */
    var refreshRequests: nat
    var toasts: seq<Toast>

    constructor (group: Value, messageContext: Value, recordId: Value, objectApiName: Value, detach: Value,
                 configuredWarnings: Option<seq<WarningMetadata>>)
      ensures element.group == group && element.messageContext == messageContext
      ensures element.outbox == [] && element.subscription == None
      ensures this.recordId == recordId && this.objectApiName == objectApiName && this.detach == detach
      ensures this.configuredWarnings == configuredWarnings
      ensures currentWarnings == None && !utilityBarIsDisplayed
      ensures allFieldApiNames == None && fieldInfo == None
      ensures !editMode && !saveIsDisabled && initialRecordState == map[] && !initialRecordStateHasBeenSet
      ensures currentDatabaseState == None && pendingUpdates == map[] && requiredFieldApiNames == {}
      ensures conflictingFieldsTabData == [] && !showModal
      ensures updateRequests == [] && refreshRequests == 0 && toasts == []
    {
      element := new Element(group, messageContext);
      this.recordId := recordId;
      this.objectApiName := objectApiName;
      this.detach := detach;
      this.configuredWarnings := configuredWarnings;
      currentWarnings := None;
      utilityBarIsDisplayed := false;
      allFieldApiNames := None;
      fieldInfo := None;
      editMode := false;
      saveIsDisabled := false;
      initialRecordState := map[];
      initialRecordStateHasBeenSet := false;
      currentDatabaseState := None;
      pendingUpdates := map[];
      requiredFieldApiNames := {};
      conflictingFieldsTabData := [];
      showModal := false;
      updateRequests := [];
      refreshRequests := 0;
      toasts := [];
    }

    /** The state messages change. */
    function CurrentEdits(): Edits
      reads this
    {
      Edits(editMode, saveIsDisabled, pendingUpdates, requiredFieldApiNames)
    }

    /** What `save` does: close the modal, stamp the record id on the pending edits,
        announce SAVE_START and send the edits to `updateRecord`. */
    twostate predicate Saved()
      reads this, element
    {
      && !showModal
      && pendingUpdates == old(pendingUpdates)["Id" := recordId]
      && updateRequests == old(updateRequests) + [pendingUpdates]
      && element.outbox == old(element.outbox) + Published(element.messageContext, SAVE_START, element.group, NoPayload)
    }

    /** `currentState`: the snapshot's properties, then the pending edits over them. */
    method CurrentState() returns (result: Record)
      ensures result == StateOf(initialRecordState, pendingUpdates)
    {
      result := map[];
      var todo := initialRecordState.Keys;
      while todo != {}
        invariant todo <= initialRecordState.Keys
        invariant result.Keys == initialRecordState.Keys - todo
        invariant forall k :: k in result ==> result[k] == initialRecordState[k]
        decreases todo
      {
        var key :| key in todo;
        result := result[key := initialRecordState[key]];
        todo := todo - {key};
      }
      todo := pendingUpdates.Keys;
      while todo != {}
        invariant todo <= pendingUpdates.Keys
        invariant result.Keys == initialRecordState.Keys + (pendingUpdates.Keys - todo)
        invariant forall k :: k in result && k in pendingUpdates && k !in todo ==> result[k] == pendingUpdates[k]
        invariant forall k :: k in result && (k !in pendingUpdates || k in todo) ==> result[k] == initialRecordState[k]
        decreases todo
      {
        var key :| key in todo;
        result := result[key := pendingUpdates[key]];
        todo := todo - {key};
      }
    }

    /** `getSaveIsDisabled`: whether some required field is falsy in the current state. */
    method GetSaveIsDisabled() returns (disabled: bool)
      ensures disabled == SaveBlocked(requiredFieldApiNames, StateOf(initialRecordState, pendingUpdates))
    {
      var todo := requiredFieldApiNames;
      while todo != {}
        invariant todo <= requiredFieldApiNames
        invariant forall f :: f in requiredFieldApiNames && f !in todo
                    ==> Truthy(GetBy(StateOf(initialRecordState, pendingUpdates), f))
        decreases todo
      {
        var field :| field in todo;
        var state := CurrentState();
        if !Truthy(GetBy(state, field)) {
          return true;
        }
        todo := todo - {field};
      }
      return false;
    }

    /** `conditionalWarnings`: one entry per configured warning, in order. */
    method ConditionalWarnings() returns (result: seq<ConditionalWarning>)
      ensures configuredWarnings.None? ==> result == []
      ensures configuredWarnings.Some? ==>
        && |result| == |configuredWarnings.value|
        && forall i :: 0 <= i < |result| ==>
             result[i] == ConditionalWarning(configuredWarnings.value[i].masterLabel, configuredWarnings.value[i].flowApiName)
    {
      result := [];
      if configuredWarnings.Some? {
        var data := configuredWarnings.value;
        for i := 0 to |data|
          invariant |result| == i
          invariant forall j :: 0 <= j < i ==> result[j] == ConditionalWarning(data[j].masterLabel, data[j].flowApiName)
        {
          result := result + [ConditionalWarning(data[i].masterLabel, data[i].flowApiName)];
        }
      }
    }

    /** `handleMessage`. */
    method HandleMessage(m: Message)
      modifies this`editMode, this`saveIsDisabled, this`pendingUpdates, this`requiredFieldApiNames, element`outbox
      ensures CurrentEdits() == HandleEdits(old(CurrentEdits()), m, recordId, initialRecordState)
      ensures element.outbox == old(element.outbox)
        + (if RepliesEdit(old(editMode), m) then Published(element.messageContext, EDIT, element.group, NoPayload) else [])
    {
      if StrictEquals(m.eventType, Str(CHECK_EDIT)) {
        if editMode {
          element.Broadcast(EDIT, NoPayload);
        }
      } else {
        ApplyEdits(m);
      }
    }

    /** The branches of `handleMessage` that change the edit state. */
    method ApplyEdits(m: Message)
      modifies this`editMode, this`saveIsDisabled, this`pendingUpdates, this`requiredFieldApiNames
      ensures CurrentEdits() == HandleEdits(old(CurrentEdits()), m, recordId, initialRecordState)
    {
      var eventType := m.eventType;
      if StrictEquals(eventType, Str(EDIT)) {
        editMode := true;
        saveIsDisabled := GetSaveIsDisabled();
      } else if StrictEquals(eventType, Str(CANCEL)) {
        editMode := false;
      } else if StrictEquals(eventType, Str(UPDATE)) {
        pendingUpdates := pendingUpdates["Id" := recordId];
        pendingUpdates := SetBy(pendingUpdates, m.fieldApiName, m.newValue);
        saveIsDisabled := GetSaveIsDisabled();
      } else if StrictEquals(eventType, Str(REQUIRED_FIELD)) {
        requiredFieldApiNames := requiredFieldApiNames + {m.fieldApiName};
        saveIsDisabled := GetSaveIsDisabled();
      } else if StrictEquals(eventType, Str(NO_LONGER_REQUIRED_FIELD)) {
        if m.fieldApiName in requiredFieldApiNames {
          requiredFieldApiNames := requiredFieldApiNames - {m.fieldApiName};
          saveIsDisabled := GetSaveIsDisabled();
        }
      }
    }

    /** `verifyAndHandleMessage`: only messages of the component's group are handled. */
    method Receive(m: Option<Message>)
      modifies this`editMode, this`saveIsDisabled, this`pendingUpdates, this`requiredFieldApiNames, element`outbox
      ensures !Accepts(m, element.group) ==> CurrentEdits() == old(CurrentEdits()) && element.outbox == old(element.outbox)
      ensures Accepts(m, element.group) ==>
        && CurrentEdits() == HandleEdits(old(CurrentEdits()), m.value, recordId, initialRecordState)
        && element.outbox == old(element.outbox)
             + (if RepliesEdit(old(editMode), m.value) then Published(element.messageContext, EDIT, element.group, NoPayload) else [])
    {
      if m.Some? && Truthy(m.value.eventType) && StrictEquals(m.value.group, element.group) {
        HandleMessage(m.value);
      }
    }

    /** `cancel`: forget the edits and the required fields, close the modal, let the
        next record load take a new snapshot, and announce CANCEL. */
    method Cancel()
      modifies this`pendingUpdates, this`requiredFieldApiNames, this`showModal, this`initialRecordStateHasBeenSet
      modifies element`outbox
      ensures pendingUpdates == map[] && requiredFieldApiNames == {}
      ensures !showModal && !initialRecordStateHasBeenSet
      ensures element.outbox == old(element.outbox) + Published(element.messageContext, CANCEL, element.group, NoPayload)
    {
      pendingUpdates := map[];
      requiredFieldApiNames := {};
      showModal := false;
      initialRecordStateHasBeenSet := false;
      element.Broadcast(CANCEL, NoPayload);
    }

    /** `save`, up to the call to `updateRecord`. */
    method Save()
      modifies this`showModal, this`pendingUpdates, this`updateRequests, element`outbox
      ensures Saved()
    {
      showModal := false;
      pendingUpdates := pendingUpdates["Id" := recordId];
      element.Broadcast(SAVE_START, NoPayload);
      updateRequests := updateRequests + [pendingUpdates];
    }

    /** The continuation of `save` once `updateRecord` settles (`failure` is the
        rejection, if any): a success toast and `cancel`, or an error toast; then
        SAVE_END. A message that cannot be generated rejects the chain, and SAVE_END
        is not announced. */
    method SaveCompleted(failure: Option<ReduceErrors.Errors>)
      modifies this`toasts, this`pendingUpdates, this`requiredFieldApiNames, this`showModal
      modifies this`initialRecordStateHasBeenSet, element`outbox
      ensures failure.None? ==>
        && toasts == old(toasts) + [Toast("Success", Str("Record updated"), "success")]
        && pendingUpdates == map[] && requiredFieldApiNames == {} && !showModal && !initialRecordStateHasBeenSet
        && element.outbox == old(element.outbox)
             + Published(element.messageContext, CANCEL, element.group, NoPayload)
             + Published(element.messageContext, SAVE_END, element.group, NoPayload)
      ensures failure.Some? && GenerateErrorMessageAsWritten(failure.value).Throws? ==>
        && toasts == old(toasts) && pendingUpdates == old(pendingUpdates)
        && requiredFieldApiNames == old(requiredFieldApiNames) && showModal == old(showModal)
        && initialRecordStateHasBeenSet == old(initialRecordStateHasBeenSet) && element.outbox == old(element.outbox)
      ensures failure.Some? && GenerateErrorMessageAsWritten(failure.value).Returns? ==>
        && toasts == old(toasts)
             + [Toast("Error Updating Record", GenerateErrorMessageAsWritten(failure.value).value, "error")]
        && pendingUpdates == old(pendingUpdates) && requiredFieldApiNames == old(requiredFieldApiNames)
        && showModal == old(showModal) && initialRecordStateHasBeenSet == old(initialRecordStateHasBeenSet)
        && element.outbox == old(element.outbox) + Published(element.messageContext, SAVE_END, element.group, NoPayload)
    {
      if failure.None? {
        toasts := toasts + [Toast("Success", Str("Record updated"), "success")];
        Cancel();
      } else {
        var message := GenerateErrorMessage(failure.value);
        if message.Throws? {
          return;
        }
        toasts := toasts + [Toast("Error Updating Record", message.value, "error")];
      }
      element.Broadcast(SAVE_END, NoPayload);
    }

    /** `checkWarningsAndSave`: save unless there are warnings to confirm. */
    method CheckWarningsAndSave()
      modifies this`showModal, this`pendingUpdates, this`updateRequests, element`outbox
      ensures HasWarnings(currentWarnings) ==>
        && showModal == old(showModal) && pendingUpdates == old(pendingUpdates)
        && updateRequests == old(updateRequests) && element.outbox == old(element.outbox)
      ensures !HasWarnings(currentWarnings) ==> Saved()
    {
      if !(currentWarnings.Some? && |currentWarnings.value| > 0) {
        Save();
      }
    }

    /** `checkRecordUpdatedByOthers`, up to the call to `refreshApex`. */
    method CheckRecordUpdatedByOthers()
      modifies this`conflictingFieldsTabData, this`refreshRequests
      ensures conflictingFieldsTabData == [] && refreshRequests == old(refreshRequests) + 1
    {
      conflictingFieldsTabData := [];
      refreshRequests := refreshRequests + 1;
    }

    /** The continuation of `checkRecordUpdatedByOthers` once the record has been
        refreshed (the refreshed values are in `currentDatabaseState`). `keys` is
        the order in which the pending edits are visited. Without a database state
        the continuation throws at once and changes nothing. */
    method RecordRefreshed(keys: seq<string>)
      requires Enumerates(keys, pendingUpdates)
      modifies this`conflictingFieldsTabData, this`showModal, this`pendingUpdates, this`updateRequests, element`outbox
      ensures currentDatabaseState.None? ==>
        && conflictingFieldsTabData == old(conflictingFieldsTabData) && showModal == old(showModal)
        && pendingUpdates == old(pendingUpdates) && updateRequests == old(updateRequests)
        && element.outbox == old(element.outbox)
      ensures currentDatabaseState.Some? ==>
        var db := currentDatabaseState.value;
        var d := Decide(initialRecordState, old(pendingUpdates), keys, db, fieldInfo, old(conflictingFieldsTabData));
        var saves := d == CheckWarnings && !HasWarnings(currentWarnings);
        && conflictingFieldsTabData
             == RowsAfterRefresh(initialRecordState, old(pendingUpdates), keys, db, fieldInfo, old(conflictingFieldsTabData))
        && showModal == (if d == ShowConflicts then true else if saves then false else old(showModal))
        && pendingUpdates == (if saves then old(pendingUpdates)["Id" := recordId] else old(pendingUpdates))
        && updateRequests == (if saves then old(updateRequests) + [pendingUpdates] else old(updateRequests))
        && element.outbox == old(element.outbox)
             + (if saves then Published(element.messageContext, SAVE_START, element.group, NoPayload) else [])
    {
      if currentDatabaseState.None? {
        return;
      }
      var db := currentDatabaseState.value;
      if !StrictEquals(Get(db, LMD), Get(initialRecordState, LMD)) {
        var s := FindConflicts(keys, initialRecordState, pendingUpdates, db, fieldInfo);
        conflictingFieldsTabData := conflictingFieldsTabData + s.rows;
        if s.thrown {
          return;
        }
        if |conflictingFieldsTabData| > 0 {
          showModal := true;
        } else if s.skip || |keys| == 0 {
          assert |keys| == 0 <==> pendingUpdates == map[] by {
            if pendingUpdates != map[] {
              var k :| k in pendingUpdates;
              assert k in keys;
            }
          }
          CheckWarningsAndSave();
        } else {
          assert pendingUpdates != map[] by {
            assert keys[0] in pendingUpdates;
          }
        }
      } else {
        CheckWarningsAndSave();
      }
    }

    /** `handleConflictOptionChange`: choosing a value in the conflict table makes it
        the pending edit of that field. */
    method HandleConflictOptionChange(field: Value, value: Value, selected: bool)
      modifies this`pendingUpdates
      ensures selected ==> pendingUpdates == SetBy(old(pendingUpdates), field, value)
      ensures !selected ==> pendingUpdates == old(pendingUpdates)
    {
      if selected {
        pendingUpdates := SetBy(pendingUpdates, field, value);
      }
    }

    /** `wireObjectInfo`: with fields, remember their labels and their qualified
        names (`keys` is their order); on an error, toast its message. */
    method WireObjectInfo(result: ObjectInfoResult, keys: seq<string>)
      requires result.ObjectInfoData? && result.fields.Some? ==> Enumerates(keys, result.fields.value)
      modifies this`fieldInfo, this`allFieldApiNames, this`toasts
      ensures result.ObjectInfoData? && result.fields.Some? ==>
        && fieldInfo == result.fields
        && allFieldApiNames.Some? && |allFieldApiNames.value| == |keys|
        && (forall i :: 0 <= i < |keys| ==> allFieldApiNames.value[i] == Qualified(objectApiName, keys[i]))
        && toasts == old(toasts)
      ensures result.ObjectInfoError? && GenerateErrorMessageAsWritten(result.error).Returns? ==>
        && toasts == old(toasts)
             + [Toast("Error Fetching Fields", GenerateErrorMessageAsWritten(result.error).value, "error")]
        && fieldInfo == old(fieldInfo) && allFieldApiNames == old(allFieldApiNames)
      ensures (!(result.ObjectInfoData? && result.fields.Some?)
               && !(result.ObjectInfoError? && GenerateErrorMessageAsWritten(result.error).Returns?)) ==>
        fieldInfo == old(fieldInfo) && allFieldApiNames == old(allFieldApiNames) && toasts == old(toasts)
    {
      match result
      case ObjectInfoData(fields) =>
        if fields.Some? {
          var names := QualifiedFieldNames(objectApiName, keys);
          fieldInfo := fields;
          allFieldApiNames := Some(names);
        }
      case ObjectInfoError(error) =>
        var message := GenerateErrorMessage(error);
        if message.Returns? {
          toasts := toasts + [Toast("Error Fetching Fields", message.value, "error")];
        }
      case ObjectInfoNone =>
    }

    /** `wireRecordInfo`: on an error, toast its message; before the field names are
        known, do nothing; otherwise record the database state and, on the first load
        since construction or `cancel`, take it as the snapshot. A reply without data
        throws after the database state was reset to `{}`. */
    method WireRecordInfo(result: RecordResult)
      modifies this`toasts, this`currentDatabaseState, this`initialRecordState, this`initialRecordStateHasBeenSet
      ensures result.RecordError? ==>
        && currentDatabaseState == old(currentDatabaseState)
        && initialRecordState == old(initialRecordState)
        && initialRecordStateHasBeenSet == old(initialRecordStateHasBeenSet)
        && toasts == old(toasts)
             + (if GenerateErrorMessageAsWritten(result.error).Returns?
                then [Toast("Error Getting Record Values", GenerateErrorMessageAsWritten(result.error).value, "error")]
                else [])
      ensures !result.RecordError? && allFieldApiNames.None? ==>
        && currentDatabaseState == old(currentDatabaseState) && initialRecordState == old(initialRecordState)
        && initialRecordStateHasBeenSet == old(initialRecordStateHasBeenSet)
      ensures result.RecordNone? && allFieldApiNames.Some? ==>
        && currentDatabaseState == Some(map[])
        && initialRecordState == old(initialRecordState)
        && initialRecordStateHasBeenSet == old(initialRecordStateHasBeenSet)
      ensures result.RecordData? && allFieldApiNames.Some? ==>
        && currentDatabaseState.Some?
        && currentDatabaseState.value.Keys == result.fields.Keys
        && (forall k :: k in result.fields ==> currentDatabaseState.value[k] == result.fields[k].value)
        && initialRecordStateHasBeenSet
        && (old(initialRecordStateHasBeenSet) ==> initialRecordState == old(initialRecordState))
        && (!old(initialRecordStateHasBeenSet) ==> initialRecordState == currentDatabaseState.value)
      ensures !result.RecordError? ==> toasts == old(toasts)
    {
      if result.RecordError? {
        var message := GenerateErrorMessage(result.error);
        if message.Returns? {
          toasts := toasts + [Toast("Error Getting Record Values", message.value, "error")];
        }
        return;
      }
      if allFieldApiNames.None? {
        return;
      }
      currentDatabaseState := Some(map[]);
      if result.RecordNone? {
        return;
      }
      var db := DatabaseState(result.fields);
      currentDatabaseState := Some(db);
      if !initialRecordStateHasBeenSet {
        initialRecordState := db;
        initialRecordStateHasBeenSet := true;
      }
    }
  }
}
