/** The predefined-values component: field values configured on the component or
    passed in the URL (`defaultFieldValues`, `c__fieldOverrides`, both in the format
    `Field=Value,Field2=Value2`) are announced to the form as UPDATE messages, URL
    values first, except for fields the user has already changed. */
module PredefinedValues {
  import opened Wrappers
  import opened JsValues
  import opened Strings
  import opened FormElement

  // ---------------------------------------------------------------------------
  // `extractFields`

  /** A comma-separated piece that `split("=")` cuts into exactly two parts. */
  predicate IsAssignment(piece: string)
  {
    |Split(piece, '=')| == 2
  }

  function KeyOf(piece: string): string
    requires IsAssignment(piece)
  {
    Split(piece, '=')[0]
  }

  function RawValueOf(piece: string): string
    requires IsAssignment(piece)
  {
    Split(piece, '=')[1]
  }

  /** A kept piece is `key=value` with a single `=`, and a piece with a single `=`
      is kept. */
  lemma AssignmentShape(piece: string)
    ensures IsAssignment(piece) <==> Count(piece, '=') == 1
    ensures IsAssignment(piece) ==>
      piece == KeyOf(piece) + "=" + RawValueOf(piece) && '=' !in KeyOf(piece) && '=' !in RawValueOf(piece)
  {
    SplitCount(piece, '=');
    if IsAssignment(piece) {
      var parts := Split(piece, '=');
      JoinSplit(piece, '=');
      assert parts[1..] == [parts[1]];
      assert Join(parts, "=") == parts[0] + "=" + parts[1];
    }
  }

  /** The `forEach` over the pieces in order: every kept piece sets its key to its
      decoded value. `decode` stands for `decodeURIComponent`; `None` is the
      `URIError` it throws on a malformed escape. */
  function Assign(pieces: seq<string>, decode: string -> Option<string>): Outcome<Record>
  {
    if pieces == [] then Returns(map[])
    else
      var last := pieces[|pieces| - 1];
      match Assign(pieces[..|pieces| - 1], decode)
      case Throws => Throws
      case Returns(fields) =>
        if IsAssignment(last) then
          match decode(RawValueOf(last))
          case None => Throws
          case Some(v) => Returns(fields[KeyOf(last) := Str(v)])
        else Returns(fields)
  }

  /** `extractFields(data)`: `{}` for a missing or empty parameter, otherwise the
      assignments of the comma-separated pieces. */
  function ExtractFields(data: Option<string>, decode: string -> Option<string>): (r: Outcome<Record>)
    ensures data.None? || data == Some("") ==> r == Returns(map[])
    ensures data.Some? && data.value != "" ==> r == Assign(Split(data.value, ','), decode)
  {
    if data.None? || data.value == "" then Returns(map[]) else Assign(Split(data.value, ','), decode)
  }

  /** The fields found are exactly the keys of the kept pieces, and their values
      are decoded strings. */
  lemma {:induction false} AssignKeys(pieces: seq<string>, decode: string -> Option<string>)
    requires Assign(pieces, decode).Returns?
    ensures forall k :: k in Assign(pieces, decode).value <==>
      exists i :: 0 <= i < |pieces| && IsAssignment(pieces[i]) && KeyOf(pieces[i]) == k
    ensures forall k :: k in Assign(pieces, decode).value ==> Assign(pieces, decode).value[k].Str?
  {
    if pieces != [] {
      var init := pieces[..|pieces| - 1];
      var last := |pieces| - 1;
      AssignKeys(init, decode);
      forall k | k in Assign(pieces, decode).value
        ensures exists i :: 0 <= i < |pieces| && IsAssignment(pieces[i]) && KeyOf(pieces[i]) == k
      {
        if !(IsAssignment(pieces[last]) && KeyOf(pieces[last]) == k) {
          var i :| 0 <= i < |init| && IsAssignment(init[i]) && KeyOf(init[i]) == k;
          assert pieces[i] == init[i];
        }
      }
      forall k | exists i :: 0 <= i < |pieces| && IsAssignment(pieces[i]) && KeyOf(pieces[i]) == k
        ensures k in Assign(pieces, decode).value
      {
        var i :| 0 <= i < |pieces| && IsAssignment(pieces[i]) && KeyOf(pieces[i]) == k;
        if i < last {
          assert init[i] == pieces[i];
        }
      }
    }
  }

  /** A later piece with the same key wins: a key's value is the decoded value of
      its last piece. */
  lemma {:induction false} AssignLastWins(pieces: seq<string>, decode: string -> Option<string>, i: nat)
    requires Assign(pieces, decode).Returns?
    requires i < |pieces| && IsAssignment(pieces[i])
    requires forall j :: i < j < |pieces| && IsAssignment(pieces[j]) ==> KeyOf(pieces[j]) != KeyOf(pieces[i])
    ensures decode(RawValueOf(pieces[i])).Some? && KeyOf(pieces[i]) in Assign(pieces, decode).value
    ensures Assign(pieces, decode).value[KeyOf(pieces[i])] == Str(decode(RawValueOf(pieces[i])).value)
  {
    var init := pieces[..|pieces| - 1];
    if i < |pieces| - 1 {
      assert init[i] == pieces[i];
      forall j | i < j < |init| && IsAssignment(init[j]) ensures KeyOf(init[j]) != KeyOf(init[i]) {
        assert init[j] == pieces[j];
      }
      AssignLastWins(init, decode, i);
    }
  }

  /** The extraction throws exactly when some kept piece has a value that does not
      decode. */
  lemma {:induction false} AssignThrows(pieces: seq<string>, decode: string -> Option<string>)
    ensures Assign(pieces, decode).Throws? <==>
      exists i :: 0 <= i < |pieces| && IsAssignment(pieces[i]) && decode(RawValueOf(pieces[i])).None?
  {
    if pieces != [] {
      var init := pieces[..|pieces| - 1];
      var last := |pieces| - 1;
      AssignThrows(init, decode);
      if Assign(init, decode).Throws? {
        var i :| 0 <= i < |init| && IsAssignment(init[i]) && decode(RawValueOf(init[i])).None?;
        assert pieces[i] == init[i];
      } else if !(IsAssignment(pieces[last]) && decode(RawValueOf(pieces[last])).None?) {
        forall i | 0 <= i < |pieces| && IsAssignment(pieces[i])
          ensures decode(RawValueOf(pieces[i])).Some?
        {
          if i < last {
            assert init[i] == pieces[i];
          }
        }
      }
    }
  }

  // ---------------------------------------------------------------------------
  // `getStateParameters`

  /** `currentPageReference?.state?.[name]`. */
  function StateParam(pageRef: Option<PageRef>, name: string): Option<string>
  {
    if pageRef.Some? && pageRef.value.state.Some? && name in pageRef.value.state.value
    then Some(pageRef.value.state.value[name])
    else None
  }

  /** `{...extractFields(defaultFieldValues), ...extractFields(c__fieldOverrides)}`:
      a `c__fieldOverrides` entry beats a `defaultFieldValues` entry of the same
      key. It throws when either extraction throws. */
  function UrlOverrides(pageRef: Option<PageRef>, decode: string -> Option<string>): (r: Outcome<Record>)
    ensures var d := ExtractFields(StateParam(pageRef, "defaultFieldValues"), decode);
            var c := ExtractFields(StateParam(pageRef, "c__fieldOverrides"), decode);
      && (r.Returns? <==> d.Returns? && c.Returns?)
      && (r.Returns? ==>
            && r.value.Keys == d.value.Keys + c.value.Keys
            && (forall k :: k in c.value ==> r.value[k] == c.value[k])
            && (forall k :: k in d.value && k !in c.value ==> r.value[k] == d.value[k]))
  {
    match ExtractFields(StateParam(pageRef, "defaultFieldValues"), decode)
    case Throws => Throws
    case Returns(d) =>
      match ExtractFields(StateParam(pageRef, "c__fieldOverrides"), decode)
      case Throws => Throws
      case Returns(c) => Returns(Spread(d, c))
  }

  /** Every URL override is a string, so none of them is null or undefined. */
  lemma UrlOverridesAreStrings(pageRef: Option<PageRef>, decode: string -> Option<string>)
    requires UrlOverrides(pageRef, decode).Returns?
    ensures forall k :: k in UrlOverrides(pageRef, decode).value ==> UrlOverrides(pageRef, decode).value[k].Str?
  {
    var d := StateParam(pageRef, "defaultFieldValues");
    var c := StateParam(pageRef, "c__fieldOverrides");
    if d.Some? && d.value != "" {
      AssignKeys(Split(d.value, ','), decode);
    }
    if c.Some? && c.value != "" {
      AssignKeys(Split(c.value, ','), decode);
    }
  }

  // ---------------------------------------------------------------------------
  // Overrides and the fields the user changed

  /** A configured object: its identity (what `!==` compares) and its properties. */
  datatype Obj = Obj(id: nat, props: Record)

  /** `getPredefinedValue(field)`: the URL override unless it is null or undefined,
      else the component-level value. */
  function PredefinedValue(url: Record, predefined: Record, field: Value): (v: Value)
    ensures !IsNullish(GetBy(url, field)) ==> v == GetBy(url, field)
    ensures IsNullish(GetBy(url, field)) ==> v == GetBy(predefined, field)
  {
    Coalesce(GetBy(url, field), GetBy(predefined, field))
  }

  /** The messages `broadcastFieldOverrides` publishes when it visits the merged
      entries in the order `keys`: one UPDATE per field the user has not changed,
      carrying the merged value. */
  function Overrides(keys: seq<string>, merged: Record, changed: set<Value>, messageContext: Value, group: Value)
    : (out: seq<Message>)
    ensures forall i :: 0 <= i < |out| ==>
      && out[i].eventType == Str(UPDATE) && out[i].group == group
      && out[i].fieldApiName.Str? && out[i].fieldApiName.s in keys
      && out[i].fieldApiName !in changed
      && out[i].newValue == Get(merged, out[i].fieldApiName.s)
    ensures !Truthy(messageContext) ==> out == []
  {
    if keys == [] then []
    else
      var init := Overrides(keys[..|keys| - 1], merged, changed, messageContext, group);
      var field := keys[|keys| - 1];
      assert forall k :: k in keys[..|keys| - 1] ==> k in keys;
      init + (if Str(field) in changed then []
              else Published(messageContext, UPDATE, group, Payload(Str(field), Get(merged, field))))
  }

  /** Visiting one more key appends at most that key's message. */
  lemma OverridesStep(keys: seq<string>, i: nat, merged: Record, changed: set<Value>, messageContext: Value, group: Value)
    requires i < |keys|
    ensures Overrides(keys[..i + 1], merged, changed, messageContext, group)
      == Overrides(keys[..i], merged, changed, messageContext, group)
         + (if Str(keys[i]) in changed then []
            else Published(messageContext, UPDATE, group, Payload(Str(keys[i]), Get(merged, keys[i]))))
  {
    assert keys[..i + 1][..i] == keys[..i];
  }

  /** Some message of `out` is about `field`. */
  predicate Announces(out: seq<Message>, field: string)
  {
    exists i :: 0 <= i < |out| && out[i].fieldApiName == Str(field)
  }

  /** No two messages of `out` are about the same field. */
  predicate OncePerField(out: seq<Message>)
  {
    forall i, j :: 0 <= i < j < |out| ==> out[i].fieldApiName != out[j].fieldApiName
  }

  /** With a message context, every field the user has not changed is announced. */
  lemma {:induction false} OverridesCoverUnchangedFields(keys: seq<string>, merged: Record, changed: set<Value>,
                                                         messageContext: Value, group: Value)
    requires Truthy(messageContext)
    ensures forall k :: k in keys && Str(k) !in changed ==> Announces(Overrides(keys, merged, changed, messageContext, group), k)
  {
    if keys != [] {
      var init := keys[..|keys| - 1];
      OverridesCoverUnchangedFields(init, merged, changed, messageContext, group);
      var before := Overrides(init, merged, changed, messageContext, group);
      var out := Overrides(keys, merged, changed, messageContext, group);
      var field := keys[|keys| - 1];
      var tail := if Str(field) in changed then []
                  else Published(messageContext, UPDATE, group, Payload(Str(field), Get(merged, field)));
      assert out == before + tail;
      assert keys == init + [field];
      forall k | k in keys && Str(k) !in changed
        ensures Announces(out, k)
      {
        if k != field {
          assert k in init;
          var i :| 0 <= i < |before| && before[i].fieldApiName == Str(k);
          assert out[i] == before[i];
        } else {
          var p := Published(messageContext, UPDATE, group, Payload(Str(field), Get(merged, field)));
          assert out == before + p;
          assert out[|before|] == p[0];
        }
      }
    }
  }

  /** When the keys are distinct, no field is announced twice. */
  lemma {:induction false} NoFieldAnnouncedTwice(keys: seq<string>, merged: Record, changed: set<Value>,
                                                 messageContext: Value, group: Value)
    requires forall i, j :: 0 <= i < j < |keys| ==> keys[i] != keys[j]
    ensures OncePerField(Overrides(keys, merged, changed, messageContext, group))
  {
    if keys != [] {
      var init := keys[..|keys| - 1];
      var field := keys[|keys| - 1];
      NoFieldAnnouncedTwice(init, merged, changed, messageContext, group);
      var before := Overrides(init, merged, changed, messageContext, group);
      var out := Overrides(keys, merged, changed, messageContext, group);
      var tail := if Str(field) in changed then []
                  else Published(messageContext, UPDATE, group, Payload(Str(field), Get(merged, field)));
      assert out == before + tail;
      assert field !in init by {
        forall j | 0 <= j < |init| ensures init[j] != field {
          assert init[j] == keys[j];
        }
      }
      forall i, j | 0 <= i < j < |out| ensures out[i].fieldApiName != out[j].fieldApiName {
        if j >= |before| {
          var p := Published(messageContext, UPDATE, group, Payload(Str(field), Get(merged, field)));
          assert out == before + p;
          assert out[i] == before[i] && out[j] == p[0];
          assert before[i].fieldApiName.s in init;
        } else {
          assert out[i] == before[i] && out[j] == before[j];
        }
      }
    }
  }

  /** The merged entries give URL values precedence, and when every URL value is
      a string each announced value is the field's `getPredefinedValue`. */
  lemma MergedAgreesWithPredefinedValue(url: Record, predefined: Record, k: string)
    requires forall f :: f in url ==> url[f].Str?
    requires k in Spread(predefined, url)
    ensures k in url ==> Get(Spread(predefined, url), k) == url[k]
    ensures Get(Spread(predefined, url), k) == PredefinedValue(url, predefined, Str(k))
  {
  }

  /** How `handleMessage` changes the fields the user changed; `predefined` is the
      message field's `getPredefinedValue`. */
  function TrackChanges(changed: set<Value>, m: Message, predefined: Value): set<Value>
  {
    if StrictEquals(m.eventType, Str(CHECK_OVERRIDES)) then changed
    else if StrictEquals(m.eventType, Str(UPDATE)) then
      if !StrictEquals(predefined, m.newValue) then changed + {m.fieldApiName} else changed
    else if StrictEquals(m.eventType, Str(CANCEL)) then {}
    else if StrictEquals(m.eventType, Str(SAVE_END)) then {}
    else changed
  }

  /** An UPDATE marks its field exactly when the new value differs from the
      predefined one; CANCEL and SAVE_END forget every change; other messages
      keep the set. */
  lemma TrackChangesCases(changed: set<Value>, m: Message, predefined: Value)
    ensures StrictEquals(m.eventType, Str(UPDATE)) ==>
      forall f :: f in TrackChanges(changed, m, predefined)
        <==> f in changed || (f == m.fieldApiName && !StrictEquals(predefined, m.newValue))
    ensures StrictEquals(m.eventType, Str(CANCEL)) || StrictEquals(m.eventType, Str(SAVE_END))
      ==> TrackChanges(changed, m, predefined) == {}
    ensures !StrictEquals(m.eventType, Str(UPDATE)) && !StrictEquals(m.eventType, Str(CANCEL))
            && !StrictEquals(m.eventType, Str(SAVE_END))
      ==> TrackChanges(changed, m, predefined) == changed
  {
  }

  /** A field the user set to something other than its predefined value is not
      overridden again, until a CANCEL or SAVE_END. */
  lemma ChangedFieldNotOverridden(keys: seq<string>, merged: Record, changed: set<Value>, m: Message,
                                  predefined: Value, messageContext: Value, group: Value)
    requires StrictEquals(m.eventType, Str(UPDATE)) && !StrictEquals(predefined, m.newValue)
    ensures forall k :: Str(k) == m.fieldApiName ==>
              !Announces(Overrides(keys, merged, TrackChanges(changed, m, predefined), messageContext, group), k)
  {
    assert m.fieldApiName in TrackChanges(changed, m, predefined);
  }

  /** After a CANCEL, every field is announced again. */
  lemma CancelRestoresOverrides(keys: seq<string>, merged: Record, changed: set<Value>, m: Message,
                                predefined: Value, messageContext: Value, group: Value)
    requires StrictEquals(m.eventType, Str(CANCEL)) && Truthy(messageContext)
    ensures forall k :: k in keys ==> Announces(Overrides(keys, merged, TrackChanges(changed, m, predefined), messageContext, group), k)
  {
    OverridesCoverUnchangedFields(keys, merged, {}, messageContext, group);
  }

  /** The object `tryToParseJSON` returns, with `freshId` the identity of an object
      it creates. */
  function ParseConfig(value: ConfigInput<Obj>, parse: string -> Option<Record>, freshId: nat): Obj
  {
    TryToParseJson(value, (s: string) => if parse(s).Some? then Some(Obj(freshId, parse(s).value)) else None,
                   Obj(freshId, map[]))
  }

  /** Only an object passed through unchanged keeps the identity; text and any other
      value give a new object, which is announced. */
  lemma NewConfigurationIsNewObject(value: ConfigInput<Obj>, parse: string -> Option<Record>, freshId: nat)
    ensures value.JsonObject? ==> ParseConfig(value, parse, freshId) == value.obj
    ensures !value.JsonObject? ==> ParseConfig(value, parse, freshId).id == freshId
    ensures value.JsonText? && parse(RemoveLineBreaks(value.text)).Some?
      ==> ParseConfig(value, parse, freshId).props == parse(RemoveLineBreaks(value.text)).value
    ensures value.JsonText? && parse(RemoveLineBreaks(value.text)).None?
      ==> ParseConfig(value, parse, freshId).props == map[]
  {
  }

  class Component {
    const element: Element
    var readValuesFromUrl: Value
    var predefinedFields: Obj
    var urlFieldOverrides: Record
    var fieldsThatHaveChanged: set<Value>

    constructor (group: Value, messageContext: Value, readValuesFromUrl: Value, id: nat)
      ensures element.group == group && element.messageContext == messageContext && element.outbox == []
      ensures this.readValuesFromUrl == readValuesFromUrl
      ensures predefinedFields == Obj(id, map[]) && urlFieldOverrides == map[] && fieldsThatHaveChanged == {}
    {
      element := new Element(group, messageContext);
      this.readValuesFromUrl := readValuesFromUrl;
      predefinedFields := Obj(id, map[]);
      urlFieldOverrides := map[];
      fieldsThatHaveChanged := {};
    }

    /** The entries `broadcastFieldOverrides` visits. */
    function Merged(): Record
      reads this
    {
      Spread(predefinedFields.props, urlFieldOverrides)
    }

    /** The setter of `predefinedFieldValues`: parse the value and announce
        CHECK_OVERRIDES when the object changed. `freshId` is the identity of an
        object the parse creates. */
    method SetPredefinedFieldValues(value: ConfigInput<Obj>, parse: string -> Option<Record>, freshId: nat)
      requires freshId != predefinedFields.id
      modifies this`predefinedFields, element`outbox
      ensures predefinedFields == ParseConfig(value, parse, freshId)
      ensures element.outbox == old(element.outbox)
        + (if predefinedFields.id != old(predefinedFields.id)
           then Published(element.messageContext, CHECK_OVERRIDES, element.group, NoPayload) else [])
    {
      var oldValues := predefinedFields;
      predefinedFields := ParseConfig(value, parse, freshId);
      if predefinedFields.id != oldValues.id {
        element.Broadcast(CHECK_OVERRIDES, NoPayload);
      }
    }

    /** `getStateParameters`: with `readValuesFromUrl`, the URL overrides are
        replaced by the ones of the page; a throw leaves them as they were. */
    method GetStateParameters(pageRef: Option<PageRef>, decode: string -> Option<string>)
      modifies this`urlFieldOverrides
      ensures Truthy(readValuesFromUrl) && UrlOverrides(pageRef, decode).Returns?
        ==> urlFieldOverrides == UrlOverrides(pageRef, decode).value
      ensures !(Truthy(readValuesFromUrl) && UrlOverrides(pageRef, decode).Returns?)
        ==> urlFieldOverrides == old(urlFieldOverrides)
    {
      if Truthy(readValuesFromUrl) {
        var overrides := UrlOverrides(pageRef, decode);
        if overrides.Returns? {
          urlFieldOverrides := overrides.value;
        }
      }
    }

    /** `getPredefinedValue`. */
    function GetPredefinedValue(field: Value): Value
      reads this
    {
      PredefinedValue(urlFieldOverrides, predefinedFields.props, field)
    }

    /** `broadcastFieldOverrides`, visiting the merged entries in the order `keys`. */
    method BroadcastFieldOverrides(keys: seq<string>)
      requires Enumerates(keys, Merged())
      modifies element`outbox
      ensures element.outbox == old(element.outbox)
        + Overrides(keys, Merged(), fieldsThatHaveChanged, element.messageContext, element.group)
    {
      var merged, changed := Merged(), fieldsThatHaveChanged;
      ghost var start, context, group := element.outbox, element.messageContext, element.group;
      for i := 0 to |keys|
        invariant element.outbox == start + Overrides(keys[..i], merged, changed, context, group)
      {
        var field := keys[i];
        OverridesStep(keys, i, merged, changed, context, group);
        if Str(field) !in changed {
          element.Broadcast(UPDATE, Payload(Str(field), Get(merged, field)));
        }
      }
      assert keys[..|keys|] == keys;
    }

    /** `handleMessage`; `keys` is the order of the merged entries. */
    method HandleMessage(m: Message, keys: seq<string>)
      requires StrictEquals(m.eventType, Str(CHECK_OVERRIDES)) ==> Enumerates(keys, Merged())
      modifies this`fieldsThatHaveChanged, element`outbox
      ensures fieldsThatHaveChanged == TrackChanges(old(fieldsThatHaveChanged), m, GetPredefinedValue(m.fieldApiName))
      ensures element.outbox == old(element.outbox)
        + (if StrictEquals(m.eventType, Str(CHECK_OVERRIDES))
           then Overrides(keys, Merged(), fieldsThatHaveChanged, element.messageContext, element.group) else [])
    {
      if StrictEquals(m.eventType, Str(CHECK_OVERRIDES)) {
        BroadcastFieldOverrides(keys);
      } else if StrictEquals(m.eventType, Str(UPDATE)) {
        if !StrictEquals(GetPredefinedValue(m.fieldApiName), m.newValue) {
          fieldsThatHaveChanged := fieldsThatHaveChanged + {m.fieldApiName};
        }
      } else if StrictEquals(m.eventType, Str(CANCEL)) {
        fieldsThatHaveChanged := {};
      } else if StrictEquals(m.eventType, Str(SAVE_END)) {
        fieldsThatHaveChanged := {};
      }
    }

    /** `verifyAndHandleMessage`. */
    method Receive(m: Option<Message>, keys: seq<string>)
      requires m.Some? && StrictEquals(m.value.eventType, Str(CHECK_OVERRIDES)) ==> Enumerates(keys, Merged())
      modifies this`fieldsThatHaveChanged, element`outbox
      ensures !Accepts(m, element.group) ==>
        fieldsThatHaveChanged == old(fieldsThatHaveChanged) && element.outbox == old(element.outbox)
      ensures Accepts(m, element.group) ==>
        && fieldsThatHaveChanged
             == TrackChanges(old(fieldsThatHaveChanged), m.value, GetPredefinedValue(m.value.fieldApiName))
        && element.outbox == old(element.outbox)
             + (if StrictEquals(m.value.eventType, Str(CHECK_OVERRIDES))
                then Overrides(keys, Merged(), fieldsThatHaveChanged, element.messageContext, element.group) else [])
    {
      if m.Some? && Truthy(m.value.eventType) && StrictEquals(m.value.group, element.group) {
        HandleMessage(m.value, keys);
      }
    }
  }
}
