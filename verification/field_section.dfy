/** The field section: it shows the fields of one section of a record, in view or
    in edit mode, and follows the form group's messages. Each field is a view
    element built from the server's field description; the handlers rewrite the
    elements one by one. `getFieldInfo` and `refreshApex` are inputs and logged
    requests. */
module FieldSection {
  import opened Wrappers
  import opened JsValues
  import opened FormElement

  const LABEL_HIDDEN := "label-hidden"
  const LABEL_STACKED := "label-stacked"
  const INACTIVE := "inactive"

  /** A field as `getFieldInfo` describes it. */
  datatype FieldInfo = FieldInfo(fieldApiName: Value, fieldLabel: Value, helpText: Value, readOnlyValue: Value,
                                 required: Value, isReference: Value, isSpace: Value, value: Value)

  /** The view element of a field. */
  datatype SectionElement = SectionElement(
    fieldApiName: Value, fieldLabel: Value, required: Value, isReference: Value, isSpace: Value, value: Value,
    ariaLabel: string, editButtonClassName: string,
    isLookupFieldInFocus: Value, isCompactLayoutInFocus: Value, showLookupCompactLayout: Value,
    labelVariant: string, labelOverride: Value, helpText: Value, readOnlyValue: Value)

  /** The element `wireFieldInfo` builds for a field: the label is hidden exactly
      when the label overrides have the field as an own key, a help text override
      wins unless it is null or undefined, and a falsy read-only value becomes "". */
  function ToSectionElement(field: FieldInfo, labelOverrides: Record, helpTextOverrides: Record): (e: SectionElement)
    ensures e.fieldApiName == field.fieldApiName && e.required == field.required && e.value == field.value
    ensures e.isReference == field.isReference && e.isSpace == field.isSpace
    ensures e.labelVariant == LABEL_HIDDEN <==> ToStr(field.fieldApiName) in labelOverrides
    ensures e.labelVariant == LABEL_STACKED <==> ToStr(field.fieldApiName) !in labelOverrides
    ensures e.labelOverride == GetBy(labelOverrides, field.fieldApiName)
    ensures !IsNullish(GetBy(helpTextOverrides, field.fieldApiName)) ==> e.helpText == GetBy(helpTextOverrides, field.fieldApiName)
    ensures IsNullish(GetBy(helpTextOverrides, field.fieldApiName)) ==> e.helpText == field.helpText
    ensures Truthy(field.readOnlyValue) ==> e.readOnlyValue == field.readOnlyValue
    ensures !Truthy(field.readOnlyValue) ==> e.readOnlyValue == Str("")
    ensures e.fieldLabel == field.fieldLabel && e.ariaLabel == "Edit " + ToStr(field.fieldLabel)
    ensures e.editButtonClassName == INACTIVE
    ensures e.isLookupFieldInFocus == Bool(false) && e.isCompactLayoutInFocus == Bool(false)
    ensures e.showLookupCompactLayout == Bool(false) && !Truthy(e.showLookupCompactLayout)
  {
    SectionElement(
      field.fieldApiName, field.fieldLabel, field.required, field.isReference, field.isSpace, field.value,
      "Edit " + ToStr(field.fieldLabel), INACTIVE,
      Bool(false), Bool(false), Bool(false),
      if ToStr(field.fieldApiName) in labelOverrides then LABEL_HIDDEN else LABEL_STACKED,
      GetBy(labelOverrides, field.fieldApiName),
      Coalesce(GetBy(helpTextOverrides, field.fieldApiName), field.helpText),
      Or(field.readOnlyValue, Str("")))
  }

  /** `es.map(f)` and `es.forEach(e => ...)` on the elements. */
  function MapElements(es: seq<SectionElement>, f: SectionElement -> SectionElement): (r: seq<SectionElement>)
    ensures |r| == |es|
    ensures forall i :: 0 <= i < |es| ==> r[i] == f(es[i])
  {
    if es == [] then [] else MapElements(es[..|es| - 1], f) + [f(es[|es| - 1])]
  }

  /** The elements of `result.data`. */
  function ToSectionElements(fields: seq<FieldInfo>, labelOverrides: Record, helpTextOverrides: Record)
    : (es: seq<SectionElement>)
    ensures |es| == |fields|
    ensures forall i :: 0 <= i < |fields| ==> es[i] == ToSectionElement(fields[i], labelOverrides, helpTextOverrides)
  {
    if fields == [] then []
    else ToSectionElements(fields[..|fields| - 1], labelOverrides, helpTextOverrides)
         + [ToSectionElement(fields[|fields| - 1], labelOverrides, helpTextOverrides)]
  }

  // ---------------------------------------------------------------------------
  // What the handlers do to one element

  /** `propagateUpdate` on one element: only an element of the field takes the value. */
  function Propagate(e: SectionElement, fieldApiName: Value, value: Value): (r: SectionElement)
    ensures StrictEquals(e.fieldApiName, fieldApiName) ==> r == e.(value := value)
    ensures !StrictEquals(e.fieldApiName, fieldApiName) ==> r == e
  {
    if StrictEquals(e.fieldApiName, fieldApiName) then e.(value := value) else e
  }

  /** `handleHoverChange` on one element: the edit button shows exactly on the
      element under the pointer. */
  function Hover(e: SectionElement, currentlyHoveringOver: Value): (r: SectionElement)
    ensures r == e.(editButtonClassName := r.editButtonClassName)
    ensures r.editButtonClassName == "" <==> StrictEquals(currentlyHoveringOver, e.fieldApiName)
    ensures r.editButtonClassName == INACTIVE <==> !StrictEquals(currentlyHoveringOver, e.fieldApiName)
  {
    e.(editButtonClassName := if StrictEquals(currentlyHoveringOver, e.fieldApiName) then "" else INACTIVE)
  }

  /** The synchronous part of `setFlagsForCompactLayout` on one element: a
      reference field with the name takes the lookup flag, takes the compact-layout
      flag unless it is undefined, and shows the compact layout while either flag
      is truthy; any other element is unchanged. */
  function SetFlags(e: SectionElement, name: Value, isLookupFieldInFocus: Value, isCompactLayoutInFocus: Value)
    : (r: SectionElement)
    ensures !(StrictEquals(e.fieldApiName, name) && Truthy(e.isReference)) ==> r == e
    ensures StrictEquals(e.fieldApiName, name) && Truthy(e.isReference) ==>
      && r == e.(isLookupFieldInFocus := r.isLookupFieldInFocus, isCompactLayoutInFocus := r.isCompactLayoutInFocus,
                 showLookupCompactLayout := r.showLookupCompactLayout)
      && r.isLookupFieldInFocus == isLookupFieldInFocus
      && r.isCompactLayoutInFocus == (if StrictEquals(isCompactLayoutInFocus, Undefined) then e.isCompactLayoutInFocus
                                      else isCompactLayoutInFocus)
      && (Truthy(r.showLookupCompactLayout) <==> Truthy(r.isLookupFieldInFocus) || Truthy(r.isCompactLayoutInFocus))
  {
    if StrictEquals(e.fieldApiName, name) && Truthy(e.isReference) then
      var lookup := e.(isLookupFieldInFocus := isLookupFieldInFocus);
      var both := if !StrictEquals(isCompactLayoutInFocus, Undefined)
                  then lookup.(isCompactLayoutInFocus := isCompactLayoutInFocus) else lookup;
      both.(showLookupCompactLayout := Or(both.isLookupFieldInFocus, both.isCompactLayoutInFocus))
    else e
  }

  /** Hovering twice over the same field is hovering once. */
  lemma HoverIdempotent(e: SectionElement, currentlyHoveringOver: Value)
    ensures Hover(Hover(e, currentlyHoveringOver), currentlyHoveringOver) == Hover(e, currentlyHoveringOver)
  {
  }

  /** After the hover handler, the pointer's field is the only one with an edit
      button, and running the handler again changes nothing. */
  lemma HoverMarksOnlyHoveredField(es: seq<SectionElement>, currentlyHoveringOver: Value)
    ensures forall i :: 0 <= i < |es| ==>
      (MapElements(es, e => Hover(e, currentlyHoveringOver))[i].editButtonClassName == "" <==>
         StrictEquals(currentlyHoveringOver, es[i].fieldApiName))
    ensures MapElements(MapElements(es, e => Hover(e, currentlyHoveringOver)), e => Hover(e, currentlyHoveringOver))
         == MapElements(es, e => Hover(e, currentlyHoveringOver))
  {
    var h := e => Hover(e, currentlyHoveringOver);
    var r := MapElements(es, h);
    var rr := MapElements(r, h);
    forall i | 0 <= i < |es| ensures rr[i] == r[i] {
      HoverIdempotent(es[i], currentlyHoveringOver);
    }
  }

  /** An update reaches every element of its field and no other, and changes
      nothing but the value. */
  lemma PropagateReachesOnlyItsField(es: seq<SectionElement>, fieldApiName: Value, value: Value)
    ensures forall i :: 0 <= i < |es| && StrictEquals(es[i].fieldApiName, fieldApiName) ==>
      MapElements(es, e => Propagate(e, fieldApiName, value))[i] == es[i].(value := value)
    ensures forall i :: 0 <= i < |es| && !StrictEquals(es[i].fieldApiName, fieldApiName) ==>
      MapElements(es, e => Propagate(e, fieldApiName, value))[i] == es[i]
  {
    var r := MapElements(es, e => Propagate(e, fieldApiName, value));
    forall i | 0 <= i < |es|
      ensures r[i] == if StrictEquals(es[i].fieldApiName, fieldApiName) then es[i].(value := value) else es[i]
    {
      assert r[i] == Propagate(es[i], fieldApiName, value);
    }
  }

  // ---------------------------------------------------------------------------
  // Getters

  /** `hideSectionTitle`: the edit-mode flag applies in edit mode, the view-mode
      flag otherwise. */
  function HideSectionTitle(hideSectionLabelOnEdit: Value, hideSectionLabelOnView: Value, editMode: Value): (v: Value)
    ensures Truthy(v) <==> if Truthy(editMode) then Truthy(hideSectionLabelOnEdit) else Truthy(hideSectionLabelOnView)
  {
    Or(And(hideSectionLabelOnEdit, editMode), And(hideSectionLabelOnView, Bool(!Truthy(editMode))))
  }

  /** `columnSize`: half the grid for exactly the text "2", else the full grid. */
  function ColumnSize(columns: Value): (size: string)
    ensures size == "6" <==> columns == Str("2")
    ensures size == "6" || size == "12"
  {
    if Truthy(columns) && StrictEquals(columns, Str("2")) then "6" else "12"
  }

  /** `find(element => !element.isSpace)`: the first element that is not a space. */
  function FindNonSpace(es: seq<SectionElement>): (r: Option<nat>)
    ensures r.Some? <==> exists i :: 0 <= i < |es| && !Truthy(es[i].isSpace)
    ensures r.Some? ==> r.value < |es| && !Truthy(es[r.value].isSpace)
    ensures r.Some? ==> forall j :: 0 <= j < r.value ==> Truthy(es[j].isSpace)
  {
    if es == [] then None
    else if !Truthy(es[0].isSpace) then Some(0)
    else
      match FindNonSpace(es[1..])
      case None => None
      case Some(k) => Some(k + 1)
  }

  /** `shouldRenderSection`: only a section with some element that is not a space
      is rendered. */
  function ShouldRenderSection(sectionElements: Option<seq<SectionElement>>): (b: bool)
    ensures b <==> sectionElements.Some? && exists i :: 0 <= i < |sectionElements.value| && !Truthy(sectionElements.value[i].isSpace)
  {
    sectionElements.Some? && FindNonSpace(sectionElements.value).Some?
  }

  // ---------------------------------------------------------------------------
  // REQUIRED_FIELD announcements

  /** The required elements, in order (`filter(element => element.required)`). */
  function RequiredElements(es: seq<SectionElement>): (r: seq<SectionElement>)
    ensures forall e :: e in r ==> e in es && Truthy(e.required)
    ensures forall e :: e in es && Truthy(e.required) ==> e in r
    ensures |r| <= |es|
  {
    if es == [] then []
    else
      var last := es[|es| - 1];
      assert forall e :: e in es[..|es| - 1] ==> e in es;
      assert forall e :: e in es ==> e in es[..|es| - 1] || e == last;
      RequiredElements(es[..|es| - 1]) + (if Truthy(last.required) then [last] else [])
  }

  /** What `broadcastRequiredFields` publishes for `es`. */
  function RequiredFieldMessages(es: seq<SectionElement>, messageContext: Value, group: Value): seq<Message>
  {
    if es == [] then []
    else
      var last := es[|es| - 1];
      RequiredFieldMessages(es[..|es| - 1], messageContext, group)
      + (if Truthy(last.required) then Published(messageContext, REQUIRED_FIELD, group, Payload(last.fieldApiName, Undefined))
         else [])
  }

  /** With a message context, one REQUIRED_FIELD per required element, in element
      order; without one, nothing. */
  lemma {:induction false} RequiredFieldMessagesInOrder(es: seq<SectionElement>, messageContext: Value, group: Value)
    ensures !Truthy(messageContext) ==> RequiredFieldMessages(es, messageContext, group) == []
    ensures Truthy(messageContext) ==>
      && |RequiredFieldMessages(es, messageContext, group)| == |RequiredElements(es)|
      && forall i :: 0 <= i < |RequiredElements(es)| ==>
           RequiredFieldMessages(es, messageContext, group)[i]
             == Message(Str(REQUIRED_FIELD), group, RequiredElements(es)[i].fieldApiName, Undefined)
  {
    if es != [] && Truthy(messageContext) {
      var prefix, last := es[..|es| - 1], es[|es| - 1];
      RequiredFieldMessagesInOrder(prefix, messageContext, group);
      var before, required := RequiredFieldMessages(prefix, messageContext, group), RequiredElements(prefix);
      if Truthy(last.required) {
        var m := Message(Str(REQUIRED_FIELD), group, last.fieldApiName, Undefined);
        assert Published(messageContext, REQUIRED_FIELD, group, Payload(last.fieldApiName, Undefined)) == [m];
        assert RequiredFieldMessages(es, messageContext, group) == before + [m];
        assert RequiredElements(es) == required + [last];
      } else {
        assert RequiredFieldMessages(es, messageContext, group) == before;
        assert RequiredElements(es) == required;
      }
    } else if es != [] {
      RequiredFieldMessagesInOrder(es[..|es| - 1], messageContext, group);
    }
  }

  /** The reply of the `getFieldInfo` wire. An error carries only what `handleError`
      shows of it, `event?.detail?.detail`, as `detail`. */
  datatype FieldInfoResult = FieldData(fields: seq<FieldInfo>) | FieldError(detail: Value) | FieldNone

  class Component {
    const element: Element
    var readOnlyMode: Value
    var startInEditMode: Value
    var labelOverrides: Record
    var helpTextOverrides: Record
    var sectionElements: Option<seq<SectionElement>>
    var editMode: Value
    var showSpinner: bool
    var currentlyHoveringOver: Value
    var requestedOverrides: bool
    var refreshRequests: nat
    var toasts: seq<Toast>

    constructor (group: Value, messageContext: Value, readOnlyMode: Value, startInEditMode: Value,
                 labelOverrides: Record, helpTextOverrides: Record)
      ensures element.group == group && element.messageContext == messageContext && element.outbox == []
      ensures this.readOnlyMode == readOnlyMode && this.startInEditMode == startInEditMode
      ensures this.labelOverrides == labelOverrides && this.helpTextOverrides == helpTextOverrides
      ensures sectionElements == None && editMode == Bool(false) && !showSpinner
      ensures currentlyHoveringOver == Str("") && !requestedOverrides && refreshRequests == 0 && toasts == []
    {
      element := new Element(group, messageContext);
      this.readOnlyMode := readOnlyMode;
      this.startInEditMode := startInEditMode;
      this.labelOverrides := labelOverrides;
      this.helpTextOverrides := helpTextOverrides;
      sectionElements := None;
      editMode := Bool(false);
      showSpinner := false;
      currentlyHoveringOver := Str("");
      requestedOverrides := false;
      refreshRequests := 0;
      toasts := [];
    }

    /** `sectionElements?.forEach(f)`: every element is rewritten in place, in order. */
    method ForEachElement(f: SectionElement -> SectionElement)
      modifies this`sectionElements
      ensures sectionElements == (if old(sectionElements).Some? then Some(MapElements(old(sectionElements).value, f)) else None)
    {
      if sectionElements.None? {
        return;
      }
      var es := sectionElements.value;
      ghost var original := es;
      for i := 0 to |es|
        invariant |es| == |original|
        invariant forall j :: 0 <= j < i ==> es[j] == f(original[j])
        invariant forall j :: i <= j < |es| ==> es[j] == original[j]
      {
        es := es[i := f(es[i])];
      }
      assert es == MapElements(original, f);
      sectionElements := Some(es);
    }

    /** `broadcastRequiredFields`. */
    method BroadcastRequiredFields()
      modifies element`outbox
      ensures element.outbox == old(element.outbox)
        + (if sectionElements.Some? then RequiredFieldMessages(sectionElements.value, element.messageContext, element.group)
           else [])
    {
      if sectionElements.None? {
        return;
      }
      var es := sectionElements.value;
      ghost var start := element.outbox;
      for i := 0 to |es|
        invariant element.outbox == start + RequiredFieldMessages(es[..i], element.messageContext, element.group)
      {
        assert es[..i + 1][..i] == es[..i];
        if Truthy(es[i].required) {
          element.Broadcast(REQUIRED_FIELD, Payload(es[i].fieldApiName, Undefined));
        }
      }
      assert es[..|es|] == es;
    }

    /** `handleError`: hide the spinner and show the error. */
    method HandleError(detail: Value)
      modifies this`showSpinner, this`toasts
      ensures !showSpinner && toasts == old(toasts) + [Toast("Error", detail, "error")]
    {
      showSpinner := false;
      toasts := toasts + [Toast("Error", detail, "error")];
    }

    /** The data branch of `wireFieldInfo`: the fields become the elements, and
        the first data asks for the predefined values and announces the required
        fields. */
    method ReceiveFieldInfo(fields: seq<FieldInfo>)
      modifies this`sectionElements, this`requestedOverrides, element`outbox
      ensures sectionElements == Some(ToSectionElements(fields, labelOverrides, helpTextOverrides))
      ensures requestedOverrides
      ensures old(requestedOverrides) ==> element.outbox == old(element.outbox)
      ensures !old(requestedOverrides) ==>
        element.outbox == old(element.outbox)
          + Published(element.messageContext, CHECK_OVERRIDES, element.group, NoPayload)
          + RequiredFieldMessages(sectionElements.value, element.messageContext, element.group)
    {
      var es := ToSectionElements(fields, labelOverrides, helpTextOverrides);
      sectionElements := Some(es);
      if !requestedOverrides {
        requestedOverrides := true;
        ghost var start := element.outbox;
        ghost var check := Published(element.messageContext, CHECK_OVERRIDES, element.group, NoPayload);
        ghost var required := RequiredFieldMessages(es, element.messageContext, element.group);
        element.Broadcast(CHECK_OVERRIDES, NoPayload);
        BroadcastRequiredFields();
        assert element.outbox == start + check + required;
      }
    }

    /** `wireFieldInfo`: data goes to `ReceiveFieldInfo`, an error is shown, and a
        reply with neither changes nothing. */
    method WireFieldInfo(result: FieldInfoResult)
      modifies this`sectionElements, this`requestedOverrides, this`showSpinner, this`toasts, element`outbox
      ensures result.FieldData? ==>
        && sectionElements == Some(ToSectionElements(result.fields, labelOverrides, helpTextOverrides))
        && requestedOverrides
        && (old(requestedOverrides) ==> element.outbox == old(element.outbox))
        && (!old(requestedOverrides) ==>
              element.outbox == old(element.outbox)
                + Published(element.messageContext, CHECK_OVERRIDES, element.group, NoPayload)
                + RequiredFieldMessages(sectionElements.value, element.messageContext, element.group))
        && showSpinner == old(showSpinner) && toasts == old(toasts)
      ensures result.FieldError? ==>
        && sectionElements == old(sectionElements) && requestedOverrides == old(requestedOverrides)
        && element.outbox == old(element.outbox)
        && !showSpinner && toasts == old(toasts) + [Toast("Error", result.detail, "error")]
      ensures result.FieldNone? ==>
        && sectionElements == old(sectionElements) && requestedOverrides == old(requestedOverrides)
        && element.outbox == old(element.outbox) && showSpinner == old(showSpinner) && toasts == old(toasts)
    {
      match result {
        case FieldData(fields) =>
          ReceiveFieldInfo(fields);
        case FieldError(detail) =>
          HandleError(detail);
        case FieldNone =>
      }
    }

    /** `removePendingEdits`: every element loses its pending value. */
    method RemovePendingEdits()
      modifies this`sectionElements
      ensures sectionElements.Some? <==> old(sectionElements).Some?
      ensures sectionElements.Some? ==>
        && |sectionElements.value| == |old(sectionElements).value|
        && forall i :: 0 <= i < |sectionElements.value| ==>
             sectionElements.value[i] == old(sectionElements).value[i].(value := Undefined)
    {
      ForEachElement((e: SectionElement) => e.(value := Undefined));
    }

    /** `propagateUpdate`. */
    method PropagateUpdate(fieldApiName: Value, value: Value)
      modifies this`sectionElements
      ensures sectionElements == (if old(sectionElements).Some?
                                  then Some(MapElements(old(sectionElements).value, e => Propagate(e, fieldApiName, value)))
                                  else None)
    {
      ForEachElement(e => Propagate(e, fieldApiName, value));
    }

    /** `handleHoverChange`; it is only called while elements are shown. */
    method HandleHoverChange()
      requires sectionElements.Some?
      modifies this`sectionElements
      ensures var hovering := currentlyHoveringOver;
        sectionElements == Some(MapElements(old(sectionElements).value, e => Hover(e, hovering)))
    {
      var hovering := currentlyHoveringOver;
      ForEachElement(e => Hover(e, hovering));
    }

    /** `hoverOverField`: the pointer entered the field `name`. */
    method HoverOverField(name: Value)
      requires sectionElements.Some?
      modifies this`currentlyHoveringOver, this`sectionElements
      ensures currentlyHoveringOver == name
      ensures sectionElements == Some(MapElements(old(sectionElements).value, e => Hover(e, name)))
    {
      currentlyHoveringOver := name;
      HandleHoverChange();
    }

    /** `hoverOffField`: the pointer left every field. */
    method HoverOffField()
      requires sectionElements.Some?
      modifies this`currentlyHoveringOver, this`sectionElements
      ensures currentlyHoveringOver == Str("")
      ensures sectionElements == Some(MapElements(old(sectionElements).value, e => Hover(e, Str(""))))
    {
      currentlyHoveringOver := Str("");
      HandleHoverChange();
    }

    /** The synchronous part of `setFlagsForCompactLayout` for the field `name`; it
        is only called while elements are shown. */
    method SetFlagsForCompactLayout(name: Value, isLookupFieldInFocus: Value, isCompactLayoutInFocus: Value)
      requires sectionElements.Some?
      modifies this`sectionElements
      ensures sectionElements == Some(MapElements(old(sectionElements).value,
                                                  e => SetFlags(e, name, isLookupFieldInFocus, isCompactLayoutInFocus)))
    {
      ForEachElement(e => SetFlags(e, name, isLookupFieldInFocus, isCompactLayoutInFocus));
    }

    /** `handleMessage`. */
    method HandleMessage(m: Message)
      modifies this`editMode, this`showSpinner, this`sectionElements, this`refreshRequests
      ensures StrictEquals(m.eventType, Str(EDIT)) ==>
        && editMode == (if StrictEquals(readOnlyMode, Bool(false)) || Truthy(startInEditMode) then Bool(true) else old(editMode))
        && showSpinner == old(showSpinner) && sectionElements == old(sectionElements)
        && refreshRequests == old(refreshRequests)
      ensures StrictEquals(m.eventType, Str(CANCEL)) ==>
        && editMode == Bool(false) && showSpinner == old(showSpinner) && refreshRequests == old(refreshRequests)
        && sectionElements == (if old(sectionElements).Some?
                               then Some(MapElements(old(sectionElements).value, (e: SectionElement) => e.(value := Undefined))) else None)
      ensures StrictEquals(m.eventType, Str(SAVE_START)) ==>
        && showSpinner && editMode == old(editMode) && sectionElements == old(sectionElements)
        && refreshRequests == old(refreshRequests)
      ensures StrictEquals(m.eventType, Str(SAVE_END)) ==>
        && !showSpinner && editMode == old(editMode) && refreshRequests == old(refreshRequests) + 1
        && sectionElements == (if old(sectionElements).Some?
                               then Some(MapElements(old(sectionElements).value, (e: SectionElement) => e.(value := Undefined))) else None)
      ensures StrictEquals(m.eventType, Str(UPDATE)) ==>
        && showSpinner == old(showSpinner) && editMode == old(editMode) && refreshRequests == old(refreshRequests)
        && sectionElements == (if old(sectionElements).Some?
                               then Some(MapElements(old(sectionElements).value, e => Propagate(e, m.fieldApiName, m.newValue)))
                               else None)
      ensures StrictEquals(m.eventType, Str(RESET)) ==>
        && showSpinner == old(showSpinner) && editMode == old(editMode) && refreshRequests == old(refreshRequests)
        && sectionElements == (if old(sectionElements).Some?
                               then Some(MapElements(old(sectionElements).value, (e: SectionElement) => e.(value := Null))) else None)
      ensures !(m.eventType in [Str(EDIT), Str(CANCEL), Str(SAVE_START), Str(SAVE_END), Str(UPDATE), Str(RESET)]) ==>
        && editMode == old(editMode) && showSpinner == old(showSpinner) && sectionElements == old(sectionElements)
        && refreshRequests == old(refreshRequests)
    {
      if StrictEquals(m.eventType, Str(EDIT)) {
        if StrictEquals(readOnlyMode, Bool(false)) {
          editMode := Bool(true);
        } else if Truthy(startInEditMode) {
          editMode := Bool(true);
        }
      } else if StrictEquals(m.eventType, Str(CANCEL)) {
        editMode := Bool(false);
        RemovePendingEdits();
        assert sectionElements.Some? ==> sectionElements.value == MapElements(old(sectionElements).value, (e: SectionElement) => e.(value := Undefined));
      } else if StrictEquals(m.eventType, Str(SAVE_START)) {
        showSpinner := true;
      } else if StrictEquals(m.eventType, Str(SAVE_END)) {
        refreshRequests := refreshRequests + 1;
        showSpinner := false;
        RemovePendingEdits();
        assert sectionElements.Some? ==> sectionElements.value == MapElements(old(sectionElements).value, (e: SectionElement) => e.(value := Undefined));
      } else if StrictEquals(m.eventType, Str(UPDATE)) {
        PropagateUpdate(m.fieldApiName, m.newValue);
      } else if StrictEquals(m.eventType, Str(RESET)) {
        ForEachElement((e: SectionElement) => e.(value := Null));
      }
    }
  }
}
