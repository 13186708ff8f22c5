/** The page-layout component: it reads the full view layout of a record and turns
    every section of every record-type layout into a section record for a field
    section. A section lists its fields as one comma-separated text in which each
    field is written `[*]apiName[*]`: a leading `*` marks a required field, a
    trailing `*` a read-only one. */
module PageLayout {
  import opened Wrappers
  import opened JsValues
  import opened Strings
  import opened FormElement

  const FIELD := "Field"
  /** Layout keys that are record type ids start with this prefix. */
  const RECORD_TYPE_ID_PREFIX := "012"

  datatype LayoutComponent = LayoutComponent(componentType: Value, apiName: Value)

  datatype LayoutItem = LayoutItem(editableForUpdate: Value, editableForNew: Value, required: Value,
                                   layoutComponents: seq<LayoutComponent>)

  datatype LayoutRow = LayoutRow(layoutItems: seq<LayoutItem>)

  /** A section of the full view layout. */
  datatype LayoutSection = LayoutSection(id: Value, heading: Value, useHeading: Value, columns: Value,
                                         layoutRows: seq<LayoutRow>)

  /** The section record handed to a field section. */
  datatype SectionRecord = SectionRecord(id: Value, sectionLabel: Value, numberOfColumns: string,
                                         apiNamesCsv: string, hideSectionLabelOnView: bool,
                                         hideSectionLabelOnEdit: bool)

  /** `layouts[objectApiName]` of a `getRecordUi` reply: the sections of the full
      view layout under each layout key. */
  type Layouts = map<string, seq<LayoutSection>>

  /** The layouts of the object; a missing object has none to visit. */
  function ObjectLayouts(response: map<string, Layouts>, objectApiName: Value): Layouts
  {
    if ToStr(objectApiName) in response then response[ToStr(objectApiName)] else map[]
  }

  // ---------------------------------------------------------------------------
  // `getFieldStringRepresentation`

  /** A field is read-only when it is not editable in the current mode: for an
      update when there is a record id, for a new record when there is none. */
  predicate IsReadOnly(item: LayoutItem, recordId: Value)
  {
    || (StrictEquals(item.editableForUpdate, Bool(false)) && Truthy(recordId))
    || (StrictEquals(item.editableForNew, Bool(false)) && !Truthy(recordId))
  }

  /** `getFieldStringRepresentation`: the empty text for anything that is not a
      field. */
  function FieldString(component: LayoutComponent, item: LayoutItem, recordId: Value): (s: string)
    ensures !StrictEquals(component.componentType, Str(FIELD)) ==> s == ""
  {
    if StrictEquals(component.componentType, Str(FIELD)) then
      (if Truthy(item.required) then "*" else "") + ToStr(component.apiName)
      + (if IsReadOnly(item, recordId) then "*" else "")
    else ""
  }

  /** A field as its encoded text describes it. */
  datatype FieldDefinition = FieldDefinition(apiName: string, required: bool, readOnly: bool)

  /** Reading an encoded field back: a leading `*` marks it required, and a `*`
      after that at the end marks it read-only. */
  function DecodeFieldString(s: string): FieldDefinition
  {
    var required := |s| > 0 && s[0] == '*';
    var rest := if required then s[1..] else s;
    var readOnly := |rest| > 0 && rest[|rest| - 1] == '*';
    FieldDefinition(if readOnly then rest[..|rest| - 1] else rest, required, readOnly)
  }

  /** A field whose api name is not empty and has no `*` reads back as its api
      name, whether it is required, and whether it is read-only in the current mode. */
  lemma FieldStringRoundTrip(component: LayoutComponent, item: LayoutItem, recordId: Value)
    requires StrictEquals(component.componentType, Str(FIELD))
    requires ToStr(component.apiName) != "" && '*' !in ToStr(component.apiName)
    ensures DecodeFieldString(FieldString(component, item, recordId)) == FieldDefinition(
      ToStr(component.apiName),
      Truthy(item.required),
      if Truthy(recordId) then StrictEquals(item.editableForUpdate, Bool(false))
      else StrictEquals(item.editableForNew, Bool(false)))
  {
    DecodeEncoded(ToStr(component.apiName), Truthy(item.required), IsReadOnly(item, recordId));
  }

  /** The encoding of a non-empty name without `*` decodes to what was encoded. */
  lemma DecodeEncoded(name: string, required: bool, readOnly: bool)
    requires name != "" && '*' !in name
    ensures DecodeFieldString((if required then "*" else "") + name + (if readOnly then "*" else ""))
      == FieldDefinition(name, required, readOnly)
  {
    var tail := if readOnly then "*" else "";
    var rest := name + tail;
    assert name[0] in name && name[|name| - 1] in name;
    assert rest[0] == name[0];
    if readOnly {
      assert rest[|rest| - 1] == '*' && rest[..|rest| - 1] == name;
    } else {
      assert rest == name;
    }
    if required {
      var s := "*" + name + tail;
      assert s == ['*'] + rest;
      assert s[0] == '*' && s[1..] == rest;
    } else {
      assert "" + name + tail == rest;
    }
  }

  // ---------------------------------------------------------------------------
  // The fields of a section, in row, then item, then component order

  /** The encoded fields of `components`, all in `item`. */
  function ComponentFields(components: seq<LayoutComponent>, item: LayoutItem, recordId: Value): seq<string>
  {
    if components == [] then []
    else
      ComponentFields(components[..|components| - 1], item, recordId)
      + [FieldString(components[|components| - 1], item, recordId)]
  }

  /** An item lists the encoded field of each of its components, in order. */
  lemma {:induction false} ComponentFieldsInOrder(components: seq<LayoutComponent>, item: LayoutItem, recordId: Value)
    ensures |ComponentFields(components, item, recordId)| == |components|
    ensures forall i :: 0 <= i < |components| ==>
              ComponentFields(components, item, recordId)[i] == FieldString(components[i], item, recordId)
  {
    if components != [] {
      var init := components[..|components| - 1];
      ComponentFieldsInOrder(init, item, recordId);
      assert forall i :: 0 <= i < |init| ==> components[i] == init[i];
    }
  }

  /** The encoded fields of a row's items. */
  function ItemFields(items: seq<LayoutItem>, recordId: Value): seq<string>
  {
    if items == [] then []
    else
      var item := items[|items| - 1];
      ItemFields(items[..|items| - 1], recordId) + ComponentFields(item.layoutComponents, item, recordId)
  }

  /** The encoded fields of a section's rows. */
  function RowFields(rows: seq<LayoutRow>, recordId: Value): seq<string>
  {
    if rows == [] then []
    else RowFields(rows[..|rows| - 1], recordId) + ItemFields(rows[|rows| - 1].layoutItems, recordId)
  }

  /** One more item appends its components' fields. */
  lemma ItemFieldsStep(items: seq<LayoutItem>, i: nat, recordId: Value)
    requires i < |items|
    ensures ItemFields(items[..i + 1], recordId)
      == ItemFields(items[..i], recordId) + ComponentFields(items[i].layoutComponents, items[i], recordId)
  {
    assert items[..i + 1][..i] == items[..i];
  }

  /** One more row appends its items' fields. */
  lemma RowFieldsStep(rows: seq<LayoutRow>, r: nat, recordId: Value)
    requires r < |rows|
    ensures RowFields(rows[..r + 1], recordId) == RowFields(rows[..r], recordId) + ItemFields(rows[r].layoutItems, recordId)
  {
    assert rows[..r + 1][..r] == rows[..r];
  }

  /** Every layout component of every item of every row yields one encoded field. */
  function ComponentCount(rows: seq<LayoutRow>): nat
  {
    if rows == [] then 0
    else ComponentCount(rows[..|rows| - 1]) + ItemComponentCount(rows[|rows| - 1].layoutItems)
  }

  function ItemComponentCount(items: seq<LayoutItem>): nat
  {
    if items == [] then 0
    else ItemComponentCount(items[..|items| - 1]) + |items[|items| - 1].layoutComponents|
  }

  /** A section lists one encoded field per layout component. */
  lemma {:induction false} RowFieldsCount(rows: seq<LayoutRow>, recordId: Value)
    ensures |RowFields(rows, recordId)| == ComponentCount(rows)
  {
    if rows != [] {
      RowFieldsCount(rows[..|rows| - 1], recordId);
      ItemFieldsCount(rows[|rows| - 1].layoutItems, recordId);
    }
  }

  lemma {:induction false} ItemFieldsCount(items: seq<LayoutItem>, recordId: Value)
    ensures |ItemFields(items, recordId)| == ItemComponentCount(items)
  {
    if items != [] {
      ItemFieldsCount(items[..|items| - 1], recordId);
      var last := items[|items| - 1];
      ComponentFieldsInOrder(last.layoutComponents, last, recordId);
    }
  }

  /** The section record of one layout section. */
  function FormatSection(section: LayoutSection, recordId: Value): SectionRecord
  {
    var hideHeader := StrictEquals(section.useHeading, Bool(false));
    SectionRecord(section.id, section.heading, ToStr(section.columns),
                  Join(RowFields(section.layoutRows, recordId), ","), hideHeader, hideHeader)
  }

  /** The label is hidden in view and in edit mode alike, exactly when the layout
      says not to use a heading; the text of the field list splits back into the
      encoded fields when no api name has a comma. */
  lemma FormatSectionFields(section: LayoutSection, recordId: Value)
    requires forall f :: f in RowFields(section.layoutRows, recordId) ==> ',' !in f
    ensures var r := FormatSection(section, recordId);
      && r.hideSectionLabelOnView == r.hideSectionLabelOnEdit == (section.useHeading == Bool(false))
      && r.numberOfColumns == ToStr(section.columns)
      && (RowFields(section.layoutRows, recordId) == [] ==> r.apiNamesCsv == "")
      && (RowFields(section.layoutRows, recordId) != [] ==>
            Split(r.apiNamesCsv, ',') == RowFields(section.layoutRows, recordId))
  {
    var fields := RowFields(section.layoutRows, recordId);
    if fields != [] {
      assert forall i :: 0 <= i < |fields| ==> fields[i] in fields;
      SplitJoin(fields, ',');
    }
  }

  /** The section records of a list of sections, in order. */
  function FormatSections(sections: seq<LayoutSection>, recordId: Value): (r: seq<SectionRecord>)
    ensures |r| == |sections|
    ensures forall i :: 0 <= i < |r| ==> r[i] == FormatSection(sections[i], recordId)
  {
    if sections == [] then []
    else FormatSections(sections[..|sections| - 1], recordId) + [FormatSection(sections[|sections| - 1], recordId)]
  }

  /** `extractLayoutSectionsFromResponse` visiting the layout keys in the order
      `keys`: the sections of the layouts whose key is a record type id. */
  function LayoutSections(keys: seq<string>, layouts: Layouts, recordId: Value): seq<SectionRecord>
    requires forall i :: 0 <= i < |keys| ==> keys[i] in layouts
  {
    if keys == [] then []
    else
      var key := keys[|keys| - 1];
      LayoutSections(keys[..|keys| - 1], layouts, recordId)
      + (if StartsWith(key, RECORD_TYPE_ID_PREFIX) then FormatSections(layouts[key], recordId) else [])
  }

  /** `r` is the record of some section of a record-type layout among `keys`. */
  predicate FromRecordType(keys: seq<string>, layouts: Layouts, recordId: Value, r: SectionRecord)
    requires forall i :: 0 <= i < |keys| ==> keys[i] in layouts
  {
    exists i, j :: 0 <= i < |keys| && StartsWith(keys[i], RECORD_TYPE_ID_PREFIX) && 0 <= j < |layouts[keys[i]]|
                   && r == FormatSection(layouts[keys[i]][j], recordId)
  }

  /** Every section record comes from a section of a record-type layout. */
  lemma {:induction false} LayoutSectionsFromRecordTypes(keys: seq<string>, layouts: Layouts, recordId: Value)
    requires forall i :: 0 <= i < |keys| ==> keys[i] in layouts
    ensures forall n :: 0 <= n < |LayoutSections(keys, layouts, recordId)| ==>
              FromRecordType(keys, layouts, recordId, LayoutSections(keys, layouts, recordId)[n])
  {
    if keys != [] {
      var init := keys[..|keys| - 1];
      var key := keys[|keys| - 1];
      LayoutSectionsFromRecordTypes(init, layouts, recordId);
      var before := LayoutSections(init, layouts, recordId);
      var added := if StartsWith(key, RECORD_TYPE_ID_PREFIX) then FormatSections(layouts[key], recordId) else [];
      var all := LayoutSections(keys, layouts, recordId);
      assert all == before + added;
      forall n | 0 <= n < |all| ensures FromRecordType(keys, layouts, recordId, all[n]) {
        if n < |before| {
          assert FromRecordType(init, layouts, recordId, before[n]);
          var i, j :| 0 <= i < |init| && StartsWith(init[i], RECORD_TYPE_ID_PREFIX) && 0 <= j < |layouts[init[i]]|
                      && before[n] == FormatSection(layouts[init[i]][j], recordId);
          assert keys[i] == init[i] && all[n] == before[n];
        } else {
          var j := n - |before|;
          assert all[n] == added[j] == FormatSection(layouts[keys[|keys| - 1]][j], recordId);
        }
      }
    }
  }

  /** Every section of every record-type layout has its section record. */
  lemma {:induction false} LayoutSectionsCoverRecordTypes(keys: seq<string>, layouts: Layouts, recordId: Value)
    requires forall i :: 0 <= i < |keys| ==> keys[i] in layouts
    ensures forall i, j :: 0 <= i < |keys| && StartsWith(keys[i], RECORD_TYPE_ID_PREFIX) && 0 <= j < |layouts[keys[i]]| ==>
              FormatSection(layouts[keys[i]][j], recordId) in LayoutSections(keys, layouts, recordId)
  {
    if keys != [] {
      var init := keys[..|keys| - 1];
      var key := keys[|keys| - 1];
      LayoutSectionsCoverRecordTypes(init, layouts, recordId);
      var before := LayoutSections(init, layouts, recordId);
      var added := if StartsWith(key, RECORD_TYPE_ID_PREFIX) then FormatSections(layouts[key], recordId) else [];
      var all := LayoutSections(keys, layouts, recordId);
      assert all == before + added;
      forall i, j | 0 <= i < |keys| && StartsWith(keys[i], RECORD_TYPE_ID_PREFIX) && 0 <= j < |layouts[keys[i]]|
        ensures FormatSection(layouts[keys[i]][j], recordId) in all
      {
        if i < |init| {
          assert keys[i] == init[i];
          assert FormatSection(layouts[init[i]][j], recordId) in before;
        } else {
          assert added[j] == FormatSection(layouts[key][j], recordId);
        }
      }
    }
  }

  // ---------------------------------------------------------------------------
  // The component

  /** The reply of the `getRecordUi` wire: the layouts of every object it covers,
      and the `body.error` of its error when there is one. */
  datatype UiResult = UiResult(data: Option<map<string, Layouts>>, error: Option<Value>)

  class Component {
    var objectApiName: Value
    var recordId: Value
    var pageLayoutName: Value
    var layoutSections: Option<seq<SectionRecord>>
    var toasts: seq<Toast>

    constructor (objectApiName: Value, recordId: Value, pageLayoutName: Value)
      ensures this.objectApiName == objectApiName && this.recordId == recordId
      ensures this.pageLayoutName == pageLayoutName
      ensures layoutSections == None && toasts == []
    {
      this.objectApiName := objectApiName;
      this.recordId := recordId;
      this.pageLayoutName := pageLayoutName;
      layoutSections := None;
      toasts := [];
    }

    /** The encoded fields of one section, gathered row by row, item by item and
        component by component into one list. */
    method SectionFieldStrings(section: LayoutSection) returns (fields: seq<string>)
      ensures fields == RowFields(section.layoutRows, recordId)
    {
      var rows := section.layoutRows;
      fields := [];
      for r := 0 to |rows|
        invariant fields == RowFields(rows[..r], recordId)
      {
        fields := PushRowFields(fields, rows[r].layoutItems);
        RowFieldsStep(rows, r, recordId);
      }
      assert rows[..|rows|] == rows;
    }

    /** The middle loop: push the encoded fields of every item of a row. */
    method PushRowFields(start: seq<string>, items: seq<LayoutItem>) returns (fields: seq<string>)
      ensures fields == start + ItemFields(items, recordId)
    {
      fields := start;
      for i := 0 to |items|
        invariant fields == start + ItemFields(items[..i], recordId)
      {
        fields := PushItemFields(fields, items[i]);
        ItemFieldsStep(items, i, recordId);
      }
      assert items[..|items|] == items;
    }

    /** The inner loop: push the encoded field of every component of an item. */
    method PushItemFields(start: seq<string>, item: LayoutItem) returns (fields: seq<string>)
      ensures fields == start + ComponentFields(item.layoutComponents, item, recordId)
    {
      var components := item.layoutComponents;
      fields := start;
      for c := 0 to |components|
        invariant fields == start + ComponentFields(components[..c], item, recordId)
      {
        assert components[..c + 1][..c] == components[..c];
        fields := fields + [FieldString(components[c], item, recordId)];
      }
      assert components[..|components|] == components;
    }

    /** `extractLayoutSectionsFromResponse`, visiting the layout keys of the object
        in the order `keys`. */
    method ExtractLayoutSectionsFromResponse(response: map<string, Layouts>, keys: seq<string>)
      returns (result: seq<SectionRecord>)
      requires Enumerates(keys, ObjectLayouts(response, objectApiName))
      ensures result == LayoutSections(keys, ObjectLayouts(response, objectApiName), recordId)
    {
      var layouts := ObjectLayouts(response, objectApiName);
      result := [];
      for k := 0 to |keys|
        invariant result == LayoutSections(keys[..k], layouts, recordId)
      {
        var key := keys[k];
        assert keys[..k + 1][..k] == keys[..k];
        if StartsWith(key, RECORD_TYPE_ID_PREFIX) {
          var sections := layouts[key];
          ghost var keyStart := result;
          for s := 0 to |sections|
            invariant result == keyStart + FormatSections(sections[..s], recordId)
          {
            var fields := SectionFieldStrings(sections[s]);
            var hideHeader := StrictEquals(sections[s].useHeading, Bool(false));
            assert sections[..s + 1][..s] == sections[..s];
            result := result + [SectionRecord(sections[s].id, sections[s].heading, ToStr(sections[s].columns),
                                              Join(fields, ","), hideHeader, hideHeader)];
          }
          assert sections[..|sections|] == sections;
        }
      }
      assert keys[..|keys|] == keys;
    }

    /** `wiredUI`: nothing happens when a page layout is named or there is no
        record id; otherwise data replaces the section records and an error is
        shown as a toast. */
    method WiredUI(result: UiResult, keys: seq<string>)
      requires result.data.Some? ==> Enumerates(keys, ObjectLayouts(result.data.value, objectApiName))
      modifies this`layoutSections, this`toasts
      ensures Truthy(pageLayoutName) || !Truthy(recordId) ==>
        layoutSections == old(layoutSections) && toasts == old(toasts)
      ensures !Truthy(pageLayoutName) && Truthy(recordId) ==>
        && layoutSections == (if result.data.Some?
                              then Some(LayoutSections(keys, ObjectLayouts(result.data.value, objectApiName), recordId))
                              else old(layoutSections))
        && toasts == old(toasts) + (if result.error.Some? then [Toast("Error", result.error.value, "error")] else [])
    {
      if Truthy(pageLayoutName) || !Truthy(recordId) {
        return;
      }
      if result.data.Some? {
        var sections := ExtractLayoutSectionsFromResponse(result.data.value, keys);
        layoutSections := Some(sections);
      }
      if result.error.Some? {
        toasts := toasts + [Toast("Error", result.error.value, "error")];
      }
    }
  }
}
