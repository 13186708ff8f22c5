/** The related-record component: it shows a record related to the page's record,
    found through a parent path or a child relation, in a form group of its own.
    When no record is found it shows an error, hides itself, or shows nothing, as
    its no-record strategy says. The server lookups are logged requests whose
    replies arrive through `LookupSettled`. */
module RelatedRecord {
  import opened Wrappers
  import opened JsValues
  import opened FormElement

  const GENERAL_ERROR_MESSAGE := "An error occured provisioning this component. Please contact a System Administrator."
  const NO_RECORD_MESSAGE := "No record was found."
  const STRATEGY_ERROR := "Error"
  const STRATEGY_HIDDEN := "Hidden"
  const STRATEGY_NONE := "None"

  /** The server lookup the component started. */
  datatype Lookup = ParentLookup(pathToParentId: Value) | ChildLookup(childRelation: Value, multipleChildrenStrategy: Value)

  /** How a lookup settled: the id it returned, or a rejection carrying
      `error?.body?.message`. */
  datatype LookupReply = Resolved(id: Value) | Rejected(bodyMessage: Value)

  /** `relatedRecordGroup`: the page's group and the related record id, joined by
      a dash. */
  function RelatedRecordGroup(group: Value, relatedRecordId: Value): (g: string)
    ensures |g| == |ToStr(group)| + 1 + |ToStr(relatedRecordId)|
    ensures g[..|ToStr(group)|] == ToStr(group) && g[|ToStr(group)|] == '-'
    ensures g[|ToStr(group)| + 1..] == ToStr(relatedRecordId)
  {
    ToStr(group) + "-" + ToStr(relatedRecordId)
  }

  /** Two related records of one page are in different groups. */
  lemma DistinctRecordsDistinctGroups(group: Value, a: Value, b: Value)
    requires ToStr(a) != ToStr(b)
    ensures RelatedRecordGroup(group, a) != RelatedRecordGroup(group, b)
  {
    var n := |ToStr(group)| + 1;
    assert RelatedRecordGroup(group, a)[n..] == ToStr(a);
    assert RelatedRecordGroup(group, b)[n..] == ToStr(b);
  }

  /** `shouldRenderSection`: `!errorMessage && relatedRecordId`. */
  function ShouldRenderSection(errorMessage: Value, relatedRecordId: Value): (v: Value)
    ensures Truthy(v) <==> !Truthy(errorMessage) && Truthy(relatedRecordId)
  {
    if Truthy(errorMessage) then Bool(false) else relatedRecordId
  }

  /** What the component shows besides the record: an error message, and whether
      it is hidden. */
  datatype Display = Display(errorMessage: Value, hideComponent: bool)

  /** `handleEmptyRecord` on the display. */
  function AfterEmptyRecord(relatedRecordId: Value, noRecordStrategy: Value, d: Display): Display
  {
    if !StrictEquals(relatedRecordId, Null) then d
    else if StrictEquals(noRecordStrategy, Str(STRATEGY_ERROR)) then d.(errorMessage := Or(d.errorMessage, Str(NO_RECORD_MESSAGE)))
    else if StrictEquals(noRecordStrategy, Str(STRATEGY_HIDDEN)) then d.(hideComponent := true)
    else d
  }

  /** With a record nothing changes. Without one, the Error strategy keeps an
      existing message and otherwise shows "No record was found.", so some message
      is always shown; Hidden hides the component and keeps the message; any other
      strategy changes nothing. */
  lemma EmptyRecordStrategies(relatedRecordId: Value, noRecordStrategy: Value, d: Display)
    ensures !StrictEquals(relatedRecordId, Null) ==> AfterEmptyRecord(relatedRecordId, noRecordStrategy, d) == d
    ensures StrictEquals(relatedRecordId, Null) && StrictEquals(noRecordStrategy, Str(STRATEGY_ERROR)) ==>
      var r := AfterEmptyRecord(relatedRecordId, noRecordStrategy, d);
      && Truthy(r.errorMessage) && r.hideComponent == d.hideComponent
      && (Truthy(d.errorMessage) ==> r.errorMessage == d.errorMessage)
      && (!Truthy(d.errorMessage) ==> r.errorMessage == Str(NO_RECORD_MESSAGE))
    ensures StrictEquals(relatedRecordId, Null) && StrictEquals(noRecordStrategy, Str(STRATEGY_HIDDEN)) ==>
      AfterEmptyRecord(relatedRecordId, noRecordStrategy, d) == d.(hideComponent := true)
    ensures !StrictEquals(noRecordStrategy, Str(STRATEGY_ERROR)) && !StrictEquals(noRecordStrategy, Str(STRATEGY_HIDDEN)) ==>
      AfterEmptyRecord(relatedRecordId, noRecordStrategy, d) == d
  {
  }

  /** The display after a lookup settles: its `catch` sets the message, then its
      `finally` applies the missing-record strategy. */
  function AfterLookup(reply: LookupReply, relatedRecordId: Value, noRecordStrategy: Value, d: Display): Display
  {
    var caught := if reply.Rejected? then d.(errorMessage := Coalesce(reply.bodyMessage, Str(GENERAL_ERROR_MESSAGE))) else d;
    AfterEmptyRecord(if reply.Resolved? then reply.id else relatedRecordId, noRecordStrategy, caught)
  }

  /** A failed lookup always shows a message and never renders the record section,
      unless the server's message is falsy but not nullish (an empty string); a found
      record shows the message it showed before. */
  lemma FailedLookupShowsError(reply: LookupReply, relatedRecordId: Value, noRecordStrategy: Value, d: Display)
    ensures reply.Rejected? && (IsNullish(reply.bodyMessage) || Truthy(reply.bodyMessage)) ==>
      var r := AfterLookup(reply, relatedRecordId, noRecordStrategy, d);
      && Truthy(r.errorMessage)
      && !Truthy(ShouldRenderSection(r.errorMessage, relatedRecordId))
    ensures reply.Rejected? && !IsNullish(reply.bodyMessage) && !StrictEquals(relatedRecordId, Null) ==>
      AfterLookup(reply, relatedRecordId, noRecordStrategy, d).errorMessage == reply.bodyMessage
    ensures reply.Resolved? && !StrictEquals(reply.id, Null) ==>
      AfterLookup(reply, relatedRecordId, noRecordStrategy, d) == d
  {
  }

  class Component {
    const element: Element
    var relatedRecordId: Value
    var parentRelation: Value
    var childRelation: Value
    var multipleChildrenStrategy: Value
    var noRecordStrategy: Value
    var errorMessage: Value
    var hideComponent: bool
    var lookups: seq<Lookup>

    constructor (group: Value, messageContext: Value, relatedRecordId: Value, parentRelation: Value,
                 childRelation: Value, multipleChildrenStrategy: Value, noRecordStrategy: Value)
      ensures element.group == group && element.messageContext == messageContext && element.outbox == []
      ensures this.relatedRecordId == relatedRecordId && this.parentRelation == parentRelation
      ensures this.childRelation == childRelation && this.multipleChildrenStrategy == multipleChildrenStrategy
      ensures this.noRecordStrategy == noRecordStrategy
      ensures errorMessage == Null && !hideComponent && lookups == []
    {
      element := new Element(group, messageContext);
      this.relatedRecordId := relatedRecordId;
      this.parentRelation := parentRelation;
      this.childRelation := childRelation;
      this.multipleChildrenStrategy := multipleChildrenStrategy;
      this.noRecordStrategy := noRecordStrategy;
      errorMessage := Null;
      hideComponent := false;
      lookups := [];
    }

    function Shown(): Display
      reads this
    {
      Display(errorMessage, hideComponent)
    }

    /** `handleEmptyRecord`. */
    method HandleEmptyRecord()
      modifies this`errorMessage, this`hideComponent
      ensures Shown() == AfterEmptyRecord(relatedRecordId, noRecordStrategy, old(Shown()))
    {
      if !StrictEquals(relatedRecordId, Null) {
        return;
      }
      if StrictEquals(noRecordStrategy, Str(STRATEGY_ERROR)) {
        errorMessage := Or(errorMessage, Str(NO_RECORD_MESSAGE));
      } else if StrictEquals(noRecordStrategy, Str(STRATEGY_HIDDEN)) {
        hideComponent := true;
      }
    }

    /** `connectedCallback`: without a group the general error is shown and nothing
        else happens; otherwise a parent path is looked up first, a child relation
        second, and with neither the record counts as missing. */
    method ConnectedCallback()
      modifies this`errorMessage, this`hideComponent, this`lookups
      ensures !Truthy(element.group) ==>
        Shown() == old(Shown()).(errorMessage := Str(GENERAL_ERROR_MESSAGE)) && lookups == old(lookups)
      ensures Truthy(element.group) && Truthy(parentRelation) ==>
        Shown() == old(Shown()) && lookups == old(lookups) + [ParentLookup(parentRelation)]
      ensures Truthy(element.group) && !Truthy(parentRelation) && Truthy(childRelation) ==>
        Shown() == old(Shown()) && lookups == old(lookups) + [ChildLookup(childRelation, multipleChildrenStrategy)]
      ensures Truthy(element.group) && !Truthy(parentRelation) && !Truthy(childRelation) ==>
        Shown() == AfterEmptyRecord(relatedRecordId, noRecordStrategy, old(Shown())) && lookups == old(lookups)
    {
      if !Truthy(element.group) {
        errorMessage := Str(GENERAL_ERROR_MESSAGE);
        return;
      }
      if Truthy(parentRelation) {
        lookups := lookups + [ParentLookup(parentRelation)];
      } else if Truthy(childRelation) {
        lookups := lookups + [ChildLookup(childRelation, multipleChildrenStrategy)];
      } else {
        HandleEmptyRecord();
      }
    }

    /** The `then`, `catch` and `finally` of either lookup. */
    method LookupSettled(reply: LookupReply)
      modifies this`relatedRecordId, this`errorMessage, this`hideComponent
      ensures relatedRecordId == (if reply.Resolved? then reply.id else old(relatedRecordId))
      ensures Shown() == AfterLookup(reply, old(relatedRecordId), noRecordStrategy, old(Shown()))
    {
      match reply {
        case Resolved(id) =>
          relatedRecordId := id;
        case Rejected(bodyMessage) =>
          errorMessage := Coalesce(bodyMessage, Str(GENERAL_ERROR_MESSAGE));
      }
      HandleEmptyRecord();
    }
  }
}
