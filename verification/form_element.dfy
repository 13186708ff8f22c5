/** The base element every Dynamic Forms component extends: the group that scopes
    its messages, the subscription bookkeeping, the message filter, the shape of a
    published message, the lenient JSON configuration helper and the record-page
    navigation target. Publishing is modelled as appending to an outbox; calls to
    the message service are logged. */
module FormElement {
  import opened Wrappers
  import opened JsValues
  import Strings

  // Event types carried by messages on the shared channel.
  const CANCEL := "Cancel"
  const CHECK_EDIT := "CheckEdit"
  const CHECK_OVERRIDES := "CheckOverrides"
  const EDIT := "Edit"
  const FOCUS_IN := "FocusIn"
  const FOCUS_OUT := "FocusOut"
  const NO_LONGER_REQUIRED_FIELD := "NoLongerRequiredField"
  const REQUIRED_FIELD := "RequiredField"
  const RESET := "Reset"
  const SAVE_END := "SaveEnd"
  const SAVE_START := "SaveStart"
  const UPDATE := "Update"

  /** A message on the channel. Properties a sender did not set read as `undefined`. */
  datatype Message = Message(eventType: Value, group: Value, fieldApiName: Value, newValue: Value)

  /** The additional data a sender spreads into a message. */
  datatype Payload = Payload(fieldApiName: Value, newValue: Value)

  const NoPayload := Payload(Undefined, Undefined)

  /** A page reference: its `attributes` and its `state` (URL parameters). */
  datatype PageRef = PageRef(attributes: Option<Record>, state: Option<map<string, string>>)

  /** A toast a component showed (`displayToast` or a `ShowToastEvent`). */
  datatype Toast = Toast(title: string, message: Value, variant: string)

  /** What the component asked of the message service. */
  datatype ChannelCall = Subscribed(handle: nat) | Unsubscribed(released: Option<nat>)

  /** `message && message.eventType && message.group === this.group`: whether a
      received message reaches the component's handler. */
  predicate Accepts(message: Option<Message>, group: Value)
  {
    message.Some? && Truthy(message.value.eventType) && StrictEquals(message.value.group, group)
  }

  /** The message `broadcast(eventType, data)` publishes from a component of `group`. */
  function Envelope(eventType: string, group: Value, data: Payload): Message
  {
    Message(Str(eventType), group, data.fieldApiName, data.newValue)
  }

  /** What `broadcast` publishes: nothing without a message context, otherwise the
      one message that carries the event type and the sender's group. */
  function Published(messageContext: Value, eventType: string, group: Value, data: Payload): (out: seq<Message>)
    ensures |out| <= 1
    ensures |out| == 1 <==> Truthy(messageContext)
    ensures forall i :: 0 <= i < |out| ==>
      out[i].eventType == Str(eventType) && out[i].group == group
      && out[i].fieldApiName == data.fieldApiName && out[i].newValue == data.newValue
  {
    if Truthy(messageContext) then [Envelope(eventType, group, data)] else []
  }

  /** A message published by a sender reaches a receiver exactly when the two
      groups are strictly equal; the payload and the event type play no part. */
  lemma PublishedReachesSameGroup(eventType: string, senderGroup: Value, receiverGroup: Value, data: Payload)
    requires eventType != ""
    ensures Accepts(Some(Envelope(eventType, senderGroup, data)), receiverGroup)
        <==> StrictEquals(senderGroup, receiverGroup)
  {
  }

  /** A missing message and a message without an event type reach no handler. */
  lemma RejectsMalformed(m: Message, group: Value)
    ensures !Accepts(None, group)
    ensures !Truthy(m.eventType) ==> !Accepts(Some(m), group)
  {
  }

  function Attribute(pageRef: Option<PageRef>, name: string): Value
  {
    if pageRef.Some? && pageRef.value.attributes.Some? then Get(pageRef.value.attributes.value, name)
    else Undefined
  }

  /** The group a component takes from its page: the record id of a record page,
      else the api name of an app page, else "<objectApiName>.<actionName>". */
  function DefaultGroup(pageRef: Option<PageRef>): (g: Value)
    ensures !IsNullish(Attribute(pageRef, "recordId")) ==> g == Attribute(pageRef, "recordId")
    ensures IsNullish(Attribute(pageRef, "recordId")) && !IsNullish(Attribute(pageRef, "apiName"))
      ==> g == Attribute(pageRef, "apiName")
    ensures IsNullish(Attribute(pageRef, "recordId")) && IsNullish(Attribute(pageRef, "apiName"))
      ==> g == Str(ToStr(Attribute(pageRef, "objectApiName")) + "." + ToStr(Attribute(pageRef, "actionName")))
    ensures !IsNullish(g)
  {
    Coalesce(Attribute(pageRef, "recordId"),
      Coalesce(Attribute(pageRef, "apiName"),
        Str(ToStr(Attribute(pageRef, "objectApiName")) + "." + ToStr(Attribute(pageRef, "actionName")))))
  }

  /** A configuration property as App Builder passes it: text, an object, or any
      other value that is not `null` (a number, a boolean or undefined). */
  datatype ConfigInput<O> = JsonText(text: string) | JsonObject(obj: O) | OtherValue

  /** `tryToParseJSON`: objects pass through unchanged; text is parsed after its
      line breaks are removed, and text that does not parse gives `empty` (`{}`), as
      does any value that is neither text nor an object. `parse` stands for `JSON.parse`, `None` for a throw. */
  function TryToParseJson<O>(input: ConfigInput<O>, parse: string -> Option<O>, empty: O): (r: O)
    ensures input.JsonObject? ==> r == input.obj
    ensures input.OtherValue? ==> r == empty
    ensures input.JsonText? && parse(Strings.RemoveLineBreaks(input.text)).None? ==> r == empty
    ensures input.JsonText? && parse(Strings.RemoveLineBreaks(input.text)).Some?
      ==> r == parse(Strings.RemoveLineBreaks(input.text)).value
  {
    match input
    case JsonText(text) =>
      (match parse(Strings.RemoveLineBreaks(text))
       case Some(o) => o
       case None => empty)
    case JsonObject(o) => o
    case OtherValue => empty
  }

  /** Line breaks typed into a configuration text never change what it parses to. */
  lemma {:induction false} LineBreaksDoNotMatter<O>(a: string, b: string, c: char, parse: string -> Option<O>, empty: O)
    requires Strings.IsLineBreak(c)
    ensures TryToParseJson(JsonText(a + [c] + b), parse, empty) == TryToParseJson(JsonText(a + b), parse, empty)
  {
    Strings.RemoveLineBreaksAppend(a + [c], b);
    Strings.RemoveLineBreaksAppend(a, [c]);
    Strings.RemoveLineBreaksAppend(a, b);
    assert [c][1..] == [];
    assert Strings.RemoveLineBreaks([c]) == [];
    assert Strings.RemoveLineBreaks(a + [c] + b) == Strings.RemoveLineBreaks(a + b);
  }

  /** `["Enter", "Space", " "].includes(event?.key)`, with `key` the event's key
      and `None` a missing event. */
  predicate EnterOrSpace(key: Option<Value>)
  {
    key.Some? && key.value in [Str("Enter"), Str("Space"), Str(" ")]
  }

  /** Only the three keys pass; a missing event or one without a key does not. */
  lemma EnterOrSpaceKeys(key: Option<Value>)
    ensures EnterOrSpace(key) <==> key == Some(Str("Enter")) || key == Some(Str("Space")) || key == Some(Str(" "))
    ensures !EnterOrSpace(None) && !EnterOrSpace(Some(Undefined))
  {
  }

  /** The record page `navigateToRecord` opens. */
  datatype NavTarget = RecordPage(recordId: Option<string>, actionName: string)

  /** `navigateToRecord(id)`: the view page of the id cut to at most 15 characters. */
  function RecordPageTarget(recordId: Option<string>): (t: NavTarget)
    ensures t.actionName == "view"
    ensures recordId.None? <==> t.recordId.None?
    ensures recordId.Some? ==>
      var s := recordId.value;
      && |t.recordId.value| == (if |s| < 15 then |s| else 15)
      && t.recordId.value == s[..|t.recordId.value|]
  {
    match recordId
    case None => RecordPage(None, "view")
    case Some(s) => RecordPage(Some(if |s| < 15 then s else s[..15]), "view")
  }

  /** The 18-character and the 15-character form of an id open the same page. */
  lemma SameTargetForLongId(s: string)
    requires |s| >= 15
    ensures RecordPageTarget(Some(s)) == RecordPageTarget(Some(s[..15]))
  {
    assert s[..15][..15] == s[..15];
  }

  /** The base element's state: group, page reference, subscription, message context,
      the messages it published and the calls it made to the message service. */
  class Element {
    var group: Value
    var currentPageReference: Option<PageRef>
    var subscription: Option<nat>
    var messageContext: Value
    var outbox: seq<Message>
    var channelCalls: seq<ChannelCall>

    constructor (group: Value, messageContext: Value)
      ensures this.group == group && this.messageContext == messageContext
      ensures currentPageReference == None && subscription == None
      ensures outbox == [] && channelCalls == []
    {
      this.group := group;
      this.messageContext := messageContext;
      currentPageReference := None;
      subscription := None;
      outbox := [];
      channelCalls := [];
    }

    /** `handleParameters`: keep the page reference and default a null group. */
    method HandleParameters(pageRef: Option<PageRef>)
      modifies this`currentPageReference, this`group
      ensures currentPageReference == pageRef
      ensures StrictEquals(old(group), Null) ==> group == DefaultGroup(pageRef)
      ensures !StrictEquals(old(group), Null) ==> group == old(group)
      ensures !StrictEquals(group, Null)
    {
      currentPageReference := pageRef;
      if StrictEquals(group, Null) {
        group := DefaultGroup(pageRef);
      }
    }

    /** `subscribeToMessageChannel`: subscribe only when there is no subscription;
        `handle` is what the message service returns. */
    method SubscribeToMessageChannel(handle: nat)
      modifies this`subscription, this`channelCalls
      ensures old(subscription).Some? ==> subscription == old(subscription) && channelCalls == old(channelCalls)
      ensures old(subscription).None? ==>
        subscription == Some(handle) && channelCalls == old(channelCalls) + [Subscribed(handle)]
    {
      if subscription.None? {
        subscription := Some(handle);
        channelCalls := channelCalls + [Subscribed(handle)];
      }
    }

    /** `unsubscribeToMessageChannel`: hand the subscription back and forget it. */
    method UnsubscribeToMessageChannel()
      modifies this`subscription, this`channelCalls
      ensures subscription == None
      ensures channelCalls == old(channelCalls) + [Unsubscribed(old(subscription))]
    {
      channelCalls := channelCalls + [Unsubscribed(subscription)];
      subscription := None;
    }

    /** `broadcast(eventType, data)`. */
    method Broadcast(eventType: string, data: Payload)
      modifies this`outbox
      ensures outbox == old(outbox) + Published(messageContext, eventType, group, data)
    {
      if Truthy(messageContext) {
        outbox := outbox + [Envelope(eventType, group, data)];
      }
    }
  }
}
