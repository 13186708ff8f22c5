/** The collapsible section: a container that is open or closed, opens by
    default, and toggles on a click or on Enter or Space. */
module CollapsibleSection {
  import opened Wrappers
  import opened JsValues
  import opened FormElement

  const OPEN_CLASS := "slds-section slds-is-open"
  const CLOSED_CLASS := "slds-section"
  const IS_OPEN := "slds-is-open"

  /** `sub` occurs in `s` starting at index `i`. */
  predicate OccursAt(s: string, sub: string, i: int)
  {
    0 <= i <= |s| - |sub| && s[i..i + |sub|] == sub
  }

  /** `sub` occurs somewhere in `s`. */
  ghost predicate Contains(s: string, sub: string)
  {
    exists i :: OccursAt(s, sub, i)
  }

  /** `sectionClass`: the section carries the open marker exactly when it is open. */
  function SectionClass(isOpen: Value): (c: string)
    ensures Contains(c, IS_OPEN) <==> Truthy(isOpen)
  {
    if Truthy(isOpen) then
      assert OccursAt(OPEN_CLASS, IS_OPEN, 13);
      OPEN_CLASS
    else
      assert !Contains(CLOSED_CLASS, IS_OPEN) by {
        assert CLOSED_CLASS[0..12] == CLOSED_CLASS != IS_OPEN;
      }
      CLOSED_CLASS
  }

  /** `!isOpen`. */
  function Toggled(isOpen: Value): (v: Value)
    ensures Truthy(v) <==> !Truthy(isOpen)
  {
    Bool(!Truthy(isOpen))
  }

  /** Two toggles restore the state: the same class, and the same value when the
      state was a boolean. */
  lemma ToggleTwice(isOpen: Value)
    ensures Truthy(Toggled(Toggled(isOpen))) == Truthy(isOpen)
    ensures SectionClass(Toggled(Toggled(isOpen))) == SectionClass(isOpen)
    ensures isOpen.Bool? ==> Toggled(Toggled(isOpen)) == isOpen
  {
  }

  class Component {
    var isOpen: Value

    constructor (isOpen: Value)
      ensures this.isOpen == isOpen
    {
      this.isOpen := isOpen;
    }

    /** `connectedCallback`: a missing state opens the section; any other is kept. */
    method ConnectedCallback()
      modifies this`isOpen
      ensures IsNullish(old(isOpen)) ==> isOpen == Bool(true)
      ensures !IsNullish(old(isOpen)) ==> isOpen == old(isOpen)
      ensures Contains(SectionClass(isOpen), IS_OPEN) <==> IsNullish(old(isOpen)) || Truthy(old(isOpen))
    {
      if StrictEquals(isOpen, Undefined) || StrictEquals(isOpen, Null) {
        isOpen := Bool(true);
      }
    }

    /** `toggleOpen`. */
    method ToggleOpen()
      modifies this`isOpen
      ensures isOpen == Toggled(old(isOpen))
      ensures Contains(SectionClass(isOpen), IS_OPEN) <==> !Contains(SectionClass(old(isOpen)), IS_OPEN)
    {
      isOpen := Bool(!Truthy(isOpen));
    }

    /** `handleKeyPress`: only Enter and Space toggle. */
    method HandleKeyPress(key: Option<Value>)
      modifies this`isOpen
      ensures EnterOrSpace(key) ==> isOpen == Toggled(old(isOpen))
      ensures !EnterOrSpace(key) ==> isOpen == old(isOpen)
    {
      if EnterOrSpace(key) {
        ToggleOpen();
      }
    }
  }
}
