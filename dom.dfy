/** An abstract snapshot of the rendered subtree owned by the form container. */
module Dom {

  /**
   * One element of the subtree.
   *  - id:       identity of the DOM node (distinct nodes carry distinct ids)
   *  - tag:      its tagName, compared exactly as written
   *  - kind:     its `type` property (only consulted for buttons, where it
   *              is "submit" when the attribute is absent or unrecognised)
   *  - name, value: what a bindable widget exposes
   *  - html:     whether the node is an HTMLElement at all
   *  - children: its element children, in document order
   */
  datatype Element = Element(
    id: nat,
    tag: string,
    kind: string,
    name: string,
    value: string,
    html: bool,
    children: seq<Element>)

  /** The tag allow-list of the locator. */
  const TagNames: seq<string> := ["input", "select", "textarea"]

  /** A node the locator collects (and does not descend into). */
  predicate IsWidget(e: Element) {
    e.html && e.tag in TagNames
  }

  /** A node the locator descends into without collecting it. */
  predicate IsTransparent(e: Element) {
    e.html && e.tag !in TagNames
  }

  /** A button element whose type is "submit". */
  predicate IsSubmitButton(e: Element) {
    e.html && e.tag == "button" && e.kind == "submit"
  }

  /** A select, input or textarea element: the only kinds extraction reads. */
  predicate IsBindable(e: Element) {
    e.html && (e.tag == "select" || e.tag == "input" || e.tag == "textarea")
  }
}
