/** The parts of a DOM change event the handlers read from `e.target`. */
module Events {
  import opened Json

  /** `type === 'checkbox'`, `type === 'radio'`, and everything else the forms
      render (text, number and date inputs, textareas). */
  datatype InputKind = Checkbox | Radio | TextEntry

  /** `section` is the `data-section` attribute: `None` when the element has none. */
  datatype InputEvent = InputEvent(
    kind: InputKind,
    name: string,
    value: string,
    checked: bool,
    section: Option<string>)
}
