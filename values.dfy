/** JavaScript values as the extension's handler sees them: optional
    properties and the two conversions the code relies on. */
module Values {

  /** A property that may be `undefined`. */
  datatype Option<T> = None | Some(value: T)

  /** How a template literal or a property key renders a string-valued
      property: an absent one becomes the text "undefined". */
  function Render(o: Option<string>): string
  {
    match o
    case Some(s) => s
    case None => "undefined"
  }

  /** JavaScript truthiness of a string-valued property: `undefined` and
      the empty string are falsy, every other string is truthy. */
  predicate Truthy(o: Option<string>)
  {
    o.Some? && o.value != ""
  }
}
