/**
 * The YAML library is foreign code: the model treats a parsed header as an
 * abstract mapping from keys to values and the parser as a parameter.
 */
module Yaml {
  import opened Text

  /** A header value as the scripts see it after `parseYaml`. A sequence is kept
      as its items as `join` renders them (null and undefined items as ''); a nested mapping as its fields; every
      other scalar (number, boolean, null) as its `String(v)` text and its
      JavaScript truthiness. */
  datatype Value =
    | Str(s: string)
    | List(items: seq<string>)
    | Object(fields: map<string, Value>)
    | Scalar(text: string, truthy: bool)

  type Header = map<string, Value>

  /** What `parseYaml` returns for a header block: a mapping, `null` (an empty
      block) or some other scalar. */
  datatype Document = Mapping(fields: Header) | NullDoc | ScalarDoc

  /** `parseYaml` either throws or yields a document. */
  datatype Parsed = ParseError | Doc(doc: Document)

  /** JavaScript truthiness of a value: the empty string is falsy, every array is truthy. */
  predicate Truthy(v: Value) {
    match v
    case Str(s) => s != ""
    case List(_) => true
    case Object(_) => true
    case Scalar(_, t) => t
  }

  /** `String(v)`: an array renders as its items joined by commas, a mapping as
      `[object Object]`. */
  function ToText(v: Value): (r: string)
    ensures v.Str? ==> r == v.s
  {
    match v
    case Str(s) => s
    case List(items) => Join(items, ",")
    case Object(_) => "[object Object]"
    case Scalar(text, _) => text
  }

  /** `h[k]` is truthy (so `!h[k]` is false). */
  predicate Present(h: Header, k: string) {
    k in h && Truthy(h[k])
  }

  /** The fields of a document: property access on a scalar document yields nothing. */
  function FieldsOf(d: Document): Header {
    if d.Mapping? then d.fields else map[]
  }
}
