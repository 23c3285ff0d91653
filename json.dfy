/**
 * JSON.stringify and JSON.parse, kept abstract.
 *
 * The application stores a question's options and correct answers as JSON
 * text and parses them back before use. The JSON grammar is not modelled: a
 * stored text is represented by the value it was produced from, so parsing
 * returns exactly what was stringified.
 */
module Json {

  /** The serialized form of a value of type T. */
  datatype Text<T> = Stringified(payload: T)

  /** JSON.stringify: turns a value into its stored text. */
  function Stringify<T>(v: T): (t: Text<T>)
    ensures Parse(t) == v
  {
    Stringified(v)
  }

  /** JSON.parse: reads a value back from its stored text. */
  function Parse<T>(t: Text<T>): T
  {
    t.payload
  }
}
