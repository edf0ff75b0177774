/** Front-matter values and metadata dictionaries, shared by the indexer (which
    copies them into chunks) and the vector-store manager (which sanitises them). */
module Values {

  /** A value parsed from a note's front-matter. The first five cases are the
      types the vector store accepts (None, str, int, float, bool); everything
      else YAML can yield (lists, dicts, dates, ...) is a Composite, carried
      together with the text Python's `str()` gives for it. */
  datatype Value =
    | Null
    | Str(s: string)
    | Int(i: int)
    | Float(f: real)
    | Bool(b: bool)
    | Composite(text: string)

  /** A metadata dictionary: key to value, one value per key. */
  type Metadata = map<string, Value>

  /** `isinstance(v, (type(None), str, int, float, bool))`. */
  predicate IsPrimitive(v: Value)
  {
    !v.Composite?
  }

  /** Python's `str(v)` for a value that is not primitive. */
  function ToStr(v: Value): string
    requires v.Composite?
  {
    v.text
  }
}
