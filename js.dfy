/** JavaScript values as the browser code sees them: string properties that
    may be absent, their truthiness and `||`, and thrown errors with their
    `String(e)` rendering. */
module JsValues {
  import opened Results

  /** A string property is truthy when it is present and not empty
      (`undefined`, `null` and `""` are falsy). */
  predicate Truthy(v: Option<string>)
  {
    v.Some? && v.value != ""
  }

  /** `a || b` over string properties. */
  function Or(a: Option<string>, b: Option<string>): Option<string>
  {
    if Truthy(a) then a else b
  }

  /** `v || ""`. */
  function OrEmpty(v: Option<string>): string
  {
    if Truthy(v) then v.value else ""
  }

  /** `${v}` in a template literal: an absent property renders as
      `undefined`. */
  function Show(v: Option<string>): string
  {
    if v.Some? then v.value else "undefined"
  }

  /** A thrown `Error`: its `name` and `message`. */
  datatype JsError = JsError(name: string, message: string)

  /** `new Error(message)`. */
  function Error(message: string): JsError
  {
    JsError("Error", message)
  }

  /** `String(e)` of an error (`Error.prototype.toString`): the name, a
      colon and the message, dropping whichever of the two is empty. */
  function ErrorText(e: JsError): string
  {
    if e.name == "" then e.message
    else if e.message == "" then e.name
    else e.name + ": " + e.message
  }

  /** The text of a plain `Error` with a message is `"Error: "` followed by
      the message, so the message can be read back from it. */
  lemma ErrorTextOfError(message: string)
    requires message != ""
    ensures ErrorText(Error(message)) == "Error: " + message
    ensures ErrorText(Error(message))[7..] == message
  {
  }

  /** `a || b || c` picks the first truthy operand, or the last one. */
  lemma OrChain(a: Option<string>, b: Option<string>, c: Option<string>)
    ensures Truthy(Or(Or(a, b), c)) <==> Truthy(a) || Truthy(b) || Truthy(c)
    ensures Truthy(a) ==> Or(Or(a, b), c) == a
    ensures !Truthy(a) && Truthy(b) ==> Or(Or(a, b), c) == b
    ensures !Truthy(a) && !Truthy(b) ==> Or(Or(a, b), c) == c
  {
  }
}
