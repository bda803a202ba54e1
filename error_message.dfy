/**
 * `ensureErrorMessage`: the text shown for a failed request, taken from
 * the `message` of the error response. JavaScript values are modelled as a
 * datatype with JavaScript's truthiness; numbers are integers.
 */
module ErrorMessage {

  /** The value of the response's `message`, `Undefined` when it has none. */
  datatype JsValue = Undefined | Null | Bool(b: bool) | Num(n: int) | Str(s: string) | Arr(items: seq<JsValue>) | Obj

  /** JavaScript truthiness: every array and object is truthy, even an empty one. */
  predicate Truthy(v: JsValue) {
    match v
    case Undefined => false
    case Null => false
    case Bool(b) => b
    case Num(n) => n != 0
    case Str(s) => s != ""
    case Arr(_) => true
    case Obj => true
  }

  const Fallback := Str("Something went wrong")

  /**
   * A falsy message gives the fallback text; an array gives its first
   * element, `undefined` when it is empty; any other truthy message is
   * returned as it is.
   */
  function EnsureErrorMessage(message: JsValue): (r: JsValue)
    ensures !Truthy(message) ==> r == Fallback
    ensures message.Arr? ==> r == if |message.items| > 0 then message.items[0] else Undefined
    ensures Truthy(message) && !message.Arr? ==> r == message
  {
    if Truthy(message) then
      if message.Arr? then
        if |message.items| > 0 then message.items[0] else Undefined
      else message
    else Fallback
  }

  /** An empty array is truthy, so it yields `undefined` rather than the fallback. */
  lemma EmptyArrayYieldsUndefined()
    ensures EnsureErrorMessage(Arr([])) == Undefined && EnsureErrorMessage(Arr([])) != Fallback
  {
  }

  /** A string message, or an array whose first element is a string, yields a string. */
  lemma TextStaysText(message: JsValue)
    requires message.Str? || (message.Arr? && |message.items| > 0 && message.items[0].Str?)
    ensures EnsureErrorMessage(message).Str?
  {
  }

  /**
   * Normalising a normalised message changes nothing when it is a truthy
   * non-array; an array holding an empty string shows that a falsy result
   * can come out, which a second pass turns into the fallback.
   */
  lemma Normalised(message: JsValue)
    ensures var r := EnsureErrorMessage(message);
            Truthy(r) && !r.Arr? ==> EnsureErrorMessage(r) == r
    ensures EnsureErrorMessage(Arr([Str("")])) == Str("")
    ensures EnsureErrorMessage(EnsureErrorMessage(Arr([Str("")]))) == Fallback
  {
  }
}
