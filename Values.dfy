/** PHP values as the validators see them, and the PHP rules for emptiness and casting. */
module Values {
  import opened Strings

  datatype Option<+T> = None | Some(value: T)

  /** The end of a PHP call: a returned value or an exception with its message. */
  datatype Outcome<+T> = Returned(value: T) | Threw(message: string)

  /** A field or property value. `Image` is the file array of an image field, reduced to its
      `width` and `height` entries. Floats and objects are not modelled. */
  datatype Value =
    | Null
    | Bool(b: bool)
    | Int(i: int)
    | Str(s: string)
    | List(items: seq<Value>)
    | Image(width: int, height: int)

  /** PHP `empty()` on a string: "" and "0" are empty. */
  predicate EmptyString(s: string) {
    s == "" || s == "0"
  }

  /** PHP `empty()`: null, false, 0, "", "0" and the empty array. */
  predicate IsEmpty(v: Value) {
    match v
    case Null => true
    case Bool(b) => !b
    case Int(i) => i == 0
    case Str(s) => EmptyString(s)
    case List(items) => items == []
    case Image(_, _) => false
  }

  /** PHP truthiness (`if ($v)`), the negation of `empty()` on a defined value. */
  predicate Truthy(v: Value) {
    !IsEmpty(v)
  }

  /** PHP `(string) $v`; an array casts to "Array". */
  function StringOf(v: Value): string {
    match v
    case Null => ""
    case Bool(b) => if b then "1" else ""
    case Int(i) => IntToString(i)
    case Str(s) => s
    case List(_) => "Array"
    case Image(_, _) => "Array"
  }
}
