/** Result types shared by every model. */
module Common {

  datatype Option<+T> = None | Some(value: T)

  /** A Python call that returns a value or raises an exception with a message. */
  datatype Result<+T> = Ok(value: T) | Err(message: string)

  function Max(a: int, b: int): int {
    if a >= b then a else b
  }

  function Min(a: int, b: int): int {
    if a <= b then a else b
  }

  /** `needle` occurs somewhere inside `text`. */
  ghost predicate Contains(text: string, needle: string) {
    exists before: string, after: string :: text == before + needle + after
  }

  predicate EndsWith(text: string, tail: string) {
    |tail| <= |text| && text[|text| - |tail|..] == tail
  }

  lemma ContainsTrans(text: string, middle: string, needle: string)
    requires Contains(text, middle) && Contains(middle, needle)
    ensures Contains(text, needle)
  {
    var b0: string, a0: string :| text == b0 + middle + a0;
    var b1: string, a1: string :| middle == b1 + needle + a1;
    assert text == (b0 + b1) + needle + (a1 + a0);
  }

  lemma ContainsItself(text: string)
    ensures Contains(text, text)
  {
    assert text == "" + text + "";
  }
}
