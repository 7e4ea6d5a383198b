/** Results shared by the model's modules. */
module Common {

  datatype Option<+T> = None | Some(value: T)

  datatype Result<+T, +E> = Ok(value: T) | Err(error: E)

  /** How many bytes UTF-8 spends on a character. */
  function Utf8Length(c: char): (n: nat)
    ensures 1 <= n <= 4
  {
    var code := c as int;
    if code < 0x80 then 1 else if code < 0x800 then 2 else if code < 0x10000 then 3 else 4
  }

  /** How many code points one, two, three and four bytes of UTF-8 reach (section 3 of RFC 3629). */
  const UTF8_REACH: seq<int> := [0x80, 0x800, 0x1_0000, 0x11_0000]

  /** No shorter encoding reaches the character. */
  lemma Utf8LengthIsLeast(c: char)
    ensures var n := Utf8Length(c); c as int < UTF8_REACH[n - 1] && forall k | 0 <= k < n - 1 :: UTF8_REACH[k] <= c as int
  {
  }
}
