/** Types shared by every part of the model. */
module Base {

  datatype Option<+T> = None | Some(value: T)

  /** One octet of a stream, a file or a buffer. */
  type byte = b: int | 0 <= b < 256

  function Min(a: int, b: int): int {
    if a < b then a else b
  }

  /** What C sees of the text in a buffer: the characters before the first NUL. */
  function CString(s: string): (t: string)
    ensures |t| <= |s|
  {
    if s == "" || s[0] == '\0' then "" else [s[0]] + CString(s[1..])
  }

  lemma {:induction false} WithoutNul(s: string)
    requires '\0' !in s
    ensures CString(s) == s
  {
    if s != "" {
      WithoutNul(s[1..]);
      assert s == [s[0]] + s[1..];
    }
  }
}
