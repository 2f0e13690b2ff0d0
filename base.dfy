/** Small shared vocabulary: bytes, an optional value, C string helpers. */
module Base {

  /** An unsigned 8-bit value, as `unsigned char` / `uint8_t`. */
  type byte = x: int | 0 <= x < 256

  /** A positive count. */
  type pos = n: nat | n > 0 witness 1

  datatype Option<T> = None | Some(value: T)

  function Min(a: int, b: int): int
  {
    if a <= b then a else b
  }

  /** The C string terminator. */
  const NUL: char := 0 as char

  /** The C string held by a character buffer: everything before the first NUL. */
  function CString(buf: seq<char>): (s: string)
    ensures |s| <= |buf| && s == buf[..|s|]
    ensures NUL !in s
    ensures |s| < |buf| ==> buf[|s|] == NUL
  {
    if buf == [] || buf[0] == NUL then [] else [buf[0]] + CString(buf[1..])
  }

  /** Reading back a C string that was stored NUL-terminated. */
  lemma {:induction false} CStringOfTerminated(s: string, rest: seq<char>)
    requires NUL !in s
    ensures CString(s + [NUL] + rest) == s
  {
    if s != [] {
      assert (s + [NUL] + rest)[1..] == s[1..] + [NUL] + rest;
      CStringOfTerminated(s[1..], rest);
    }
  }

  /** `std::string::find(c)`: the first position holding `c`, if any. */
  function FindFirst(s: string, c: char): (r: Option<nat>)
    ensures r.None? <==> c !in s
    ensures r.Some? ==> r.value < |s| && s[r.value] == c && c !in s[..r.value]
  {
    if s == [] then None
    else if s[0] == c then Some(0)
    else match FindFirst(s[1..], c)
      case None => None
      case Some(k) => assert s[..k + 1] == [s[0]] + s[1..][..k]; Some(k + 1)
  }
}
