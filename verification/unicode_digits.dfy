/** The decimal digits of Unicode (general category Nd), which `\d` matches and int() reads in Python. */
module UnicodeDigits {
  import opened Options

  const OTHER_ZEROS: seq<int> :=
    [0x660, 0x6F0, 0x7C0, 0x966, 0x9E6, 0xA66, 0xAE6, 0xB66, 0xBE6, 0xC66, 0xCE6, 0xD66, 0xDE6, 0xE50, 0xED0,
     0xF20, 0x1040, 0x1090, 0x17E0, 0x1810, 0x1946, 0x19D0, 0x1A80, 0x1A90, 0x1B50, 0x1BB0, 0x1C40, 0x1C50,
     0xA620, 0xA8D0, 0xA900, 0xA9D0, 0xA9F0, 0xAA50, 0xABF0, 0xFF10, 0x104A0, 0x10D30, 0x11066, 0x110F0, 0x11136,
     0x111D0, 0x112F0, 0x11450, 0x114D0, 0x11650, 0x116C0, 0x11730, 0x118E0, 0x11950, 0x11C50, 0x11D50, 0x11DA0,
     0x11F50, 0x16A60, 0x16AC0, 0x16B50, 0x1D7CE, 0x1D7D8, 0x1D7E2, 0x1D7EC, 0x1D7F6, 0x1E140, 0x1E2F0, 0x1E4F0,
     0x1E950, 0x1FBF0]

  /** The zeros of the 68 decimal scripts of Unicode 15.0; each is followed by its nine other digits. */
  const ZEROS: seq<int> := [0x30] + OTHER_ZEROS

  function ValueIn(n: int, zeros: seq<int>): (r: Option<nat>)
    ensures r.Some? ==> r.value < 10
  {
    if zeros == [] then None
    else if 0 <= n - zeros[0] < 10 then Some(n - zeros[0])
    else ValueIn(n, zeros[1..])
  }

  /** unicodedata.decimal */
  function DecimalValue(c: char): (r: Option<nat>)
    ensures r.Some? ==> r.value < 10
  {
    ValueIn(c as int, ZEROS)
  }

  lemma AsciiValue(c: char)
    requires '0' <= c <= '9'
    ensures DecimalValue(c) == Some(c as int - '0' as int)
  {
    assert ZEROS[0] == 0x30;
  }
}
