/** Status codes, C strings and small sequence facts shared by the other modules. */
module Common {

  datatype Option<+T> = None | Some(value: T)

  /** The error codes that the modelled functions can store in an as_error. */
  datatype Code = ClientCode | ParamCode | BinNameCode | ClusterCode

  datatype Status = Ok | Err(code: Code)

  /** What `c_str()` keeps of a PHP string: everything before the first NUL character. */
  function CStr(s: string): (r: string)
    ensures r <= s
    ensures NulFree(r)
    ensures |r| < |s| ==> s[|r|] == '\0'
  {
    if s == [] || s[0] == '\0' then [] else [s[0]] + CStr(s[1..])
  }

  predicate NulFree(s: string) {
    '\0' !in s
  }

  lemma {:induction false} CStrIdentity(s: string)
    ensures CStr(s) == s <==> NulFree(s)
  {
    if |CStr(s)| < |s| {
      assert s[|CStr(s)|] in s;
    }
  }

  const TWO_TO_THE_31: int := 0x8000_0000
  const TWO_TO_THE_32: int := 0x1_0000_0000

  /** A C int. */
  type Int32 = x: int | -0x8000_0000 <= x < 0x8000_0000 witness 0

  /** Conversion to a C int in two's complement. */
  function Wrap(n: int): (r: Int32)
    ensures -TWO_TO_THE_31 <= n < TWO_TO_THE_31 ==> r == n
  {
    (n + TWO_TO_THE_31) % TWO_TO_THE_32 - TWO_TO_THE_31
  }

  /** The C int that agrees with n on its low 32 bits. */
  lemma {:induction false} WrapKeepsLowBits(n: int)
    ensures (n - Wrap(n)) % TWO_TO_THE_32 == 0
  {
  }
}
