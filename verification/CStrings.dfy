/** NUL-terminated strings inside character buffers. */
module CStrings {
  const NUL: char := '\0'

  /** The C string a buffer holds: everything before its first NUL (or all of it when there is none). */
  function CStr(s: seq<char>): string {
    if s == [] || s[0] == NUL then [] else [s[0]] + CStr(s[1..])
  }

  /** The C string is the longest NUL-free prefix. */
  lemma {:induction false} CStrPrefix(s: seq<char>)
    ensures |CStr(s)| <= |s| && CStr(s) == s[..|CStr(s)|]
    ensures NUL !in CStr(s)
    ensures |CStr(s)| < |s| ==> s[|CStr(s)|] == NUL
  {
    if s != [] && s[0] != NUL {
      CStrPrefix(s[1..]);
    }
  }

  /** A NUL-free prefix that ends at a NUL, or at the end of the buffer, is the buffer's C string. */
  lemma {:induction false} CStrIs(s: seq<char>, n: nat)
    requires n <= |s| && NUL !in s[..n]
    requires n == |s| || s[n] == NUL
    ensures CStr(s) == s[..n]
  {
    var r := CStr(s);
    CStrPrefix(s);
    assert forall i :: 0 <= i < n ==> s[..n][i] == s[i] != NUL;
    assert forall i :: 0 <= i < |r| ==> r[i] == s[i] != NUL;
  }

  /** Padding NULs do not change the C string. */
  lemma {:induction false} CStrPadded(s: seq<char>, n: nat)
    requires n <= |s|
    requires forall i :: n <= i < |s| ==> s[i] == NUL
    ensures CStr(s) == CStr(s[..n])
  {
    var r := CStr(s[..n]);
    CStrPrefix(s[..n]);
    assert r == s[..|r|];
    CStrIs(s, |r|);
  }
}
