/** The pieces of Go's `strings` package the core relies on, and Go's `len`
    of a string, which counts UTF-8 bytes rather than characters. */
module GoStrings {

  /** The authorization scheme, case-sensitive, with its trailing space. */
  const Bearer: string := "Bearer "

  /** strings.HasPrefix */
  predicate HasPrefix(s: string, p: string) {
    |p| <= |s| && s[..|p|] == p
  }

  /** strings.TrimPrefix: removes one leading copy of `p` when there is one. */
  function TrimPrefix(s: string, p: string): (r: string)
    ensures HasPrefix(s, p) ==> s == p + r
    ensures !HasPrefix(s, p) ==> r == s
  {
    if HasPrefix(s, p) then s[|p|..] else s
  }

  /** Stripping a prefix that was just prepended gives back the rest, even
      when the rest itself starts with the prefix: only one copy goes. */
  lemma TrimPrefixOnce(p: string, t: string)
    ensures HasPrefix(p + t, p)
    ensures TrimPrefix(p + t, p) == t
    ensures TrimPrefix(p + p + t, p) == p + t
  {
  }

  /** Every string carrying the "Bearer " prefix contains a space, so a
      string without one is never stripped. */
  lemma BearerHasSpace(s: string)
    ensures HasPrefix(s, Bearer) ==> ' ' in s
  {
    if HasPrefix(s, Bearer) {
      assert s[6] == Bearer[6];
    }
  }

  predicate IsAscii(s: string) {
    forall i :: 0 <= i < |s| ==> s[i] as int < 0x80
  }

  /** Number of bytes of the UTF-8 encoding of one Unicode scalar value. */
  function RuneLen(c: char): (n: nat)
    ensures 1 <= n <= 4
    ensures n == 1 <==> c as int < 0x80
  {
    if c as int < 0x80 then 1
    else if c as int < 0x800 then 2
    else if c as int < 0x1_0000 then 3
    else 4
  }

  /** Go's `len(s)`: the length in bytes of the UTF-8 encoding of `s`. */
  function ByteLen(s: string): (n: nat)
    ensures |s| <= n <= 4 * |s|
    ensures n == |s| <==> IsAscii(s)
  {
    if |s| == 0 then 0
    else
      var rest := ByteLen(s[1..]);
      assert IsAscii(s) <==> s[0] as int < 0x80 && IsAscii(s[1..]) by {
        assert forall i :: 0 <= i < |s| - 1 ==> s[1..][i] == s[i + 1];
      }
      RuneLen(s[0]) + rest
  }
}
