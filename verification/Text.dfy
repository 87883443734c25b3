/** ASCII lower-casing and colon-separated keys. */
module Text {
  function LowerChar(c: char): char {
    if 'A' <= c <= 'Z' then (c as int + 32) as char else c
  }

  function Lower(s: string): (r: string)
    ensures |r| == |s|
    ensures forall i :: 0 <= i < |s| ==> r[i] == LowerChar(s[i])
  {
    seq(|s|, i requires 0 <= i < |s| => LowerChar(s[i]))
  }

  lemma LowerIsIdempotent(s: string)
    ensures Lower(Lower(s)) == Lower(s)
  {
  }

  /** The same letter, first as a capital and then not. */
  predicate IsCapitalOf(c: char, d: char) {
    'A' <= c <= 'Z' && c as int - 'A' as int == d as int - 'a' as int
  }

  predicate SameLetter(c: char, d: char) { c == d || IsCapitalOf(c, d) || IsCapitalOf(d, c) }

  predicate SameButForCase(s: string, t: string) {
    |s| == |t| && forall i :: 0 <= i < |s| ==> SameLetter(s[i], t[i])
  }

  /** Lower-casing forgets the case of letters and nothing else. */
  lemma LowerForgetsCaseOnly(s: string, t: string)
    ensures Lower(s) == Lower(t) <==> SameButForCase(s, t)
    ensures SameButForCase(Lower(s), s) && forall i :: 0 <= i < |s| ==> !('A' <= Lower(s)[i] <= 'Z')
  {
    if Lower(s) == Lower(t) {
      forall i | 0 <= i < |s| ensures SameLetter(s[i], t[i]) {
        assert Lower(s)[i] == Lower(t)[i];
      }
    }
  }

  predicate NoColon(s: string) { ':' !in s }

  lemma LowerKeepsNoColon(s: string)
    requires NoColon(s)
    ensures NoColon(Lower(s))
  {
    forall i | 0 <= i < |s| ensures Lower(s)[i] != ':' {
      assert s[i] in s;
    }
  }

  function FirstColon(s: string): (n: nat)
    ensures n <= |s|
  {
    if s == "" || s[0] == ':' then 0 else 1 + FirstColon(s[1..])
  }

  lemma {:induction false} FirstColonEndsTheFirstPart(a: string, x: string)
    requires NoColon(a)
    ensures FirstColon(a + ":" + x) == |a|
  {
    if a != "" {
      assert a[0] in a;
      assert (a + ":" + x)[1..] == a[1..] + ":" + x;
      FirstColonEndsTheFirstPart(a[1..], x);
    }
  }

  /** The first colon tells where the first part of a key ends. */
  lemma FirstPartIsUnique(a: string, x: string, b: string, y: string)
    requires NoColon(a) && NoColon(b)
    requires a + ":" + x == b + ":" + y
    ensures a == b && x == y
  {
    var s, t := a + ":" + x, b + ":" + y;
    FirstColonEndsTheFirstPart(a, x);
    FirstColonEndsTheFirstPart(b, y);
    assert a == s[..|a|] && b == t[..|b|];
    assert x == s[|a| + 1..] && y == t[|b| + 1..];
  }
}
