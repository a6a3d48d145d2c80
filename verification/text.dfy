/** String conventions the aggregators rely on: Python's negative slice
    `s[-n:]`, `str(i)` for an index, and `str.title` over ASCII text. */
module Text {

  /** `s[-n:]` for n >= 1: the last n characters of s, or all of s when it is
      shorter. (`s[-0:]` would be all of s, so n = 0 is excluded.) */
  function Suffix(s: string, n: nat): (r: string)
    requires n >= 1
    ensures |r| == if |s| <= n then |s| else n
    ensures s == s[..|s| - |r|] + r
  {
    if |s| <= n then s else s[|s| - n..]
  }

  function Digit(d: nat): (c: char)
    requires d < 10
    ensures '0' <= c <= '9'
    ensures c as int - 48 == d
  {
    (48 + d) as char
  }

  /** `str(n)`: the decimal digits of n, most significant first. */
  function NatToString(n: nat): (r: string)
    ensures 1 <= |r|
    ensures n >= 10 ==> 2 <= |r|
    ensures forall i :: 0 <= i < |r| ==> '0' <= r[i] <= '9'
  {
    if n < 10 then [Digit(n)] else NatToString(n / 10) + [Digit(n % 10)]
  }

  /** Distinct indexes print differently. */
  lemma {:induction false} NatToStringInjective(a: nat, b: nat)
    requires NatToString(a) == NatToString(b)
    ensures a == b
  {
    var sa, sb := NatToString(a), NatToString(b);
    if a >= 10 && b >= 10 {
      assert sa[..|sa| - 1] == NatToString(a / 10);
      assert sb[..|sb| - 1] == NatToString(b / 10);
      NatToStringInjective(a / 10, b / 10);
      assert Digit(a % 10) == sa[|sa| - 1] == sb[|sb| - 1] == Digit(b % 10);
    } else if a < 10 && b < 10 {
      assert Digit(a) == sa[0] == sb[0] == Digit(b);
    }
  }

  predicate IsUpper(c: char) { 'A' <= c <= 'Z' }

  predicate IsLower(c: char) { 'a' <= c <= 'z' }

  /** A cased character, in the ASCII range this model covers. */
  predicate IsCased(c: char) { IsUpper(c) || IsLower(c) }

  function ToUpper(c: char): (u: char)
    ensures IsCased(u) == IsCased(c) && !IsLower(u)
    ensures !IsLower(c) ==> u == c
  {
    if IsLower(c) then (c as int - 32) as char else c
  }

  function ToLower(c: char): (l: char)
    ensures IsCased(l) == IsCased(c) && !IsUpper(l)
    ensures !IsUpper(c) ==> l == c
  {
    if IsUpper(c) then (c as int + 32) as char else c
  }

  /** `str.title` of s, given whether the character just before s was cased:
      a character following a cased one is lowered, any other is raised. */
  function TitleFrom(s: string, afterCased: bool): (r: string)
    ensures |r| == |s|
  {
    if s == [] then []
    else [if afterCased then ToLower(s[0]) else ToUpper(s[0])] + TitleFrom(s[1..], IsCased(s[0]))
  }

  /** `str.title`: every word starts upper-case and continues lower-case. */
  function Title(s: string): (r: string)
    ensures |r| == |s|
  {
    TitleFrom(s, false)
  }

  lemma {:induction false} TitleFromAt(s: string, afterCased: bool, i: nat)
    requires i < |s|
    ensures TitleFrom(s, afterCased)[i] ==
      if (if i == 0 then afterCased else IsCased(s[i - 1])) then ToLower(s[i]) else ToUpper(s[i])
  {
    if i > 0 {
      TitleFromAt(s[1..], IsCased(s[0]), i - 1);
    }
  }

  /** Character i of Title(s) is lowered exactly when character i - 1 of s is cased. */
  lemma TitleAt(s: string, i: nat)
    requires i < |s|
    ensures Title(s)[i] == if i > 0 && IsCased(s[i - 1]) then ToLower(s[i]) else ToUpper(s[i])
  {
    TitleFromAt(s, false, i);
  }

  lemma {:induction false} TitleFromIdempotent(s: string, afterCased: bool)
    ensures TitleFrom(TitleFrom(s, afterCased), afterCased) == TitleFrom(s, afterCased)
  {
    if s != [] {
      var t := TitleFrom(s, afterCased);
      assert t[1..] == TitleFrom(s[1..], IsCased(s[0]));
      assert IsCased(t[0]) == IsCased(s[0]);
      TitleFromIdempotent(s[1..], IsCased(s[0]));
    }
  }

  /** Geography names are normalised once: title-casing a title-cased name changes nothing. */
  lemma TitleIdempotent(s: string)
    ensures Title(Title(s)) == Title(s)
  {
    TitleFromIdempotent(s, false);
  }

  /** Both spellings of one place title-case to the same name. */
  lemma OgdenTitles()
    ensures Title("ogden") == "Ogden" && Title("OGDEN") == "Ogden"
  {
    forall i | 0 <= i < 5 ensures Title("ogden")[i] == "Ogden"[i] && Title("OGDEN")[i] == "Ogden"[i] {
      TitleAt("ogden", i);
      TitleAt("OGDEN", i);
    }
  }
}
