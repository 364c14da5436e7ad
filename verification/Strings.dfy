/** The order of strings by character, and trimming as the host language does it. */
module Strings {
  predicate LexLe(a: string, b: string) {
    a == "" || (b != "" && (a[0] < b[0] || (a[0] == b[0] && LexLe(a[1..], b[1..]))))
  }

  lemma {:induction false} LexTotal(a: string, b: string)
    ensures LexLe(a, b) || LexLe(b, a)
  {
    if a != "" && b != "" && a[0] == b[0] { LexTotal(a[1..], b[1..]); }
  }

  lemma {:induction false} LexTransitive(a: string, b: string, c: string)
    requires LexLe(a, b) && LexLe(b, c)
    ensures LexLe(a, c)
  {
    if a != "" && a[0] == b[0] == c[0] { LexTransitive(a[1..], b[1..], c[1..]); }
  }

  lemma {:induction false} LexAntisymmetric(a: string, b: string)
    requires LexLe(a, b) && LexLe(b, a)
    ensures a == b
  {
    if a != "" && b != "" {
      LexAntisymmetric(a[1..], b[1..]);
      assert a == [a[0]] + a[1..] && b == [b[0]] + b[1..];
    }
  }

  /** Characters `String.prototype.trim` removes. */
  predicate IsSpace(c: char) {
    var n := c as int;
    || 9 <= n <= 13 || n == 32 || n == 0xA0 || n == 0x1680 || 0x2000 <= n <= 0x200A
    || n == 0x2028 || n == 0x2029 || n == 0x202F || n == 0x205F || n == 0x3000 || n == 0xFEFF
  }

  function StripStart(space: char -> bool, s: string): string {
    if s != "" && space(s[0]) then StripStart(space, s[1..]) else s
  }

  function StripEnd(space: char -> bool, s: string): string {
    if s != "" && space(s[|s| - 1]) then StripEnd(space, s[..|s| - 1]) else s
  }

  /** `s` without the characters of `space` at its two ends. */
  function Strip(space: char -> bool, s: string): string {
    StripEnd(space, StripStart(space, s))
  }

  function Trim(s: string): string {
    Strip(IsSpace, s)
  }

  lemma StripFixed(space: char -> bool, s: string)
    requires s != "" ==> !space(s[0]) && !space(s[|s| - 1])
    ensures Strip(space, s) == s
  {}

  lemma {:induction false} StripEnds(space: char -> bool, s: string)
    ensures var t := StripEnd(space, s); t != "" ==> t[0] == s[0] && !space(t[|t| - 1])
  {
    if s != "" && space(s[|s| - 1]) { StripEnds(space, s[..|s| - 1]); }
  }

  lemma {:induction false} StripStarts(space: char -> bool, s: string)
    ensures var t := StripStart(space, s); t != "" ==> !space(t[0])
  {
    if s != "" && space(s[0]) { StripStarts(space, s[1..]); }
  }

  lemma StripIsIdempotent(space: char -> bool, s: string)
    ensures Strip(space, Strip(space, s)) == Strip(space, s)
  {
    StripStarts(space, s);
    StripEnds(space, StripStart(space, s));
    StripFixed(space, Strip(space, s));
  }

  lemma TrimFixed(s: string)
    requires s != "" ==> !IsSpace(s[0]) && !IsSpace(s[|s| - 1])
    ensures Trim(s) == s
  {
    StripFixed(IsSpace, s);
  }

  lemma TrimIsIdempotent(s: string)
    ensures Trim(Trim(s)) == Trim(s)
  {
    StripIsIdempotent(IsSpace, s);
  }
}
