/** The fragment of java.util.regex that the services' patterns use, with the
    meaning String.matches gives it: the pattern must match the WHOLE string.
    This is the reference against which the hand-written scanners of module
    Patterns are proved equivalent. */
module Regex {
  import opened Chars

  datatype Regex =
    | Class(cls: CharClass)            // [..] or .
    | Lit(c: char)                     // a literal character
    | Concat(left: Regex, right: Regex)
    | Star(body: Regex)                // r*

  /** r+ */
  function Plus(r: Regex): Regex
  {
    Concat(r, Star(r))
  }

  /** r{n,} */
  function AtLeast(r: Regex, n: nat): Regex
  {
    if n == 0 then Star(r) else Concat(r, AtLeast(r, n - 1))
  }

  /** `r` matches exactly `s`. */
  ghost predicate Matches(r: Regex, s: string)
    decreases r, |s|
  {
    match r
    case Class(cls) => |s| == 1 && InClass(cls, s[0])
    case Lit(c) => s == [c]
    case Concat(a, b) =>
      exists k :: 0 <= k <= |s| && Matches(a, s[..k]) && Matches(b, s[k..])
    case Star(x) =>
      s == [] || exists k :: 0 < k <= |s| && Matches(x, s[..k]) && Matches(r, s[k..])
  }

  /** The lookahead (?=r) at the start of `s`: some prefix of `s` matches `r`. */
  ghost predicate LookingAt(r: Regex, s: string)
  {
    exists k :: 0 <= k <= |s| && Matches(r, s[..k])
  }

  /** The split point of a concatenation. */
  lemma ConcatParts(a: Regex, b: Regex, s: string) returns (k: nat)
    requires Matches(Concat(a, b), s)
    ensures k <= |s| && Matches(a, s[..k]) && Matches(b, s[k..])
  {
    k :| 0 <= k <= |s| && Matches(a, s[..k]) && Matches(b, s[k..]);
  }

  /** The first iteration of a star over a non-empty string. */
  lemma StarParts(x: Regex, s: string) returns (k: nat)
    requires s != [] && Matches(Star(x), s)
    ensures 0 < k <= |s| && Matches(x, s[..k]) && Matches(Star(x), s[k..])
  {
    k :| 0 < k <= |s| && Matches(x, s[..k]) && Matches(Star(x), s[k..]);
  }

  /** A concatenation matched at a given split point. */
  lemma ConcatAt(a: Regex, b: Regex, s: string, k: nat)
    requires k <= |s| && Matches(a, s[..k]) && Matches(b, s[k..])
    ensures Matches(Concat(a, b), s)
  {
  }

  /** A non-empty star matched with a given first iteration. */
  lemma StarAt(x: Regex, s: string, k: nat)
    requires 0 < k <= |s| && Matches(x, s[..k]) && Matches(Star(x), s[k..])
    ensures Matches(Star(x), s)
  {
  }

  lemma ConcatOf(a: Regex, b: Regex, u: string, v: string)
    requires Matches(a, u) && Matches(b, v)
    ensures Matches(Concat(a, b), u + v)
  {
    assert (u + v)[..|u|] == u;
    assert (u + v)[|u|..] == v;
  }

  lemma StarOf(x: Regex, u: string, v: string)
    requires u != [] && Matches(x, u) && Matches(Star(x), v)
    ensures Matches(Star(x), u + v)
  {
    assert (u + v)[..|u|] == u;
    assert (u + v)[|u|..] == v;
  }

  /** [c]* matches exactly the strings made of characters of c. */
  lemma {:induction false} StarClass(cls: CharClass, s: string)
    ensures Matches(Star(Class(cls)), s) <==> AllIn(s, cls)
    decreases |s|
  {
    if s != [] {
      StarClass(cls, s[1..]);
      if Matches(Star(Class(cls)), s) {
        var k :| 0 < k <= |s| && Matches(Class(cls), s[..k]) && Matches(Star(Class(cls)), s[k..]);
        assert k == 1;
      }
      if AllIn(s, cls) {
        assert Matches(Class(cls), s[..1]);
      }
    }
  }

  /** [c]{n,} matches exactly the strings of at least n characters of c. */
  lemma {:induction false} AtLeastClass(cls: CharClass, n: nat, s: string)
    ensures Matches(AtLeast(Class(cls), n), s) <==> |s| >= n && AllIn(s, cls)
    decreases n
  {
    if n == 0 {
      StarClass(cls, s);
    } else {
      if s != [] {
        AtLeastClass(cls, n - 1, s[1..]);
      }
      if Matches(AtLeast(Class(cls), n), s) {
        var k :| 0 <= k <= |s| && Matches(Class(cls), s[..k]) && Matches(AtLeast(Class(cls), n - 1), s[k..]);
        assert k == 1;
      }
      if |s| >= n && AllIn(s, cls) {
        assert Matches(Class(cls), s[..1]);
      }
    }
  }
}
