/** Character classes used by the validators' regular expressions, Java's
    line-terminator set, ASCII upper-casing and a few scanning helpers. */
module Chars {

  datatype Option<T> = None | Some(value: T)

  /** The bracketed classes and the dot of the patterns in the services. */
  datatype CharClass =
    | Upper          // [A-Z]
    | Lower          // [a-z]
    | AsciiLetter    // [a-zA-Z]
    | SpanishLetter  // [A-Za-zÁÉÍÓÚáéíóúÑñ]
    | DomainChar     // [a-zA-Z0-9.-]
    | Special        // [!@#$%^&*(),.?":{}|<>]
    | AnyChar        // .  (every character except a line terminator)

  /** Java's regex dot does not match \n, \r, U+0085, U+2028, U+2029. */
  predicate IsLineTerminator(c: char)
  {
    c == '\n' || c == '\r' || c == '\U{0085}' || c == '\U{2028}' || c == '\U{2029}'
  }

  predicate IsUpper(c: char) { 'A' <= c <= 'Z' }
  predicate IsLower(c: char) { 'a' <= c <= 'z' }
  predicate IsDigit(c: char) { '0' <= c <= '9' }
  predicate IsAsciiLetter(c: char) { IsUpper(c) || IsLower(c) }

  predicate IsSpanishLetter(c: char)
  {
    IsAsciiLetter(c) || c in "ÁÉÍÓÚáéíóúÑñ"
  }

  predicate IsSpecial(c: char)
  {
    c in "!@#$%^&*(),.?\":{}|<>"
  }

  predicate InClass(cls: CharClass, c: char)
  {
    match cls
    case Upper => IsUpper(c)
    case Lower => IsLower(c)
    case AsciiLetter => IsAsciiLetter(c)
    case SpanishLetter => IsSpanishLetter(c)
    case DomainChar => IsAsciiLetter(c) || IsDigit(c) || c == '.' || c == '-'
    case Special => IsSpecial(c)
    case AnyChar => !IsLineTerminator(c)
  }

  /** Every character of `s` is in `cls`. */
  predicate AllIn(s: string, cls: CharClass)
  {
    s == [] || (InClass(cls, s[0]) && AllIn(s[1..], cls))
  }

  /** A string whose two halves are in `cls` is in `cls`. */
  lemma AllInJoin(s: string, k: nat, cls: CharClass)
    requires k <= |s| && AllIn(s[..k], cls) && AllIn(s[k..], cls)
    ensures AllIn(s, cls)
  {
    AllInConcat(s[..k], s[k..], cls);
    assert s[..k] + s[k..] == s;
  }

  /** Some character of `s` is in `cls`. */
  predicate HasAny(s: string, cls: CharClass)
  {
    s != [] && (InClass(cls, s[0]) || HasAny(s[1..], cls))
  }

  lemma {:induction false} AllInAt(s: string, cls: CharClass)
    ensures AllIn(s, cls) <==> forall i :: 0 <= i < |s| ==> InClass(cls, s[i])
  {
    if s != [] {
      AllInAt(s[1..], cls);
      assert forall i :: 1 <= i < |s| ==> s[i] == s[1..][i - 1];
    }
  }

  lemma {:induction false} AllInConcat(a: string, b: string, cls: CharClass)
    ensures AllIn(a + b, cls) <==> AllIn(a, cls) && AllIn(b, cls)
  {
    if a == [] {
      assert a + b == b;
    } else {
      assert (a + b)[1..] == a[1..] + b;
      AllInConcat(a[1..], b, cls);
    }
  }

  lemma {:induction false} HasAnyAt(s: string, cls: CharClass)
    ensures HasAny(s, cls) <==> exists i :: 0 <= i < |s| && InClass(cls, s[i])
  {
    if s != [] {
      HasAnyAt(s[1..], cls);
      if HasAny(s[1..], cls) {
        var i :| 0 <= i < |s[1..]| && InClass(cls, s[1..][i]);
        assert InClass(cls, s[i + 1]);
      }
      if exists i :: 0 <= i < |s| && InClass(cls, s[i]) {
        var i :| 0 <= i < |s| && InClass(cls, s[i]);
        if i > 0 {
          assert InClass(cls, s[1..][i - 1]);
        }
      }
    }
  }

  /** The index of the last occurrence of `c` in `s`, as String.lastIndexOf. */
  function LastIndex(s: string, c: char): (r: Option<nat>)
    ensures r.Some? ==> r.value < |s| && s[r.value] == c && c !in s[r.value + 1..]
    ensures r.None? ==> c !in s
  {
    if s == [] then None
    else if s[|s| - 1] == c then Some(|s| - 1)
    else
      assert s == s[..|s| - 1] + [s[|s| - 1]];
      LastIndex(s[..|s| - 1], c)
  }

  /** Conversely, an occurrence after which `c` does not appear is the last one. */
  lemma {:induction false} LastIndexOfSplit(u: string, c: char, v: string)
    requires c !in v
    ensures LastIndex(u + [c] + v, c) == Some(|u|)
  {
    var s := u + [c] + v;
    var r := LastIndex(s, c);
    assert s[|u|] == c;
    var i := r.value;
    forall j | i < j < |s| ensures s[j] != c {
      assert s[j] == s[i + 1..][j - i - 1];
    }
    forall j | |u| < j < |s| ensures s[j] != c {
      assert s[j] == v[j - |u| - 1];
    }
  }

  /** ASCII upper-casing of one character; every other character is kept. */
  function UpperChar(c: char): (u: char)
    ensures !IsLower(u)
    ensures IsLower(c) ==> u as int == c as int - 32
    ensures !IsLower(c) ==> u == c
  {
    if IsLower(c) then (c as int - 32) as char else c
  }

  /** String.toUpperCase restricted to the ASCII letters. */
  function ToUpper(s: string): (u: string)
    ensures |u| == |s|
  {
    seq(|s|, i requires 0 <= i < |s| => UpperChar(s[i]))
  }

  /** Upper-casing leaves a string unchanged exactly when it has no
      lower-case letter. */
  lemma ToUpperFixed(s: string)
    ensures ToUpper(s) == s <==> !HasAny(s, Lower)
  {
    ToUpperIdempotent(s);
    HasAnyAt(s, Lower);
  }

  /** Upper-casing twice is upper-casing once, and the result has no
      lower-case letter. */
  lemma {:induction false} ToUpperIdempotent(s: string)
    ensures ToUpper(ToUpper(s)) == ToUpper(s)
    ensures !HasAny(ToUpper(s), Lower)
  {
    if s != [] {
      ToUpperIdempotent(s[1..]);
      assert ToUpper(s)[1..] == ToUpper(s[1..]);
    }
  }
}
