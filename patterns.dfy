/** The four regular expressions of the services, written as Regex values,
    and a scanner for each (a function that can run), proved to accept
    exactly the strings the pattern matches. */
module Patterns {
  import opened Chars
  import opened Regex

  /** A word: one `head` character followed by any number of `tail` ones. */
  function Word(head: CharClass, tail: CharClass): Regex
  {
    Concat(Class(head), Star(Class(tail)))
  }

  function SpaceWord(head: CharClass, tail: CharClass): Regex
  {
    Concat(Lit(' '), Word(head, tail))
  }

  /** ([A-Z][a-zA-Z]*)+( [A-Z][a-zA-Z]*)*  (GestionJugadora, GestionUsuario,
      GestionEntrenador: nombre and apellidos). */
  function NameRegex(): Regex
  {
    Concat(Plus(Word(Upper, AsciiLetter)), Star(SpaceWord(Upper, AsciiLetter)))
  }

  /** ^[A-Za-zÁÉÍÓÚáéíóúÑñ]+( [A-Za-zÁÉÍÓÚáéíóúÑñ]+)*$  (nationality, result,
      observation, comment). The anchors add nothing under String.matches. */
  function LettersRegex(): Regex
  {
    Concat(Plus(Class(SpanishLetter)), Star(Concat(Lit(' '), Plus(Class(SpanishLetter)))))
  }

  /** [a-zA-Z0-9.-]+\.[a-zA-Z]{2,} */
  function DomainRegex(): Regex
  {
    Concat(Plus(Class(DomainChar)), Concat(Lit('.'), AtLeast(Class(AsciiLetter), 2)))
  }

  /** .{3,}@[a-zA-Z0-9.-]+\.[a-zA-Z]{2,} */
  function EmailRegex(): Regex
  {
    Concat(AtLeast(Class(AnyChar), 3), Concat(Lit('@'), DomainRegex()))
  }

  /** (?=.*c) */
  function Contains(cls: CharClass): Regex
  {
    Concat(Star(Class(AnyChar)), Class(cls))
  }

  /** (?=.*[a-z])(?=.*[A-Z])(?=.*[!@#$%^&*(),.?":{}|<>]).{8,} */
  ghost predicate PasswordRegexMatches(s: string)
  {
    LookingAt(Contains(Lower), s) && LookingAt(Contains(Upper), s)
    && LookingAt(Contains(Special), s) && Matches(AtLeast(Class(AnyChar), 8), s)
  }

  // ---------------------------------------------------------------- scanners

  /** What may follow the first character of a line of words: `tail`
      characters, and a single space only when a `head` character follows. */
  predicate WordRest(s: string, head: CharClass, tail: CharClass)
    decreases |s|
  {
    s == []
    || (if s[0] == ' '
        then |s| > 1 && InClass(head, s[1]) && WordRest(s[2..], head, tail)
        else InClass(tail, s[0]) && WordRest(s[1..], head, tail))
  }

  /** Words separated by single spaces, each starting with a `head` character. */
  predicate WordsLine(s: string, head: CharClass, tail: CharClass)
  {
    s != [] && InClass(head, s[0]) && WordRest(s[1..], head, tail)
  }

  predicate IsName(s: string)
  {
    WordsLine(s, Upper, AsciiLetter)
  }

  predicate IsLetters(s: string)
  {
    WordsLine(s, SpanishLetter, SpanishLetter)
  }

  /** The part after the '@': domain characters whose last '.' has at least
      one character before it and at least two ASCII letters after it. */
  predicate IsDomain(d: string)
  {
    AllIn(d, DomainChar)
    && match LastIndex(d, '.')
       case None => false
       case Some(p) => p >= 1 && |d| - p >= 3 && AllIn(d[p + 1..], AsciiLetter)
  }

  /** At least three characters up to the last '@', then a domain. */
  predicate IsEmail(s: string)
  {
    match LastIndex(s, '@')
    case None => false
    case Some(a) => a >= 3 && AllIn(s[..a], AnyChar) && IsDomain(s[a + 1..])
  }

  predicate IsPassword(s: string)
  {
    |s| >= 8 && AllIn(s, AnyChar)
    && HasAny(s, Lower) && HasAny(s, Upper) && HasAny(s, Special)
  }

  // ------------------------------------------------------------ word lines

  /** The two word classes of the services: a space is never a `tail`
      character and every `head` character is also a `tail` one. */
  ghost predicate WordClasses(head: CharClass, tail: CharClass)
  {
    !InClass(tail, ' ') && forall c :: InClass(head, c) ==> InClass(tail, c)
  }

  /** A word is a `head` character followed by `tail` characters. */
  lemma WordParts(head: CharClass, tail: CharClass, u: string)
    requires Matches(Word(head, tail), u)
    ensures u != [] && InClass(head, u[0]) && AllIn(u[1..], tail)
  {
    var k := ConcatParts(Class(head), Star(Class(tail)), u);
    assert k == 1;
    StarClass(tail, u[k..]);
  }

  lemma WordOf(head: CharClass, tail: CharClass, u: string)
    requires u != [] && InClass(head, u[0]) && AllIn(u[1..], tail)
    ensures Matches(Word(head, tail), u)
  {
    StarClass(tail, u[1..]);
    assert Matches(Class(head), u[..1]);
    ConcatAt(Class(head), Star(Class(tail)), u, 1);
  }

  lemma WordMatch(head: CharClass, tail: CharClass, u: string)
    ensures Matches(Word(head, tail), u) <==> u != [] && InClass(head, u[0]) && AllIn(u[1..], tail)
  {
    if Matches(Word(head, tail), u) {
      WordParts(head, tail, u);
    }
    if u != [] && InClass(head, u[0]) && AllIn(u[1..], tail) {
      WordOf(head, tail, u);
    }
  }

  /** A space-word is a space, a `head` character and `tail` characters. */
  lemma SpaceWordParts(head: CharClass, tail: CharClass, u: string)
    requires Matches(SpaceWord(head, tail), u)
    ensures |u| >= 2 && u[0] == ' ' && InClass(head, u[1]) && AllIn(u[2..], tail)
  {
    var j := ConcatParts(Lit(' '), Word(head, tail), u);
    assert j == 1;
    WordParts(head, tail, u[1..]);
    assert u[1..][1..] == u[2..];
  }

  lemma SpaceWordOf(head: CharClass, tail: CharClass, u: string)
    requires |u| >= 2 && u[0] == ' ' && InClass(head, u[1]) && AllIn(u[2..], tail)
    ensures Matches(SpaceWord(head, tail), u)
  {
    assert u[1..][1..] == u[2..];
    WordOf(head, tail, u[1..]);
    assert Matches(Lit(' '), u[..1]);
    ConcatAt(Lit(' '), Word(head, tail), u, 1);
  }

  /** A word line's rest, cut after `k` tail characters: the cut is at
      the end or at a space followed by the rest of the line. */
  predicate RestFrom(w: string, k: nat, head: CharClass, tail: CharClass)
    requires k <= |w|
  {
    w[k..] == [] || (w[k] == ' ' && WordRest(w[k..], head, tail))
  }

  lemma {:induction false} RestAt(w: string, k: nat, head: CharClass, tail: CharClass)
    requires WordClasses(head, tail)
    requires k <= |w| && AllIn(w[..k], tail) && RestFrom(w, k, head, tail)
    ensures WordRest(w, head, tail)
    decreases k
  {
    if k > 0 {
      assert w[1..][..k - 1] == w[..k][1..];
      assert w[1..][k - 1..] == w[k..];
      RestAt(w[1..], k - 1, head, tail);
    }
  }

  /** Every rest of a word line starts with the tail of its first word. */
  lemma {:induction false} RestSplit(w: string, head: CharClass, tail: CharClass) returns (k: nat)
    requires WordRest(w, head, tail)
    ensures k <= |w| && AllIn(w[..k], tail) && RestFrom(w, k, head, tail)
    decreases |w|
  {
    if w == [] || w[0] == ' ' {
      k := 0;
    } else {
      var k' := RestSplit(w[1..], head, tail);
      k := k' + 1;
      assert w[..k][1..] == w[1..][..k'];
      assert w[k..] == w[1..][k'..];
    }
  }

  /** ( head tail*)* only matches strings that are empty or are a space
      followed by a rest of a word line. */
  lemma {:induction false} StarSpaceWordsOnly(r: string, head: CharClass, tail: CharClass)
    requires WordClasses(head, tail)
    requires Matches(Star(SpaceWord(head, tail)), r)
    ensures r == [] || (r[0] == ' ' && WordRest(r, head, tail))
    decreases |r|
  {
    if r != [] {
      var k := StarParts(SpaceWord(head, tail), r);
      SpaceWordParts(head, tail, r[..k]);
      StarSpaceWordsOnly(r[k..], head, tail);
      var w := r[2..];
      assert r[..k][2..] == w[..k - 2];
      assert w[k - 2..] == r[k..];
      RestAt(w, k - 2, head, tail);
    }
  }

  /** ... and matches every such string. */
  lemma {:induction false} StarSpaceWordsIf(r: string, head: CharClass, tail: CharClass)
    requires WordClasses(head, tail)
    requires r == [] || (r[0] == ' ' && WordRest(r, head, tail))
    ensures Matches(Star(SpaceWord(head, tail)), r)
    decreases |r|
  {
    if r != [] {
      var w := r[2..];
      var k := RestSplit(w, head, tail);
      assert r[..k + 2][2..] == w[..k];
      SpaceWordOf(head, tail, r[..k + 2]);
      assert w[k..] == r[k + 2..];
      StarSpaceWordsIf(r[k + 2..], head, tail);
      StarAt(SpaceWord(head, tail), r, k + 2);
    }
  }

  /** A first group matching one word, followed by ( word)*, matches
      exactly the word lines. */
  lemma WordsLineMatch(first: Regex, head: CharClass, tail: CharClass, s: string)
    requires WordClasses(head, tail)
    requires forall u :: Matches(first, u) <==> u != [] && InClass(head, u[0]) && AllIn(u[1..], tail)
    ensures Matches(Concat(first, Star(SpaceWord(head, tail))), s) <==> WordsLine(s, head, tail)
  {
    if Matches(Concat(first, Star(SpaceWord(head, tail))), s) {
      var k := ConcatParts(first, Star(SpaceWord(head, tail)), s);
      assert Matches(first, s[..k]);
      assert s[..k][1..] == s[1..k];
      WordsLineOnly(head, tail, s, k);
    }
    if WordsLine(s, head, tail) {
      var k := RestSplit(s[1..], head, tail);
      FirstWordOfLine(s, k, head, tail);
      assert Matches(first, s[..k + 1]);
      ConcatAt(first, Star(SpaceWord(head, tail)), s, k + 1);
    }
  }

  lemma WordsLineOnly(head: CharClass, tail: CharClass, s: string, k: nat)
    requires WordClasses(head, tail)
    requires 0 < k <= |s| && InClass(head, s[0]) && AllIn(s[1..k], tail)
    requires Matches(Star(SpaceWord(head, tail)), s[k..])
    ensures WordsLine(s, head, tail)
  {
    StarSpaceWordsOnly(s[k..], head, tail);
    WordsLineOfParts(s, k, head, tail);
  }

  lemma WordsLineOfParts(s: string, k: nat, head: CharClass, tail: CharClass)
    requires WordClasses(head, tail)
    requires 0 < k <= |s|
    requires InClass(head, s[0]) && AllIn(s[1..k], tail) && RestFrom(s, k, head, tail)
    ensures WordsLine(s, head, tail)
  {
    var w := s[1..];
    assert w[..k - 1] == s[1..k];
    assert w[k - 1..] == s[k..];
    assert RestFrom(w, k - 1, head, tail);
    RestAt(w, k - 1, head, tail);
  }

  lemma FirstWordOfLine(s: string, k: nat, head: CharClass, tail: CharClass)
    requires WordClasses(head, tail)
    requires WordsLine(s, head, tail)
    requires k <= |s[1..]| && AllIn(s[1..][..k], tail) && RestFrom(s[1..], k, head, tail)
    ensures s[..k + 1] != [] && InClass(head, s[..k + 1][0]) && AllIn(s[..k + 1][1..], tail)
    ensures Matches(Star(SpaceWord(head, tail)), s[k + 1..])
  {
    assert s[..k + 1][1..] == s[1..][..k];
    assert s[1..][k..] == s[k + 1..];
    StarSpaceWordsIf(s[k + 1..], head, tail);
  }

  lemma {:induction false} StarWordTail(head: CharClass, tail: CharClass, v: string)
    requires WordClasses(head, tail)
    requires Matches(Star(Word(head, tail)), v)
    ensures AllIn(v, tail)
    decreases |v|
  {
    if v != [] {
      var k := StarParts(Word(head, tail), v);
      StarWordTail(head, tail, v[k..]);
      var u := v[..k];
      WordParts(head, tail, u);
      AllInJoin(u, 1, tail);
      AllInJoin(v, k, tail);
    }
  }

  /** (word)+ matches one word when heads are tails: the later words only
      add tail characters. */
  lemma PlusWordOnly(head: CharClass, tail: CharClass, u: string)
    requires WordClasses(head, tail) && Matches(Plus(Word(head, tail)), u)
    ensures u != [] && InClass(head, u[0]) && AllIn(u[1..], tail)
  {
    var k := ConcatParts(Word(head, tail), Star(Word(head, tail)), u);
    var v := u[..k];
    WordParts(head, tail, v);
    StarWordTail(head, tail, u[k..]);
    var w := u[1..];
    assert w[..k - 1] == v[1..];
    assert w[k - 1..] == u[k..];
    AllInJoin(w, k - 1, tail);
  }

  lemma PlusWordIf(head: CharClass, tail: CharClass, u: string)
    requires u != [] && InClass(head, u[0]) && AllIn(u[1..], tail)
    ensures Matches(Plus(Word(head, tail)), u)
  {
    WordOf(head, tail, u);
    assert u[..|u|] == u;
    assert Matches(Star(Word(head, tail)), u[|u|..]);
    ConcatAt(Word(head, tail), Star(Word(head, tail)), u, |u|);
  }

  /** The name pattern and its scanner agree on every string. */
  lemma NameMatch(s: string)
    ensures Matches(NameRegex(), s) <==> IsName(s)
  {
    forall u ensures Matches(Plus(Word(Upper, AsciiLetter)), u) <==> u != [] && InClass(Upper, u[0]) && AllIn(u[1..], AsciiLetter) {
      if Matches(Plus(Word(Upper, AsciiLetter)), u) {
        PlusWordOnly(Upper, AsciiLetter, u);
      }
      if u != [] && InClass(Upper, u[0]) && AllIn(u[1..], AsciiLetter) {
        PlusWordIf(Upper, AsciiLetter, u);
      }
    }
    WordsLineMatch(Plus(Word(Upper, AsciiLetter)), Upper, AsciiLetter, s);
  }

  /** The letters pattern and its scanner agree on every string. */
  lemma LettersMatch(s: string)
    ensures Matches(LettersRegex(), s) <==> IsLetters(s)
  {
    forall u ensures Matches(Word(SpanishLetter, SpanishLetter), u) <==> u != [] && InClass(SpanishLetter, u[0]) && AllIn(u[1..], SpanishLetter) {
      WordMatch(SpanishLetter, SpanishLetter, u);
    }
    WordsLineMatch(Word(SpanishLetter, SpanishLetter), SpanishLetter, SpanishLetter, s);
  }

  // ----------------------------------------------------------------- e-mail

  lemma AllInImplies(s: string, a: CharClass, b: CharClass)
    requires AllIn(s, a)
    requires forall c :: InClass(a, c) ==> InClass(b, c)
    ensures AllIn(s, b)
  {
    AllInAt(s, a);
    AllInAt(s, b);
  }

  lemma NotIn(s: string, cls: CharClass, c: char)
    requires AllIn(s, cls) && !InClass(cls, c)
    ensures c !in s
  {
    AllInAt(s, cls);
  }

  /** `c` followed by a string matching `b`. */
  lemma LitAt(c: char, b: Regex, s: string)
    requires s != [] && s[0] == c && Matches(b, s[1..])
    ensures Matches(Concat(Lit(c), b), s)
  {
    assert Matches(Lit(c), s[..1]);
    ConcatAt(Lit(c), b, s, 1);
  }

  lemma LitThen(c: char, b: Regex, s: string)
    ensures Matches(Concat(Lit(c), b), s) <==> s != [] && s[0] == c && Matches(b, s[1..])
  {
    if Matches(Concat(Lit(c), b), s) {
      var j := ConcatParts(Lit(c), b, s);
      assert j == 1;
    }
    if s != [] && s[0] == c && Matches(b, s[1..]) {
      LitAt(c, b, s);
    }
  }

  /** A domain built from its three parts. */
  lemma DomainOfParts(d: string, k: nat)
    requires 1 <= k < |d| && d[k] == '.' && |d| - k >= 3
    requires AllIn(d[..k], DomainChar) && AllIn(d[k + 1..], AsciiLetter)
    ensures IsDomain(d)
  {
    LastDotAt(d, k);
    DomainCharsOfParts(d, k);
  }

  lemma LastDotAt(d: string, k: nat)
    requires k < |d| && d[k] == '.' && AllIn(d[k + 1..], AsciiLetter)
    ensures LastIndex(d, '.') == Some(k)
  {
    NotIn(d[k + 1..], AsciiLetter, '.');
    assert d == d[..k] + ['.'] + d[k + 1..];
    LastIndexOfSplit(d[..k], '.', d[k + 1..]);
  }

  lemma DomainCharsOfParts(d: string, k: nat)
    requires k < |d| && d[k] == '.'
    requires AllIn(d[..k], DomainChar) && AllIn(d[k + 1..], AsciiLetter)
    ensures AllIn(d, DomainChar)
  {
    AllInImplies(d[k + 1..], AsciiLetter, DomainChar);
    AllInConcat(['.'], d[k + 1..], DomainChar);
    AllInConcat(d[..k], ['.'] + d[k + 1..], DomainChar);
    assert d[..k] + (['.'] + d[k + 1..]) == d;
  }

  lemma DomainMatchOnly(d: string)
    requires Matches(DomainRegex(), d)
    ensures IsDomain(d)
  {
    var tld := Concat(Lit('.'), AtLeast(Class(AsciiLetter), 2));
    var k := ConcatParts(AtLeast(Class(DomainChar), 1), tld, d);
    AtLeastClass(DomainChar, 1, d[..k]);
    LitThen('.', AtLeast(Class(AsciiLetter), 2), d[k..]);
    assert d[k..][1..] == d[k + 1..];
    AtLeastClass(AsciiLetter, 2, d[k + 1..]);
    DomainOfParts(d, k);
  }

  lemma DomainMatchIf(d: string)
    requires IsDomain(d)
    ensures Matches(DomainRegex(), d)
  {
    var tld := Concat(Lit('.'), AtLeast(Class(AsciiLetter), 2));
    var p := LastIndex(d, '.').value;
    assert d[..p] + d[p..] == d;
    AllInConcat(d[..p], d[p..], DomainChar);
    AtLeastClass(DomainChar, 1, d[..p]);
    var t := d[p..];
    assert t[1..] == d[p + 1..];
    AtLeastClass(AsciiLetter, 2, t[1..]);
    LitAt('.', AtLeast(Class(AsciiLetter), 2), t);
    ConcatAt(AtLeast(Class(DomainChar), 1), tld, d, p);
  }

  lemma DomainMatch(d: string)
    ensures Matches(DomainRegex(), d) <==> IsDomain(d)
  {
    if Matches(DomainRegex(), d) {
      DomainMatchOnly(d);
    }
    if IsDomain(d) {
      DomainMatchIf(d);
    }
  }

  /** An address built from its parts around an '@'. */
  lemma EmailOfParts(s: string, k: nat)
    requires 3 <= k < |s| && s[k] == '@'
    requires AllIn(s[..k], AnyChar) && IsDomain(s[k + 1..])
    ensures IsEmail(s)
  {
    NotIn(s[k + 1..], DomainChar, '@');
    assert s == s[..k] + ['@'] + s[k + 1..];
    LastIndexOfSplit(s[..k], '@', s[k + 1..]);
  }

  lemma EmailMatchOnly(s: string)
    requires Matches(EmailRegex(), s)
    ensures IsEmail(s)
  {
    var k := ConcatParts(AtLeast(Class(AnyChar), 3), Concat(Lit('@'), DomainRegex()), s);
    AtLeastClass(AnyChar, 3, s[..k]);
    LitThen('@', DomainRegex(), s[k..]);
    assert s[k..][1..] == s[k + 1..];
    DomainMatch(s[k + 1..]);
    EmailOfParts(s, k);
  }

  lemma EmailMatchIf(s: string)
    requires IsEmail(s)
    ensures Matches(EmailRegex(), s)
  {
    var a := LastIndex(s, '@').value;
    AtLeastClass(AnyChar, 3, s[..a]);
    var t := s[a..];
    assert t[1..] == s[a + 1..];
    DomainMatchIf(t[1..]);
    LitAt('@', DomainRegex(), t);
    ConcatAt(AtLeast(Class(AnyChar), 3), Concat(Lit('@'), DomainRegex()), s, a);
  }

  /** The e-mail pattern and its scanner agree on every string. */
  lemma EmailMatch(s: string)
    ensures Matches(EmailRegex(), s) <==> IsEmail(s)
  {
    if Matches(EmailRegex(), s) {
      EmailMatchOnly(s);
    }
    if IsEmail(s) {
      EmailMatchIf(s);
    }
  }

  /** Every accepted e-mail address has at least eight characters:
      three before the '@', one before the last '.', two letters after it. */
  lemma EmailLength(s: string)
    requires IsEmail(s)
    ensures |s| >= 8
  {
    var a := LastIndex(s, '@').value;
    var d := s[a + 1..];
    var p := LastIndex(d, '.').value;
    assert |d| >= p + 3;
  }

  // --------------------------------------------------------------- password

  lemma ContainsMatch(s: string, cls: CharClass)
    requires AllIn(s, AnyChar)
    ensures LookingAt(Contains(cls), s) <==> HasAny(s, cls)
  {
    HasAnyAt(s, cls);
    AllInAt(s, AnyChar);
    if LookingAt(Contains(cls), s) {
      var k :| 0 <= k <= |s| && Matches(Contains(cls), s[..k]);
      var p := s[..k];
      var j :| 0 <= j <= |p| && Matches(Star(Class(AnyChar)), p[..j]) && Matches(Class(cls), p[j..]);
      assert InClass(cls, s[j]);
    }
    if HasAny(s, cls) {
      var i :| 0 <= i < |s| && InClass(cls, s[i]);
      var p := s[..i + 1];
      assert p[..i] == s[..i] && p[i..] == [s[i]];
      AllInAt(s[..i], AnyChar);
      StarClass(AnyChar, s[..i]);
      ConcatAt(Star(Class(AnyChar)), Class(cls), p, i);
    }
  }

  /** The password pattern and its scanner agree on every string. */
  lemma PasswordMatch(s: string)
    ensures PasswordRegexMatches(s) <==> IsPassword(s)
  {
    AtLeastClass(AnyChar, 8, s);
    if AllIn(s, AnyChar) {
      ContainsMatch(s, Lower);
      ContainsMatch(s, Upper);
      ContainsMatch(s, Special);
    }
  }
}
