/** The line tests shared by the services' text-field readers. Each test
    maps a line to the value the reader returns for it, or None when the
    reader re-prompts. */
module Fields {
  import opened Chars
  import opened Regex
  import opened Patterns
  import opened Enums

  /** java.time.LocalDate. */
  datatype LocalDate = LocalDate(year: int, month: int, day: int)

  /** LocalDate.parse(s, DateTimeFormatter.ofPattern("dd-MM-yyyy")), with
      DateTimeParseException as None. */
  type DateParser = string -> Option<LocalDate>

  /** `campo.length() < 3 || !campo.matches("([A-Z][a-zA-Z]*)+( [A-Z][a-zA-Z]*)*")`
      re-prompts: names, surnames and team names. */
  function NameCheck(s: string): (r: Option<string>)
    ensures r.Some? ==> r.value == s && |s| >= 3
  {
    if |s| >= 3 && IsName(s) then Some(s) else None
  }

  /** A line is accepted as a name exactly when it has at least three
      characters and matches the name pattern. */
  lemma NameCheckMatches(s: string)
    ensures NameCheck(s).Some? <==> |s| >= 3 && Matches(NameRegex(), s)
  {
    NameMatch(s);
  }

  /** Words of letters, each capitalised, separated by single spaces. */
  lemma NameCheckAccepts()
    ensures NameCheck("Ana Gil") == Some("Ana Gil")
  {
    assert WordRest("na Gil", Upper, AsciiLetter) by {
      assert "na Gil"[1..] == "a Gil";
      assert "a Gil"[1..] == " Gil";
      assert " Gil"[2..] == "il";
      assert "il"[1..] == "l";
    }
    assert "Ana Gil"[1..] == "na Gil";
  }

  /** A one-letter word counts as a word. */
  lemma NameCheckAcceptsInitial()
    ensures NameCheck("Club A") == Some("Club A")
  {
    assert WordRest("lub A", Upper, AsciiLetter) by {
      assert "lub A"[1..] == "ub A";
      assert "ub A"[1..] == "b A";
      assert "b A"[1..] == " A";
    }
    assert "Club A"[1..] == "lub A";
  }

  /** Lower-case start, too short, a double space, a trailing space. */
  lemma NameCheckRejects()
    ensures NameCheck("ana") == None
    ensures NameCheck("Al") == None
    ensures NameCheck("Ana  Gil") == None
    ensures NameCheck("Ana ") == None
  {
    assert !WordRest("na  Gil", Upper, AsciiLetter) by {
      assert "na  Gil"[1..] == "a  Gil";
      assert "a  Gil"[1..] == "  Gil";
    }
    assert "Ana  Gil"[1..] == "na  Gil";
    assert !WordRest("na ", Upper, AsciiLetter) by {
      assert "na "[1..] == "a ";
      assert "a "[1..] == " ";
    }
    assert "Ana "[1..] == "na ";
  }

  /** `!x.matches("^[A-Za-zÁÉÍÓÚáéíóúÑñ]+( [A-Za-zÁÉÍÓÚáéíóúÑñ]+)*$")`
      re-prompts: a result or an observation, never empty. */
  function LettersCheck(s: string): (r: Option<string>)
    ensures r.Some? ==> r.value == s && s != ""
  {
    if IsLetters(s) then Some(s) else None
  }

  /** The same test after `if (x.isEmpty()) return x;`: a nationality or a
      comment, which may be left empty. */
  function OptionalLettersCheck(s: string): (r: Option<string>)
    ensures r.Some? ==> r.value == s
    ensures s == "" ==> r == Some("")
  {
    if s == "" then Some(s) else LettersCheck(s)
  }

  lemma LettersCheckMatches(s: string)
    ensures LettersCheck(s).Some? <==> Matches(LettersRegex(), s)
    ensures OptionalLettersCheck(s).Some? <==> s == "" || Matches(LettersRegex(), s)
  {
    LettersMatch(s);
  }

  /** Accented letters and the eñe are letters; a digit is not, and the
      empty line is not a match. */
  lemma LettersCheckExamples()
    ensures LettersCheck("Gana 3") == None
    ensures LettersCheck("") == None
    ensures LettersCheck("Perú") == Some("Perú")
  {
    assert !WordRest("ana 3", SpanishLetter, SpanishLetter) by {
      assert "ana 3"[1..] == "na 3";
      assert "na 3"[1..] == "a 3";
      assert "a 3"[1..] == " 3";
    }
    assert "Gana 3"[1..] == "ana 3";
    assert WordRest("erú", SpanishLetter, SpanishLetter) by {
      assert "erú"[1..] == "rú";
      assert "rú"[1..] == "ú";
    }
    assert "Perú"[1..] == "erú";
  }

  /** `PosicionJugadora.valueOf(nextLine().toUpperCase())`: the upper-cased
      line is returned when it names a position. */
  function PosicionCheck(s: string): (r: Option<string>)
    ensures r.Some? ==> r.value == ToUpper(s) && PosicionOf(r.value).Some?
  {
    var u := ToUpper(s);
    if PosicionOf(u).Some? then Some(u) else None
  }

  lemma PosicionCheckMeans(s: string)
    ensures PosicionCheck(s).Some? <==> exists p: Posicion :: p.Name() == ToUpper(s)
  {
    if PosicionCheck(s).None? {
      assert PosicionOf(ToUpper(s)).None?;
    } else {
      assert PosicionOf(ToUpper(s)).value.Name() == ToUpper(s);
    }
  }

  /** `EstadoJugadora.valueOf(nextLine().toUpperCase())`. */
  function EstadoCheck(s: string): (r: Option<string>)
    ensures r.Some? ==> r.value == ToUpper(s) && EstadoOf(r.value).Some?
  {
    var u := ToUpper(s);
    if EstadoOf(u).Some? then Some(u) else None
  }

  lemma EstadoCheckMeans(s: string)
    ensures EstadoCheck(s).Some? <==> exists e: Estado :: e.Name() == ToUpper(s)
  {
    if EstadoCheck(s).None? {
      assert EstadoOf(ToUpper(s)).None?;
    } else {
      assert EstadoOf(ToUpper(s)).value.Name() == ToUpper(s);
    }
  }

  /** `FrecuenciaInteraccion.valueOf` on the upper-cased line, after
      re-prompting on an empty one. */
  function FrecuenciaCheck(s: string): (r: Option<string>)
    ensures r.Some? ==> r.value == ToUpper(s) && s != "" && FrecuenciaOf(r.value).Some?
  {
    var u := ToUpper(s);
    if u == "" then None
    else if FrecuenciaOf(u).Some? then Some(u) else None
  }

  lemma FrecuenciaCheckMeans(s: string)
    ensures FrecuenciaCheck(s).Some? <==> exists f: Frecuencia :: f.Name() == ToUpper(s)
  {
    if FrecuenciaCheck(s).None? {
      if ToUpper(s) != "" {
        assert FrecuenciaOf(ToUpper(s)).None?;
      }
    } else {
      assert FrecuenciaOf(ToUpper(s)).value.Name() == ToUpper(s);
    }
  }

  /** Lower-case input is accepted and upper-cased. */
  lemma PosicionCheckLowerCase()
    ensures PosicionCheck("libero") == Some("LIBERO")
  {
    assert ToUpper("libero") == "LIBERO";
  }

  lemma FrecuenciaCheckLowerCase()
    ensures FrecuenciaCheck("semanal") == Some("SEMANAL")
  {
    assert ToUpper("semanal") == "SEMANAL";
  }

  /** The empty line and a letter with an accent name no constant. */
  lemma EnumCheckRejects()
    ensures EstadoCheck("") == None
    ensures PosicionCheck("líbero") == None
  {
    assert ToUpper("líbero")[1] == 'í';
  }

  /** The date reader: an empty line re-prompts, otherwise the parser decides. */
  function DateCheck(parse: DateParser, s: string): (r: Option<LocalDate>)
    ensures s == "" ==> r.None?
    ensures s != "" ==> r == parse(s)
  {
    if s == "" then None else parse(s)
  }

  function DateCheckOf(parse: DateParser): string -> Option<LocalDate>
  {
    s => DateCheck(parse, s)
  }

  /** `x.length() < 8 || !x.matches("(?=.*[a-z])(?=.*[A-Z])(?=.*[!@#$%^&*(),.?\":{}|<>]).{8,}")`
      re-prompts. */
  function PasswordCheck(s: string): (r: Option<string>)
    ensures r.Some? ==> r.value == s && |s| >= 8
  {
    if |s| >= 8 && IsPassword(s) then Some(s) else None
  }

  lemma PasswordCheckMatches(s: string)
    ensures PasswordCheck(s).Some? <==> PasswordRegexMatches(s)
  {
    PasswordMatch(s);
  }

  /** Eight lower-case letters: no upper-case letter, no special character. */
  lemma PasswordCheckRejectsLower()
    ensures PasswordCheck("abcdefgh") == None
  {
    HasAnyAt("abcdefgh", Upper);
  }

  /** The pattern also asks for a lower-case letter. */
  lemma PasswordCheckRejectsUpper()
    ensures PasswordCheck("ABCDEFG@") == None
  {
    HasAnyAt("ABCDEFG@", Lower);
  }

  lemma PasswordCheckAccepts()
    ensures PasswordCheck("Abcdef1@") == Some("Abcdef1@")
  {
    var p := "Abcdef1@";
    AllInAt(p, AnyChar);
    assert HasAny(p, Upper) && HasAny(p, Lower);
    assert HasAny(p, Special) by {
      HasAnyAt(p, Special);
      assert InClass(Special, p[7]);
    }
  }
}
