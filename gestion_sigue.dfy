/** es.cheste.servicios.GestionSigue: the readers of the follow-up form,
    the form itself, and an update that reads the key again before the
    form and overwrites the form's key with it. */
module GestionSigue {
  import opened Chars
  import opened JavaInt
  import opened Patterns
  import opened Enums
  import opened Console
  import opened Fields

  /** es.cheste.clases.Sigue, keyed by user, player and date. */
  datatype Sigue = Sigue(
    idUsuario: int,
    idJugadora: int,
    fechaSeguimiento: LocalDate,
    frecuenciaInteraccion: string,
    observaciones: string)

  /** The key an update reads before the form. */
  datatype ClaveSigue = ClaveSigue(idUsuario: int, idJugadora: int, fechaSeguimiento: LocalDate)

  /** validarId: at least 1, and its catch is for InputMismatchException,
      which parseInt never throws, so a non-number escapes. */
  const IdRule := IntRule(1, None, Reprompt, Propagate)

  predicate ValidSigue(s: Sigue)
  {
    && InRange(IdRule, s.idUsuario) && IsInt32(s.idUsuario)
    && InRange(IdRule, s.idJugadora) && IsInt32(s.idJugadora)
    && FrecuenciaOf(s.frecuenciaInteraccion).Some?
    && LettersCheck(s.observaciones) == Some(s.observaciones)
  }

  method ValidarId(lines: seq<string>, pos: nat) returns (r: Outcome<int>)
    ensures r == Unbox(IntRun(IdRule, lines, pos, Some(0)))
    ensures r.Escaped? ==> r.failure == NumberFormat
    ensures r.Accepted? ==> r.value >= 1 && ParseInt(lines[r.next - 1]) == Some(r.value)
    ensures r.Escaped? <==> exists j :: pos <= j < |lines| && lines[j] != "" && ParseInt(lines[j]).None?
                                 && forall i :: pos <= i < j ==> Skippable(IdRule, lines[i])
    ensures r.Exhausted? <==> forall j :: pos <= j < |lines| ==> Skippable(IdRule, lines[j])
  {
    var o := ReadInt(IdRule, lines, pos, Some(0));
    WrongCatchReader(IdRule, lines, pos, Some(0));
    r := Unbox(o);
  }

  method ValidarFecha(parse: DateParser, lines: seq<string>, pos: nat) returns (r: Outcome<LocalDate>)
    ensures r == FirstDecided(lines, pos, DateCheckOf(parse))
    ensures r.Accepted? ==> lines[r.next - 1] != "" && parse(lines[r.next - 1]) == Some(r.value)
  {
    r := ReadUntil(lines, pos, DateCheckOf(parse));
  }

  method VerificarFrecuenciaInteraccion(lines: seq<string>, pos: nat) returns (r: Outcome<string>)
    ensures r == FirstDecided(lines, pos, FrecuenciaCheck)
    ensures r.Accepted? ==> r.value == ToUpper(lines[r.next - 1]) && FrecuenciaOf(r.value).Some?
  {
    r := ReadUntil(lines, pos, FrecuenciaCheck);
  }

  method VerificarObservacion(lines: seq<string>, pos: nat) returns (r: Outcome<string>)
    ensures r == FirstDecided(lines, pos, LettersCheck)
    ensures r.Accepted? ==> IsLetters(r.value) && r.value == lines[r.next - 1]
  {
    r := ReadUntil(lines, pos, LettersCheck);
  }

  /** The form: user id, player id, date, frequency and observations, then
      one more line thrown away. */
  function DatosSigue(parse: DateParser, lines: seq<string>, pos: nat): (r: Outcome<Sigue>)
    ensures r.Accepted? ==> ValidSigue(r.value)
    ensures r.Accepted? ==> pos + 6 <= r.next <= |lines|
    ensures r.Escaped? ==> r.failure == NumberFormat
    ensures r.Accepted? ==>
      exists k :: pos <= k < r.next && lines[k] != "" && parse(lines[k]) == Some(r.value.fechaSeguimiento)
  {
    var idUsuario :- Unbox(IntRun(IdRule, lines, pos, Some(0)));
    var idJugadora :- Unbox(IntRun(IdRule, lines, idUsuario.next, Some(0)));
    var fecha :- FirstDecided(lines, idJugadora.next, DateCheckOf(parse));
    assert lines[fecha.next - 1] != "" && parse(lines[fecha.next - 1]) == Some(fecha.value);
    var frecuencia :- FirstDecided(lines, fecha.next, FrecuenciaCheck);
    var observaciones :- FirstDecided(lines, frecuencia.next, LettersCheck);
    var end :- Discard(lines, observaciones.next);
    Accepted(Sigue(idUsuario.value, idJugadora.value, fecha.value, frecuencia.value, observaciones.value), end.next)
  }

  method PreguntarDatosSigue(parse: DateParser, lines: seq<string>, pos: nat) returns (r: Outcome<Sigue>)
    ensures r == DatosSigue(parse, lines, pos)
  {
    var idUsuario :- ValidarId(lines, pos);
    var idJugadora :- ValidarId(lines, idUsuario.next);
    var fecha :- ValidarFecha(parse, lines, idJugadora.next);
    var frecuencia :- VerificarFrecuenciaInteraccion(lines, fecha.next);
    var observaciones :- VerificarObservacion(lines, frecuencia.next);
    var end :- Discard(lines, observaciones.next);
    r := Accepted(Sigue(idUsuario.value, idJugadora.value, fecha.value, frecuencia.value, observaciones.value), end.next);
  }

  /** The key actualizarSigue reads before the form. */
  function Clave(parse: DateParser, lines: seq<string>, pos: nat): (r: Outcome<ClaveSigue>)
    ensures r.Accepted? ==> r.value.idUsuario >= 1 && IsInt32(r.value.idUsuario)
    ensures r.Accepted? ==> r.value.idJugadora >= 1 && IsInt32(r.value.idJugadora)
    ensures r.Accepted? ==> pos + 3 <= r.next <= |lines|
    ensures r.Escaped? ==> r.failure == NumberFormat
    ensures r.Accepted? ==>
      exists k :: pos <= k < r.next && lines[k] != "" && parse(lines[k]) == Some(r.value.fechaSeguimiento)
  {
    var idUsuario :- Unbox(IntRun(IdRule, lines, pos, Some(0)));
    var idJugadora :- Unbox(IntRun(IdRule, lines, idUsuario.next, Some(0)));
    var fecha :- FirstDecided(lines, idJugadora.next, DateCheckOf(parse));
    assert lines[fecha.next - 1] != "" && parse(lines[fecha.next - 1]) == Some(fecha.value);
    Accepted(ClaveSigue(idUsuario.value, idJugadora.value, fecha.value), fecha.next)
  }

  /** actualizarSigue: the key, then the whole form (which asks for the key
      again), then the first key replaces the form's. */
  function Actualizacion(parse: DateParser, lines: seq<string>, pos: nat): (r: Outcome<Sigue>)
    ensures r.Accepted? ==> ValidSigue(r.value)
    ensures r.Accepted? ==> pos + 9 <= r.next <= |lines|
    ensures r.Escaped? ==> r.failure == NumberFormat
    ensures r.Accepted? ==>
      var c := Clave(parse, lines, pos);
      c.Accepted? &&
      var f := DatosSigue(parse, lines, c.next);
      && f.Accepted?
      && r.value.idUsuario == c.value.idUsuario && r.value.idJugadora == c.value.idJugadora
      && r.value.fechaSeguimiento == c.value.fechaSeguimiento
      && r.value.frecuenciaInteraccion == f.value.frecuenciaInteraccion
      && r.value.observaciones == f.value.observaciones
  {
    var clave :- Clave(parse, lines, pos);
    var sigue :- DatosSigue(parse, lines, clave.next);
    Accepted(sigue.value.(idUsuario := clave.value.idUsuario, idJugadora := clave.value.idJugadora,
                          fechaSeguimiento := clave.value.fechaSeguimiento), sigue.next)
  }

  method ActualizarSigue(parse: DateParser, lines: seq<string>, pos: nat) returns (r: Outcome<Sigue>)
    ensures r == Actualizacion(parse, lines, pos)
  {
    var idUsuario :- ValidarId(lines, pos);
    var idJugadora :- ValidarId(lines, idUsuario.next);
    var fecha :- ValidarFecha(parse, lines, idJugadora.next);
    var sigue :- PreguntarDatosSigue(parse, lines, fecha.next);
    var s := sigue.value.(idUsuario := idUsuario.value, idJugadora := idJugadora.value,
                          fechaSeguimiento := fecha.value);
    r := Accepted(s, sigue.next);
  }

  /** The answers that fill in `s`, given a line the date parser reads as
      its date. */
  function Answers(s: Sigue, fechaLine: string): (a: seq<string>)
    ensures |a| == 5
  {
    [IntToString(s.idUsuario), IntToString(s.idJugadora), fechaLine, s.frecuenciaInteraccion, s.observaciones]
  }

  /** Every valid follow-up can be entered: its fields in order, plus the
      line the form throws away, yield exactly it; without that last line
      the form does not complete. */
  lemma DatosSigueOfAnswers(parse: DateParser, fechaLine: string, s: Sigue, lines: seq<string>, pos: nat)
    requires ValidSigue(s)
    requires fechaLine != "" && parse(fechaLine) == Some(s.fechaSeguimiento)
    requires pos + 5 <= |lines| && lines[pos..pos + 5] == Answers(s, fechaLine)
    ensures DatosSigue(parse, lines, pos) == if pos + 5 < |lines| then Accepted(s, pos + 6) else Exhausted
  {
    var a := Answers(s, fechaLine);
    assert lines[pos] == a[0] && lines[pos + 1] == a[1] && lines[pos + 2] == a[2] && lines[pos + 3] == a[3]
      && lines[pos + 4] == a[4];
    IntRunAccepts(IdRule, lines, pos, Some(0), s.idUsuario);
    IntRunAccepts(IdRule, lines, pos + 1, Some(0), s.idJugadora);
    FirstDecidedHere(lines, pos + 2, DateCheckOf(parse), s.fechaSeguimiento);
    FrecuenciaNameUpper(FrecuenciaOf(s.frecuenciaInteraccion).value);
    FirstDecidedHere(lines, pos + 3, FrecuenciaCheck, s.frecuenciaInteraccion);
    FirstDecidedHere(lines, pos + 4, LettersCheck, s.observaciones);
  }

  /** An update is the key followed by a form: its outcome is the form's
      with the key replaced. */
  lemma ActualizacionOfParts(parse: DateParser, lines: seq<string>, pos: nat, k: ClaveSigue, n: nat, s: Sigue, m: nat)
    requires Clave(parse, lines, pos) == Accepted(k, n)
    requires DatosSigue(parse, lines, n) == Accepted(s, m)
    ensures Actualizacion(parse, lines, pos) ==
      Accepted(s.(idUsuario := k.idUsuario, idJugadora := k.idJugadora, fechaSeguimiento := k.fechaSeguimiento), m)
  {
  }

  /** Typing a key's fields reads that key. */
  lemma ClaveOfAnswers(parse: DateParser, k: ClaveSigue, kLine: string, lines: seq<string>, pos: nat)
    requires k.idUsuario >= 1 && IsInt32(k.idUsuario) && k.idJugadora >= 1 && IsInt32(k.idJugadora)
    requires kLine != "" && parse(kLine) == Some(k.fechaSeguimiento)
    requires pos + 3 <= |lines|
    requires lines[pos] == IntToString(k.idUsuario) && lines[pos + 1] == IntToString(k.idJugadora)
    requires lines[pos + 2] == kLine
    ensures Clave(parse, lines, pos) == Accepted(k, pos + 3)
  {
    IntRunAccepts(IdRule, lines, pos, Some(0), k.idUsuario);
    IntRunAccepts(IdRule, lines, pos + 1, Some(0), k.idJugadora);
    FirstDecidedHere(lines, pos + 2, DateCheckOf(parse), k.fechaSeguimiento);
  }

  /** An update typed as the key `k` followed by the answers of a valid `s`
      and the discarded line stores `s` under the key `k`: the key typed
      into the form is lost. */
  lemma ActualizacionOfAnswers(parse: DateParser, k: ClaveSigue, kLine: string, s: Sigue, sLine: string, lines: seq<string>)
    requires k.idUsuario >= 1 && IsInt32(k.idUsuario) && k.idJugadora >= 1 && IsInt32(k.idJugadora)
    requires kLine != "" && parse(kLine) == Some(k.fechaSeguimiento)
    requires ValidSigue(s) && sLine != "" && parse(sLine) == Some(s.fechaSeguimiento)
    requires |lines| == 9
    requires lines[..3] == [IntToString(k.idUsuario), IntToString(k.idJugadora), kLine]
    requires lines[3..8] == Answers(s, sLine)
    ensures Actualizacion(parse, lines, 0) ==
      Accepted(s.(idUsuario := k.idUsuario, idJugadora := k.idJugadora, fechaSeguimiento := k.fechaSeguimiento), 9)
  {
    assert lines[0] == IntToString(k.idUsuario) && lines[1] == IntToString(k.idJugadora) && lines[2] == kLine;
    ClaveOfAnswers(parse, k, kLine, lines, 0);
    assert lines[3..3 + 5] == Answers(s, sLine);
    DatosSigueOfAnswers(parse, sLine, s, lines, 3);
    ActualizacionOfParts(parse, lines, 0, k, 3, s, 9);
  }

  /** A non-number for an id is not caught: it leaves the form, after any
      number of empty or non-positive ids. */
  lemma NonNumberIdEscapes(parse: DateParser)
    ensures DatosSigue(parse, ["x"], 0) == Escaped(NumberFormat)
    ensures Unbox(IntRun(IdRule, ["", "0", "x", "4"], 0, Some(0))) == Escaped(NumberFormat)
  {
    assert !AllDigits("x");
    assert ParseInt("0") == Some(0) by {
      assert "0"[..0] == [];
    }
  }
}
