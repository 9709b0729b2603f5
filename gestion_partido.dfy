/** es.cheste.servicios.GestionPartido: the field readers of the match
    form, the form itself and the key overwrite of an update. */
module GestionPartido {
  import opened Chars
  import opened JavaInt
  import opened Patterns
  import opened Console
  import opened Fields

  /** es.cheste.clases.Partido. The form's constructor leaves the id at 0. */
  datatype Partido = Partido(
    idPartido: int,
    fecha: LocalDate,
    equipoCompetidor1: string,
    entrenadorCompetidor1: int,
    equipoCompetidor2: string,
    entrenadorCompetidor2: int,
    resultado: string,
    duracion: int)

  /** verificarIdEntrenador: optional, so an empty line returns the loop's
      variable, and a non-number costs one more line in the catch block. */
  const IdEntrenadorRule := IntRule(1, None, ReturnCurrent, RetryAfterDiscard)
  /** verificarDuracion: at least 1; a non-number costs one more line. */
  const DuracionRule := IntRule(1, None, Reprompt, RetryAfterDiscard)

  /** A match every one of whose text and number fields the form's readers
      accept. A coach id is any int: the reader can return a rejected
      number when an empty line follows it. */
  predicate ValidPartido(p: Partido)
  {
    && NameCheck(p.equipoCompetidor1) == Some(p.equipoCompetidor1)
    && IsInt32(p.entrenadorCompetidor1)
    && NameCheck(p.equipoCompetidor2) == Some(p.equipoCompetidor2)
    && IsInt32(p.entrenadorCompetidor2)
    && LettersCheck(p.resultado) == Some(p.resultado)
    && p.duracion >= 1 && IsInt32(p.duracion)
  }

  method VerificarFecha(parse: DateParser, lines: seq<string>, pos: nat) returns (r: Outcome<LocalDate>)
    ensures r == FirstDecided(lines, pos, DateCheckOf(parse))
    ensures r.Accepted? ==> lines[r.next - 1] != "" && parse(lines[r.next - 1]) == Some(r.value)
  {
    r := ReadUntil(lines, pos, DateCheckOf(parse));
  }

  method VerificarNombreEquipo(lines: seq<string>, pos: nat) returns (r: Outcome<string>)
    ensures r == FirstDecided(lines, pos, NameCheck)
    ensures r.Accepted? ==> |r.value| >= 3 && IsName(r.value) && r.value == lines[r.next - 1]
  {
    r := ReadUntil(lines, pos, NameCheck);
  }

  method VerificarIdEntrenador(lines: seq<string>, pos: nat) returns (r: Outcome<int>)
    ensures r == Unbox(IntRun(IdEntrenadorRule, lines, pos, Some(0)))
    ensures !r.Escaped?
    ensures r.Accepted? ==> r.value >= 1 || lines[r.next - 1] == ""
    ensures r.Accepted? ==> FirstStop(IdEntrenadorRule, lines, pos, r.next - 1)
    ensures forall k :: FirstStop(IdEntrenadorRule, lines, pos, k) ==> r.Accepted? && r.next == k + 1
    ensures r.Exhausted? <==> NoStop(IdEntrenadorRule, lines, pos)
    ensures r.Accepted? && lines[r.next - 1] != "" ==> ParseInt(lines[r.next - 1]) == Some(r.value)
    ensures r.Accepted? && lines[r.next - 1] == "" ==>
      HeldAt(IdEntrenadorRule, lines, pos, r.next - 1, Some(0), Some(r.value))
  {
    var o := ReadInt(IdEntrenadorRule, lines, pos, Some(0));
    ParsedReader(IdEntrenadorRule, lines, pos, Some(0));
    IntRunValue(IdEntrenadorRule, lines, pos, Some(0));
    r := Unbox(o);
  }

  method VerificarResultado(lines: seq<string>, pos: nat) returns (r: Outcome<string>)
    ensures r == FirstDecided(lines, pos, LettersCheck)
    ensures r.Accepted? ==> IsLetters(r.value) && r.value == lines[r.next - 1]
  {
    r := ReadUntil(lines, pos, LettersCheck);
  }

  method VerificarDuracion(lines: seq<string>, pos: nat) returns (r: Outcome<int>)
    ensures r == Unbox(IntRun(DuracionRule, lines, pos, Some(0)))
    ensures !r.Escaped?
    ensures r.Accepted? ==> r.value >= 1 && ParseInt(lines[r.next - 1]) == Some(r.value)
    ensures r.Accepted? ==> FirstStop(DuracionRule, lines, pos, r.next - 1)
    ensures forall k :: FirstStop(DuracionRule, lines, pos, k) ==> r.Accepted? && r.next == k + 1
    ensures r.Exhausted? <==> NoStop(DuracionRule, lines, pos)
  {
    var o := ReadInt(DuracionRule, lines, pos, Some(0));
    ParsedReader(DuracionRule, lines, pos, Some(0));
    r := Unbox(o);
  }

  /** The form: seven readers in order, then one more line thrown away. */
  function DatosPartido(parse: DateParser, lines: seq<string>, pos: nat): (r: Outcome<Partido>)
    ensures r.Accepted? ==> ValidPartido(r.value) && r.value.idPartido == 0
    ensures r.Accepted? ==> pos + 8 <= r.next <= |lines|
    ensures !r.Escaped?
    ensures r.Accepted? ==> exists k :: pos <= k < r.next && lines[k] != "" && parse(lines[k]) == Some(r.value.fecha)
  {
    var fecha :- FirstDecided(lines, pos, DateCheckOf(parse));
    assert lines[fecha.next - 1] != "" && parse(lines[fecha.next - 1]) == Some(fecha.value);
    var equipo1 :- FirstDecided(lines, fecha.next, NameCheck);
    var entrenador1 :- Unbox(IntRun(IdEntrenadorRule, lines, equipo1.next, Some(0)));
    var equipo2 :- FirstDecided(lines, entrenador1.next, NameCheck);
    var entrenador2 :- Unbox(IntRun(IdEntrenadorRule, lines, equipo2.next, Some(0)));
    var resultado :- FirstDecided(lines, entrenador2.next, LettersCheck);
    var duracion :- Unbox(IntRun(DuracionRule, lines, resultado.next, Some(0)));
    var end :- Discard(lines, duracion.next);
    Accepted(Partido(0, fecha.value, equipo1.value, entrenador1.value, equipo2.value,
                     entrenador2.value, resultado.value, duracion.value), end.next)
  }

  method PreguntarDatosPartido(parse: DateParser, lines: seq<string>, pos: nat) returns (r: Outcome<Partido>)
    ensures r == DatosPartido(parse, lines, pos)
  {
    var fecha :- VerificarFecha(parse, lines, pos);
    var equipo1 :- VerificarNombreEquipo(lines, fecha.next);
    var entrenador1 :- VerificarIdEntrenador(lines, equipo1.next);
    var equipo2 :- VerificarNombreEquipo(lines, entrenador1.next);
    var entrenador2 :- VerificarIdEntrenador(lines, equipo2.next);
    var resultado :- VerificarResultado(lines, entrenador2.next);
    var duracion :- VerificarDuracion(lines, resultado.next);
    var end :- Discard(lines, duracion.next);
    r := Accepted(Partido(0, fecha.value, equipo1.value, entrenador1.value, equipo2.value,
                          entrenador2.value, resultado.value, duracion.value), end.next);
  }

  /** The answers that fill in `p`, given a line the date parser reads as
      its date. */
  function Answers(p: Partido, fechaLine: string): (a: seq<string>)
    ensures |a| == 7
  {
    [fechaLine, p.equipoCompetidor1, OptionalAnswer(p.entrenadorCompetidor1), p.equipoCompetidor2,
     OptionalAnswer(p.entrenadorCompetidor2), p.resultado, IntToString(p.duracion)]
  }

  /** Every valid match whose coach ids are 0 or positive can be entered:
      typing its fields in order, plus the line the form throws away,
      yields exactly that match; without that last line it does not
      complete. */
  lemma DatosPartidoOfAnswers(parse: DateParser, fechaLine: string, p: Partido, lines: seq<string>, pos: nat)
    requires ValidPartido(p) && p.idPartido == 0
    requires fechaLine != "" && parse(fechaLine) == Some(p.fecha)
    requires p.entrenadorCompetidor1 >= 0 && p.entrenadorCompetidor2 >= 0
    requires pos + 7 <= |lines| && lines[pos..pos + 7] == Answers(p, fechaLine)
    ensures DatosPartido(parse, lines, pos) == if pos + 7 < |lines| then Accepted(p, pos + 8) else Exhausted
  {
    var a := Answers(p, fechaLine);
    assert lines[pos] == a[0] && lines[pos + 1] == a[1] && lines[pos + 2] == a[2] && lines[pos + 3] == a[3]
      && lines[pos + 4] == a[4] && lines[pos + 5] == a[5] && lines[pos + 6] == a[6];
    assert lines[pos] == fechaLine;
    FirstDecidedHere(lines, pos, DateCheckOf(parse), p.fecha);
    assert lines[pos + 1] == p.equipoCompetidor1;
    FirstDecidedHere(lines, pos + 1, NameCheck, p.equipoCompetidor1);
    assert lines[pos + 2] == OptionalAnswer(p.entrenadorCompetidor1);
    OptionalAnswerRead(IdEntrenadorRule, lines, pos + 2, p.entrenadorCompetidor1);
    assert lines[pos + 3] == p.equipoCompetidor2;
    FirstDecidedHere(lines, pos + 3, NameCheck, p.equipoCompetidor2);
    assert lines[pos + 4] == OptionalAnswer(p.entrenadorCompetidor2);
    OptionalAnswerRead(IdEntrenadorRule, lines, pos + 4, p.entrenadorCompetidor2);
    assert lines[pos + 5] == p.resultado;
    FirstDecidedHere(lines, pos + 5, LettersCheck, p.resultado);
    assert lines[pos + 6] == IntToString(p.duracion);
    IntRunAccepts(DuracionRule, lines, pos + 6, Some(0), p.duracion);
  }

  /** An empty coach id returns the rejected number typed before it. */
  lemma StaleCoachId()
    ensures IntRun(IdEntrenadorRule, ["-5", ""], 0, Some(0)) == Accepted(Some(-5), 2)
    ensures IntRun(IdEntrenadorRule, [""], 0, Some(0)) == Accepted(Some(0), 1)
  {
    assert ParseInt("-5") == Some(-5) by {
      assert "-5"[1..] == "5";
      assert "5"[..0] == [];
    }
  }

  /** A non-number swallows the next line, so the 7 is never read. */
  lemma BadNumberSwallowsLine()
    ensures IntRun(DuracionRule, ["x", "7", "9"], 0, Some(0)) == Accepted(Some(9), 3)
    ensures IntRun(IdEntrenadorRule, ["x", "7", "9"], 0, Some(0)) == Accepted(Some(9), 3)
  {
    assert !AllDigits("x");
  }

  /** A score in the format the form's prompt suggests is not a result. */
  lemma ScoreIsNotResult()
    ensures LettersCheck("3 - 1") == None
  {
  }

  /** actualizarPartido: the id read before the form replaces the form's
      id; every other field is the form's. */
  method ActualizarPartido(id: int, parse: DateParser, lines: seq<string>, pos: nat) returns (r: Outcome<Partido>)
    ensures var f := DatosPartido(parse, lines, pos);
      && (r.Accepted? <==> f.Accepted?)
      && (r.Accepted? ==> r.value.idPartido == id && r.value.(idPartido := 0) == f.value && r.next == f.next)
      && (!r.Accepted? ==> r == f)
  {
    var p := PreguntarDatosPartido(parse, lines, pos);
    if !p.Accepted? {
      return p;
    }
    r := Accepted(p.value.(idPartido := id), p.next);
  }
}
