/** es.cheste.servicios.GestionEstadistica: the readers of the statistics
    form, the form itself and the key overwrite of an update. */
module GestionEstadistica {
  import opened Chars
  import opened JavaInt
  import opened Console

  /** es.cheste.clases.Estadistica. The form's constructor leaves the id at 0. */
  datatype Estadistica = Estadistica(
    idEstadistica: int,
    idJugadora: int,
    idPartido: int,
    ataques: int,
    saques: int,
    bloqueos: int,
    defensas: int,
    errores: int)

  /** verificarIds: optional ids; an empty line returns the loop's variable
      and a non-number costs one more line in the catch block. */
  const IdsRule := IntRule(1, None, ReturnCurrent, RetryAfterDiscard)
  /** verificarRendimiento: a count, at least 0; a non-number re-prompts. */
  const RendimientoRule := IntRule(0, None, Reprompt, Retry)

  predicate ValidEstadistica(e: Estadistica)
  {
    && IsInt32(e.idJugadora) && IsInt32(e.idPartido)
    && InRange(RendimientoRule, e.ataques) && IsInt32(e.ataques)
    && InRange(RendimientoRule, e.saques) && IsInt32(e.saques)
    && InRange(RendimientoRule, e.bloqueos) && IsInt32(e.bloqueos)
    && InRange(RendimientoRule, e.defensas) && IsInt32(e.defensas)
    && InRange(RendimientoRule, e.errores) && IsInt32(e.errores)
  }

  method VerificarIds(lines: seq<string>, pos: nat) returns (r: Outcome<int>)
    ensures r == Unbox(IntRun(IdsRule, lines, pos, Some(0)))
    ensures !r.Escaped?
    ensures r.Accepted? ==> r.value >= 1 || lines[r.next - 1] == ""
    ensures r.Accepted? ==> FirstStop(IdsRule, lines, pos, r.next - 1)
    ensures forall k :: FirstStop(IdsRule, lines, pos, k) ==> r.Accepted? && r.next == k + 1
    ensures r.Exhausted? <==> NoStop(IdsRule, lines, pos)
    ensures r.Accepted? && lines[r.next - 1] != "" ==> ParseInt(lines[r.next - 1]) == Some(r.value)
    ensures r.Accepted? && lines[r.next - 1] == "" ==>
      HeldAt(IdsRule, lines, pos, r.next - 1, Some(0), Some(r.value))
  {
    var o := ReadInt(IdsRule, lines, pos, Some(0));
    ParsedReader(IdsRule, lines, pos, Some(0));
    IntRunValue(IdsRule, lines, pos, Some(0));
    r := Unbox(o);
  }

  /** The first line that is a number of at least 0 is the count; every
      line before it is re-prompted. */
  method VerificarRendimiento(lines: seq<string>, pos: nat) returns (r: Outcome<int>)
    ensures r == Unbox(IntRun(RendimientoRule, lines, pos, Some(0)))
    ensures !r.Escaped?
    ensures r.Accepted? ==> r.value >= 0 && ParseInt(lines[r.next - 1]) == Some(r.value)
    ensures r.Accepted? ==> forall j :: pos <= j < r.next - 1 ==> !Acceptable(RendimientoRule, lines[j])
    ensures r.Exhausted? <==> forall j :: pos <= j < |lines| ==> !Acceptable(RendimientoRule, lines[j])
  {
    var o := ReadInt(RendimientoRule, lines, pos, Some(0));
    RetryReader(RendimientoRule, lines, pos, Some(0));
    r := Unbox(o);
  }

  /** The form: two ids and five counts, with no line thrown away. */
  function DatosEstadistica(lines: seq<string>, pos: nat): (r: Outcome<Estadistica>)
    ensures r.Accepted? ==> ValidEstadistica(r.value) && r.value.idEstadistica == 0
    ensures r.Accepted? ==> pos + 7 <= r.next <= |lines|
    ensures !r.Escaped?
  {
    var idJugadora :- Unbox(IntRun(IdsRule, lines, pos, Some(0)));
    var idPartido :- Unbox(IntRun(IdsRule, lines, idJugadora.next, Some(0)));
    var ataques :- Unbox(IntRun(RendimientoRule, lines, idPartido.next, Some(0)));
    var saques :- Unbox(IntRun(RendimientoRule, lines, ataques.next, Some(0)));
    var bloqueos :- Unbox(IntRun(RendimientoRule, lines, saques.next, Some(0)));
    var defensas :- Unbox(IntRun(RendimientoRule, lines, bloqueos.next, Some(0)));
    var errores :- Unbox(IntRun(RendimientoRule, lines, defensas.next, Some(0)));
    Accepted(Estadistica(0, idJugadora.value, idPartido.value, ataques.value, saques.value,
                         bloqueos.value, defensas.value, errores.value), errores.next)
  }

  method PreguntarDatosEstadistica(lines: seq<string>, pos: nat) returns (r: Outcome<Estadistica>)
    ensures r == DatosEstadistica(lines, pos)
  {
    var idJugadora :- VerificarIds(lines, pos);
    var idPartido :- VerificarIds(lines, idJugadora.next);
    var ataques :- VerificarRendimiento(lines, idPartido.next);
    var saques :- VerificarRendimiento(lines, ataques.next);
    var bloqueos :- VerificarRendimiento(lines, saques.next);
    var defensas :- VerificarRendimiento(lines, bloqueos.next);
    var errores :- VerificarRendimiento(lines, defensas.next);
    r := Accepted(Estadistica(0, idJugadora.value, idPartido.value, ataques.value, saques.value,
                              bloqueos.value, defensas.value, errores.value), errores.next);
  }

  /** The answers that fill in `e`, one line per field in the form's order. */
  function Answers(e: Estadistica): (a: seq<string>)
    ensures |a| == 7
  {
    [OptionalAnswer(e.idJugadora), OptionalAnswer(e.idPartido), IntToString(e.ataques),
     IntToString(e.saques), IntToString(e.bloqueos), IntToString(e.defensas), IntToString(e.errores)]
  }

  /** Every valid statistic whose ids are 0 or positive can be entered:
      its seven fields in order yield exactly it, and the form reads no
      further line. */
  lemma DatosEstadisticaOfAnswers(e: Estadistica, lines: seq<string>, pos: nat)
    requires ValidEstadistica(e) && e.idEstadistica == 0
    requires e.idJugadora >= 0 && e.idPartido >= 0
    requires pos + 7 <= |lines| && lines[pos..pos + 7] == Answers(e)
    ensures DatosEstadistica(lines, pos) == Accepted(e, pos + 7)
  {
    var a := Answers(e);
    assert lines[pos] == a[0] && lines[pos + 1] == a[1] && lines[pos + 2] == a[2] && lines[pos + 3] == a[3]
      && lines[pos + 4] == a[4] && lines[pos + 5] == a[5] && lines[pos + 6] == a[6];
    OptionalAnswerRead(IdsRule, lines, pos, e.idJugadora);
    OptionalAnswerRead(IdsRule, lines, pos + 1, e.idPartido);
    IntRunAccepts(RendimientoRule, lines, pos + 2, Some(0), e.ataques);
    IntRunAccepts(RendimientoRule, lines, pos + 3, Some(0), e.saques);
    IntRunAccepts(RendimientoRule, lines, pos + 4, Some(0), e.bloqueos);
    IntRunAccepts(RendimientoRule, lines, pos + 5, Some(0), e.defensas);
    IntRunAccepts(RendimientoRule, lines, pos + 6, Some(0), e.errores);
  }

  /** A negative count and a non-number each cost one re-prompt. */
  lemma RendimientoRetries()
    ensures IntRun(RendimientoRule, ["-1", "x", "0"], 0, Some(0)) == Accepted(Some(0), 3)
  {
    assert ParseInt("-1") == Some(-1) by {
      assert "-1"[1..] == "1";
      assert "1"[..0] == [];
    }
    assert !AllDigits("x");
    assert ParseInt("0") == Some(0) by {
      assert "0"[..0] == [];
    }
  }

  /** actualizarEstadistica: the id read before the form replaces the
      form's id; every other field is the form's. */
  method ActualizarEstadistica(id: int, lines: seq<string>, pos: nat) returns (r: Outcome<Estadistica>)
    ensures var f := DatosEstadistica(lines, pos);
      && (r.Accepted? <==> f.Accepted?)
      && (r.Accepted? ==> r.value.idEstadistica == id && r.value.(idEstadistica := 0) == f.value && r.next == f.next)
      && (!r.Accepted? ==> r == f)
  {
    var e := PreguntarDatosEstadistica(lines, pos);
    if !e.Accepted? {
      return e;
    }
    r := Accepted(e.value.(idEstadistica := id), e.next);
  }
}
