/** es.cheste.servicios.GestionOpinion: the readers of the opinion form,
    the form itself and the key overwrite of an update. */
module GestionOpinion {
  import opened Chars
  import opened JavaInt
  import opened Patterns
  import opened Console
  import opened Fields

  /** es.cheste.clases.Opinion. The form's constructor leaves the id at 0. */
  datatype Opinion = Opinion(
    idOpinion: int,
    idPartido: int,
    idJugadora: int,
    idUsuario: int,
    puntuacion: int,
    comentario: string)

  /** verificarIds: optional ids; an empty line returns the loop's variable
      and a non-number costs one more line in the catch block. */
  const IdsRule := IntRule(1, None, ReturnCurrent, RetryAfterDiscard)
  /** verificarPuntuacion: 1..10; a non-number costs one more line. */
  const PuntuacionRule := IntRule(1, Some(10), Reprompt, RetryAfterDiscard)

  /** An opinion the form can return. An id is any int, since the reader
      can return a rejected number when an empty line follows it. */
  predicate ValidOpinion(o: Opinion)
  {
    && IsInt32(o.idPartido) && IsInt32(o.idJugadora) && IsInt32(o.idUsuario)
    && InRange(PuntuacionRule, o.puntuacion)
    && OptionalLettersCheck(o.comentario) == Some(o.comentario)
  }

  method VerificarIds(lines: seq<string>, pos: nat) returns (r: Outcome<int>)
    ensures r == Unbox(IntRun(IdsRule, lines, pos, Some(0)))
    ensures !r.Escaped?
    ensures r.Accepted? ==> r.value >= 1 || lines[r.next - 1] == ""
    ensures r.Accepted? ==> FirstStop(IdsRule, lines, pos, r.next - 1)
    ensures forall k :: FirstStop(IdsRule, lines, pos, k) ==> r.Accepted? && r.next == k + 1
    ensures r.Exhausted? <==> NoStop(IdsRule, lines, pos)
    ensures r.Accepted? && lines[r.next - 1] != "" ==> ParseInt(lines[r.next - 1]) == Some(r.value)
    ensures r.Accepted? && lines[r.next - 1] == "" ==>
      HeldAt(IdsRule, lines, pos, r.next - 1, Some(0), Some(r.value))
  {
    var o := ReadInt(IdsRule, lines, pos, Some(0));
    ParsedReader(IdsRule, lines, pos, Some(0));
    IntRunValue(IdsRule, lines, pos, Some(0));
    r := Unbox(o);
  }

  method VerificarPuntuacion(lines: seq<string>, pos: nat) returns (r: Outcome<int>)
    ensures r == Unbox(IntRun(PuntuacionRule, lines, pos, Some(0)))
    ensures !r.Escaped?
    ensures r.Accepted? ==> 1 <= r.value <= 10 && ParseInt(lines[r.next - 1]) == Some(r.value)
    ensures r.Accepted? ==> FirstStop(PuntuacionRule, lines, pos, r.next - 1)
    ensures forall k :: FirstStop(PuntuacionRule, lines, pos, k) ==> r.Accepted? && r.next == k + 1
    ensures r.Exhausted? <==> NoStop(PuntuacionRule, lines, pos)
  {
    var o := ReadInt(PuntuacionRule, lines, pos, Some(0));
    ParsedReader(PuntuacionRule, lines, pos, Some(0));
    r := Unbox(o);
  }

  method VerificarComentario(lines: seq<string>, pos: nat) returns (r: Outcome<string>)
    ensures r == FirstDecided(lines, pos, OptionalLettersCheck)
    ensures r.Accepted? ==> r.value == lines[r.next - 1] && (r.value == "" || IsLetters(r.value))
  {
    r := ReadUntil(lines, pos, OptionalLettersCheck);
  }

  /** The form: three ids, the score and the comment, then one more line
      thrown away. */
  function DatosOpinion(lines: seq<string>, pos: nat): (r: Outcome<Opinion>)
    ensures r.Accepted? ==> ValidOpinion(r.value) && r.value.idOpinion == 0
    ensures r.Accepted? ==> pos + 6 <= r.next <= |lines|
    ensures !r.Escaped?
  {
    var idPartido :- Unbox(IntRun(IdsRule, lines, pos, Some(0)));
    var idJugadora :- Unbox(IntRun(IdsRule, lines, idPartido.next, Some(0)));
    var idUsuario :- Unbox(IntRun(IdsRule, lines, idJugadora.next, Some(0)));
    var puntuacion :- Unbox(IntRun(PuntuacionRule, lines, idUsuario.next, Some(0)));
    var comentario :- FirstDecided(lines, puntuacion.next, OptionalLettersCheck);
    var end :- Discard(lines, comentario.next);
    Accepted(Opinion(0, idPartido.value, idJugadora.value, idUsuario.value, puntuacion.value, comentario.value), end.next)
  }

  method PreguntarDatosOpinion(lines: seq<string>, pos: nat) returns (r: Outcome<Opinion>)
    ensures r == DatosOpinion(lines, pos)
  {
    var idPartido :- VerificarIds(lines, pos);
    var idJugadora :- VerificarIds(lines, idPartido.next);
    var idUsuario :- VerificarIds(lines, idJugadora.next);
    var puntuacion :- VerificarPuntuacion(lines, idUsuario.next);
    var comentario :- VerificarComentario(lines, puntuacion.next);
    var end :- Discard(lines, comentario.next);
    r := Accepted(Opinion(0, idPartido.value, idJugadora.value, idUsuario.value, puntuacion.value, comentario.value), end.next);
  }

  /** The answers that fill in `o`, one line per field in the form's order. */
  function Answers(o: Opinion): (a: seq<string>)
    ensures |a| == 5
  {
    [OptionalAnswer(o.idPartido), OptionalAnswer(o.idJugadora), OptionalAnswer(o.idUsuario),
     IntToString(o.puntuacion), o.comentario]
  }

  /** Every valid opinion whose ids are 0 or positive can be entered: its
      fields in order, plus the line the form throws away, yield exactly
      it; without that last line the form does not complete. */
  lemma DatosOpinionOfAnswers(o: Opinion, lines: seq<string>, pos: nat)
    requires ValidOpinion(o) && o.idOpinion == 0
    requires o.idPartido >= 0 && o.idJugadora >= 0 && o.idUsuario >= 0
    requires pos + 5 <= |lines| && lines[pos..pos + 5] == Answers(o)
    ensures DatosOpinion(lines, pos) == if pos + 5 < |lines| then Accepted(o, pos + 6) else Exhausted
  {
    var a := Answers(o);
    assert lines[pos] == a[0] && lines[pos + 1] == a[1] && lines[pos + 2] == a[2] && lines[pos + 3] == a[3]
      && lines[pos + 4] == a[4];
    OptionalAnswerRead(IdsRule, lines, pos, o.idPartido);
    OptionalAnswerRead(IdsRule, lines, pos + 1, o.idJugadora);
    OptionalAnswerRead(IdsRule, lines, pos + 2, o.idUsuario);
    IntRunAccepts(PuntuacionRule, lines, pos + 3, Some(0), o.puntuacion);
    FirstDecidedHere(lines, pos + 4, OptionalLettersCheck, o.comentario);
  }

  /** Leaving every field empty that may be empty gives an opinion with no
      ids and no comment; the score must still be typed. */
  lemma DatosOpinionMinimal()
    ensures DatosOpinion(["", "", "", "", "7", "", ""], 0) == Accepted(Opinion(0, 0, 0, 0, 7, ""), 7)
  {
    assert ParseInt("7") == Some(7) by {
      assert "7"[..0] == [];
    }
  }

  /** A score out of range is stored in the loop's variable but never
      returned: the reader asks again. */
  lemma PuntuacionOutOfRange()
    ensures IntRun(PuntuacionRule, ["11", "10"], 0, Some(0)) == Accepted(Some(10), 2)
    ensures IntRun(PuntuacionRule, ["0"], 0, Some(0)) == Exhausted
  {
    assert ParseInt("11") == Some(11) by {
      assert "11"[..1] == "1";
      assert "1"[..0] == [];
    }
    assert ParseInt("10") == Some(10) by {
      assert "10"[..1] == "1";
      assert "1"[..0] == [];
    }
    assert ParseInt("0") == Some(0) by {
      assert "0"[..0] == [];
    }
  }

  /** actualizarOpinion: the id read before the form replaces the form's
      id; every other field is the form's. */
  method ActualizarOpinion(id: int, lines: seq<string>, pos: nat) returns (r: Outcome<Opinion>)
    ensures var f := DatosOpinion(lines, pos);
      && (r.Accepted? <==> f.Accepted?)
      && (r.Accepted? ==> r.value.idOpinion == id && r.value.(idOpinion := 0) == f.value && r.next == f.next)
      && (!r.Accepted? ==> r == f)
  {
    var o := PreguntarDatosOpinion(lines, pos);
    if !o.Accepted? {
      return o;
    }
    r := Accepted(o.value.(idOpinion := id), o.next);
  }
}
