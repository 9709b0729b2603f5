/** es.cheste.servicios.GestionJuega: the readers of the participation
    form, the form itself, and an update that reads the key again before
    the form and overwrites the form's key with it. */
module GestionJuega {
  import opened Chars
  import opened JavaInt
  import opened Enums
  import opened Console
  import opened Fields

  /** es.cheste.clases.Juega, keyed by player and match. */
  datatype Juega = Juega(
    idJugadora: int,
    idPartido: int,
    minutoEntrada: int,
    minutoSalida: int,
    estado: string)

  /** The key an update reads before the form. */
  datatype ClaveJuega = ClaveJuega(idJugadora: int, idPartido: int)

  /** validarId: at least 1, and its catch is for InputMismatchException,
      which parseInt never throws, so a non-number escapes. */
  const IdRule := IntRule(1, None, Reprompt, Propagate)
  /** verificarMinutos: at least 0; a non-number costs one more line. */
  const MinutosRule := IntRule(0, None, Reprompt, RetryAfterDiscard)

  /** A participation the form can return. Nothing relates the two minutes. */
  predicate ValidJuega(j: Juega)
  {
    && InRange(IdRule, j.idJugadora) && IsInt32(j.idJugadora)
    && InRange(IdRule, j.idPartido) && IsInt32(j.idPartido)
    && InRange(MinutosRule, j.minutoEntrada) && IsInt32(j.minutoEntrada)
    && InRange(MinutosRule, j.minutoSalida) && IsInt32(j.minutoSalida)
    && EstadoOf(j.estado).Some?
  }

  method ValidarId(lines: seq<string>, pos: nat) returns (r: Outcome<int>)
    ensures r == Unbox(IntRun(IdRule, lines, pos, Some(0)))
    ensures r.Escaped? ==> r.failure == NumberFormat
    ensures r.Accepted? ==> r.value >= 1 && ParseInt(lines[r.next - 1]) == Some(r.value)
    ensures r.Escaped? <==> exists j :: pos <= j < |lines| && lines[j] != "" && ParseInt(lines[j]).None?
                                 && forall i :: pos <= i < j ==> Skippable(IdRule, lines[i])
    ensures r.Exhausted? <==> forall j :: pos <= j < |lines| ==> Skippable(IdRule, lines[j])
  {
    var o := ReadInt(IdRule, lines, pos, Some(0));
    WrongCatchReader(IdRule, lines, pos, Some(0));
    r := Unbox(o);
  }

  method VerificarMinutos(lines: seq<string>, pos: nat) returns (r: Outcome<int>)
    ensures r == Unbox(IntRun(MinutosRule, lines, pos, Some(0)))
    ensures !r.Escaped?
    ensures r.Accepted? ==> r.value >= 0 && ParseInt(lines[r.next - 1]) == Some(r.value)
    ensures r.Accepted? ==> FirstStop(MinutosRule, lines, pos, r.next - 1)
    ensures forall k :: FirstStop(MinutosRule, lines, pos, k) ==> r.Accepted? && r.next == k + 1
    ensures r.Exhausted? <==> NoStop(MinutosRule, lines, pos)
  {
    var o := ReadInt(MinutosRule, lines, pos, Some(0));
    ParsedReader(MinutosRule, lines, pos, Some(0));
    r := Unbox(o);
  }

  method VerificarEstado(lines: seq<string>, pos: nat) returns (r: Outcome<string>)
    ensures r == FirstDecided(lines, pos, EstadoCheck)
    ensures r.Accepted? ==> r.value == ToUpper(lines[r.next - 1]) && EstadoOf(r.value).Some?
  {
    r := ReadUntil(lines, pos, EstadoCheck);
  }

  /** The form: player id, match id, entry and exit minutes and the state,
      then one more line thrown away. */
  function DatosJuega(lines: seq<string>, pos: nat): (r: Outcome<Juega>)
    ensures r.Accepted? ==> ValidJuega(r.value)
    ensures r.Accepted? ==> pos + 6 <= r.next <= |lines|
    ensures r.Escaped? ==> r.failure == NumberFormat
  {
    var idJugadora :- Unbox(IntRun(IdRule, lines, pos, Some(0)));
    var idPartido :- Unbox(IntRun(IdRule, lines, idJugadora.next, Some(0)));
    var entrada :- Unbox(IntRun(MinutosRule, lines, idPartido.next, Some(0)));
    var salida :- Unbox(IntRun(MinutosRule, lines, entrada.next, Some(0)));
    var estado :- FirstDecided(lines, salida.next, EstadoCheck);
    var end :- Discard(lines, estado.next);
    Accepted(Juega(idJugadora.value, idPartido.value, entrada.value, salida.value, estado.value), end.next)
  }

  method PreguntarDatosJuega(lines: seq<string>, pos: nat) returns (r: Outcome<Juega>)
    ensures r == DatosJuega(lines, pos)
  {
    var idJugadora :- ValidarId(lines, pos);
    var idPartido :- ValidarId(lines, idJugadora.next);
    var entrada :- VerificarMinutos(lines, idPartido.next);
    var salida :- VerificarMinutos(lines, entrada.next);
    var estado :- VerificarEstado(lines, salida.next);
    var end :- Discard(lines, estado.next);
    r := Accepted(Juega(idJugadora.value, idPartido.value, entrada.value, salida.value, estado.value), end.next);
  }

  /** The key actualizarJuega reads before the form. */
  function Clave(lines: seq<string>, pos: nat): (r: Outcome<ClaveJuega>)
    ensures r.Accepted? ==> r.value.idJugadora >= 1 && IsInt32(r.value.idJugadora)
    ensures r.Accepted? ==> r.value.idPartido >= 1 && IsInt32(r.value.idPartido)
    ensures r.Accepted? ==> pos + 2 <= r.next <= |lines|
    ensures r.Escaped? ==> r.failure == NumberFormat
  {
    var idJugadora :- Unbox(IntRun(IdRule, lines, pos, Some(0)));
    var idPartido :- Unbox(IntRun(IdRule, lines, idJugadora.next, Some(0)));
    Accepted(ClaveJuega(idJugadora.value, idPartido.value), idPartido.next)
  }

  /** actualizarJuega: the key, then the whole form (which asks for the
      key again), then the first key replaces the form's. */
  function Actualizacion(lines: seq<string>, pos: nat): (r: Outcome<Juega>)
    ensures r.Accepted? ==> ValidJuega(r.value)
    ensures r.Accepted? ==> pos + 8 <= r.next <= |lines|
    ensures r.Escaped? ==> r.failure == NumberFormat
    ensures r.Accepted? ==>
      var c := Clave(lines, pos);
      c.Accepted? &&
      var f := DatosJuega(lines, c.next);
      && f.Accepted?
      && r.value.idJugadora == c.value.idJugadora && r.value.idPartido == c.value.idPartido
      && r.value.minutoEntrada == f.value.minutoEntrada && r.value.minutoSalida == f.value.minutoSalida
      && r.value.estado == f.value.estado
  {
    var clave :- Clave(lines, pos);
    var juega :- DatosJuega(lines, clave.next);
    Accepted(juega.value.(idJugadora := clave.value.idJugadora, idPartido := clave.value.idPartido), juega.next)
  }

  method ActualizarJuega(lines: seq<string>, pos: nat) returns (r: Outcome<Juega>)
    ensures r == Actualizacion(lines, pos)
  {
    var idJugadora :- ValidarId(lines, pos);
    var idPartido :- ValidarId(lines, idJugadora.next);
    var juega :- PreguntarDatosJuega(lines, idPartido.next);
    var j := juega.value.(idJugadora := idJugadora.value, idPartido := idPartido.value);
    r := Accepted(j, juega.next);
  }

  /** The answers that fill in `j`, one line per field in the form's order. */
  function Answers(j: Juega): (a: seq<string>)
    ensures |a| == 5
  {
    [IntToString(j.idJugadora), IntToString(j.idPartido), IntToString(j.minutoEntrada),
     IntToString(j.minutoSalida), j.estado]
  }

  /** Every valid participation can be entered: its fields in order, plus
      the line the form throws away, yield exactly it; without that last
      line the form does not complete. */
  lemma DatosJuegaOfAnswers(j: Juega, lines: seq<string>, pos: nat)
    requires ValidJuega(j)
    requires pos + 5 <= |lines| && lines[pos..pos + 5] == Answers(j)
    ensures DatosJuega(lines, pos) == if pos + 5 < |lines| then Accepted(j, pos + 6) else Exhausted
  {
    var a := Answers(j);
    assert lines[pos] == a[0] && lines[pos + 1] == a[1] && lines[pos + 2] == a[2] && lines[pos + 3] == a[3]
      && lines[pos + 4] == a[4];
    IntRunAccepts(IdRule, lines, pos, Some(0), j.idJugadora);
    IntRunAccepts(IdRule, lines, pos + 1, Some(0), j.idPartido);
    IntRunAccepts(MinutosRule, lines, pos + 2, Some(0), j.minutoEntrada);
    IntRunAccepts(MinutosRule, lines, pos + 3, Some(0), j.minutoSalida);
    EstadoNameUpper(EstadoOf(j.estado).value);
    FirstDecidedHere(lines, pos + 4, EstadoCheck, j.estado);
  }

  /** A player who leaves at minute 10 after entering at minute 90 is
      accepted: the form never compares the two minutes. */
  lemma SalidaAntesDeEntrada(lines: seq<string>)
    requires |lines| == 6 && lines[..5] == Answers(Juega(1, 1, 90, 10, "TITULAR"))
    ensures DatosJuega(lines, 0) == Accepted(Juega(1, 1, 90, 10, "TITULAR"), 6)
  {
    assert lines[0..0 + 5] == lines[..5];
    DatosJuegaOfAnswers(Juega(1, 1, 90, 10, "TITULAR"), lines, 0);
  }

  /** Typing a key's fields reads that key. */
  lemma ClaveOfAnswers(k: ClaveJuega, lines: seq<string>, pos: nat)
    requires k.idJugadora >= 1 && IsInt32(k.idJugadora) && k.idPartido >= 1 && IsInt32(k.idPartido)
    requires pos + 2 <= |lines|
    requires lines[pos] == IntToString(k.idJugadora) && lines[pos + 1] == IntToString(k.idPartido)
    ensures Clave(lines, pos) == Accepted(k, pos + 2)
  {
    IntRunAccepts(IdRule, lines, pos, Some(0), k.idJugadora);
    IntRunAccepts(IdRule, lines, pos + 1, Some(0), k.idPartido);
  }

  /** An update is the key followed by a form: its outcome is the form's
      with the key replaced. */
  lemma ActualizacionOfParts(lines: seq<string>, pos: nat, k: ClaveJuega, n: nat, j: Juega, m: nat)
    requires Clave(lines, pos) == Accepted(k, n)
    requires DatosJuega(lines, n) == Accepted(j, m)
    ensures Actualizacion(lines, pos) == Accepted(j.(idJugadora := k.idJugadora, idPartido := k.idPartido), m)
  {
  }

  /** An update typed as the key `k` followed by the answers of a valid `j`
      and the discarded line stores `j` under the key `k`: the key typed
      into the form is lost. */
  lemma ActualizacionOfAnswers(k: ClaveJuega, j: Juega, lines: seq<string>)
    requires k.idJugadora >= 1 && IsInt32(k.idJugadora) && k.idPartido >= 1 && IsInt32(k.idPartido)
    requires ValidJuega(j)
    requires |lines| == 8
    requires lines[..2] == [IntToString(k.idJugadora), IntToString(k.idPartido)]
    requires lines[2..7] == Answers(j)
    ensures Actualizacion(lines, 0) == Accepted(j.(idJugadora := k.idJugadora, idPartido := k.idPartido), 8)
  {
    assert lines[0] == IntToString(k.idJugadora) && lines[1] == IntToString(k.idPartido);
    ClaveOfAnswers(k, lines, 0);
    assert lines[2..2 + 5] == Answers(j);
    DatosJuegaOfAnswers(j, lines, 2);
    ActualizacionOfParts(lines, 0, k, 2, j, 8);
  }
}
