/** es.cheste.servicios.GestionJugadora: the field readers of the player
    form, the form itself and the key overwrite of an update. */
module GestionJugadora {
  import opened Chars
  import opened JavaInt
  import opened Patterns
  import opened Enums
  import opened Console
  import opened Fields

  /** es.cheste.clases.Jugadora. The form's constructor leaves the id at 0. */
  datatype Jugadora = Jugadora(
    idJugadora: int,
    nombre: string,
    apellidos: string,
    posicion: string,
    nacionalidad: string,
    edad: int,
    dorsal: int,
    nombreEquipo: string,
    idEntrenador: int)

  /** verificarEdad: 16..50, a non-number re-prompts. */
  const EdadRule := IntRule(16, Some(50), Reprompt, Retry)
  /** verificarDorsal: 1..99, a non-number re-prompts. */
  const DorsalRule := IntRule(1, Some(99), Reprompt, Retry)
  /** verificarIdEntrenador: at least 1, and its catch is for
      InputMismatchException, so a non-number escapes. */
  const IdEntrenadorRule := IntRule(1, None, Reprompt, Propagate)

  /** A player every one of whose fields the form's readers accept, as
      they return it. */
  predicate ValidJugadora(j: Jugadora)
  {
    && NameCheck(j.nombre) == Some(j.nombre)
    && NameCheck(j.apellidos) == Some(j.apellidos)
    && PosicionOf(j.posicion).Some?
    && OptionalLettersCheck(j.nacionalidad) == Some(j.nacionalidad)
    && InRange(EdadRule, j.edad)
    && InRange(DorsalRule, j.dorsal)
    && NameCheck(j.nombreEquipo) == Some(j.nombreEquipo)
    && InRange(IdEntrenadorRule, j.idEntrenador) && IsInt32(j.idEntrenador)
  }

  /** What the readers' tests amount to, field by field. */
  lemma ValidJugadoraMeans(j: Jugadora)
    ensures ValidJugadora(j) <==>
      && |j.nombre| >= 3 && IsName(j.nombre)
      && |j.apellidos| >= 3 && IsName(j.apellidos)
      && PosicionOf(j.posicion).Some?
      && (j.nacionalidad == "" || IsLetters(j.nacionalidad))
      && 16 <= j.edad <= 50
      && 1 <= j.dorsal <= 99
      && |j.nombreEquipo| >= 3 && IsName(j.nombreEquipo)
      && 1 <= j.idEntrenador <= MaxInt
  {
  }

  method VerificarNombreApellidoNomEquipo(lines: seq<string>, pos: nat) returns (r: Outcome<string>)
    ensures r == FirstDecided(lines, pos, NameCheck)
    ensures r.Accepted? ==> |r.value| >= 3 && IsName(r.value) && r.value == lines[r.next - 1]
  {
    r := ReadUntil(lines, pos, NameCheck);
  }

  method VerificarPosicion(lines: seq<string>, pos: nat) returns (r: Outcome<string>)
    ensures r == FirstDecided(lines, pos, PosicionCheck)
    ensures r.Accepted? ==> r.value == ToUpper(lines[r.next - 1]) && PosicionOf(r.value).Some?
  {
    r := ReadUntil(lines, pos, PosicionCheck);
  }

  method VerificarNacionalidad(lines: seq<string>, pos: nat) returns (r: Outcome<string>)
    ensures r == FirstDecided(lines, pos, OptionalLettersCheck)
    ensures r.Accepted? ==> r.value == lines[r.next - 1] && (r.value == "" || IsLetters(r.value))
  {
    r := ReadUntil(lines, pos, OptionalLettersCheck);
  }

  method VerificarEdad(lines: seq<string>, pos: nat) returns (r: Outcome<int>)
    ensures r == Unbox(IntRun(EdadRule, lines, pos, Some(0)))
    ensures !r.Escaped?
    ensures r.Accepted? ==> 16 <= r.value <= 50 && ParseInt(lines[r.next - 1]) == Some(r.value)
    ensures r.Accepted? ==> forall j :: pos <= j < r.next - 1 ==> !Acceptable(EdadRule, lines[j])
    ensures r.Exhausted? <==> forall j :: pos <= j < |lines| ==> !Acceptable(EdadRule, lines[j])
  {
    var o := ReadInt(EdadRule, lines, pos, Some(0));
    RetryReader(EdadRule, lines, pos, Some(0));
    r := Unbox(o);
  }

  method VerificarDorsal(lines: seq<string>, pos: nat) returns (r: Outcome<int>)
    ensures r == Unbox(IntRun(DorsalRule, lines, pos, Some(0)))
    ensures !r.Escaped?
    ensures r.Accepted? ==> 1 <= r.value <= 99 && ParseInt(lines[r.next - 1]) == Some(r.value)
    ensures r.Accepted? ==> forall j :: pos <= j < r.next - 1 ==> !Acceptable(DorsalRule, lines[j])
    ensures r.Exhausted? <==> forall j :: pos <= j < |lines| ==> !Acceptable(DorsalRule, lines[j])
  {
    var o := ReadInt(DorsalRule, lines, pos, Some(0));
    RetryReader(DorsalRule, lines, pos, Some(0));
    r := Unbox(o);
  }

  method VerificarIdEntrenador(lines: seq<string>, pos: nat) returns (r: Outcome<int>)
    ensures r == Unbox(IntRun(IdEntrenadorRule, lines, pos, Some(0)))
    ensures r.Escaped? ==> r.failure == NumberFormat
    ensures r.Accepted? ==> r.value >= 1 && ParseInt(lines[r.next - 1]) == Some(r.value)
    ensures r.Escaped? <==> exists j :: pos <= j < |lines| && lines[j] != "" && ParseInt(lines[j]).None?
                                 && forall i :: pos <= i < j ==> Skippable(IdEntrenadorRule, lines[i])
    ensures r.Exhausted? <==> forall j :: pos <= j < |lines| ==> Skippable(IdEntrenadorRule, lines[j])
  {
    var o := ReadInt(IdEntrenadorRule, lines, pos, Some(0));
    WrongCatchReader(IdEntrenadorRule, lines, pos, Some(0));
    r := Unbox(o);
  }

  /** The form: eight readers in order, then one more line thrown away. */
  function DatosJugadora(lines: seq<string>, pos: nat): (r: Outcome<Jugadora>)
    ensures r.Accepted? ==> ValidJugadora(r.value) && r.value.idJugadora == 0
    ensures r.Accepted? ==> pos + 9 <= r.next <= |lines|
    ensures r.Escaped? ==> r.failure == NumberFormat
  {
    var nombre :- FirstDecided(lines, pos, NameCheck);
    var apellidos :- FirstDecided(lines, nombre.next, NameCheck);
    var posicion :- FirstDecided(lines, apellidos.next, PosicionCheck);
    var nacionalidad :- FirstDecided(lines, posicion.next, OptionalLettersCheck);
    var edad :- Unbox(IntRun(EdadRule, lines, nacionalidad.next, Some(0)));
    var dorsal :- Unbox(IntRun(DorsalRule, lines, edad.next, Some(0)));
    var equipo :- FirstDecided(lines, dorsal.next, NameCheck);
    var idEntrenador :- Unbox(IntRun(IdEntrenadorRule, lines, equipo.next, Some(0)));
    var end :- Discard(lines, idEntrenador.next);
    Accepted(Jugadora(0, nombre.value, apellidos.value, posicion.value, nacionalidad.value,
                      edad.value, dorsal.value, equipo.value, idEntrenador.value), end.next)
  }

  method PreguntarDatosJugadora(lines: seq<string>, pos: nat) returns (r: Outcome<Jugadora>)
    ensures r == DatosJugadora(lines, pos)
  {
    var nombre :- VerificarNombreApellidoNomEquipo(lines, pos);
    var apellidos :- VerificarNombreApellidoNomEquipo(lines, nombre.next);
    var posicion :- VerificarPosicion(lines, apellidos.next);
    var nacionalidad :- VerificarNacionalidad(lines, posicion.next);
    var edad :- VerificarEdad(lines, nacionalidad.next);
    var dorsal :- VerificarDorsal(lines, edad.next);
    var equipo :- VerificarNombreApellidoNomEquipo(lines, dorsal.next);
    var idEntrenador :- VerificarIdEntrenador(lines, equipo.next);
    var end :- Discard(lines, idEntrenador.next);
    r := Accepted(Jugadora(0, nombre.value, apellidos.value, posicion.value, nacionalidad.value,
                           edad.value, dorsal.value, equipo.value, idEntrenador.value), end.next);
  }

  /** The answers that fill in `j`, one line per field in the form's order. */
  function Answers(j: Jugadora): (a: seq<string>)
    ensures |a| == 8
  {
    [j.nombre, j.apellidos, j.posicion, j.nacionalidad, IntToString(j.edad),
     IntToString(j.dorsal), j.nombreEquipo, IntToString(j.idEntrenador)]
  }

  /** Every valid player can be entered: typing its fields in order, plus
      the line the form throws away, yields exactly that player; without
      that last line the form does not complete. */
  lemma DatosJugadoraOfAnswers(j: Jugadora, lines: seq<string>, pos: nat)
    requires ValidJugadora(j) && j.idJugadora == 0
    requires pos + 8 <= |lines| && lines[pos..pos + 8] == Answers(j)
    ensures DatosJugadora(lines, pos) == if pos + 8 < |lines| then Accepted(j, pos + 9) else Exhausted
  {
    var a := Answers(j);
    assert lines[pos] == a[0] && lines[pos + 1] == a[1] && lines[pos + 2] == a[2] && lines[pos + 3] == a[3]
      && lines[pos + 4] == a[4] && lines[pos + 5] == a[5] && lines[pos + 6] == a[6] && lines[pos + 7] == a[7];
    assert lines[pos] == j.nombre;
    FirstDecidedHere(lines, pos, NameCheck, j.nombre);
    assert lines[pos + 1] == j.apellidos;
    FirstDecidedHere(lines, pos + 1, NameCheck, j.apellidos);
    assert lines[pos + 2] == j.posicion;
    PosicionNameUpper(PosicionOf(j.posicion).value);
    FirstDecidedHere(lines, pos + 2, PosicionCheck, j.posicion);
    assert lines[pos + 3] == j.nacionalidad;
    FirstDecidedHere(lines, pos + 3, OptionalLettersCheck, j.nacionalidad);
    assert lines[pos + 4] == IntToString(j.edad);
    IntRunAccepts(EdadRule, lines, pos + 4, Some(0), j.edad);
    assert lines[pos + 5] == IntToString(j.dorsal);
    IntRunAccepts(DorsalRule, lines, pos + 5, Some(0), j.dorsal);
    assert lines[pos + 6] == j.nombreEquipo;
    FirstDecidedHere(lines, pos + 6, NameCheck, j.nombreEquipo);
    assert lines[pos + 7] == IntToString(j.idEntrenador);
    IntRunAccepts(IdEntrenadorRule, lines, pos + 7, Some(0), j.idEntrenador);
  }

  /** Without the extra line at the end the form does not complete. */
  lemma DatosJugadoraNeedsTrailingLine(j: Jugadora)
    requires ValidJugadora(j) && j.idJugadora == 0
    ensures DatosJugadora(Answers(j), 0) == Exhausted
  {
    assert Answers(j)[0..8] == Answers(j);
    DatosJugadoraOfAnswers(j, Answers(j), 0);
  }

  /** The age limits are inclusive: 15 and 51 are asked again, as are an
      empty line and a non-number, one line each; 16 and 50 are taken. */
  lemma EdadLimits()
    ensures IntRun(EdadRule, ["15", "51", "", "abc", "16"], 0, Some(0)) == Accepted(Some(16), 5)
    ensures IntRun(EdadRule, ["50"], 0, Some(0)) == Accepted(Some(50), 1)
  {
    assert ParseInt("15") == Some(15) by {
      assert "15"[..1] == "1";
      assert "1"[..0] == [];
    }
    assert ParseInt("51") == Some(51) by {
      assert "51"[..1] == "5";
      assert "5"[..0] == [];
    }
    assert !AllDigits("abc");
    assert ParseInt("16") == Some(16) by {
      assert "16"[..1] == "1";
      assert "1"[..0] == [];
    }
    assert ParseInt("50") == Some(50) by {
      assert "50"[..1] == "5";
      assert "5"[..0] == [];
    }
  }

  /** actualizarJugadora: the id read before the form replaces the form's
      id; every other field is the form's. */
  method ActualizarJugadora(id: int, lines: seq<string>, pos: nat) returns (r: Outcome<Jugadora>)
    ensures var f := DatosJugadora(lines, pos);
      && (r.Accepted? <==> f.Accepted?)
      && (r.Accepted? ==> r.value.idJugadora == id && r.value.(idJugadora := 0) == f.value && r.next == f.next)
      && (!r.Accepted? ==> r == f)
  {
    var j := PreguntarDatosJugadora(lines, pos);
    if !j.Accepted? {
      return j;
    }
    r := Accepted(j.value.(idJugadora := id), j.next);
  }
}
