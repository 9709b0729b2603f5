/** es.cheste.servicios.GestionEntrenador: the readers of the coach form,
    the form itself and the key overwrite of an update. */
module GestionEntrenador {
  import opened Chars
  import opened JavaInt
  import opened Patterns
  import opened Console
  import opened Fields

  /** es.cheste.clases.Entrenador. The form's constructor leaves the id at 0. */
  datatype Entrenador = Entrenador(
    idEntrenador: int,
    nombre: string,
    apellidos: string,
    nacionalidad: string,
    experiencia: int)

  /** verificarExperiencia: at least 1 year; a non-number re-prompts. */
  const ExperienciaRule := IntRule(1, None, Reprompt, Retry)

  predicate ValidEntrenador(e: Entrenador)
  {
    && NameCheck(e.nombre) == Some(e.nombre)
    && NameCheck(e.apellidos) == Some(e.apellidos)
    && OptionalLettersCheck(e.nacionalidad) == Some(e.nacionalidad)
    && InRange(ExperienciaRule, e.experiencia) && IsInt32(e.experiencia)
  }

  method VerificarNombreApellido(lines: seq<string>, pos: nat) returns (r: Outcome<string>)
    ensures r == FirstDecided(lines, pos, NameCheck)
    ensures r.Accepted? ==> |r.value| >= 3 && IsName(r.value) && r.value == lines[r.next - 1]
  {
    r := ReadUntil(lines, pos, NameCheck);
  }

  method VerificarNacionalidad(lines: seq<string>, pos: nat) returns (r: Outcome<string>)
    ensures r == FirstDecided(lines, pos, OptionalLettersCheck)
    ensures r.Accepted? ==> r.value == lines[r.next - 1] && (r.value == "" || IsLetters(r.value))
  {
    r := ReadUntil(lines, pos, OptionalLettersCheck);
  }

  /** The first line that is a number of at least 1 is the experience;
      every line before it is re-prompted. */
  method VerificarExperiencia(lines: seq<string>, pos: nat) returns (r: Outcome<int>)
    ensures r == Unbox(IntRun(ExperienciaRule, lines, pos, Some(0)))
    ensures !r.Escaped?
    ensures r.Accepted? ==> r.value >= 1 && ParseInt(lines[r.next - 1]) == Some(r.value)
    ensures r.Accepted? ==> forall j :: pos <= j < r.next - 1 ==> !Acceptable(ExperienciaRule, lines[j])
    ensures r.Exhausted? <==> forall j :: pos <= j < |lines| ==> !Acceptable(ExperienciaRule, lines[j])
  {
    var o := ReadInt(ExperienciaRule, lines, pos, Some(0));
    RetryReader(ExperienciaRule, lines, pos, Some(0));
    r := Unbox(o);
  }

  /** The form: name, surname, nationality and experience, with no line
      thrown away. */
  function DatosEntrenador(lines: seq<string>, pos: nat): (r: Outcome<Entrenador>)
    ensures r.Accepted? ==> ValidEntrenador(r.value) && r.value.idEntrenador == 0
    ensures r.Accepted? ==> pos + 4 <= r.next <= |lines|
    ensures !r.Escaped?
  {
    var nombre :- FirstDecided(lines, pos, NameCheck);
    var apellidos :- FirstDecided(lines, nombre.next, NameCheck);
    var nacionalidad :- FirstDecided(lines, apellidos.next, OptionalLettersCheck);
    var experiencia :- Unbox(IntRun(ExperienciaRule, lines, nacionalidad.next, Some(0)));
    Accepted(Entrenador(0, nombre.value, apellidos.value, nacionalidad.value, experiencia.value), experiencia.next)
  }

  method PreguntarDatosEntrenador(lines: seq<string>, pos: nat) returns (r: Outcome<Entrenador>)
    ensures r == DatosEntrenador(lines, pos)
  {
    var nombre :- VerificarNombreApellido(lines, pos);
    var apellidos :- VerificarNombreApellido(lines, nombre.next);
    var nacionalidad :- VerificarNacionalidad(lines, apellidos.next);
    var experiencia :- VerificarExperiencia(lines, nacionalidad.next);
    r := Accepted(Entrenador(0, nombre.value, apellidos.value, nacionalidad.value, experiencia.value), experiencia.next);
  }

  /** The answers that fill in `e`, one line per field in the form's order. */
  function Answers(e: Entrenador): (a: seq<string>)
    ensures |a| == 4
  {
    [e.nombre, e.apellidos, e.nacionalidad, IntToString(e.experiencia)]
  }

  /** Every valid coach can be entered: its four fields in order yield
      exactly it, and the form reads no further line. */
  lemma DatosEntrenadorOfAnswers(e: Entrenador, lines: seq<string>, pos: nat)
    requires ValidEntrenador(e) && e.idEntrenador == 0
    requires pos + 4 <= |lines| && lines[pos..pos + 4] == Answers(e)
    ensures DatosEntrenador(lines, pos) == Accepted(e, pos + 4)
  {
    var a := Answers(e);
    assert lines[pos] == a[0] && lines[pos + 1] == a[1] && lines[pos + 2] == a[2] && lines[pos + 3] == a[3];
    FirstDecidedHere(lines, pos, NameCheck, e.nombre);
    FirstDecidedHere(lines, pos + 1, NameCheck, e.apellidos);
    FirstDecidedHere(lines, pos + 2, OptionalLettersCheck, e.nacionalidad);
    IntRunAccepts(ExperienciaRule, lines, pos + 3, Some(0), e.experiencia);
  }

  /** Zero years and a non-number each cost one re-prompt. */
  lemma ExperienciaRetries()
    ensures IntRun(ExperienciaRule, ["0", "x", "", "3"], 0, Some(0)) == Accepted(Some(3), 4)
  {
    assert ParseInt("0") == Some(0) by {
      assert "0"[..0] == [];
    }
    assert !AllDigits("x");
    assert ParseInt("3") == Some(3) by {
      assert "3"[..0] == [];
    }
  }

  /** actualizarEntrenador: the id read before the form replaces the
      form's id; every other field is the form's. */
  method ActualizarEntrenador(id: int, lines: seq<string>, pos: nat) returns (r: Outcome<Entrenador>)
    ensures var f := DatosEntrenador(lines, pos);
      && (r.Accepted? <==> f.Accepted?)
      && (r.Accepted? ==> r.value.idEntrenador == id && r.value.(idEntrenador := 0) == f.value && r.next == f.next)
      && (!r.Accepted? ==> r == f)
  {
    var e := PreguntarDatosEntrenador(lines, pos);
    if !e.Accepted? {
      return e;
    }
    r := Accepted(e.value.(idEntrenador := id), e.next);
  }
}
