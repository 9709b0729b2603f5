/** es.cheste.servicios.GestionUsuario: the readers of the user form, the
    form, the key overwrite of an update, and the session's list of the
    e-mail addresses already entered, which rejects a repeated address. */
module GestionUsuario {
  import opened Chars
  import opened Regex
  import opened JavaInt
  import opened Patterns
  import opened Console
  import opened Fields

  /** es.cheste.clases.Usuario. The form's constructor leaves the id at 0. */
  datatype Usuario = Usuario(
    idUsuario: int,
    nombre: string,
    apellidos: string,
    email: string,
    contrasenya: string,
    idJugadora: int)

  /** verificarIdJugadora: an optional id held in an `Integer` that starts
      null; an empty line returns it as it stands, and a non-number costs
      one more line in the catch block. */
  const IdJugadoraRule := IntRule(1, None, ReturnCurrent, RetryAfterDiscard)

  /** verificarCorreo's test against the addresses entered so far: an
      empty line is returned at once; otherwise the line must have three
      characters, match `.{3,}@[a-zA-Z0-9.-]+\.[a-zA-Z]{2,}` and not be in
      the list. */
  function CorreoCheck(taken: seq<string>, s: string): (r: Option<string>)
    ensures r.Some? ==> r.value == s
    ensures s == "" ==> r == Some("")
    ensures s != "" && s in taken ==> r.None?
  {
    if s == "" then Some(s)
    else if |s| >= 3 && IsEmail(s) && s !in taken then Some(s)
    else None
  }

  function CorreoCheckOf(taken: seq<string>): string -> Option<string>
  {
    s => CorreoCheck(taken, s)
  }

  /** A non-empty address is accepted exactly when it matches the pattern
      and has not been entered before. */
  lemma CorreoCheckMeans(taken: seq<string>, s: string)
    requires s != ""
    ensures CorreoCheck(taken, s).Some? <==> Matches(EmailRegex(), s) && s !in taken
  {
    EmailMatch(s);
    if Matches(EmailRegex(), s) {
      EmailLength(s);
    }
  }

  /** Every accepted non-empty address has at least eight characters, so
      the three-character test never decides anything. */
  lemma CorreoCheckLength(taken: seq<string>, s: string)
    requires s != "" && CorreoCheck(taken, s).Some?
    ensures |s| >= 8
  {
    EmailLength(s);
  }

  /** `correosList.add(correo)` after an accepted address; an empty line
      returns before it. */
  function Registrar(correos: seq<string>, email: string): (c: seq<string>)
    ensures email == "" ==> c == correos
    ensures email != "" ==> c == correos + [email]
  {
    if email == "" then correos else correos + [email]
  }

  /** A list every entry of which was accepted against the entries before
      it: what a session's list of addresses always is. */
  ghost predicate Registered(correos: seq<string>)
  {
    forall i :: 0 <= i < |correos| ==> correos[i] != "" && CorreoCheck(correos[..i], correos[i]).Some?
  }

  /** An accepted address keeps the list registered. */
  lemma RegistrarKeepsRegistered(correos: seq<string>, email: string)
    requires Registered(correos) && CorreoCheck(correos, email).Some?
    ensures Registered(Registrar(correos, email))
  {
    if email != "" {
      var c := correos + [email];
      forall i | 0 <= i < |c| ensures c[i] != "" && CorreoCheck(c[..i], c[i]).Some? {
        if i < |correos| {
          assert c[..i] == correos[..i];
        } else {
          assert c[..i] == correos;
        }
      }
    }
  }

  /** A registered list holds no address twice, and only addresses of at
      least eight characters that match the pattern. */
  lemma RegisteredMeans(correos: seq<string>)
    requires Registered(correos)
    ensures forall i, j :: 0 <= i < j < |correos| ==> correos[i] != correos[j]
    ensures forall i :: 0 <= i < |correos| ==> |correos[i]| >= 8 && Matches(EmailRegex(), correos[i])
  {
    forall i, j | 0 <= i < j < |correos| ensures correos[i] != correos[j] {
      assert correos[i] in correos[..j];
    }
    forall i | 0 <= i < |correos| ensures |correos[i]| >= 8 && Matches(EmailRegex(), correos[i]) {
      CorreoCheckLength(correos[..i], correos[i]);
      CorreoCheckMeans(correos[..i], correos[i]);
    }
  }

  /** A user the form can return. */
  predicate ValidUsuario(u: Usuario)
  {
    && NameCheck(u.nombre) == Some(u.nombre)
    && NameCheck(u.apellidos) == Some(u.apellidos)
    && (u.email == "" || (|u.email| >= 3 && IsEmail(u.email)))
    && PasswordCheck(u.contrasenya) == Some(u.contrasenya)
    && IsInt32(u.idJugadora)
  }

  /** What the form returns and the list of addresses after it. An address
      accepted before a later field fails stays in the list. */
  datatype Registro = Registro(outcome: Outcome<Usuario>, correos: seq<string>)

  /** The form: name, surname, e-mail, password, player id, then one more
      line thrown away; `correos` is the list before it. */
  function DatosUsuario(correos: seq<string>, lines: seq<string>, pos: nat): (r: Registro)
    ensures r.outcome.Accepted? ==> ValidUsuario(r.outcome.value) && r.outcome.value.idUsuario == 0
    ensures r.outcome.Accepted? ==> r.outcome.value.email == "" || r.outcome.value.email !in correos
    ensures r.outcome.Accepted? ==> r.correos == Registrar(correos, r.outcome.value.email)
    ensures r.outcome.Accepted? ==> pos + 6 <= r.outcome.next <= |lines|
    ensures r.outcome.Escaped? ==> r.outcome.failure == NullPointer
    ensures r.correos == correos || exists e :: CorreoCheck(correos, e).Some? && r.correos == Registrar(correos, e)
  {
    var nombre := FirstDecided(lines, pos, NameCheck);
    if !nombre.Accepted? then Registro(nombre.PropagateFailure(), correos) else
    var apellidos := FirstDecided(lines, nombre.next, NameCheck);
    if !apellidos.Accepted? then Registro(apellidos.PropagateFailure(), correos) else
    var email := FirstDecided(lines, apellidos.next, CorreoCheckOf(correos));
    if !email.Accepted? then Registro(email.PropagateFailure(), correos) else
    var rest := (
      var contrasenya :- FirstDecided(lines, email.next, PasswordCheck);
      var idJugadora :- Unbox(IntRun(IdJugadoraRule, lines, contrasenya.next, None));
      var end :- Discard(lines, idJugadora.next);
      Accepted(Usuario(0, nombre.value, apellidos.value, email.value, contrasenya.value, idJugadora.value), end.next));
    Registro(rest, Registrar(correos, email.value))
  }

  /** A form keeps the list of addresses registered. */
  lemma DatosUsuarioKeepsRegistered(correos: seq<string>, lines: seq<string>, pos: nat)
    requires Registered(correos)
    ensures Registered(DatosUsuario(correos, lines, pos).correos)
  {
    var c := DatosUsuario(correos, lines, pos).correos;
    if c != correos {
      var e :| CorreoCheck(correos, e).Some? && c == Registrar(correos, e);
      RegistrarKeepsRegistered(correos, e);
    }
  }

  /** The answers that fill in `u`, one line per field in the form's order. */
  function Answers(u: Usuario): (a: seq<string>)
    ensures |a| == 5
  {
    [u.nombre, u.apellidos, u.email, u.contrasenya, IntToString(u.idJugadora)]
  }

  /** Every valid user with a player id and a new (or no) address can be
      entered: its fields in order, plus the discarded line, yield exactly
      that user, and its address joins the list; without the last line the
      form does not complete, but the address has joined the list all the
      same. */
  lemma DatosUsuarioOfAnswers(correos: seq<string>, u: Usuario, lines: seq<string>, pos: nat)
    requires ValidUsuario(u) && u.idUsuario == 0 && u.idJugadora >= 1
    requires u.email == "" || u.email !in correos
    requires pos + 5 <= |lines| && lines[pos..pos + 5] == Answers(u)
    ensures DatosUsuario(correos, lines, pos) ==
      Registro(if pos + 5 < |lines| then Accepted(u, pos + 6) else Exhausted, Registrar(correos, u.email))
  {
    var a := Answers(u);
    assert lines[pos] == a[0] && lines[pos + 1] == a[1] && lines[pos + 2] == a[2] && lines[pos + 3] == a[3]
      && lines[pos + 4] == a[4];
    FirstDecidedHere(lines, pos, NameCheck, u.nombre);
    FirstDecidedHere(lines, pos + 1, NameCheck, u.apellidos);
    FirstDecidedHere(lines, pos + 2, CorreoCheckOf(correos), u.email);
    FirstDecidedHere(lines, pos + 3, PasswordCheck, u.contrasenya);
    IntRunAccepts(IdJugadoraRule, lines, pos + 4, None, u.idJugadora);
  }

  /** Leaving the player id empty, as its prompt allows, unboxes a null
      Integer: the form fails with a NullPointerException, after the
      address has joined the list. */
  lemma DatosUsuarioNullId(correos: seq<string>, u: Usuario, lines: seq<string>, pos: nat)
    requires ValidUsuario(u)
    requires u.email == "" || u.email !in correos
    requires pos + 5 <= |lines| && lines[pos..pos + 5] == Answers(u)[..4] + [""]
    ensures DatosUsuario(correos, lines, pos) == Registro(Escaped(NullPointer), Registrar(correos, u.email))
  {
    var a := Answers(u)[..4] + [""];
    assert lines[pos] == a[0] && lines[pos + 1] == a[1] && lines[pos + 2] == a[2] && lines[pos + 3] == a[3]
      && lines[pos + 4] == a[4];
    FirstDecidedHere(lines, pos, NameCheck, u.nombre);
    FirstDecidedHere(lines, pos + 1, NameCheck, u.apellidos);
    FirstDecidedHere(lines, pos + 2, CorreoCheckOf(correos), u.email);
    FirstDecidedHere(lines, pos + 3, PasswordCheck, u.contrasenya);
  }

  /** The id that survives an empty line is the last number typed, even a
      rejected one. */
  lemma StaleIdJugadora()
    ensures Unbox(IntRun(IdJugadoraRule, ["-3", ""], 0, None)) == Accepted(-3, 2)
    ensures Unbox(IntRun(IdJugadoraRule, ["x", "4", ""], 0, None)) == Escaped(NullPointer)
  {
    assert ParseInt("-3") == Some(-3) by {
      assert "-3"[1..] == "3";
      assert "3"[..0] == [];
    }
    assert !AllDigits("x");
  }

  /** es.cheste.servicios.GestionUsuario, with the one field its readers
      change. */
  class GestionUsuario {
    var correosList: seq<string>

    ghost predicate Valid()
      reads this
    {
      Registered(correosList)
    }

    /** A new service starts with an empty list. */
    constructor()
      ensures correosList == [] && Valid()
    {
      correosList := [];
    }

    /** In a session that has not entered one yet, an address is accepted
        exactly when it matches the pattern: the users seeded at start-up
        go straight to the data layer and their addresses are not in the
        list. */
    static lemma FreshSessionAccepts(g: GestionUsuario, e: string)
      requires g.correosList == [] && e != ""
      ensures CorreoCheck(g.correosList, e).Some? <==> Matches(EmailRegex(), e)
    {
      CorreoCheckMeans(g.correosList, e);
    }

    method VerificarNombreApellido(lines: seq<string>, pos: nat) returns (r: Outcome<string>)
      ensures r == FirstDecided(lines, pos, NameCheck)
      ensures r.Accepted? ==> |r.value| >= 3 && IsName(r.value) && r.value == lines[r.next - 1]
    {
      r := ReadUntil(lines, pos, NameCheck);
    }

    /** verificarCorreo: the loop reads the list and, on a non-empty
        accepted address, appends it. */
    method VerificarCorreo(lines: seq<string>, pos: nat) returns (r: Outcome<string>)
      requires Valid()
      modifies this
      ensures r == FirstDecided(lines, pos, CorreoCheckOf(old(correosList)))
      ensures correosList == if r.Accepted? then Registrar(old(correosList), r.value) else old(correosList)
      ensures Valid()
    {
      var i := pos;
      while i < |lines|
        invariant pos <= i
        invariant correosList == old(correosList)
        invariant FirstDecided(lines, i, CorreoCheckOf(correosList)) == FirstDecided(lines, pos, CorreoCheckOf(correosList))
        decreases |lines| - i
      {
        var correo := lines[i];
        if correo == "" {
          return Accepted(correo, i + 1);
        }
        if |correo| >= 3 && IsEmail(correo) && correo !in correosList {
          RegistrarKeepsRegistered(correosList, correo);
          correosList := correosList + [correo];
          return Accepted(correo, i + 1);
        }
        i := i + 1;
      }
      return Exhausted;
    }

    method VerificarContrasenya(lines: seq<string>, pos: nat) returns (r: Outcome<string>)
      ensures r == FirstDecided(lines, pos, PasswordCheck)
      ensures r.Accepted? ==> r.value == lines[r.next - 1] && PasswordRegexMatches(r.value)
    {
      r := ReadUntil(lines, pos, PasswordCheck);
      if r.Accepted? {
        PasswordCheckMatches(r.value);
      }
    }

    /** verificarIdJugadora, returning the `Integer` (None for null). */
    method VerificarIdJugadora(lines: seq<string>, pos: nat) returns (r: Outcome<Option<int>>)
      ensures r == IntRun(IdJugadoraRule, lines, pos, None)
      ensures !r.Escaped?
      ensures r.Accepted? && r.value.Some? ==> IsInt32(r.value.value)
      ensures r.Accepted? && r.value.None? ==> lines[r.next - 1] == ""
      ensures r.Accepted? ==> FirstStop(IdJugadoraRule, lines, pos, r.next - 1)
      ensures forall k :: FirstStop(IdJugadoraRule, lines, pos, k) ==> r.Accepted? && r.next == k + 1
      ensures r.Exhausted? <==> NoStop(IdJugadoraRule, lines, pos)
      ensures r.Accepted? && lines[r.next - 1] != "" ==> r.value == ParseInt(lines[r.next - 1])
      ensures r.Accepted? && lines[r.next - 1] == "" ==> HeldAt(IdJugadoraRule, lines, pos, r.next - 1, None, r.value)
    {
      r := ReadInt(IdJugadoraRule, lines, pos, None);
      ParsedReader(IdJugadoraRule, lines, pos, None);
      IntRunValue(IdJugadoraRule, lines, pos, None);
    }

    method PreguntarDatosUsuario(lines: seq<string>, pos: nat) returns (r: Outcome<Usuario>)
      requires Valid()
      modifies this
      ensures var d := DatosUsuario(old(correosList), lines, pos); r == d.outcome && correosList == d.correos
      ensures Valid()
    {
      var nombre :- VerificarNombreApellido(lines, pos);
      var apellidos :- VerificarNombreApellido(lines, nombre.next);
      var email :- VerificarCorreo(lines, apellidos.next);
      var contrasenya :- VerificarContrasenya(lines, email.next);
      var entrada :- VerificarIdJugadora(lines, contrasenya.next);
      var idJugadora :- Unbox(Accepted(entrada.value, entrada.next));
      var end :- Discard(lines, idJugadora.next);
      r := Accepted(Usuario(0, nombre.value, apellidos.value, email.value, contrasenya.value, idJugadora.value), end.next);
    }

    /** actualizarUsuario: the id read before the form replaces the form's
        id; every other field is the form's. */
    method ActualizarUsuario(id: int, lines: seq<string>, pos: nat) returns (r: Outcome<Usuario>)
      requires Valid()
      modifies this
      ensures var d := DatosUsuario(old(correosList), lines, pos);
        && correosList == d.correos
        && (r.Accepted? <==> d.outcome.Accepted?)
        && (r.Accepted? ==> r.value.idUsuario == id && r.value.(idUsuario := 0) == d.outcome.value
                            && r.next == d.outcome.next)
        && (!r.Accepted? ==> r == d.outcome)
      ensures Valid()
    {
      var u := PreguntarDatosUsuario(lines, pos);
      if !u.Accepted? {
        return u;
      }
      r := Accepted(u.value.(idUsuario := id), u.next);
    }
  }
}
