/** The three enums of the application, with Enum.name() and Enum.valueOf()
    (valueOf's IllegalArgumentException is None). */
module Enums {
  import opened Chars

  /** es.cheste.enums.PosicionJugadora */
  datatype Posicion = Colocadora | Opuesto | Central | Libero | Atacante
  {
    function Name(): string
    {
      match this
      case Colocadora => "COLOCADORA"
      case Opuesto => "OPUESTO"
      case Central => "CENTRAL"
      case Libero => "LIBERO"
      case Atacante => "ATACANTE"
    }
  }

  function PosicionOf(s: string): (r: Option<Posicion>)
    ensures r.Some? ==> r.value.Name() == s
    ensures r.None? ==> forall p: Posicion :: p.Name() != s
  {
    if s == "COLOCADORA" then Some(Colocadora)
    else if s == "OPUESTO" then Some(Opuesto)
    else if s == "CENTRAL" then Some(Central)
    else if s == "LIBERO" then Some(Libero)
    else if s == "ATACANTE" then Some(Atacante)
    else None
  }

  /** es.cheste.enums.EstadoJugadora */
  datatype Estado = Activa | Sustituida | Lesionada | Expulsada | Titular | Reserva | Inactiva
  {
    function Name(): string
    {
      match this
      case Activa => "ACTIVA"
      case Sustituida => "SUSTITUIDA"
      case Lesionada => "LESIONADA"
      case Expulsada => "EXPULSADA"
      case Titular => "TITULAR"
      case Reserva => "RESERVA"
      case Inactiva => "INACTIVA"
    }
  }

  function EstadoOf(s: string): (r: Option<Estado>)
    ensures r.Some? ==> r.value.Name() == s
    ensures r.None? ==> forall e: Estado :: e.Name() != s
  {
    if s == "ACTIVA" then Some(Activa)
    else if s == "SUSTITUIDA" then Some(Sustituida)
    else if s == "LESIONADA" then Some(Lesionada)
    else if s == "EXPULSADA" then Some(Expulsada)
    else if s == "TITULAR" then Some(Titular)
    else if s == "RESERVA" then Some(Reserva)
    else if s == "INACTIVA" then Some(Inactiva)
    else None
  }

  /** es.cheste.enums.FrecuenciaInteraccion */
  datatype Frecuencia = Diario | Semanal | Mensual | Anual
  {
    function Name(): string
    {
      match this
      case Diario => "DIARIO"
      case Semanal => "SEMANAL"
      case Mensual => "MENSUAL"
      case Anual => "ANUAL"
    }
  }

  function FrecuenciaOf(s: string): (r: Option<Frecuencia>)
    ensures r.Some? ==> r.value.Name() == s
    ensures r.None? ==> forall f: Frecuencia :: f.Name() != s
  {
    if s == "DIARIO" then Some(Diario)
    else if s == "SEMANAL" then Some(Semanal)
    else if s == "MENSUAL" then Some(Mensual)
    else if s == "ANUAL" then Some(Anual)
    else None
  }

  /** valueOf(name()) is the identity on each enum. */
  lemma ValueOfName(p: Posicion, e: Estado, f: Frecuencia)
    ensures PosicionOf(p.Name()) == Some(p)
    ensures EstadoOf(e.Name()) == Some(e)
    ensures FrecuenciaOf(f.Name()) == Some(f)
  {
  }

  /** Every constant's name is in upper case, so upper-casing the input
      before valueOf loses none of them. */
  lemma PosicionNameUpper(p: Posicion)
    ensures ToUpper(p.Name()) == p.Name()
  {
    match p
    case Colocadora => UpperFixed(p.Name());
    case Opuesto => UpperFixed(p.Name());
    case Central => UpperFixed(p.Name());
    case Libero => UpperFixed(p.Name());
    case Atacante => UpperFixed(p.Name());
  }

  lemma EstadoNameUpper(e: Estado)
    ensures ToUpper(e.Name()) == e.Name()
  {
    match e
    case Activa => UpperFixed(e.Name());
    case Sustituida => UpperFixed(e.Name());
    case Lesionada => UpperFixed(e.Name());
    case Expulsada => UpperFixed(e.Name());
    case Titular => UpperFixed(e.Name());
    case Reserva => UpperFixed(e.Name());
    case Inactiva => UpperFixed(e.Name());
  }

  lemma FrecuenciaNameUpper(f: Frecuencia)
    ensures ToUpper(f.Name()) == f.Name()
  {
    match f
    case Diario => UpperFixed(f.Name());
    case Semanal => UpperFixed(f.Name());
    case Mensual => UpperFixed(f.Name());
    case Anual => UpperFixed(f.Name());
  }

  lemma {:induction false} UpperFixed(s: string)
    requires forall i :: 0 <= i < |s| ==> !IsLower(s[i])
    ensures ToUpper(s) == s
  {
    if s != [] {
      UpperFixed(s[1..]);
    }
  }
}
