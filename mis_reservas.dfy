/**
 * `MisReservasFragment`: the member's list of bookings. Bookings on a later
 * day, and bookings today whose hour is still ahead, are shown as cards
 * sorted by day; everything else is hidden.
 */
module MisReservas {
  import opened Wrappers
  import opened JavaText
  import opened Entities
  import opened Seqs
  import ReservasFragment

  // ----------------------------------------------------------- same day

  /** `isSameDay`: both instants fall on one calendar day (same YEAR and DAY_OF_YEAR). */
  predicate IsSameDay(a: Instant, b: Instant) {
    DayOf(a) == DayOf(b)
  }

  /** A booking's date (its midnight) is after now exactly when its day is after today, and on today's day exactly when it is today. */
  lemma FechaFrenteAhora(d: Day, now: Instant)
    ensures Midnight(d) > now <==> d > DayOf(now)
    ensures IsSameDay(Midnight(d), now) <==> d == DayOf(now)
  {
  }

  // ------------------------------------------------- the active filter

  /** The bare-hour rewrite: an hour without ':' that parses as a number `h` becomes `%02d:00` of `h`. */
  function HoraCompleta(hora: string): (r: string)
    ensures ':' in hora ==> r == hora
  {
    if ':' in hora then hora
    else match ParseInt(hora)
      case Some(h) => Format02d(h) + ":00"
      case None => hora
  }

  /**
   * The hour test for a booking made for today: its hour and minute, read
   * from the first two `:`-pieces, come strictly after the current hour
   * and minute. An empty hour, fewer than two pieces or a piece that does
   * not parse (the exception the loop catches) mean the booking is hidden.
   */
  predicate HoraPosterior(hora: string, now: Instant) {
    hora != "" &&
    var partes := Split(HoraCompleta(hora), ':');
    |partes| >= 2 &&
    var h := ParseInt(partes[0]);
    var m := ParseInt(partes[1]);
    h.Some? && m.Some? &&
    var ahora := MinuteOfDay(now);
    h.value > ahora / 60 || (h.value == ahora / 60 && m.value > ahora % 60)
  }

  /** The loop body's decision for one booking. */
  predicate SigueActiva(r: Reserva, now: Instant) {
    if Midnight(r.fecha) > now then true
    else if IsSameDay(Midnight(r.fecha), now) then HoraPosterior(r.hora, now)
    else false
  }

  function Activas(reservas: seq<Reserva>, now: Instant): seq<Reserva> {
    Filter(reservas, (r: Reserva) => SigueActiva(r, now))
  }

  /** Later days are kept, earlier days dropped, and today's bookings are decided by their hour. */
  lemma ActivaSegunDia(r: Reserva, now: Instant)
    ensures r.fecha > DayOf(now) ==> SigueActiva(r, now)
    ensures r.fecha < DayOf(now) ==> !SigueActiva(r, now)
    ensures r.fecha == DayOf(now) ==> (SigueActiva(r, now) <==> HoraPosterior(r.hora, now))
  {
    FechaFrenteAhora(r.fecha, now);
  }

  /** On a "HH:MM" hour the test is "strictly after the current hour and minute". */
  lemma HoraPosteriorHHMM(h: int, m: int, now: Instant)
    requires IsInt32(h) && IsInt32(m)
    ensures var ahora := MinuteOfDay(now);
      HoraPosterior(Format02d(h) + ":" + Format02d(m), now) <==>
      h > ahora / 60 || (h == ahora / 60 && m > ahora % 60)
  {
    var a := Format02d(h);
    var b := Format02d(m);
    Format02dHasNoSeparator(h, ':');
    Format02dHasNoSeparator(m, ':');
    assert a + ":" + b == a + [':'] + b;
    assert (a + [':'] + b)[|a|] == ':';
    SplitTwo(a, b, ':');
    ParseFormat02d(h);
    ParseFormat02d(m);
  }

  /** With a minute below 60 that is "the booked minute of the day is after the current one". */
  lemma HoraPosteriorMinutoDelDia(h: int, m: int, now: Instant)
    requires IsInt32(h) && 0 <= m < 60
    ensures HoraPosterior(Format02d(h) + ":" + Format02d(m), now) <==> h * 60 + m > MinuteOfDay(now)
  {
    HoraPosteriorHHMM(h, m, now);
  }

  /** A bare "H" is read as "H:00": the booking is kept when its hour is after the current hour. */
  lemma HoraPosteriorSinMinutos(hora: string, h: int, now: Instant)
    requires ':' !in hora && ParseInt(hora) == Some(h)
    ensures HoraPosterior(hora, now) <==> h > MinuteOfDay(now) / 60
  {
    assert Format02d(0) == "00";
    assert HoraCompleta(hora) == Format02d(h) + ":" + Format02d(0);
    HoraPosteriorHHMM(h, 0, now);
  }

  /** An hour with no ':' that does not parse is never after now. */
  lemma HoraPosteriorIlegible(hora: string, now: Instant)
    requires ':' !in hora && ParseInt(hora).None?
    ensures !HoraPosterior(hora, now)
  {
    assert Split(HoraCompleta(hora), ':') == [hora];
  }

  /**
   * The hours the booking screen writes, `convertirMinutosAHora` of a slot
   * start, keep a booking for today visible until the minute it starts.
   */
  lemma ReservaDeHoyVisible(r: Reserva, inicio: int, now: Instant)
    requires IsInt32(inicio) && inicio >= 0
    requires r.fecha == DayOf(now) && r.hora == ReservasFragment.MinutosAHora(inicio)
    ensures SigueActiva(r, now) <==> inicio > MinuteOfDay(now)
  {
    ActivaSegunDia(r, now);
    QuotBetween(inicio, 60);
    assert 60 * Quot(inicio, 60) + Rem(inicio, 60) == inicio;
    HoraPosteriorMinutoDelDia(Quot(inicio, 60), Rem(inicio, 60), now);
  }

  lemma ActivasStep(reservas: seq<Reserva>, i: int, now: Instant)
    requires 0 <= i < |reservas|
    ensures Activas(reservas[..i + 1], now) ==
            Activas(reservas[..i], now) + (if SigueActiva(reservas[i], now) then [reservas[i]] else [])
  {
    var p := (r: Reserva) => SigueActiva(r, now);
    assert reservas[..i + 1] == reservas[..i] + [reservas[i]];
    FilterConcat(reservas[..i], [reservas[i]], p);
    assert [reservas[i]][1..] == [];
  }

  /** The first loop of `mostrarReservas`: the active bookings, in input order. */
  method FiltrarActivas(reservas: seq<Reserva>, now: Instant) returns (reservasActivas: seq<Reserva>)
    ensures reservasActivas == Activas(reservas, now)
  {
    reservasActivas := [];
    for i := 0 to |reservas|
      invariant reservasActivas == Activas(reservas[..i], now)
    {
      ActivasStep(reservas, i, now);
      if SigueActiva(reservas[i], now) {
        reservasActivas := reservasActivas + [reservas[i]];
      }
    }
    assert reservas[..|reservas|] == reservas;
  }

  /** A booking is listed exactly when it was given and is active. */
  lemma ActivasMembership(reservas: seq<Reserva>, now: Instant, r: Reserva)
    ensures r in Activas(reservas, now) <==> r in reservas && SigueActiva(r, now)
  {
    FilterMembership(reservas, (x: Reserva) => SigueActiva(x, now), r);
  }

  // ----------------------------------------------------------- sorting

  /** `Comparator.comparing(Reserva::getFecha)`: earlier day first. */
  function FechaLe(a: Reserva, b: Reserva): bool {
    a.fecha <= b.fecha
  }

  /** `List.sort` is stable; so is the insertion sort that stands for it. */
  function PorFecha(reservas: seq<Reserva>): seq<Reserva> {
    SortBy(reservas, FechaLe)
  }

  lemma FechaLeIsTotalPreorder(s: seq<Reserva>)
    ensures TotalOn(s, FechaLe) && TransitiveOn(s, FechaLe)
  {
  }

  /** The sorted list holds the same bookings, as often as given, by ascending day. */
  lemma PorFechaOrdenada(reservas: seq<Reserva>)
    ensures multiset(PorFecha(reservas)) == multiset(reservas)
    ensures var s := PorFecha(reservas);
      forall i, j :: 0 <= i < j < |s| ==> s[i].fecha <= s[j].fecha
  {
    var s := PorFecha(reservas);
    FechaLeIsTotalPreorder(reservas);
    SortBySorted(reservas, FechaLe, reservas);
    forall i, j | 0 <= i < j < |s| ensures s[i].fecha <= s[j].fecha {
      assert FechaLe(s[i], s[j]);
    }
  }

  /** Bookings of one day keep their input order. */
  lemma PorFechaEstable(reservas: seq<Reserva>, d: Day)
    ensures Filter(PorFecha(reservas), (r: Reserva) => r.fecha == d) ==
            Filter(reservas, (r: Reserva) => r.fecha == d)
  {
    // Any booking of day `d` serves as the key of its class.
    var key := Reserva(0, d, "", 0, "", 0);
    var universe := reservas + [key];
    FechaLeIsTotalPreorder(universe);
    SortByStable(reservas, FechaLe, (r: Reserva) => r.fecha == d, key, universe);
  }

  // ------------------------------------------------------------ the cards

  /** The hour shown on a card, or `None` for the `NumberFormatException` `crearTarjetaReserva` does not catch. */
  function HoraVisible(hora: string): (r: Option<string>)
    ensures r.None? ==> ':' in hora
  {
    if hora == "" then Some(hora)
    else if ':' !in hora || |Split(hora, ':')| < 2 then
      match ParseInt(hora)
        case Some(h) => Some(Format02d(h) + ":00")
        case None => Some(hora)
    else
      var partes := Split(hora, ':');
      match (ParseInt(partes[0]), ParseInt(partes[1]))
        case (Some(h), Some(m)) => Some(Format02d(h) + ":" + Format02d(m))
        case _ => None
  }

  /** A "HH:MM" hour is shown as it is. */
  lemma HoraVisibleHHMM(h: int, m: int)
    requires IsInt32(h) && IsInt32(m)
    ensures HoraVisible(Format02d(h) + ":" + Format02d(m)) == Some(Format02d(h) + ":" + Format02d(m))
  {
    var a := Format02d(h);
    var b := Format02d(m);
    Format02dHasNoSeparator(h, ':');
    Format02dHasNoSeparator(m, ':');
    assert a + ":" + b == a + [':'] + b;
    assert (a + [':'] + b)[|a|] == ':';
    SplitTwo(a, b, ':');
    ParseFormat02d(h);
    ParseFormat02d(m);
  }

  /** A bare "H" is shown as `%02d:00`. */
  lemma HoraVisibleSinMinutos(hora: string, h: int)
    requires ':' !in hora && ParseInt(hora) == Some(h)
    ensures HoraVisible(hora) == Some(Format02d(h) + ":00")
  {
  }

  /** Showing a shown hour again changes nothing. */
  lemma HoraVisibleIdempotent(hora: string)
    requires HoraVisible(hora).Some?
    ensures HoraVisible(HoraVisible(hora).value) == HoraVisible(hora)
  {
    assert Format02d(0) == "00";
    if hora == "" {
    } else if ':' !in hora || |Split(hora, ':')| < 2 {
      match ParseInt(hora)
      case Some(h) =>
        assert Format02d(h) + ":00" == Format02d(h) + ":" + Format02d(0);
        HoraVisibleHHMM(h, 0);
      case None =>
    } else {
      var partes := Split(hora, ':');
      HoraVisibleHHMM(ParseInt(partes[0]).value, ParseInt(partes[1]).value);
    }
  }

  /** The picture on a card. */
  datatype Imagen = Padel | Futbol | Salon | LogoClub

  /** `obtenerImagenSegunInstalacion`: a switch on Java's `instalacionId % 5`. */
  function ImagenDeInstalacion(instalacionId: int): Imagen {
    match Rem(instalacionId, 5)
      case 0 => Padel
      case 1 => Padel
      case 3 => Futbol
      case 4 => Salon
      case _ => LogoClub
  }

  /** For ids from 0 up the picture follows the id's class modulo 5. */
  lemma ImagenNoNegativa(instalacionId: int)
    requires instalacionId >= 0
    ensures var img := ImagenDeInstalacion(instalacionId);
      (img == Padel <==> instalacionId % 5 <= 1) &&
      (img == LogoClub <==> instalacionId % 5 == 2) &&
      (img == Futbol <==> instalacionId % 5 == 3) &&
      (img == Salon <==> instalacionId % 5 == 4)
  {
    assert Quot(instalacionId, 5) == instalacionId / 5;
  }

  /** A negative id's remainder is negative unless it is a multiple of 5: only those get padel, the rest the club logo. */
  lemma ImagenNegativa(instalacionId: int)
    requires instalacionId < 0
    ensures var img := ImagenDeInstalacion(instalacionId);
      (img == Padel <==> instalacionId % 5 == 0) && (img != Padel ==> img == LogoClub)
  {
    var q := (-instalacionId) / 5;
    assert Quot(instalacionId, 5) == -q;
    assert Rem(instalacionId, 5) == instalacionId + 5 * q;
    if Rem(instalacionId, 5) == 0 {
      assert instalacionId == 5 * (-q);
    } else {
      assert instalacionId % 5 == 5 + Rem(instalacionId, 5) by {
        assert instalacionId == 5 * (-q - 1) + (5 + Rem(instalacionId, 5));
      }
    }
  }

  /** What a card shows; the facility name is fetched apart and is not part of this model. */
  datatype Tarjeta = Tarjeta(imagen: Imagen, idInstalacion: int, fecha: Day, hora: string)

  /** `crearTarjetaReserva`, or `None` when it throws. */
  function CrearTarjeta(r: Reserva): (t: Option<Tarjeta>)
    ensures t.Some? <==> HoraVisible(r.hora).Some?
    ensures t.Some? ==> t.value.fecha == r.fecha && t.value.idInstalacion == r.idInstalacion
    ensures t.Some? ==> Some(t.value.hora) == HoraVisible(r.hora)
  {
    match HoraVisible(r.hora)
      case Some(hora) => Some(Tarjeta(ImagenDeInstalacion(r.idInstalacion), r.idInstalacion, r.fecha, hora))
      case None => None
  }

  /**
   * What the list shows: the "no reservations" message, one card per
   * booking, or the cards added before a card's hour threw.
   */
  datatype Vista = SinReservas | Tarjetas(tarjetas: seq<Tarjeta>) | Interrumpida(tarjetas: seq<Tarjeta>)

  /** `tarjetas` are the cards of the first `|tarjetas|` bookings. */
  ghost predicate CardsOf(tarjetas: seq<Tarjeta>, reservas: seq<Reserva>) {
    |tarjetas| <= |reservas| &&
    forall k :: 0 <= k < |tarjetas| ==> CrearTarjeta(reservas[k]) == Some(tarjetas[k])
  }

  /** The second loop of `mostrarReservas`: a card per booking, until one throws. */
  method AnadirTarjetas(reservas: seq<Reserva>) returns (vista: Vista)
    ensures vista.Tarjetas? || vista.Interrumpida?
    ensures CardsOf(vista.tarjetas, reservas)
    ensures vista.Tarjetas? <==> forall k :: 0 <= k < |reservas| ==> CrearTarjeta(reservas[k]).Some?
    ensures vista.Tarjetas? ==> |vista.tarjetas| == |reservas|
    ensures vista.Interrumpida? ==> |vista.tarjetas| < |reservas| && CrearTarjeta(reservas[|vista.tarjetas|]).None?
  {
    var tarjetas: seq<Tarjeta> := [];
    for i := 0 to |reservas|
      invariant |tarjetas| == i && CardsOf(tarjetas, reservas)
    {
      var t := CrearTarjeta(reservas[i]);
      if t.None? {
        return Interrumpida(tarjetas);
      }
      tarjetas := tarjetas + [t.value];
    }
    return Tarjetas(tarjetas);
  }

  /**
   * `mostrarReservas`: the active bookings, sorted by day, as cards; the
   * "no reservations" message when none is active.
   */
  method MostrarReservas(reservas: seq<Reserva>, now: Instant) returns (vista: Vista)
    ensures Activas(reservas, now) == [] <==> vista == SinReservas
    ensures vista != SinReservas ==> CardsOf(vista.tarjetas, PorFecha(Activas(reservas, now)))
    ensures vista.Tarjetas? ==> |vista.tarjetas| == |Activas(reservas, now)|
    ensures vista.Interrumpida? ==>
      var ordenadas := PorFecha(Activas(reservas, now));
      |vista.tarjetas| < |ordenadas| && CrearTarjeta(ordenadas[|vista.tarjetas|]).None?
  {
    var reservasActivas := FiltrarActivas(reservas, now);
    if |reservasActivas| == 0 {
      return SinReservas;
    }
    reservasActivas := PorFecha(reservasActivas);
    vista := AnadirTarjetas(reservasActivas);
  }

  /** The list observer: nothing for a null list, the message for an empty one, `mostrarReservas` otherwise. */
  method AlRecibirReservas(reservas: Option<seq<Reserva>>, now: Instant) returns (vista: Option<Vista>)
    ensures reservas.None? <==> vista.None?
    ensures reservas == Some([]) ==> vista == Some(SinReservas)
    ensures reservas.Some? && vista.Some? && vista.value != SinReservas ==>
      CardsOf(vista.value.tarjetas, PorFecha(Activas(reservas.value, now)))
    ensures reservas.Some? ==> (vista == Some(SinReservas) <==> Activas(reservas.value, now) == [])
  {
    match reservas
    case None =>
      return None;
    case Some(rs) =>
      if |rs| == 0 {
        return Some(SinReservas);
      }
      var v := MostrarReservas(rs, now);
      return Some(v);
  }
}
