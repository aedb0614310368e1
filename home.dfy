/**
 * `HomeFragment`: the member's age category on the member card, and the
 * list of coming club events.
 */
module Home {
  import opened Wrappers
  import opened Entities
  import opened Seqs

  // ------------------------------------------------------ age category

  datatype Categoria = Bebe | Infantil | Juvenil | Adulto

  /** The text the card shows for a category. */
  function Nombre(c: Categoria): string {
    match c
    case Bebe => "Bebe"
    case Infantil => "Infantil"
    case Juvenil => "Juvenil"
    case Adulto => "Adulto"
  }

  /** `getCategoriaEdad`'s if-chain on an age in years. */
  function CategoriaEdad(edad: int): (c: Categoria)
    ensures EnRango(c, edad)
  {
    if edad <= 2 then Bebe
    else if edad <= 12 then Infantil
    else if edad <= 18 then Juvenil
    else Adulto
  }

  /** The ages each category stands for. */
  predicate EnRango(c: Categoria, edad: int) {
    match c
    case Bebe => edad <= 2
    case Infantil => 3 <= edad <= 12
    case Juvenil => 13 <= edad <= 18
    case Adulto => 19 <= edad
  }

  /** Every age gets the one category whose range holds it. */
  lemma CategoriaEdadRango(edad: int, c: Categoria)
    ensures CategoriaEdad(edad) == c <==> EnRango(c, edad)
  {
  }

  /** Position of a category from youngest to oldest. */
  function Rango(c: Categoria): nat {
    match c
    case Bebe => 0
    case Infantil => 1
    case Juvenil => 2
    case Adulto => 3
  }

  /** An older member never gets a younger category. */
  lemma CategoriaEdadMonotona(a: int, b: int)
    requires a <= b
    ensures Rango(CategoriaEdad(a)) <= Rango(CategoriaEdad(b))
  {
  }

  // ------------------------------------------------------------- ages

  /** Two years with the same leap status have the same months before month `m`. */
  lemma {:induction false} DaysBeforeMonthSameLeap(y1: int, y2: int, m: int)
    requires 1 <= m <= 13 && IsLeapYear(y1) == IsLeapYear(y2)
    ensures DaysBeforeMonth(y1, m) == DaysBeforeMonth(y2, m)
    decreases m
  {
    if m > 1 {
      DaysBeforeMonthSameLeap(y1, y2, m - 1);
    }
  }

  /** A whole month lies between the start of an earlier month and the start of a later one. */
  lemma {:induction false} DaysBeforeMonthGrows(y: int, m1: int, m2: int)
    requires 1 <= m1 < m2 <= 13
    ensures DaysBeforeMonth(y, m1) + DaysInMonth(y, m1) <= DaysBeforeMonth(y, m2)
    decreases m2
  {
    if m2 > m1 + 1 {
      DaysBeforeMonthGrows(y, m1, m2 - 1);
    }
  }

  /** Month and day of `a` come before those of `b` in the calendar year. */
  predicate AntesEnElAnio(a: CivilDate, b: CivilDate) {
    a.month < b.month || (a.month == b.month && a.day < b.day)
  }

  /** Between years of the same leap status DAY_OF_YEAR orders dates as month and day do. */
  lemma DayOfYearOrder(a: Fecha, b: Fecha)
    requires IsLeapYear(a.year) == IsLeapYear(b.year)
    ensures DayOfYear(a) < DayOfYear(b) <==> AntesEnElAnio(a, b)
  {
    DaysBeforeMonthSameLeap(a.year, b.year, a.month);
    DaysBeforeMonthSameLeap(a.year, b.year, b.month);
    if a.month < b.month {
      DaysBeforeMonthGrows(a.year, a.month, b.month);
    } else if b.month < a.month {
      DaysBeforeMonthGrows(b.year, b.month, a.month);
    }
  }

  /**
   * `calcularEdad` as written: the year difference, less one when today's
   * DAY_OF_YEAR is below the birth date's.
   */
  function CalcularEdad(nacimiento: Fecha, hoy: Fecha): (edad: int)
    ensures hoy.year - nacimiento.year - 1 <= edad <= hoy.year - nacimiento.year
  {
    hoy.year - nacimiento.year - (if DayOfYear(hoy) < DayOfYear(nacimiento) then 1 else 0)
  }

  /** The age in completed years: one less than the year difference while this year's birthday is still ahead. */
  function EdadCumplida(nacimiento: CivilDate, hoy: CivilDate): int {
    hoy.year - nacimiento.year - (if AntesEnElAnio(hoy, nacimiento) then 1 else 0)
  }

  /** Calendar order on (year, month, day). */
  predicate CivilLe(a: CivilDate, b: CivilDate) {
    a.year < b.year || (a.year == b.year && (a.month < b.month || (a.month == b.month && a.day <= b.day)))
  }

  /** The `k`-th birthday (a February 29th birthday falls on March 1st in common years, as this order says). */
  function Aniversario(nacimiento: CivilDate, k: int): CivilDate {
    CivilDate(nacimiento.year + k, nacimiento.month, nacimiento.day)
  }

  /** The age is the number `k` whose `k`-th birthday has come and whose `k+1`-th has not. */
  lemma EdadCumplidaCuentaAniversarios(nacimiento: CivilDate, hoy: CivilDate, k: int)
    ensures k == EdadCumplida(nacimiento, hoy) <==>
            CivilLe(Aniversario(nacimiento, k), hoy) && !CivilLe(Aniversario(nacimiento, k + 1), hoy)
  {
  }

  /** When both years have the same leap status the code computes the age in completed years. */
  lemma CalcularEdadMismoTipoDeAnio(nacimiento: Fecha, hoy: Fecha)
    requires IsLeapYear(nacimiento.year) == IsLeapYear(hoy.year)
    ensures CalcularEdad(nacimiento, hoy) == EdadCumplida(nacimiento, hoy)
  {
    DayOfYearOrder(hoy, nacimiento);
  }

  /**
   * Across a leap and a common year DAY_OF_YEAR shifts by one after
   * February: a member born on 2012-03-01 is 12 on their 13th birthday, and
   * one born on 2013-03-01 is already 11 on 2024-02-29.
   */
  lemma CalcularEdadBisiesto()
    ensures CalcularEdad(CivilDate(2012, 3, 1), CivilDate(2025, 3, 1)) == 12
    ensures EdadCumplida(CivilDate(2012, 3, 1), CivilDate(2025, 3, 1)) == 13
    ensures CalcularEdad(CivilDate(2013, 3, 1), CivilDate(2024, 2, 29)) == 11
    ensures EdadCumplida(CivilDate(2013, 3, 1), CivilDate(2024, 2, 29)) == 10
  {
    assert DayOfYear(CivilDate(2012, 3, 1)) == 61;
    assert DayOfYear(CivilDate(2025, 3, 1)) == 60;
    assert DayOfYear(CivilDate(2013, 3, 1)) == 60;
    assert DayOfYear(CivilDate(2024, 2, 29)) == 60;
  }

  /** The category the card shows, on the age in completed years. */
  function CategoriaSocio(nacimiento: Fecha, hoy: Fecha): (c: Categoria)
    ensures EnRango(c, EdadCumplida(nacimiento, hoy))
  {
    CategoriaEdad(EdadCumplida(nacimiento, hoy))
  }

  // ---------------------------------------------------------- events

  /** `evento.getFecha().compareTo(today) >= 0`: the event's midnight is not before now. */
  predicate EsFuturo(e: Evento, now: Instant) {
    Midnight(e.fecha) >= now
  }

  /** An event is listed when its day is after today; an event of today only at the stroke of midnight. */
  lemma EsFuturoSegunDia(e: Evento, now: Instant)
    ensures EsFuturo(e, now) <==> e.fecha > DayOf(now) || Midnight(e.fecha) == now
  {
  }

  /** `hayEventosFuturos`: the loop that returns on the first event not before now. */
  function HayEventosFuturos(eventos: seq<Evento>, now: Instant): (hay: bool)
    ensures hay <==> exists e :: e in eventos && EsFuturo(e, now)
    decreases |eventos|
  {
    if |eventos| == 0 then false
    else
      assert eventos == [eventos[0]] + eventos[1..];
      EsFuturo(eventos[0], now) || HayEventosFuturos(eventos[1..], now)
  }

  /** What the events panel shows. */
  datatype PanelEventos = NoHayEventos | Eventos(mostrados: seq<Evento>)

  /**
   * The events observer: the "no events" message for a null or empty list
   * or one with no coming event; otherwise a view per coming event, in
   * list order.
   */
  function PanelDeEventos(eventos: Option<seq<Evento>>, now: Instant): PanelEventos {
    if eventos.None? || |eventos.value| == 0 || !HayEventosFuturos(eventos.value, now) then NoHayEventos
    else Eventos(Filter(eventos.value, (e: Evento) => EsFuturo(e, now)))
  }

  /** The message shows exactly when no event is coming; otherwise the views are exactly the coming events, at least one. */
  lemma PanelDeEventosSpec(eventos: Option<seq<Evento>>, now: Instant)
    ensures PanelDeEventos(eventos, now) == NoHayEventos <==>
            eventos.None? || forall e :: e in eventos.value ==> !EsFuturo(e, now)
    ensures PanelDeEventos(eventos, now).Eventos? ==>
            |PanelDeEventos(eventos, now).mostrados| > 0 &&
            forall e :: e in PanelDeEventos(eventos, now).mostrados <==> e in eventos.value && EsFuturo(e, now)
  {
    if eventos.Some? {
      var p := (e: Evento) => EsFuturo(e, now);
      forall e ensures e in Filter(eventos.value, p) <==> e in eventos.value && EsFuturo(e, now) {
        FilterMembership(eventos.value, p, e);
      }
      if HayEventosFuturos(eventos.value, now) {
        var e :| e in eventos.value && EsFuturo(e, now);
        assert e in Filter(eventos.value, p);
      }
    }
  }
}
