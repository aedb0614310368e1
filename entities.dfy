/**
 * The club's records as the application reads them from its MySQL
 * database, and the calendar values they carry.
 */
module Entities {
  import opened Wrappers
  import opened JavaText

  /** A calendar day, as the number of days since 1970-01-01 (a SQL `DATE`). */
  type Day = int

  /** A point in time, in milliseconds since the epoch (`Date.getTime()`). */
  type Instant = int

  const MsPerMinute: int := 60_000
  const MsPerHour: int := 3_600_000
  const MsPerDay: int := 86_400_000

  /** The instant a SQL `DATE` stands for once read into a `java.util.Date`: its midnight. */
  function Midnight(d: Day): (t: Instant)
    ensures t % MsPerDay == 0 && t / MsPerDay == d
  {
    d * MsPerDay
  }

  /** The calendar day an instant falls on. */
  function DayOf(t: Instant): (d: Day)
    ensures Midnight(d) <= t < Midnight(d + 1)
  {
    t / MsPerDay
  }

  /** Minutes since midnight of an instant (`HOUR_OF_DAY * 60 + MINUTE`). */
  function MinuteOfDay(t: Instant): (m: int)
    ensures 0 <= m < 24 * 60
  {
    (t % MsPerDay) / MsPerMinute
  }

  /** A date of the civil calendar, as a `Calendar` reports its fields. */
  datatype CivilDate = CivilDate(year: int, month: int, day: int)

  predicate IsLeapYear(y: int) {
    y % 4 == 0 && (y % 100 != 0 || y % 400 == 0)
  }

  function DaysInMonth(y: int, m: int): (n: int)
    requires 1 <= m <= 12
    ensures 28 <= n <= 31
  {
    if m == 2 then (if IsLeapYear(y) then 29 else 28)
    else if m == 4 || m == 6 || m == 9 || m == 11 then 30
    else 31
  }

  predicate ValidDate(d: CivilDate) {
    1 <= d.month <= 12 && 1 <= d.day <= DaysInMonth(d.year, d.month)
  }

  /** A date a `Calendar` can hold. */
  type Fecha = d: CivilDate | ValidDate(d) witness CivilDate(1970, 1, 1)

  /** Days in the months of year `y` before month `m`. */
  function DaysBeforeMonth(y: int, m: int): (n: int)
    requires 1 <= m <= 13
    ensures 0 <= n <= 31 * (m - 1)
    decreases m
  {
    if m == 1 then 0 else DaysBeforeMonth(y, m - 1) + DaysInMonth(y, m - 1)
  }

  /** `Calendar.DAY_OF_YEAR`: 1 on January 1st. */
  function DayOfYear(d: CivilDate): (n: int)
    requires ValidDate(d)
    ensures 1 <= n <= 366
  {
    DaysBeforeMonth(d.year, d.month) + d.day
  }

  /** Leap years from year 1 up to year `y` (counted backwards below 1). */
  function LeapsUpTo(y: int): int {
    y / 4 - y / 100 + y / 400
  }

  /** The day number (days since 1970-01-01) of a date of the proleptic Gregorian calendar. */
  function DayNumber(d: Fecha): (n: Day) {
    365 * (d.year - 1970) + (LeapsUpTo(d.year - 1) - LeapsUpTo(1969)) + DayOfYear(d) - 1
  }

  /** The epoch is day 0; 2000-03-01, after a leap day, is day 11017. */
  lemma DayNumberExamples()
    ensures DayNumber(CivilDate(1970, 1, 1)) == 0
    ensures DayNumber(CivilDate(2000, 3, 1)) == 11017
  {
    assert DayOfYear(CivilDate(2000, 3, 1)) == 61;
  }

  /** `Reserva`: one booking of a facility by a member for a day and a start hour ("HH:MM"). */
  datatype Reserva = Reserva(
    idReserva: int,
    fecha: Day,
    hora: string,
    idInstalacion: int,
    numeroSocio: string,
    idEmpleado: int)

  /**
   * `Instalacion`: a bookable facility. Its opening and closing hours are
   * "HH:MM" strings that may be missing; `duracion` is the slot length in minutes.
   */
  datatype Instalacion = Instalacion(
    idInstalacion: int,
    tipo: Option<string>,
    nombre: Option<string>,
    capacidad: int,
    duracion: Int32,
    horaIni: Option<string>,
    horaFin: Option<string>,
    disponibilidad: Option<string>,
    idEmpleado: int)

  /** `Socio`: a club member and the personal data the profile screen edits. */
  datatype Socio = Socio(
    numeroSocio: Option<string>,
    nombre: Option<string>,
    apellidos: Option<string>,
    telefono: Option<string>,
    dni: Option<string>,
    email: Option<string>,
    fechaNacimiento: Option<Fecha>,
    foto: Option<seq<bv8>>,
    password: Option<string>)

  /** `Evento`: a club event held on a day. */
  datatype Evento = Evento(idEvento: int, nombre: Option<string>, fecha: Day)

  /** How a database call ends: its success callback with a value, or its error callback with the exception's message. */
  datatype Outcome<T> = OnResult(value: T) | OnError(message: string)

  /** `MySQLConnection.getConnectionAsync`: a connection, or the `SQLException` message when none could be opened. */
  datatype Connection = Connected | ConnectionFailed(message: string)
}
