/**
 * The `reserva` table and the four statements `ReservaDao` runs against it,
 * executed synchronously on an in-memory copy of the table. A storage
 * failure is a parameter: `fault == Some(message)` stands for the
 * `SQLException` the statement would throw.
 */
module ReservaDao {
  import opened Wrappers
  import opened JavaText
  import opened Entities
  import opened Seqs

  /** One row of `reserva`; `id_empleado` is nullable. */
  datatype Row = Row(
    idReserva: int,
    fecha: Day,
    hora: string,
    idInstalacion: int,
    numeroSocio: string,
    idEmpleado: Option<int>)

  // -------------------------------------------------- hour normalisation

  /** A stored hour as `obtenerHorasReservadas` reports it: trimmed, then cut to five characters. */
  function NormalizeHora(hora: string): (r: string)
    ensures |r| <= 5
    ensures |r| > 0 ==> r[0] > ' '
  {
    var t := Trim(hora);
    if |t| > 5 then t[..5] else t
  }

  /**
   * However the database renders an "HH:MM" hour (with seconds, with
   * surrounding blanks), normalisation gives the "HH:MM" back.
   */
  lemma NormalizeHoraOfStored(lead: string, hhmm: string, rest: string)
    requires forall i :: 0 <= i < |lead| ==> lead[i] <= ' '
    requires |hhmm| == 5 && hhmm[0] > ' ' && hhmm[4] > ' '
    ensures NormalizeHora(lead + hhmm + rest) == hhmm
  {
    assert lead + hhmm + rest == lead + (hhmm + rest);
    assert (hhmm + rest)[0] == hhmm[0];
    TrimStartBlankPrefix(lead, hhmm + rest);
    TrimEndKeepsPrefix(hhmm, rest);
  }

  /**
   * Normalising twice is normalising once exactly when the normalised hour
   * does not end in a blank (a cut can expose an inner blank: "ab c d").
   */
  lemma NormalizeHoraIdempotent(hora: string)
    ensures var r := NormalizeHora(hora);
      NormalizeHora(r) == r <==> |r| == 0 || r[|r| - 1] > ' '
  {
    var r := NormalizeHora(hora);
    var t := Trim(hora);
    if |t| <= 5 {
      TrimOfTrimmed(r);
    } else if r[|r| - 1] > ' ' {
      TrimOfTrimmed(r);
    } else {
      assert TrimStart(r) == r;
      assert |TrimEnd(r)| < |r|;
    }
  }

  lemma NormalizeHoraNotIdempotent()
    ensures NormalizeHora("ab c d") == "ab c "
    ensures NormalizeHora(NormalizeHora("ab c d")) == "ab c"
  {
    assert TrimStart("ab c d") == "ab c d";
    assert TrimEnd("ab c d") == "ab c d";
    assert "ab c d"[..5] == "ab c ";
    assert TrimStart("ab c ") == "ab c ";
    assert "ab c "[..4] == "ab c";
    assert TrimEnd("ab c ") == TrimEnd("ab c") == "ab c";
  }

  // ------------------------------------------------------ query results

  /** `WHERE id_instalacion = ? AND fecha = ?` */
  predicate Books(r: Row, idInstalacion: int, fecha: Day) {
    r.idInstalacion == idInstalacion && r.fecha == fecha
  }

  function Matching(rows: seq<Row>, idInstalacion: int, fecha: Day): seq<Row> {
    Filter(rows, (r: Row) => Books(r, idInstalacion, fecha))
  }

  /** The hour of each row of a result set, normalised, in result-set order. */
  function Horas(resultSet: seq<Row>): (horas: seq<string>)
    ensures |horas| == |resultSet|
    decreases |resultSet|
  {
    if |resultSet| == 0 then [] else [NormalizeHora(resultSet[0].hora)] + Horas(resultSet[1..])
  }

  /** The `k`-th hour is the `k`-th row's, normalised. */
  lemma {:induction false} HorasAt(resultSet: seq<Row>, k: int)
    requires 0 <= k < |resultSet|
    ensures Horas(resultSet)[k] == NormalizeHora(resultSet[k].hora)
    decreases k
  {
    if k > 0 {
      HorasAt(resultSet[1..], k - 1);
    }
  }

  /** One more row of the result set adds its normalised hour at the end. */
  lemma HorasStep(resultSet: seq<Row>, i: int)
    requires 0 <= i < |resultSet|
    ensures Horas(resultSet[..i + 1]) == Horas(resultSet[..i]) + [NormalizeHora(resultSet[i].hora)]
  {
    var row := resultSet[i];
    var prefix := resultSet[..i];
    assert resultSet[..i + 1] == prefix + [row];
    HorasConcat(prefix, [row]);
    HorasSingle(row);
  }

  lemma HorasSingle(row: Row)
    ensures Horas([row]) == [NormalizeHora(row.hora)]
  {
    assert [row][1..] == [];
  }

  lemma {:induction false} HorasConcat(a: seq<Row>, b: seq<Row>)
    ensures Horas(a + b) == Horas(a) + Horas(b)
    decreases |a|
  {
    if |a| == 0 {
      assert a + b == b;
    } else {
      assert (a + b)[1..] == a[1..] + b;
      HorasConcat(a[1..], b);
    }
  }

  /** What `obtenerHorasReservadas` hands to `onResult` for a facility and day. */
  function HorasReservadas(rows: seq<Row>, idInstalacion: int, fecha: Day): seq<string> {
    Horas(Matching(rows, idInstalacion, fecha))
  }

  /** An hour is reported exactly when some row of that facility and day stores it. */
  lemma HorasReservadasMembership(rows: seq<Row>, idInstalacion: int, fecha: Day, h: string)
    ensures h in HorasReservadas(rows, idInstalacion, fecha) <==>
            exists r :: r in rows && Books(r, idInstalacion, fecha) && NormalizeHora(r.hora) == h
  {
    var m := Matching(rows, idInstalacion, fecha);
    var horas := Horas(m);
    if h in horas {
      var k :| 0 <= k < |horas| && horas[k] == h;
      HorasAt(m, k);
      FilterMembership(rows, (x: Row) => Books(x, idInstalacion, fecha), m[k]);
    }
    if exists r :: r in rows && Books(r, idInstalacion, fecha) && NormalizeHora(r.hora) == h {
      var r :| r in rows && Books(r, idInstalacion, fecha) && NormalizeHora(r.hora) == h;
      FilterMembership(rows, (x: Row) => Books(x, idInstalacion, fecha), r);
      var k :| 0 <= k < |m| && m[k] == r;
      HorasAt(m, k);
      assert horas[k] == h;
    }
  }

  /** A row added at the end adds its hour at the end of the list of its own facility and day, and nothing elsewhere. */
  lemma {:induction false} HorasReservadasAppend(rows: seq<Row>, r: Row, idInstalacion: int, fecha: Day)
    ensures HorasReservadas(rows + [r], idInstalacion, fecha) ==
            HorasReservadas(rows, idInstalacion, fecha) +
            (if Books(r, idInstalacion, fecha) then [NormalizeHora(r.hora)] else [])
  {
    var p := (x: Row) => Books(x, idInstalacion, fecha);
    var a := Matching(rows, idInstalacion, fecha);
    var b := Filter([r], p);
    assert Matching(rows + [r], idInstalacion, fecha) == a + b by {
      FilterConcat(rows, [r], p);
    }
    assert b == if Books(r, idInstalacion, fecha) then [r] else [];
    HorasConcat(a, b);
  }

  // ------------------------------------------------------- booking order

  /** `ORDER BY fecha DESC, hora ASC` */
  function SocioOrder(a: Row, b: Row): bool {
    a.fecha > b.fecha || (a.fecha == b.fecha && StringLe(a.hora, b.hora))
  }

  predicate OfSocio(r: Row, numeroSocio: string) {
    r.numeroSocio == numeroSocio
  }

  /** The result set of `getReservasBySocio`'s query. */
  function ReservasDeSocio(rows: seq<Row>, numeroSocio: string): seq<Row> {
    SortBy(Filter(rows, (r: Row) => OfSocio(r, numeroSocio)), SocioOrder)
  }

  lemma SocioOrderIsTotalPreorder(s: seq<Row>)
    ensures TotalOn(s, SocioOrder) && TransitiveOn(s, SocioOrder)
  {
    forall a, b | a in s && b in s ensures SocioOrder(a, b) || SocioOrder(b, a) {
      StringLeTotal(a.hora, b.hora);
    }
    forall a, b, c | a in s && b in s && c in s && SocioOrder(a, b) && SocioOrder(b, c)
      ensures SocioOrder(a, c)
    {
      if a.fecha == b.fecha == c.fecha {
        StringLeTransitive(a.hora, b.hora, c.hora);
      }
    }
  }

  /**
   * The member's bookings are exactly that member's rows, each as often as
   * stored, newest day first and, within a day, by ascending hour.
   */
  lemma ReservasDeSocioSpec(rows: seq<Row>, numeroSocio: string)
    ensures var s := ReservasDeSocio(rows, numeroSocio);
      (forall r :: multiset(s)[r] == if r.numeroSocio == numeroSocio then multiset(rows)[r] else 0) &&
      (forall i, j :: 0 <= i < j < |s| ==>
         s[i].fecha >= s[j].fecha && (s[i].fecha == s[j].fecha ==> StringLe(s[i].hora, s[j].hora)))
  {
    var p := (r: Row) => OfSocio(r, numeroSocio);
    var f := Filter(rows, p);
    var s := ReservasDeSocio(rows, numeroSocio);
    forall r: Row ensures multiset(s)[r] == if r.numeroSocio == numeroSocio then multiset(rows)[r] else 0 {
      FilterMultiset(rows, p, r);
    }
    SocioOrderIsTotalPreorder(f);
    SortBySorted(f, SocioOrder, f);
    forall i, j | 0 <= i < j < |s|
      ensures s[i].fecha >= s[j].fecha && (s[i].fecha == s[j].fecha ==> StringLe(s[i].hora, s[j].hora))
    {
      assert SocioOrder(s[i], s[j]);
    }
  }

  /** The `Reserva` built from a row: a null `id_empleado` becomes 0. */
  function ToReserva(r: Row): (res: Reserva)
    ensures res.idEmpleado == (if r.idEmpleado.Some? then r.idEmpleado.value else 0)
  {
    Reserva(r.idReserva, r.fecha, r.hora, r.idInstalacion, r.numeroSocio, r.idEmpleado.GetOr(0))
  }

  // ----------------------------------------------------------- integrity

  /** Two rows book the same facility, day and hour. */
  predicate Clash(a: Row, b: Row) {
    a.idInstalacion == b.idInstalacion && a.fecha == b.fecha && NormalizeHora(a.hora) == NormalizeHora(b.hora)
  }

  function Apart(a: Row, b: Row): bool {
    !Clash(a, b)
  }

  /** No slot of any facility is booked twice. */
  ghost predicate NoDoubleBooking(rows: seq<Row>) {
    Pairwise(rows, Apart)
  }

  /** A row whose hour is not yet reported for its facility and day keeps the table free of double bookings. */
  lemma CheckedInsertKeepsNoDoubleBooking(rows: seq<Row>, r: Row)
    requires NoDoubleBooking(rows)
    requires NormalizeHora(r.hora) !in HorasReservadas(rows, r.idInstalacion, r.fecha)
    ensures NoDoubleBooking(rows + [r])
  {
    var s := rows + [r];
    forall i, j | 0 <= i < j < |s| ensures Apart(s[i], s[j]) {
      if j == |rows| {
        HorasReservadasMembership(rows, r.idInstalacion, r.fecha, NormalizeHora(r.hora));
        assert s[i] in rows;
      } else {
        assert Apart(rows[i], rows[j]);
      }
    }
  }

  /** The insert alone does not keep it: nothing stops a second row for the same slot. */
  lemma UncheckedInsertDoubleBooks()
    ensures var rows := [Row(1, 0, "10:00", 1, "A1", None)];
      NoDoubleBooking(rows) && !NoDoubleBooking(rows + [Row(2, 0, "10:00", 1, "B2", None)])
  {
    var s := [Row(1, 0, "10:00", 1, "A1", None)] + [Row(2, 0, "10:00", 1, "B2", None)];
    assert !Apart(s[0], s[1]);
  }

  function IdBefore(a: Row, b: Row): bool {
    a.idReserva < b.idReserva
  }

  function WithoutReserva(rows: seq<Row>, idReserva: int): seq<Row> {
    Filter(rows, (r: Row) => r.idReserva != idReserva)
  }

  // --------------------------------------------------------------- table

  /** The `reserva` table; `nextId` is its `AUTO_INCREMENT` counter. */
  class ReservaTable {
    var rows: seq<Row>
    var nextId: int

    /** Ids are handed out in increasing order and never reused. */
    ghost predicate Valid()
      reads this
    {
      Pairwise(rows, IdBefore) && forall r :: r in rows ==> r.idReserva < nextId
    }

    constructor ()
      ensures Valid() && rows == [] && nextId == 1
    {
      rows := [];
      nextId := 1;
    }

    /** `guardarReserva`: inserts one row for the day of `fecha`, without checking for an existing booking. */
    method GuardarReserva(numeroSocio: string, idInstalacion: int, fecha: Instant, hora: string, fault: Option<string>)
      returns (r: Outcome<()>)
      requires Valid()
      modifies this
      ensures Valid()
      ensures fault.Some? ==> r == OnError(fault.value) && rows == old(rows) && nextId == old(nextId)
      ensures fault.None? ==>
        r == OnResult(()) && nextId == old(nextId) + 1 &&
        rows == old(rows) + [Row(old(nextId), DayOf(fecha), hora, idInstalacion, numeroSocio, None)]
      ensures r.OnResult? <==> |rows| > |old(rows)|
    {
      if fault.Some? {
        return OnError(fault.value);
      }
      var before := |rows|;
      rows := rows + [Row(nextId, DayOf(fecha), hora, idInstalacion, numeroSocio, None)];
      nextId := nextId + 1;
      var rowsInserted := |rows| - before;
      if rowsInserted > 0 {
        r := OnResult(());
      } else {
        r := OnError("No se pudo guardar la reserva");
      }
    }

    /** `obtenerHorasReservadas`: the normalised hour of every row for the facility and the day of `fecha`. */
    method ObtenerHorasReservadas(idInstalacion: int, fecha: Instant, fault: Option<string>)
      returns (r: Outcome<seq<string>>)
      ensures fault.Some? ==> r == OnError(fault.value)
      ensures fault.None? ==> r == OnResult(HorasReservadas(rows, idInstalacion, DayOf(fecha)))
    {
      if fault.Some? {
        return OnError(fault.value);
      }
      var resultSet := Matching(rows, idInstalacion, DayOf(fecha));
      var horasReservadas: seq<string> := [];
      var i := 0;
      while i < |resultSet|
        invariant 0 <= i <= |resultSet|
        invariant horasReservadas == Horas(resultSet[..i])
      {
        HorasStep(resultSet, i);
        horasReservadas := horasReservadas + [NormalizeHora(resultSet[i].hora)];
        i := i + 1;
      }
      assert resultSet[..|resultSet|] == resultSet;
      r := OnResult(horasReservadas);
    }

    /** `getReservasBySocio`: the member's rows in `ORDER BY fecha DESC, hora ASC` order, as `Reserva`s. */
    method GetReservasBySocio(numeroSocio: string, fault: Option<string>)
      returns (r: Outcome<seq<Reserva>>)
      ensures fault.Some? ==> r == OnError(fault.value)
      ensures fault.None? ==>
        r.OnResult? &&
        var resultSet := ReservasDeSocio(rows, numeroSocio);
        |r.value| == |resultSet| &&
        forall k :: 0 <= k < |resultSet| ==> r.value[k] == ToReserva(resultSet[k])
    {
      if fault.Some? {
        return OnError(fault.value);
      }
      var resultSet := ReservasDeSocio(rows, numeroSocio);
      var reservas: seq<Reserva> := [];
      var i := 0;
      while i < |resultSet|
        invariant 0 <= i <= |resultSet|
        invariant |reservas| == i
        invariant forall k :: 0 <= k < i ==> reservas[k] == ToReserva(resultSet[k])
      {
        var row := resultSet[i];
        var idEmpleado := if row.idEmpleado.Some? then row.idEmpleado.value else 0;
        reservas := reservas + [Reserva(row.idReserva, row.fecha, row.hora, row.idInstalacion, row.numeroSocio, idEmpleado)];
        i := i + 1;
      }
      r := OnResult(reservas);
    }

    /** `eliminarReserva`: deletes the rows with that id; reports an error when there were none. */
    method EliminarReserva(idReserva: int, fault: Option<string>) returns (r: Outcome<()>)
      requires Valid()
      modifies this
      ensures Valid() && nextId == old(nextId)
      ensures fault.Some? ==> r == OnError(fault.value) && rows == old(rows)
      ensures fault.None? ==> rows == WithoutReserva(old(rows), idReserva)
      ensures fault.None? ==>
        (r == OnResult(()) <==> exists x :: x in old(rows) && x.idReserva == idReserva) &&
        (r.OnError? ==> r.message == "No se encontró la reserva a eliminar")
    {
      if fault.Some? {
        return OnError(fault.value);
      }
      var before := rows;
      rows := WithoutReserva(rows, idReserva);
      var keep := (x: Row) => x.idReserva != idReserva;
      PairwiseFilter(before, IdBefore, keep);
      FilterShorter(before, keep);
      forall x | x in rows ensures x in before {
        FilterMembership(before, keep, x);
      }
      var rowsDeleted := |before| - |rows|;
      if rowsDeleted > 0 {
        r := OnResult(());
      } else {
        r := OnError("No se encontró la reserva a eliminar");
      }
    }
  }

  /** Deleting bookings never creates a double booking. */
  lemma DeleteKeepsNoDoubleBooking(rows: seq<Row>, idReserva: int)
    requires NoDoubleBooking(rows)
    ensures NoDoubleBooking(WithoutReserva(rows, idReserva))
  {
    PairwiseFilter(rows, Apart, (r: Row) => r.idReserva != idReserva);
  }
}
