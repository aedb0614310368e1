/**
 * `ReservasFragment`: the booking screen. It turns a facility's opening
 * hours and slot length into a grid of start times, greys out the booked
 * and the already elapsed ones, re-reads the booked hours before every
 * booking, and sets a reminder one hour before the chosen slot.
 */
module ReservasFragment {
  import opened Wrappers
  import opened JavaText
  import opened Entities
  import opened ReservaDao
  import opened ReservasViewModel

  // ---------------------------------------------------- hour conversions

  /**
   * `convertirHoraAMinutos`: hours * 60 + minutes of the first two
   * `:`-pieces, in `int` arithmetic; 0 for a null or empty string, fewer
   * than two pieces, or a piece `Integer.parseInt` refuses.
   */
  function HoraAMinutos(hora: Option<string>): (m: Int32)
  {
    if hora.None? || hora.value == "" then 0
    else
      var partes := Split(hora.value, ':');
      if |partes| < 2 then 0
      else
        var horas := ParseInt(partes[0]);
        var minutos := ParseInt(partes[1]);
        if horas.None? || minutos.None? then 0
        else Wrap32(horas.value * 60 + minutos.value)
  }

  /** `convertirMinutosAHora`: `%02d:%02d` of the truncating quotient and remainder by 60. */
  function MinutosAHora(minutos: int): (hora: string)
    ensures ':' in hora
  {
    var s := Format02d(Quot(minutos, 60)) + ":" + Format02d(Rem(minutos, 60));
    assert s[|Format02d(Quot(minutos, 60))|] == ':';
    s
  }

  /** An hour label as the grid shows it: two digits, a colon, two digits. */
  predicate IsHHMM(s: string) {
    |s| == 5 && IsDigit(s[0]) && IsDigit(s[1]) && s[2] == ':' && IsDigit(s[3]) && IsDigit(s[4])
  }

  /** Reading back a formatted number of minutes gives the number, for every `int` (negative ones included). */
  lemma MinutosAHoraRoundTrip(minutos: Int32)
    ensures HoraAMinutos(Some(MinutosAHora(minutos))) == minutos
  {
    var h := Quot(minutos, 60);
    assert IsInt32(minutos);
    QuotBetween(minutos, 60);
    var m := Rem(minutos, 60);
    var a := Format02d(h);
    var b := Format02d(m);
    Format02dHasNoSeparator(h, ':');
    Format02dHasNoSeparator(m, ':');
    SplitTwo(a, b, ':');
    assert MinutosAHora(minutos) == a + [':'] + b;
    ParseFormat02d(h);
    ParseFormat02d(m);
  }

  /** Seconds after the minutes are ignored: "HH:MM:SS" reads as "HH:MM". */
  lemma HoraAMinutosIgnoresSeconds(minutos: Int32, segundos: string)
    requires ':' !in segundos && |segundos| > 0
    ensures HoraAMinutos(Some(MinutosAHora(minutos) + ":" + segundos)) == minutos
  {
    var h := Quot(minutos, 60);
    assert IsInt32(minutos);
    QuotBetween(minutos, 60);
    var m := Rem(minutos, 60);
    var a := Format02d(h);
    var b := Format02d(m);
    Format02dHasNoSeparator(h, ':');
    Format02dHasNoSeparator(m, ':');
    SplitThree(a, b, segundos, ':');
    assert MinutosAHora(minutos) + ":" + segundos == a + [':'] + b + [':'] + segundos;
    ParseFormat02d(h);
    ParseFormat02d(m);
  }

  /** A missing piece reads as 0: "10" has no minutes, and `split` drops the empty piece of "10:". */
  lemma HoraAMinutosSinMinutos()
    ensures HoraAMinutos(None) == 0 && HoraAMinutos(Some("")) == 0
    ensures HoraAMinutos(Some("10")) == 0 && HoraAMinutos(Some("10:")) == 0
  {
    assert Split("10", ':') == ["10"];
    assert SplitAll("", ':') == [""];
    assert SplitAll(":", ':') == ["", ""];
    assert "0:"[0] == '0' && "0:"[1..] == ":" && ['0'] + "" == "0";
    assert SplitAll("0:", ':') == ["0", ""];
    assert "10:"[0] == '1' && "10:"[1..] == "0:" && ['1'] + "0" == "10";
    assert SplitAll("10:", ':') == ["10", ""];
    assert DropTrailingEmpty(["10"]) == ["10"];
    assert DropTrailingEmpty(["10", ""]) == ["10"];
  }

  /** A piece `Integer.parseInt` refuses reads as 0: an empty hour, a letter. */
  lemma HoraAMinutosPiezaInvalida()
    ensures HoraAMinutos(Some(":30")) == 0 && HoraAMinutos(Some("1a:30")) == 0
  {
    SplitTwo("", "30", ':');
    assert ":30" == "" + [':'] + "30";
    SplitTwo("1a", "30", ':');
    assert "1a:30" == "1a" + [':'] + "30";
    assert "1a"[1] == 'a' && !IsDigit('a');
  }

  /** Every time of day (and up to 99:59) is labelled "HH:MM", and the label survives normalisation. */
  lemma MinutosAHoraLabel(minutos: Int32)
    requires 0 <= minutos < 6000
    ensures IsHHMM(MinutosAHora(minutos))
    ensures NormalizeHora(MinutosAHora(minutos)) == MinutosAHora(minutos)
  {
    var s := MinutosAHora(minutos);
    var a := Format02d(Quot(minutos, 60));
    var b := Format02d(Rem(minutos, 60));
    assert s == a + ":" + b;
    assert IsHHMM(s);
    NormalizeHoraOfStored("", s, "");
    assert "" + s + "" == s;
  }

  /** Different minutes never share a label. */
  lemma MinutosAHoraInjective(a: Int32, b: Int32)
    requires MinutosAHora(a) == MinutosAHora(b)
    ensures a == b
  {
    MinutosAHoraRoundTrip(a);
    MinutosAHoraRoundTrip(b);
  }

  // ------------------------------------------------------ slot generation

  function Min(a: int, b: int): int { if a <= b then a else b }
  function Max(a: int, b: int): int { if a >= b then a else b }

  /** `horaFinInt - horaIniInt` in `int` arithmetic. */
  function Span(ini: Int32, fin: Int32): Int32 {
    Wrap32(fin - ini)
  }

  lemma NotMultiple(z: int)
    requires 0 < z < 0x1_0000_0000
    ensures z % 0x1_0000_0000 != 0
  {
  }

  /** A positive computed span did not wrap around. */
  lemma SpanExact(ini: Int32, fin: Int32)
    requires ini < fin && Span(ini, fin) > 0
    ensures Span(ini, fin) == fin - ini
  {
    assert IsInt32(ini) && IsInt32(fin);
    if fin - ini > IntMax {
      NotMultiple(fin - ini - Wrap32(fin - ini));
      assert false;
    }
  }

  /** Products keep the order of their left factors. */
  lemma MulLe(a: int, b: int, c: int)
    requires a <= b && c >= 0
    ensures a * c <= b * c
  {
  }

  /** Whole slots of length `d` in a span of `a` minutes: `a / d` fit, one more does not. */
  lemma WholeSlots(a: int, d: int)
    requires a > 0 && d > 0
    ensures (a / d) * d <= a < (a / d) * d + d
  {
    assert a == d * (a / d) + a % d;
  }

  /** The `i`-th of the whole slots of length `d` ends within the `a` minutes. */
  lemma SlotFits(a: int, d: int, i: int)
    requires a > 0 && d > 0 && 0 <= i < a / d
    ensures 0 <= i * d && i * d + d <= a
  {
    WholeSlots(a, d);
    MulLe(i + 1, a / d, d);
    MulLe(0, i, d);
  }

  /**
   * The start minutes of the slots of a configured facility: the opening
   * minute alone when one slot fills the span, otherwise one slot every
   * `duracion` minutes for as many whole slots as fit.
   */
  function SlotStarts(ini: Int32, fin: Int32, duracion: Int32): (starts: seq<int>)
    requires ini < fin && duracion > 0
    ensures |starts| >= 1 && starts[0] == ini
  {
    var span := Span(ini, fin);
    if duracion >= span then [ini]
    else seq(span / duracion, i requires 0 <= i < span / duracion => ini + i * duracion)
  }

  /** With more than one slot, the `i`-th starts `i` slot lengths after opening and ends by closing. */
  lemma SlotStartAt(ini: Int32, fin: Int32, duracion: Int32, i: int)
    requires ini < fin && duracion > 0 && duracion < Span(ini, fin)
    requires 0 <= i < |SlotStarts(ini, fin, duracion)|
    ensures SlotStarts(ini, fin, duracion)[i] == ini + i * duracion
    ensures SlotStarts(ini, fin, duracion)[i] + duracion <= fin
  {
    SpanExact(ini, fin);
    SlotFits(fin - ini, duracion, i);
  }

  /** Every slot starts within the opening hours. */
  lemma SlotStartInRange(ini: Int32, fin: Int32, duracion: Int32, i: int)
    requires ini < fin && duracion > 0
    requires 0 <= i < |SlotStarts(ini, fin, duracion)|
    ensures ini <= SlotStarts(ini, fin, duracion)[i] < fin
  {
    if duracion < Span(ini, fin) {
      SlotStartAt(ini, fin, duracion, i);
    }
  }

  /** With more than one slot there are exactly (fin - ini) / duracion of them, and one more would not fit. */
  lemma SlotStartsCount(ini: Int32, fin: Int32, duracion: Int32)
    requires ini < fin && duracion > 0 && duracion < Span(ini, fin)
    ensures var s := SlotStarts(ini, fin, duracion);
      |s| == (fin - ini) / duracion && s[|s| - 1] + 2 * duracion > fin
  {
    SpanExact(ini, fin);
    var n := (fin - ini) / duracion;
    WholeSlots(fin - ini, duracion);
    assert (n - 1) * duracion + 2 * duracion == n * duracion + duracion;
  }

  /** A later slot starts no earlier than the end of an earlier one: the slots never overlap. */
  lemma SlotStartsDisjoint(ini: Int32, fin: Int32, duracion: Int32, i: int, j: int)
    requires ini < fin && duracion > 0
    requires 0 <= i < j < |SlotStarts(ini, fin, duracion)|
    ensures SlotStarts(ini, fin, duracion)[i] + duracion <= SlotStarts(ini, fin, duracion)[j]
  {
    SlotStartAt(ini, fin, duracion, i);
    SlotStartAt(ini, fin, duracion, j);
    MulLe(i + 1, j, duracion);
  }

  /** The `i`-th button's cell in a grid of `columnCount` columns. */
  lemma CellOf(i: nat, columnCount: int, row: int, column: int)
    requires 1 <= columnCount <= 3 && 0 <= column < columnCount && row * columnCount + column == i
    ensures column == i % columnCount && row == i / columnCount
  {
    if columnCount == 1 {
    } else if columnCount == 2 {
    } else {
    }
  }

  // ------------------------------------------------------------- screen

  datatype SlotButton = SlotButton(hora: string, enabled: bool, column: int, row: int)

  /** What `mostrarHorarios` leaves in the grid. */
  datatype Horarios =
    | Vacio                     // no facility selected: the grid is only cleared
    | SinConfiguracion          // the "no schedule configured" message
    | Rejilla(columnCount: int, buttons: seq<SlotButton>)

  datatype Alerta = Alerta(titulo: string, mensaje: string)

  /** Where picking a slot ends: the confirmation dialog, or an alert (a booked hour also reloads the grid). */
  datatype Seleccion = Confirmar(hora: string) | HoraOcupada(alerta: Alerta) | FalloSeleccion(alerta: Alerta)

  /** Where `realizarReserva` ends: an alert, or the booking handed to the view model and the reminder it set, if any. */
  datatype Envio = AlertaReserva(alerta: Alerta, recargar: bool) | Enviada(recordatorio: Option<Instant>)

  const HoraNoDisponible: string := "Hora no disponible"
  const YaReservada: string := "Esta hora ya ha sido reservada. Por favor seleccione otra hora."
  const YaReservadaPorOtro: string := "Esta hora ya ha sido reservada por otro socio. Por favor, seleccione otra hora."
  const TituloError: string := "Error"
  const TituloErrorConexion: string := "Error de conexión"
  const NoSePudoVerificar: string := "No se pudo verificar la disponibilidad: "
  const ErrorAlVerificar: string := "Error al verificar disponibilidad: "

  /**
   * The reminder `programarNotificacionReserva` sets: the selected day at
   * the slot's hour and minute, seconds 0, milliseconds kept from the
   * selected date, one hour earlier; none when the hour cannot be read or
   * the time is before now.
   */
  function Recordatorio(selectedDate: Instant, hora: string, now: Instant): (aviso: Option<Instant>)
    ensures aviso.Some? ==> aviso.value >= now
  {
    var partes := Split(hora, ':');
    if |partes| < 2 then None
    else
      var horas := ParseInt(partes[0]);
      var minutos := ParseInt(partes[1]);
      if horas.None? || minutos.None? then None
      else
        var t := Midnight(DayOf(selectedDate)) + horas.value * MsPerHour + minutos.value * MsPerMinute
                 + selectedDate % 1000 - MsPerHour;
        if t < now then None else Some(t)
  }

  /** For a slot label, the reminder is one hour before the slot starts on the selected day, unless that is already past. */
  lemma RecordatorioUnaHoraAntes(selectedDate: Instant, minutos: Int32, now: Instant)
    ensures var slot := Midnight(DayOf(selectedDate)) + minutos * MsPerMinute + selectedDate % 1000;
      Recordatorio(selectedDate, MinutosAHora(minutos), now) ==
        if slot - MsPerHour < now then None else Some(slot - MsPerHour)
  {
    var h := Quot(minutos, 60);
    assert IsInt32(minutos);
    QuotBetween(minutos, 60);
    var m := Rem(minutos, 60);
    var a := Format02d(h);
    var b := Format02d(m);
    Format02dHasNoSeparator(h, ':');
    Format02dHasNoSeparator(m, ':');
    SplitTwo(a, b, ':');
    assert MinutosAHora(minutos) == a + [':'] + b;
    ParseFormat02d(h);
    ParseFormat02d(m);
    assert h * MsPerHour + m * MsPerMinute == (60 * h + m) * MsPerMinute;
  }

  lemma PrefixStep(s: seq<string>, i: int)
    requires 0 <= i <= |s|
    ensures i < |s| ==> s[..i + 1] == s[..i] + [s[i]]
    ensures i == |s| ==> s[..i] == s
  {
  }

  /** The `i`-th label of a multi-slot facility, for the minute the generation loop computes. */
  lemma SlotLabelAt(ini: Int32, fin: Int32, duracion: Int32, i: int, minutos: int)
    requires ini < fin && duracion > 0 && duracion < Span(ini, fin)
    requires 0 <= i < |SlotStarts(ini, fin, duracion)| && minutos == ini + i * duracion
    ensures Labels(SlotStarts(ini, fin, duracion))[i] == MinutosAHora(minutos)
    ensures minutos + duracion <= fin
  {
    var starts := SlotStarts(ini, fin, duracion);
    SlotStartAt(ini, fin, duracion, i);
    assert starts[i] == minutos;
    assert Labels(starts)[i] == MinutosAHora(starts[i]);
  }

  /**
   * The slot labels of `mostrarHorarios`: the opening time alone when one
   * slot fills the span, otherwise one label per whole slot (the loop's
   * guard that a slot ends by the closing minute never rejects one).
   */
  method GenerarHorarios(horaIniInt: Int32, horaFinInt: Int32, duracion: Int32) returns (horarios: seq<string>)
    requires horaIniInt < horaFinInt && duracion > 0
    ensures horarios == Labels(SlotStarts(horaIniInt, horaFinInt, duracion))
  {
    var span := Span(horaIniInt, horaFinInt);
    if duracion >= span {
      return [MinutosAHora(horaIniInt)];
    }
    ghost var labels := Labels(SlotStarts(horaIniInt, horaFinInt, duracion));
    var numHorarios: int := span / duracion;
    assert |labels| == numHorarios;
    horarios := [];
    for i := 0 to numHorarios
      invariant horarios == labels[..i]
    {
      var minutos: int := horaIniInt + i * duracion;
      SlotLabelAt(horaIniInt, horaFinInt, duracion, i, minutos);
      if minutos + duracion <= horaFinInt {
        horarios := horarios + [MinutosAHora(minutos)];
      }
      PrefixStep(labels, i);
    }
    PrefixStep(labels, numHorarios);
  }

  /** The labels of slots starting at `starts`. */
  function Labels(starts: seq<int>): (labels: seq<string>)
    ensures |labels| == |starts|
  {
    seq(|starts|, i requires 0 <= i < |starts| => MinutosAHora(starts[i]))
  }

  /** Reading a slot's label back gives its start: `yaPaso` compares the slot's own start with the current minute. */
  lemma LabelsReadBack(starts: seq<Int32>, i: int)
    requires 0 <= i < |starts|
    ensures HoraAMinutos(Some(Labels(starts)[i])) == starts[i]
  {
    MinutosAHoraRoundTrip(starts[i]);
  }

  /**
   * One grid button, the `i`-th of a grid of `columnCount` columns: its
   * label, pressable unless the label is among the reserved hours or the
   * day is today and the label reads as a minute before the current one,
   * and its cell, row by row.
   */
  predicate IsButton(b: SlotButton, i: int, etiqueta: string, columnCount: int,
                     horasReservadas: seq<string>, esHoy: bool, ahora: int)
  {
    b.hora == etiqueta &&
    (b.enabled <==> etiqueta !in horasReservadas && !(esHoy && HoraAMinutos(Some(etiqueta)) < ahora)) &&
    0 <= b.column < columnCount && b.row * columnCount + b.column == i
  }

  /** Each of `buttons` is the button for the label at its position. */
  ghost predicate ButtonsFor(buttons: seq<SlotButton>, labels: seq<string>, columnCount: int,
                             horasReservadas: seq<string>, esHoy: bool, ahora: int)
  {
    |buttons| <= |labels| &&
    forall i :: 0 <= i < |buttons| ==> IsButton(buttons[i], i, labels[i], columnCount, horasReservadas, esHoy, ahora)
  }

  /** The grid for `labels`: one button per label, in order, in at most three columns. */
  ghost predicate IsGrid(columnCount: int, buttons: seq<SlotButton>, labels: seq<string>,
                         horasReservadas: seq<string>, esHoy: bool, ahora: int)
  {
    |buttons| == |labels| && columnCount == Min(3, Max(1, |labels|)) &&
    ButtonsFor(buttons, labels, columnCount, horasReservadas, esHoy, ahora)
  }

  lemma ButtonsForStep(buttons: seq<SlotButton>, b: SlotButton, labels: seq<string>, columnCount: int,
                       horasReservadas: seq<string>, esHoy: bool, ahora: int)
    requires ButtonsFor(buttons, labels, columnCount, horasReservadas, esHoy, ahora) && |buttons| < |labels|
    requires IsButton(b, |buttons|, labels[|buttons|], columnCount, horasReservadas, esHoy, ahora)
    ensures ButtonsFor(buttons + [b], labels, columnCount, horasReservadas, esHoy, ahora)
  {
    var bs := buttons + [b];
    forall i | 0 <= i < |bs|
      ensures IsButton(bs[i], i, labels[i], columnCount, horasReservadas, esHoy, ahora)
    {
      if i < |buttons| {
        assert bs[i] == buttons[i];
      }
    }
  }

  /** One pass of the button loop: the button for label `horaInicio` at cell (`column`, `row`). */
  method CrearBoton(horaInicio: string, horasReservadas: seq<string>, esHoy: bool, horaActualMinutos: int,
                    column: int, row: int)
    returns (button: SlotButton)
    ensures button.hora == horaInicio && button.column == column && button.row == row
    ensures button.enabled <==>
      horaInicio !in horasReservadas && !(esHoy && HoraAMinutos(Some(horaInicio)) < horaActualMinutos)
  {
    var estaReservada := horaInicio in horasReservadas;
    var yaPaso := esHoy && HoraAMinutos(Some(horaInicio)) < horaActualMinutos;
    button := SlotButton(horaInicio, !(estaReservada || yaPaso), column, row);
  }

  /** Moving one cell on, wrapping to the next row after the last column. */
  lemma NextCell(row: int, column: int, columnCount: int)
    requires 0 <= column < columnCount
    ensures column + 1 >= columnCount ==> (row + 1) * columnCount + 0 == row * columnCount + column + 1
  {
  }

  /** The button loop of `mostrarHorarios`. */
  method ColocarBotones(horarios: seq<string>, horasReservadas: seq<string>, esHoy: bool, horaActualMinutos: int)
    returns (columnCount: int, buttons: seq<SlotButton>)
    ensures IsGrid(columnCount, buttons, horarios, horasReservadas, esHoy, horaActualMinutos)
  {
    columnCount := Min(3, Max(1, |horarios|));
    var column := 0;
    var row := 0;
    buttons := [];
    for i := 0 to |horarios|
      invariant |buttons| == i
      invariant 0 <= column < columnCount && row * columnCount + column == i
      invariant ButtonsFor(buttons, horarios, columnCount, horasReservadas, esHoy, horaActualMinutos)
    {
      var button := CrearBoton(horarios[i], horasReservadas, esHoy, horaActualMinutos, column, row);
      ButtonsForStep(buttons, button, horarios, columnCount, horasReservadas, esHoy, horaActualMinutos);
      buttons := buttons + [button];
      NextCell(row, column, columnCount);
      column := column + 1;
      if column >= columnCount {
        column := 0;
        row := row + 1;
      }
    }
  }

  /**
   * The save `ReservasViewModel.realizarReserva` starts and the callback it
   * ends in: the row is written only over a connection whose statement
   * succeeds, and only then is the booking reported done.
   */
  method Guardar(req: SaveRequest, vm: ViewModel, table: ReservaTable, saveConn: Connection, saveFault: Option<string>)
    requires table.Valid()
    modifies vm, table
    ensures table.Valid()
    ensures saveConn.Connected? && saveFault.None? ==>
      table.rows == old(table.rows) + [Row(old(table.nextId), DayOf(req.fecha), req.hora, req.idInstalacion, req.numeroSocio, None)] &&
      vm.reservaRealizada
    ensures saveConn.ConnectionFailed? ==>
      table.rows == old(table.rows) && vm.errorMessage == Some("Error de conexión: " + saveConn.message)
    ensures saveConn.Connected? && saveFault.Some? ==>
      table.rows == old(table.rows) && vm.errorMessage == Some("Error al realizar la reserva: " + saveFault.value)
  {
    if saveConn.ConnectionFailed? {
      vm.OnConnectionFailure(saveConn.message);
    } else {
      var saved := table.GuardarReserva(req.numeroSocio, req.idInstalacion, req.fecha, req.hora, saveFault);
      match saved {
        case OnResult(_) =>
          var reload := vm.OnReservaGuardada(req);
        case OnError(message) =>
          vm.OnReservaError(message);
      }
    }
  }

  class Fragment {
    var selectedInstalacion: Option<Instalacion>
    var selectedInstalacionId: int
    var selectedDate: Instant

    /** `esHoyLaFechaSeleccionada`: same year, month and day as now. */
    predicate EsHoy(now: Instant)
      reads this
    {
      DayOf(now) == DayOf(selectedDate)
    }

    /**
     * What `mostrarHorarios` draws for the selected facility: nothing
     * without one, the "no schedule" message for a facility whose closing
     * minute is not after its opening one or whose slot length is not
     * positive, otherwise the grid of its slots against `horas`.
     */
    ghost predicate Muestra(view: Horarios, horas: seq<string>, now: Instant)
      reads this
    {
      (selectedInstalacion.None? ==> view == Vacio) &&
      (selectedInstalacion.Some? ==>
        var inst := selectedInstalacion.value;
        var ini := HoraAMinutos(inst.horaIni);
        var fin := HoraAMinutos(inst.horaFin);
        (ini >= fin || inst.duracion <= 0 ==> view == SinConfiguracion) &&
        (ini < fin && inst.duracion > 0 ==>
          view.Rejilla? && IsGrid(view.columnCount, view.buttons, Labels(SlotStarts(ini, fin, inst.duracion)),
                                  horas, EsHoy(now), if EsHoy(now) then MinuteOfDay(now) else 0)))
    }

    /** `mostrarHorarios`: draws the selected facility's slots against the reserved hours. */
    method MostrarHorarios(horasReservadas: seq<string>, now: Instant) returns (view: Horarios)
      ensures Muestra(view, horasReservadas, now)
    {
      if selectedInstalacion.None? {
        return Vacio;
      }
      var inst := selectedInstalacion.value;
      var horaIniInt := HoraAMinutos(inst.horaIni);
      var horaFinInt := HoraAMinutos(inst.horaFin);
      var duracion := inst.duracion;
      var esHoy := EsHoy(now);
      var horaActualMinutos := 0;
      if esHoy {
        horaActualMinutos := MinuteOfDay(now);
      }
      if horaIniInt >= horaFinInt || duracion <= 0 {
        return SinConfiguracion;
      }
      var horariosDisponibles := GenerarHorarios(horaIniInt, horaFinInt, duracion);
      var columnCount, buttons := ColocarBotones(horariosDisponibles, horasReservadas, esHoy, horaActualMinutos);
      view := Rejilla(columnCount, buttons);
    }

    /**
     * `cargarHorariosDisponibles`: nothing without a selected facility id;
     * on a failed connection or query only a message is shown (`None`);
     * otherwise the grid is drawn against the normalised reserved hours.
     */
    method CargarHorariosDisponibles(table: ReservaTable, conn: Connection, fault: Option<string>, now: Instant)
      returns (view: Option<Horarios>)
      ensures selectedInstalacionId == 0 || conn.ConnectionFailed? || fault.Some? ==> view.None?
      ensures selectedInstalacionId != 0 && conn.Connected? && fault.None? ==>
        view.Some? && Muestra(view.value, HorasReservadas(table.rows, selectedInstalacionId, DayOf(selectedDate)), now)
      ensures view.Some? ==>
        var horas := HorasReservadas(table.rows, selectedInstalacionId, DayOf(selectedDate));
        view.value.Rejilla? && selectedInstalacion.Some? ==>
          forall b :: b in view.value.buttons && b.enabled ==> b.hora !in horas
    {
      if selectedInstalacionId == 0 {
        return None;
      }
      if conn.ConnectionFailed? {
        return None;
      }
      var result := table.ObtenerHorasReservadas(selectedInstalacionId, selectedDate, fault);
      match result {
        case OnError(_) => view := None;
        case OnResult(horas) =>
          var grid := MostrarHorarios(horas, now);
          view := Some(grid);
      }
    }

    /**
     * `seleccionarHorario`: re-reads the reserved hours and asks for
     * confirmation only when the chosen hour is not among them.
     */
    method SeleccionarHorario(hora: string, table: ReservaTable, conn: Connection, fault: Option<string>)
      returns (s: Seleccion)
      ensures conn.ConnectionFailed? ==> s == FalloSeleccion(Alerta(TituloErrorConexion, conn.message))
      ensures conn.Connected? && fault.Some? ==>
        s == FalloSeleccion(Alerta(TituloError, NoSePudoVerificar + fault.value))
      ensures conn.Connected? && fault.None? ==>
        var horas := HorasReservadas(table.rows, selectedInstalacionId, DayOf(selectedDate));
        (hora in horas ==> s == HoraOcupada(Alerta(HoraNoDisponible, YaReservada))) &&
        (hora !in horas ==> s == Confirmar(hora))
    {
      if conn.ConnectionFailed? {
        return FalloSeleccion(Alerta(TituloErrorConexion, conn.message));
      }
      var result := table.ObtenerHorasReservadas(selectedInstalacionId, selectedDate, fault);
      match result {
        case OnError(message) =>
          s := FalloSeleccion(Alerta(TituloError, NoSePudoVerificar + message));
        case OnResult(horasReservadas) =>
          if hora in horasReservadas {
            s := HoraOcupada(Alerta(HoraNoDisponible, YaReservada));
          } else {
            s := Confirmar(hora);
          }
      }
    }

    /**
     * The second half of `realizarReserva`, once the hour was found free:
     * hand the booking to the view model (which validates it and starts the
     * save) and set the reminder. A row is written only for valid data over
     * a working connection, and a normalised hour that was free keeps the
     * table free of double bookings.
     */
    method Enviar(numeroSocio: string, hora: string, vm: ViewModel, table: ReservaTable,
                  saveConn: Connection, saveFault: Option<string>, now: Instant)
      returns (recordatorio: Option<Instant>)
      requires table.Valid()
      modifies vm, table
      ensures table.Valid()
      ensures recordatorio == Recordatorio(selectedDate, hora, now)
      ensures
        var written := DatosReservaValidos(Some(numeroSocio), selectedInstalacionId, Some(selectedDate), Some(hora)) &&
          saveConn.Connected? && saveFault.None?;
        (written ==>
           table.rows == old(table.rows) +
             [Row(old(table.nextId), DayOf(selectedDate), hora, selectedInstalacionId, numeroSocio, None)] &&
           vm.reservaRealizada) &&
        (!written ==> table.rows == old(table.rows))
      ensures
        var free := hora !in HorasReservadas(old(table.rows), selectedInstalacionId, DayOf(selectedDate));
        NoDoubleBooking(old(table.rows)) && NormalizeHora(hora) == hora && free ==> NoDoubleBooking(table.rows)
    {
      ghost var before := table.rows;
      var request := vm.RealizarReserva(Some(numeroSocio), selectedInstalacionId, Some(selectedDate), Some(hora));
      recordatorio := Recordatorio(selectedDate, hora, now);
      if request.Some? {
        Guardar(request.value, vm, table, saveConn, saveFault);
      }
      if NoDoubleBooking(before) && NormalizeHora(hora) == hora && table.rows != before &&
         hora !in HorasReservadas(before, selectedInstalacionId, DayOf(selectedDate)) {
        CheckedInsertKeepsNoDoubleBooking(before, table.rows[|before|]);
        assert table.rows == before + [table.rows[|before|]];
      }
    }

    /**
     * `realizarReserva`, run to completion: re-read the reserved hours;
     * when the hour is taken, alert and reload; otherwise send the booking.
     * The table gains a row only when every step succeeds and the hour was
     * free.
     */
    method RealizarReserva(numeroSocio: string, hora: string, vm: ViewModel, table: ReservaTable,
                           checkConn: Connection, checkFault: Option<string>,
                           saveConn: Connection, saveFault: Option<string>, now: Instant)
      returns (e: Envio)
      requires table.Valid()
      modifies vm, table
      ensures table.Valid()
      ensures checkConn.ConnectionFailed? ==>
        e == AlertaReserva(Alerta(TituloErrorConexion, checkConn.message), false)
      ensures checkConn.Connected? && checkFault.Some? ==>
        e == AlertaReserva(Alerta(TituloError, ErrorAlVerificar + checkFault.value), false)
      ensures checkConn.Connected? && checkFault.None? ==>
        var horas := HorasReservadas(old(table.rows), selectedInstalacionId, DayOf(selectedDate));
        (hora in horas ==> e == AlertaReserva(Alerta(HoraNoDisponible, YaReservadaPorOtro), true)) &&
        (hora !in horas ==> e == Enviada(Recordatorio(selectedDate, hora, now)))
      ensures
        var written := checkConn.Connected? && checkFault.None? &&
          hora !in HorasReservadas(old(table.rows), selectedInstalacionId, DayOf(selectedDate)) &&
          DatosReservaValidos(Some(numeroSocio), selectedInstalacionId, Some(selectedDate), Some(hora)) &&
          saveConn.Connected? && saveFault.None?;
        (written ==>
           table.rows == old(table.rows) +
             [Row(old(table.nextId), DayOf(selectedDate), hora, selectedInstalacionId, numeroSocio, None)]) &&
        (!written ==> table.rows == old(table.rows))
      ensures NoDoubleBooking(old(table.rows)) && NormalizeHora(hora) == hora ==> NoDoubleBooking(table.rows)
    {
      if checkConn.ConnectionFailed? {
        return AlertaReserva(Alerta(TituloErrorConexion, checkConn.message), false);
      }
      ghost var horas := HorasReservadas(table.rows, selectedInstalacionId, DayOf(selectedDate));
      var result := table.ObtenerHorasReservadas(selectedInstalacionId, selectedDate, checkFault);
      if result.OnError? {
        return AlertaReserva(Alerta(TituloError, ErrorAlVerificar + result.message), false);
      }
      if hora in result.value {
        return AlertaReserva(Alerta(HoraNoDisponible, YaReservadaPorOtro), true);
      }
      assert hora !in horas;
      var recordatorio := Enviar(numeroSocio, hora, vm, table, saveConn, saveFault, now);
      e := Enviada(recordatorio);
    }
  }
}
