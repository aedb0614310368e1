# SocialClub booking core in Dafny

SocialClub is an Android client for a sports and social club. Members book
club facilities (padel courts, football pitches, rooms) in fixed-length
slots, see their coming bookings, carry a member card with an age category,
are notified of new club events, and edit their profile. This project models
the logic under those screens and proves what it promises:

- **Slot engine and booking flow** (`ReservasFragment`, module
  `ReservasFragment`). It parses and prints `HH:MM` hours in Java `int`
  arithmetic. It generates a facility's slots from its opening hour, closing
  hour and slot length, and lays them out in a grid of at most three
  columns. A slot's button is greyed out when its hour is booked or has
  already passed today. The booked hours are read again before a booking is
  sent, and a reminder is set one hour before the slot.
- **The `reserva` table** (`ReservaDao`, module `ReservaDao`). The table is
  an in-memory class with an auto-increment counter and four statements:
  insert, booked hours of a facility and day (trimmed and cut to five
  characters), a member's bookings in `fecha DESC, hora ASC` order, and
  delete by id.
- **The booking view model** (`ReservasViewModel`): the `isLoading`,
  `errorMessage` and `reservaRealizada` flags as a state machine.
- **"My bookings"** (`MisReservasFragment`, module `MisReservas`). It keeps
  bookings on later days and bookings of today whose hour is still ahead,
  sorts them stably by day, normalises the hour shown on each card, and
  picks the card picture from the facility id modulo 5.
- **Home screen** (`HomeFragment`, module `Home`): the age category on the
  member card and the list of coming events.
- **Member card dialog** (`FullScreenCarnetDialog`, module `CarnetDialog`):
  the argument `Bundle` written by `newInstance` and read by
  `onViewCreated`.
- **Event notifications** (`EventoService`, module `EventoService`): the set
  of notified event ids, so each id is notified once in the service's life.
- **Profile editing** (`ProfileFragment`, module `Profile`). It detects
  changes to the form, with a photo-changed flag that stays up until the
  reload after saving. It saves the edits into the member and the password
  cache, and lays out the positional parameters of the `UPDATE socio`
  statement. It also checks the birth-date picker.
- **Password cache** (`PasswordCache`, module `PasswordCache`): a lazily
  created singleton that holds one nullable string.

Shared modules: `Wrappers` (`Option`), `JavaText`, `Entities` and `Seqs`.

`JavaText` models the Java library behaviour the code relies on:
- 32-bit `int` wrap-around;
- truncating `/` and `%`;
- `Integer.parseInt`;
- `%02d`;
- `String.split(":")`, which drops trailing empty pieces;
- `trim`;
- `String.compareTo`.

`Entities` holds the records (`Reserva`, `Instalacion`, `Socio`, `Evento`) and the dates:
- A SQL `DATE` is a day number.
- "Now" is an instant in milliseconds.
- A birth date is a valid civil date (`Fecha`).

`Seqs` holds filtering and a stable insertion sort, with their proofs.

Clocks, the network and the database are parameters. "Now" is passed in. A
connection is `Connected` or `ConnectionFailed(message)`. A statement that
throws `SQLException` is `fault == Some(message)`. Every callback is a
result value or a method of its own.

Some consequences of the code as written are proved rather than assumed:

- Hour normalisation is not idempotent in general (`NormalizeHoraNotIdempotent`). It is idempotent on every value that does not end in a blank, and so on every hour the app writes.
- An event dated today is shown only at the exact stroke of midnight (`EsFuturoSegunDia`). The test compares the event's midnight with the current instant.
- The slot loop's guard `minutos + duracion <= horaFinInt` never rejects a slot (`SlotStartAt`).
- A single slot may run past closing time (`SlotStarts`).
- `cargarHorariosReservados` refuses only facility id 0. A negative id passes.
- The `UPDATE` statement decides whether to bind the password with a test of its own. That test differs from the change test. After `guardarCambios` the two agree on which password ends up stored (`GuardarCambios`).

The model follows the code's callbacks, messages and flags rather than a
typed result per outcome. Booking conflicts are detected only by the
sequential re-read. The insert itself has no uniqueness check
(`UncheckedInsertDoubleBooks`).

## Model

| member | source | states |
|---|---|---|
| ReservasFragment.HoraAMinutos | app/src/main/java/com/jlobatonm/socialclub_app/ui/reservas/ReservasFragment.java:396-418 | hours*60+minutes of the first two `:`-pieces in `int` arithmetic, 0 for null, empty, one piece or an unparsable piece |
| ReservasFragment.MinutosAHora | app/src/main/java/com/jlobatonm/socialclub_app/ui/reservas/ReservasFragment.java:426-430 | `%02d:%02d` of the truncating quotient and remainder by 60; the label always holds a colon |
| ReservasFragment.MinutosAHoraRoundTrip | app/src/main/java/com/jlobatonm/socialclub_app/ui/reservas/ReservasFragment.java:396-430 | parsing a printed minute count gives it back, for every `int` |
| ReservasFragment.HoraAMinutosIgnoresSeconds | app/src/main/java/com/jlobatonm/socialclub_app/ui/reservas/ReservasFragment.java:405-413 | `HH:MM:SS` reads as `HH:MM` |
| ReservasFragment.HoraAMinutosSinMinutos | app/src/main/java/com/jlobatonm/socialclub_app/ui/reservas/ReservasFragment.java:398-409 | null, empty, `"10"` and `"10:"` read as 0 |
| ReservasFragment.HoraAMinutosPiezaInvalida | app/src/main/java/com/jlobatonm/socialclub_app/ui/reservas/ReservasFragment.java:411-417 | the hour pieces `":30"` (empty) and `"1a:30"` (not a number), which `parseInt` refuses, read as 0 |
| ReservasFragment.MinutosAHoraLabel | app/src/main/java/com/jlobatonm/socialclub_app/ui/reservas/ReservasFragment.java:426-430 | minutes below 6000 print as `DD:DD`, which the booked-hours normalisation leaves unchanged |
| ReservasFragment.MinutosAHoraInjective | app/src/main/java/com/jlobatonm/socialclub_app/ui/reservas/ReservasFragment.java:426-430 | different minute counts never share a label |
| ReservasFragment.SpanExact | app/src/main/java/com/jlobatonm/socialclub_app/ui/reservas/ReservasFragment.java:326-329 | a positive `horaFinInt - horaIniInt` did not wrap around |
| ReservasFragment.SlotStarts | app/src/main/java/com/jlobatonm/socialclub_app/ui/reservas/ReservasFragment.java:324-337 | at least one slot, and the first starts at opening |
| ReservasFragment.SlotStartAt | app/src/main/java/com/jlobatonm/socialclub_app/ui/reservas/ReservasFragment.java:329-336 | with several slots the i-th starts at opening + i*duracion and ends by closing, so the loop's guard never rejects one |
| ReservasFragment.SlotStartInRange | app/src/main/java/com/jlobatonm/socialclub_app/ui/reservas/ReservasFragment.java:326-336 | every slot starts within the opening hours |
| ReservasFragment.SlotStartsCount | app/src/main/java/com/jlobatonm/socialclub_app/ui/reservas/ReservasFragment.java:329 | there are exactly (fin-ini)/duracion slots and one more would not fit |
| ReservasFragment.SlotStartsDisjoint | app/src/main/java/com/jlobatonm/socialclub_app/ui/reservas/ReservasFragment.java:329-336 | a later slot starts no earlier than an earlier one ends: ascending, never overlapping |
| ReservasFragment.CellOf | app/src/main/java/com/jlobatonm/socialclub_app/ui/reservas/ReservasFragment.java:375-379 | the i-th button sits at column i mod columnCount, row i div columnCount |
| ReservasFragment.RecordatorioUnaHoraAntes | app/src/main/java/com/jlobatonm/socialclub_app/ui/reservas/ReservasFragment.java:646-663 | for a slot label the reminder is the slot on the selected day minus one hour, seconds 0, or none when that is before now |
| ReservasFragment.Recordatorio | app/src/main/java/com/jlobatonm/socialclub_app/ui/reservas/ReservasFragment.java:642-663 | the reminder, when there is one, is never before now; its exact time is `RecordatorioUnaHoraAntes` |
| ReservasFragment.SlotLabelAt | app/src/main/java/com/jlobatonm/socialclub_app/ui/reservas/ReservasFragment.java:331-335 | the label the loop adds for slot i is that slot's start, and the slot ends by closing |
| ReservasFragment.GenerarHorarios | app/src/main/java/com/jlobatonm/socialclub_app/ui/reservas/ReservasFragment.java:324-337 | the labels the loop builds are the labels of `SlotStarts`, in order |
| ReservasFragment.Labels | app/src/main/java/com/jlobatonm/socialclub_app/ui/reservas/ReservasFragment.java:327-334 | one label per slot start |
| ReservasFragment.LabelsReadBack | app/src/main/java/com/jlobatonm/socialclub_app/ui/reservas/ReservasFragment.java:361 | `yaPaso` reads each label back as its own slot start |
| ReservasFragment.CrearBoton | app/src/main/java/com/jlobatonm/socialclub_app/ui/reservas/ReservasFragment.java:349-371 | the button has its label and cell, and is enabled iff the hour is not booked and not (today and the slot minute < the current minute) |
| ReservasFragment.ColocarBotones | app/src/main/java/com/jlobatonm/socialclub_app/ui/reservas/ReservasFragment.java:341-380 | one button per label in order, columnCount = min(3, max(1, n)), cells row by row |
| ReservasFragment.Guardar | app/src/main/java/com/jlobatonm/socialclub_app/ui/reservas/ReservasViewModel.java:160-193 | the row is written only over a connection whose insert succeeds; the flags follow the callback taken |
| ReservasFragment.Fragment.EsHoy | app/src/main/java/com/jlobatonm/socialclub_app/ui/reservas/ReservasFragment.java:437-445 | definition (no contract): the selected date and now fall on the same calendar day |
| ReservasFragment.Fragment.MostrarHorarios | app/src/main/java/com/jlobatonm/socialclub_app/ui/reservas/ReservasFragment.java:283-388 | `Muestra`: nothing without a facility, the "no schedule" message when closing <= opening or duracion <= 0, otherwise the grid of its slots |
| ReservasFragment.Fragment.CargarHorariosDisponibles | app/src/main/java/com/jlobatonm/socialclub_app/ui/reservas/ReservasFragment.java:215-276 | no grid without a facility id or on a failed connection or query; otherwise the grid `Muestra` describes (what `mostrarHorarios` draws) against the table's normalised booked hours for the selected day, so no enabled button offers a booked hour |
| ReservasFragment.Fragment.SeleccionarHorario | app/src/main/java/com/jlobatonm/socialclub_app/ui/reservas/ReservasFragment.java:453-512 | the confirmation is offered iff the re-read booked hours lack the hour; a taken hour alerts and reloads |
| ReservasFragment.Fragment.Enviar | app/src/main/java/com/jlobatonm/socialclub_app/ui/reservas/ReservasFragment.java:611-614 | the booking goes to the view model and the reminder is `Recordatorio`; a row is added only for valid data over a working connection |
| ReservasFragment.Fragment.RealizarReserva | app/src/main/java/com/jlobatonm/socialclub_app/ui/reservas/ReservasFragment.java:583-635 | no row when the re-read hours hold the hour or any step fails; a normalised free hour keeps the table free of double bookings |
| ReservaDao.NormalizeHora | app/src/main/java/com/jlobatonm/socialclub_app/database/ReservaDao.java:117-121 | the reported hour has at most 5 characters and does not start with a blank |
| ReservaDao.NormalizeHoraOfStored | app/src/main/java/com/jlobatonm/socialclub_app/database/ReservaDao.java:117-121 | an `HH:MM` hour with seconds or surrounding blanks normalises to the `HH:MM` |
| ReservaDao.NormalizeHoraIdempotent | app/src/main/java/com/jlobatonm/socialclub_app/database/ReservaDao.java:117-121 | normalising twice equals normalising once iff the result does not end in a blank |
| ReservaDao.NormalizeHoraNotIdempotent | app/src/main/java/com/jlobatonm/socialclub_app/database/ReservaDao.java:117-121 | `"ab c d"` normalises to `"ab c "` and then to `"ab c"` |
| ReservaDao.Horas | app/src/main/java/com/jlobatonm/socialclub_app/database/ReservaDao.java:115-124 | one hour per row of the result set |
| ReservaDao.HorasAt | app/src/main/java/com/jlobatonm/socialclub_app/database/ReservaDao.java:116-122 | the k-th hour is the k-th row's hour, normalised |
| ReservaDao.HorasReservadas | app/src/main/java/com/jlobatonm/socialclub_app/database/ReservaDao.java:108-124 | definition (no contract): the normalised hours of the rows of that facility and day, in table order; `HorasReservadasMembership` and `HorasReservadasAppend` state what it holds |
| ReservaDao.HorasConcat | app/src/main/java/com/jlobatonm/socialclub_app/database/ReservaDao.java:116-124 | the hours of two result sets in a row are the two lists of hours in a row |
| ReservaDao.HorasReservadasMembership | app/src/main/java/com/jlobatonm/socialclub_app/database/ReservaDao.java:108-124 | an hour is reported iff some row of that facility and day stores it |
| ReservaDao.HorasReservadasAppend | app/src/main/java/com/jlobatonm/socialclub_app/database/ReservaDao.java:108-124 | a new row adds its hour at the end of its own facility and day's list and changes no other list |
| ReservaDao.SocioOrderIsTotalPreorder | app/src/main/java/com/jlobatonm/socialclub_app/database/ReservaDao.java:172 | `fecha DESC, hora ASC` is a total preorder |
| ReservaDao.ReservasDeSocio | app/src/main/java/com/jlobatonm/socialclub_app/database/ReservaDao.java:172-194 | definition (no contract): the member's rows sorted by `fecha DESC, hora ASC`; `ReservasDeSocioSpec` states what it holds |
| ReservaDao.ReservasDeSocioSpec | app/src/main/java/com/jlobatonm/socialclub_app/database/ReservaDao.java:172-194 | exactly the member's rows, each as often as stored, newest day first then ascending hour |
| ReservaDao.ToReserva | app/src/main/java/com/jlobatonm/socialclub_app/database/ReservaDao.java:179-191 | a null `id_empleado` becomes 0 and the other columns are copied |
| ReservaDao.CheckedInsertKeepsNoDoubleBooking | app/src/main/java/com/jlobatonm/socialclub_app/database/ReservaDao.java:53-60 | inserting a row whose normalised hour is not yet reported keeps every slot booked at most once |
| ReservaDao.UncheckedInsertDoubleBooks | app/src/main/java/com/jlobatonm/socialclub_app/database/ReservaDao.java:53 | the insert alone allows two rows for one facility, day and hour |
| ReservaDao.ReservaTable.constructor | app/src/main/java/com/jlobatonm/socialclub_app/database/ReservaDao.java:53 | an empty table whose ids start at 1 |
| ReservaDao.ReservaTable.GuardarReserva | app/src/main/java/com/jlobatonm/socialclub_app/database/ReservaDao.java:49-76 | exactly one row with a fresh id, the given day, hour, facility and member and a null employee; success iff a row was added; a fault changes nothing |
| ReservaDao.ReservaTable.ObtenerHorasReservadas | app/src/main/java/com/jlobatonm/socialclub_app/database/ReservaDao.java:105-139 | the normalised hours of that facility and day, or the fault |
| ReservaDao.ReservaTable.GetReservasBySocio | app/src/main/java/com/jlobatonm/socialclub_app/database/ReservaDao.java:167-210 | the member's rows in the query's order as `Reserva`s, or the fault |
| ReservaDao.ReservaTable.EliminarReserva | app/src/main/java/com/jlobatonm/socialclub_app/database/ReservaDao.java:236-259 | removes exactly the rows with that id and keeps the rest in order; "No se encontró la reserva a eliminar" when none went |
| ReservaDao.WithoutReserva | app/src/main/java/com/jlobatonm/socialclub_app/database/ReservaDao.java:239-243 | definition (no contract): the table without the rows of that id, the rest in order; `EliminarReserva` and `DeleteKeepsNoDoubleBooking` state what follows |
| ReservaDao.DeleteKeepsNoDoubleBooking | app/src/main/java/com/jlobatonm/socialclub_app/database/ReservaDao.java:239-243 | deleting never creates a double booking |
| ReservasViewModel.ViewModel.constructor | app/src/main/java/com/jlobatonm/socialclub_app/ui/reservas/ReservasViewModel.java:28-39 | the constructor starts `cargarInstalaciones`: nothing loaded, no error, `isLoading` true and `reservaRealizada` false |
| ReservasViewModel.ViewModel.CargarInstalaciones | app/src/main/java/com/jlobatonm/socialclub_app/ui/reservas/ReservasViewModel.java:63-66 | raises `isLoading` and clears the error, nothing else |
| ReservasViewModel.ViewModel.OnInstalacionesResult | app/src/main/java/com/jlobatonm/socialclub_app/ui/reservas/ReservasViewModel.java:73-76 | stores the facilities and lowers `isLoading` |
| ReservasViewModel.ViewModel.OnInstalacionesError | app/src/main/java/com/jlobatonm/socialclub_app/ui/reservas/ReservasViewModel.java:79-83 | the prefixed error and `isLoading` false |
| ReservasViewModel.ViewModel.OnConnectionFailure | app/src/main/java/com/jlobatonm/socialclub_app/ui/reservas/ReservasViewModel.java:188-192 | "Error de conexión: " + message and `isLoading` false; `reservaRealizada` untouched |
| ReservasViewModel.ViewModel.CargarHorariosReservados | app/src/main/java/com/jlobatonm/socialclub_app/ui/reservas/ReservasViewModel.java:102-111 | id 0 or no date only sets "Instalación o fecha no válidas"; otherwise raises `isLoading`, clears the error and starts the load |
| ReservasViewModel.ViewModel.OnHorasResult | app/src/main/java/com/jlobatonm/socialclub_app/ui/reservas/ReservasViewModel.java:118-121 | stores the hours and lowers `isLoading` |
| ReservasViewModel.ViewModel.OnHorasError | app/src/main/java/com/jlobatonm/socialclub_app/ui/reservas/ReservasViewModel.java:124-128 | the prefixed error and `isLoading` false |
| ReservasViewModel.ViewModel.RealizarReserva | app/src/main/java/com/jlobatonm/socialclub_app/ui/reservas/ReservasViewModel.java:150-158 | invalid data only sets "Datos de reserva incompletos o inválidos"; valid data sets loading, clears the error, lowers `reservaRealizada` and starts the save |
| ReservasViewModel.DatosReservaValidos | app/src/main/java/com/jlobatonm/socialclub_app/ui/reservas/ReservasViewModel.java:151 | definition (no contract): member number neither null nor empty, facility id positive, a date, hour neither null nor empty; `RealizarReserva` states what each case does |
| ReservasViewModel.ViewModel.OnReservaGuardada | app/src/main/java/com/jlobatonm/socialclub_app/ui/reservas/ReservasViewModel.java:166-176 | `reservaRealizada` true and the reload for the same facility and date started |
| ReservasViewModel.ViewModel.OnReservaError | app/src/main/java/com/jlobatonm/socialclub_app/ui/reservas/ReservasViewModel.java:179-183 | the prefixed error, `isLoading` false, `reservaRealizada` untouched |
| ReservasViewModel.ViewModel.ResetReservaRealizada | app/src/main/java/com/jlobatonm/socialclub_app/ui/reservas/ReservasViewModel.java:200-202 | lowers `reservaRealizada` and changes nothing else |
| MisReservas.FechaFrenteAhora | app/src/main/java/com/jlobatonm/socialclub_app/ui/mis_reservas/MisReservasFragment.java:218-220 | a booking's date is after now iff its day is after today, and on the same day iff it is today |
| MisReservas.IsSameDay | app/src/main/java/com/jlobatonm/socialclub_app/ui/mis_reservas/MisReservasFragment.java:273-280 | definition (no contract): same YEAR and DAY_OF_YEAR, that is the same day number; `FechaFrenteAhora` relates it to a booking's day |
| MisReservas.HoraCompleta | app/src/main/java/com/jlobatonm/socialclub_app/ui/mis_reservas/MisReservasFragment.java:224-231 | an hour with a colon is left as it is |
| MisReservas.HoraPosterior | app/src/main/java/com/jlobatonm/socialclub_app/ui/mis_reservas/MisReservasFragment.java:224-249 | definition (no contract): the first two `:`-pieces of the completed hour parse and come strictly after the current hour and minute; the `HoraPosterior*` lemmas state it per hour shape |
| MisReservas.SigueActiva | app/src/main/java/com/jlobatonm/socialclub_app/ui/mis_reservas/MisReservasFragment.java:215-251 | definition (no contract): the loop body's decision; `ActivaSegunDia` states it per day |
| MisReservas.Activas | app/src/main/java/com/jlobatonm/socialclub_app/ui/mis_reservas/MisReservasFragment.java:213-251 | definition (no contract): the bookings `SigueActiva` keeps, in input order; `ActivasMembership` and `FiltrarActivas` state what it holds |
| MisReservas.ActivaSegunDia | app/src/main/java/com/jlobatonm/socialclub_app/ui/mis_reservas/MisReservasFragment.java:215-251 | later days kept, earlier days dropped, today decided by the hour test |
| MisReservas.HoraPosteriorHHMM | app/src/main/java/com/jlobatonm/socialclub_app/ui/mis_reservas/MisReservasFragment.java:233-244 | on `HH:MM` the hour test is (h, m) strictly after the current hour and minute |
| MisReservas.HoraPosteriorMinutoDelDia | app/src/main/java/com/jlobatonm/socialclub_app/ui/mis_reservas/MisReservasFragment.java:233-244 | with minutes below 60, kept iff the booked minute of the day is after the current one |
| MisReservas.HoraPosteriorSinMinutos | app/src/main/java/com/jlobatonm/socialclub_app/ui/mis_reservas/MisReservasFragment.java:224-244 | a bare `H` is read as `HH:00`: kept iff its hour is after the current hour |
| MisReservas.HoraPosteriorIlegible | app/src/main/java/com/jlobatonm/socialclub_app/ui/mis_reservas/MisReservasFragment.java:224-249 | a colon-less hour that does not parse hides the booking |
| MisReservas.ReservaDeHoyVisible | app/src/main/java/com/jlobatonm/socialclub_app/ui/mis_reservas/MisReservasFragment.java:220-245 | a booking for today made by the booking screen stays visible until the minute its slot starts |
| MisReservas.FiltrarActivas | app/src/main/java/com/jlobatonm/socialclub_app/ui/mis_reservas/MisReservasFragment.java:213-251 | the loop keeps exactly the active bookings, in input order |
| MisReservas.ActivasMembership | app/src/main/java/com/jlobatonm/socialclub_app/ui/mis_reservas/MisReservasFragment.java:215-251 | a booking is listed iff it was given and is active |
| MisReservas.FechaLeIsTotalPreorder | app/src/main/java/com/jlobatonm/socialclub_app/ui/mis_reservas/MisReservasFragment.java:258 | comparing by date is a total preorder |
| MisReservas.PorFecha | app/src/main/java/com/jlobatonm/socialclub_app/ui/mis_reservas/MisReservasFragment.java:258 | definition (no contract): a stable sort by date; `PorFechaOrdenada` and `PorFechaEstable` state what it holds |
| MisReservas.PorFechaOrdenada | app/src/main/java/com/jlobatonm/socialclub_app/ui/mis_reservas/MisReservasFragment.java:258 | the sort is a permutation in ascending day order |
| MisReservas.PorFechaEstable | app/src/main/java/com/jlobatonm/socialclub_app/ui/mis_reservas/MisReservasFragment.java:258 | bookings of one day keep their input order |
| MisReservas.HoraVisible | app/src/main/java/com/jlobatonm/socialclub_app/ui/mis_reservas/MisReservasFragment.java:303-319 | the card's hour; the uncaught `NumberFormatException` happens only for hours with a colon |
| MisReservas.HoraVisibleHHMM | app/src/main/java/com/jlobatonm/socialclub_app/ui/mis_reservas/MisReservasFragment.java:312-317 | an `HH:MM` hour is shown as it is |
| MisReservas.HoraVisibleSinMinutos | app/src/main/java/com/jlobatonm/socialclub_app/ui/mis_reservas/MisReservasFragment.java:305-311 | a bare `H` is shown as `%02d:00` |
| MisReservas.HoraVisibleIdempotent | app/src/main/java/com/jlobatonm/socialclub_app/ui/mis_reservas/MisReservasFragment.java:303-319 | showing a shown hour again changes nothing |
| MisReservas.ImagenDeInstalacion | app/src/main/java/com/jlobatonm/socialclub_app/ui/mis_reservas/MisReservasFragment.java:332-340 | definition (no contract): a switch on the truncating remainder by 5; `ImagenNoNegativa` and `ImagenNegativa` state the picture per id |
| MisReservas.ImagenNoNegativa | app/src/main/java/com/jlobatonm/socialclub_app/ui/mis_reservas/MisReservasFragment.java:332-340 | for ids from 0 up: 0 and 1 padel, 2 the club logo, 3 football, 4 hall, by id mod 5 |
| MisReservas.ImagenNegativa | app/src/main/java/com/jlobatonm/socialclub_app/ui/mis_reservas/MisReservasFragment.java:332-340 | a negative id gets padel iff it is a multiple of 5, otherwise the club logo |
| MisReservas.CrearTarjeta | app/src/main/java/com/jlobatonm/socialclub_app/ui/mis_reservas/MisReservasFragment.java:288-324 | a card exists iff the hour can be shown, with the booking's day, facility and shown hour |
| MisReservas.AnadirTarjetas | app/src/main/java/com/jlobatonm/socialclub_app/ui/mis_reservas/MisReservasFragment.java:260-263 | a card per booking in order, or the cards before the first booking whose card throws |
| MisReservas.MostrarReservas | app/src/main/java/com/jlobatonm/socialclub_app/ui/mis_reservas/MisReservasFragment.java:204-264 | the message iff no booking is active; otherwise the cards of the active bookings sorted by day |
| MisReservas.AlRecibirReservas | app/src/main/java/com/jlobatonm/socialclub_app/ui/mis_reservas/MisReservasFragment.java:68-76 | nothing for null, the message for an empty list, `mostrarReservas` otherwise |
| Home.CategoriaEdad | app/src/main/java/com/jlobatonm/socialclub_app/ui/home/HomeFragment.java:316-327 | the category is one whose range (<=2, 3-12, 13-18, >=19) holds the age |
| Home.CategoriaEdadRango | app/src/main/java/com/jlobatonm/socialclub_app/ui/home/HomeFragment.java:316-327 | each age gets exactly the category whose range (<=2, 3-12, 13-18, >=19) holds it, so the four partition the ages |
| Home.CategoriaEdadMonotona | app/src/main/java/com/jlobatonm/socialclub_app/ui/home/HomeFragment.java:318-326 | an older age never gets a younger category |
| Home.DayOfYearOrder | app/src/main/java/com/jlobatonm/socialclub_app/ui/home/HomeFragment.java:340-342 | between years of the same leap status, DAY_OF_YEAR orders dates as month and day do |
| Home.CalcularEdad | app/src/main/java/com/jlobatonm/socialclub_app/ui/home/HomeFragment.java:335-344 | the age as written is the year difference or one less; `CalcularEdadMismoTipoDeAnio` and `CalcularEdadBisiesto` say when it is the age in completed years |
| Home.EdadCumplidaCuentaAniversarios | app/src/main/java/com/jlobatonm/socialclub_app/ui/home/HomeFragment.java:335-344 | the corrected age k is the one whose k-th birthday has come and whose (k+1)-th has not |
| Home.CalcularEdadMismoTipoDeAnio | app/src/main/java/com/jlobatonm/socialclub_app/ui/home/HomeFragment.java:335-344 | the age as written is the age in completed years when both years have the same leap status |
| Home.CalcularEdadBisiesto | app/src/main/java/com/jlobatonm/socialclub_app/ui/home/HomeFragment.java:335-344 | across a leap and a common year the age as written is one off, both ways |
| Home.CategoriaSocio | app/src/main/java/com/jlobatonm/socialclub_app/ui/home/FullScreenCarnetDialog.java:134-162 | the card's category is the one whose range holds the age in completed years |
| Home.EsFuturo | app/src/main/java/com/jlobatonm/socialclub_app/ui/home/HomeFragment.java:160 | definition (no contract): the event's midnight is not before now; `EsFuturoSegunDia` states it by day |
| Home.EsFuturoSegunDia | app/src/main/java/com/jlobatonm/socialclub_app/ui/home/HomeFragment.java:160 | an event is listed iff its day is after today, or its midnight is exactly now |
| Home.HayEventosFuturos | app/src/main/java/com/jlobatonm/socialclub_app/ui/home/HomeFragment.java:352-360 | the early-return loop is true iff some event's date is not before now |
| Home.PanelDeEventos | app/src/main/java/com/jlobatonm/socialclub_app/ui/home/HomeFragment.java:146-189 | definition (no contract): the message for a null or empty list or one without a coming event, otherwise the coming events in list order; `PanelDeEventosSpec` states what it shows |
| Home.PanelDeEventosSpec | app/src/main/java/com/jlobatonm/socialclub_app/ui/home/HomeFragment.java:144-193 | the message iff the list is null or no event is coming; otherwise exactly the coming events, at least one |
| CarnetDialog.ArgsDistintas | app/src/main/java/com/jlobatonm/socialclub_app/ui/home/FullScreenCarnetDialog.java:38-42 | the five argument keys are distinct |
| CarnetDialog.Bundle.constructor | app/src/main/java/com/jlobatonm/socialclub_app/ui/home/FullScreenCarnetDialog.java:57 | an empty bundle |
| CarnetDialog.Bundle.PutString | app/src/main/java/com/jlobatonm/socialclub_app/ui/home/FullScreenCarnetDialog.java:58-60 | sets that key to the string, null included |
| CarnetDialog.Bundle.PutLong | app/src/main/java/com/jlobatonm/socialclub_app/ui/home/FullScreenCarnetDialog.java:63 | sets that key to the date |
| CarnetDialog.Bundle.PutByteArray | app/src/main/java/com/jlobatonm/socialclub_app/ui/home/FullScreenCarnetDialog.java:67 | sets that key to the bytes |
| CarnetDialog.NewInstance | app/src/main/java/com/jlobatonm/socialclub_app/ui/home/FullScreenCarnetDialog.java:55-72 | a fresh bundle holding the three strings, plus the date and the photo only when present |
| CarnetDialog.ArgumentosLeidos | app/src/main/java/com/jlobatonm/socialclub_app/ui/home/FullScreenCarnetDialog.java:93-107 | reading the bundle back gives the strings ("" for null), the date key iff there is a date, that date, and the photo |
| CarnetDialog.OnViewCreated | app/src/main/java/com/jlobatonm/socialclub_app/ui/home/FullScreenCarnetDialog.java:88-126 | strings with "" defaults, a category iff the date key is present, the photo iff it has bytes, a QR code iff the number is non-empty |
| CarnetDialog.MostrarCarnet | app/src/main/java/com/jlobatonm/socialclub_app/ui/home/FullScreenCarnetDialog.java:55-126 | the round trip: the card shows the member's own data, the category of their birth date, and a QR code iff they have a number |
| EventoService.Nuevos | app/src/main/java/com/jlobatonm/socialclub_app/services/EventoService.java:100-105 | the notifications of one pass are no more than the events |
| EventoService.NuevosIds | app/src/main/java/com/jlobatonm/socialclub_app/services/EventoService.java:100-105 | the ids notified are exactly the batch's ids not notified before |
| EventoService.NuevosSinRepetir | app/src/main/java/com/jlobatonm/socialclub_app/services/EventoService.java:101-103 | no id is notified twice in one batch, duplicates included |
| EventoService.DosConsultas | app/src/main/java/com/jlobatonm/socialclub_app/services/EventoService.java:42 | across two polls no id is notified in both |
| EventoService.Service.constructor | app/src/main/java/com/jlobatonm/socialclub_app/services/EventoService.java:42 | the set starts empty |
| EventoService.Service.VerificarEventosNuevos | app/src/main/java/com/jlobatonm/socialclub_app/services/EventoService.java:92-120 | on success notifies `Nuevos` and adds every id of the batch; a failed connection or query notifies nothing and leaves the set alone |
| PasswordCache.PasswordCache.constructor | app/src/main/java/com/jlobatonm/socialclub_app/utils/PasswordCache.java:25-26 | the password starts null |
| PasswordCache.PasswordCache.SetPassword | app/src/main/java/com/jlobatonm/socialclub_app/utils/PasswordCache.java:46-48 | the password becomes the given one |
| PasswordCache.PasswordCache.GetPassword | app/src/main/java/com/jlobatonm/socialclub_app/utils/PasswordCache.java:55-57 | definition (no contract): the stored password; `EscribirYLeer` and `DosEscrituras` state what it reads after writes |
| PasswordCache.Holder.constructor | app/src/main/java/com/jlobatonm/socialclub_app/utils/PasswordCache.java:18 | no instance yet |
| PasswordCache.Holder.GetInstance | app/src/main/java/com/jlobatonm/socialclub_app/utils/PasswordCache.java:34-39 | the existing instance, or a fresh one with a null password created only when there is none |
| PasswordCache.EscribirYLeer | app/src/main/java/com/jlobatonm/socialclub_app/utils/PasswordCache.java:34-57 | two `getInstance` calls give the same instance, and the second reads what the first wrote |
| PasswordCache.DosEscrituras | app/src/main/java/com/jlobatonm/socialclub_app/utils/PasswordCache.java:46-57 | the last of two writes wins |
| Profile.PasswordChanged | app/src/main/java/com/jlobatonm/socialclub_app/ui/profile/ProfileFragment.java:341-344 | definition (no contract): the field does not show the placeholder and differs from the cached password, a null cache differing from every text; `MostrarDialogoConfirmacion` uses it |
| Profile.SeleccionPosterior | app/src/main/java/com/jlobatonm/socialclub_app/ui/profile/ProfileFragment.java:276-286 | definition (no contract): the picked day at the time of day the picker answers is after the instant it opened; `SeleccionDeHoyRechazada` and `SeleccionPosteriorOtroDia` compare it with the intended test |
| Profile.SeleccionDeHoyRechazada | app/src/main/java/com/jlobatonm/socialclub_app/ui/profile/ProfileFragment.java:276-286 | picking today a moment after the picker opened is refused as a future date |
| Profile.FechaFuturaSpec | app/src/main/java/com/jlobatonm/socialclub_app/ui/profile/ProfileFragment.java:281-286 | the corrected test refuses a day iff all of it lies after the instant the picker opened |
| Profile.SeleccionPosteriorOtroDia | app/src/main/java/com/jlobatonm/socialclub_app/ui/profile/ProfileFragment.java:276-286 | on every other day the test as written and the corrected one agree |
| Profile.Columnas | app/src/main/java/com/jlobatonm/socialclub_app/ui/profile/ProfileFragment.java:506-519 | seven SET columns, eight with the password |
| Profile.IncluyeContrasenia | app/src/main/java/com/jlobatonm/socialclub_app/ui/profile/ProfileFragment.java:510-511 | definition (no contract): a password is cached and the field does not show the placeholder; `ActualizarDatosSocio` binds `contrasenia` exactly then |
| Profile.ActualizarDatosSocio | app/src/main/java/com/jlobatonm/socialclub_app/ui/profile/ProfileFragment.java:506-537 | parameters 1..n hold the columns' values in order, `contrasenia` iff cache not null and text not the placeholder, `numero_socio` last |
| Profile.Perfil.constructor | app/src/main/java/com/jlobatonm/socialclub_app/ui/profile/ProfileFragment.java:74-78 | no member loaded and the photo flag down |
| Profile.Perfil.ElegirFecha | app/src/main/java/com/jlobatonm/socialclub_app/ui/profile/ProfileFragment.java:276-294 | a day after today is refused and leaves the field; any other day is written to it |
| Profile.Perfil.VerificarSiHayCambios | app/src/main/java/com/jlobatonm/socialclub_app/ui/profile/ProfileFragment.java:330-371 | the photo flag rises on a presence or hash difference and never falls; a change iff a text field, the password or the flag says so |
| Profile.Perfil.MostrarDialogoConfirmacion | app/src/main/java/com/jlobatonm/socialclub_app/ui/profile/ProfileFragment.java:304-323 | no member gives "no data" and leaves the photo flag; otherwise the photo flag records a photo removed, added or replaced, and no change gives "no changes", any changed field, password or photo the confirmation |
| Profile.Perfil.GuardarCambios | app/src/main/java/com/jlobatonm/socialclub_app/ui/profile/ProfileFragment.java:445-493 | text fields written first; an unparsable date stops there; otherwise the hash and the cached plain text iff the password changed, the shown photo or none, and the UPDATE of the result |
| Profile.Perfil.TrasGuardar | app/src/main/java/com/jlobatonm/socialclub_app/ui/profile/ProfileFragment.java:483-486 | the delayed reload lowers the photo flag |

## Left out

- Threads, the main-looper `Handler`, `LiveData` posting order and the racy check-then-write between two devices. Effects are modelled as synchronous calls, so only sequential bookings are shown never to double-book.
- The JDBC layer, the SQL text and `MySQLConnection`. The `reserva` table is an in-memory sequence, and a failing statement is a `fault` parameter.
- `HorarioDao`, `InstalacionDao`, `SocioDao` and `EventoDao`: row mappers with no logic. Their results are parameters. The facility name on a booking card is fetched through `InstalacionDao` and is not shown in the model.
- The e-mail and member-number lookups before a booking. The model starts from the member number they yield.
- Time zones, daylight saving and `Calendar` internals. Days are `now / 86400000`, and `isSameDay`'s YEAR and DAY_OF_YEAR comparison is a day-number comparison.
- Clock reads: now and today are parameters.
- `String.format` with a locale other than ASCII digits.
- Date formatting and parsing in the profile. The formatter is a function parameter, and the parse result is an `Option` parameter.
- Notifications, alarms, permissions and `AlarmManager`. The reminder instant is computed, not scheduled.
- The 60-second polling timer in `EventoService`.
- Views, Toasts, dialogs and `isAdded`/`binding == null` guards.
- Image decoding, resizing, JPEG compression, `calcularHashImagen` and ZXing QR generation. The photo hashes and compressed bytes are opaque parameters.
- BCrypt hashing: the hash is a parameter.
- The catch block of `mostrarHorarios`: nothing in the modelled body throws.
- `FullScreenCarnetDialog` repeats `HomeFragment`'s `getCategoriaEdad` and `calcularEdad` verbatim. Both are modelled once, in `Home`.
- Seconds and milliseconds of the current time are dropped wherever the code reads only HOUR_OF_DAY and MINUTE.
- ReservaDao.NormalizeHoraIdempotent: states idempotence only for hours that do not end in a blank after normalisation, because the code is not idempotent on the others (`NormalizeHoraNotIdempotent`).
- Profile.Perfil.ElegirFecha: uses the intended future-date test. The test as written is `SeleccionPosterior`, and the two are compared under Findings.
- Home.CategoriaSocio: uses the age in completed years. The DAY_OF_YEAR age as written is `CalcularEdad`, and the two are compared under Findings.
- JavaText.ParseInt: accepts an optional sign and ASCII digits only. `Integer.parseInt` also accepts other Unicode decimal digits, which no hour or member field here holds.
- ReservaDao.SocioOrder: orders `hora` by Java's `String.compareTo`. The database sorts by the column's collation; the two agree on the `HH:MM` hours the booking screen stores.

## Findings

| source | as written | input that shows it | evidently intended | confidence | as-written member | corrected member |
|---|---|---|---|---|---|---|
| app/src/main/java/com/jlobatonm/socialclub_app/ui/home/HomeFragment.java:335-344 | the age subtracts one when today's DAY_OF_YEAR is below the birth date's; the same code is at FullScreenCarnetDialog.java:153-162 | born 2012-03-01, today 2025-03-01: age 12, though it is the 13th birthday; born 2013-03-01, today 2024-02-29: age 11 a day early | age in completed years, by month and day | not executed | Home.CalcularEdadBisiesto | Home.EdadCumplidaCuentaAniversarios |
| app/src/main/java/com/jlobatonm/socialclub_app/ui/profile/ProfileFragment.java:276-286 | the picked day takes the current time of day and is compared with the instant the picker opened | picker opened at 10:00:00 today, today picked at 10:00:05: refused as "posterior a la fecha actual", though the picker's own maximum date allows today | refuse only days after today | not executed | Profile.SeleccionDeHoyRechazada | Profile.FechaFuturaSpec |
