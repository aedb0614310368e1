/**
 * `ReservasViewModel`: the booking screen's observable state. Each public
 * method does its synchronous part and returns the database request it
 * starts (or `None` when it returns early); the callbacks the request ends
 * in are methods of their own, so the state between the call and the
 * callback is visible.
 */
module ReservasViewModel {
  import opened Wrappers
  import opened Entities

  /** `guardarReserva`'s arguments as `realizarReserva` passes them. */
  datatype SaveRequest = SaveRequest(numeroSocio: string, idInstalacion: int, fecha: Instant, hora: string)

  /** `getHorasReservadas`'s arguments. */
  datatype LoadRequest = LoadRequest(idInstalacion: int, fecha: Instant)

  const DatosInvalidos: string := "Datos de reserva incompletos o inválidos"
  const InstalacionOFechaInvalidas: string := "Instalación o fecha no válidas"

  predicate NullOrEmpty(s: Option<string>) {
    s.None? || s.value == ""
  }

  /** The validation at the top of `realizarReserva`. */
  predicate DatosReservaValidos(numeroSocio: Option<string>, idInstalacion: int, fecha: Option<Instant>, hora: Option<string>) {
    !NullOrEmpty(numeroSocio) && idInstalacion > 0 && fecha.Some? && !NullOrEmpty(hora)
  }

  class ViewModel {
    var instalaciones: Option<seq<Instalacion>>
    var horasReservadas: Option<seq<string>>
    var isLoading: bool
    var errorMessage: Option<string>
    var reservaRealizada: bool

    /** The fields' initial values, then `cargarInstalaciones` started: nothing loaded yet and the load pending. */
    constructor ()
      ensures instalaciones.None? && horasReservadas.None? && errorMessage.None?
      ensures isLoading && !reservaRealizada
    {
      instalaciones := None;
      horasReservadas := None;
      isLoading := false;
      errorMessage := None;
      reservaRealizada := false;
      new;
      CargarInstalaciones();
    }

    /** `cargarInstalaciones`, synchronous part. */
    method CargarInstalaciones()
      modifies this
      ensures isLoading && errorMessage.None?
      ensures instalaciones == old(instalaciones) && horasReservadas == old(horasReservadas)
      ensures reservaRealizada == old(reservaRealizada)
    {
      isLoading := true;
      errorMessage := None;
    }

    method OnInstalacionesResult(resultado: seq<Instalacion>)
      modifies this
      ensures instalaciones == Some(resultado) && !isLoading
      ensures errorMessage == old(errorMessage) && horasReservadas == old(horasReservadas)
      ensures reservaRealizada == old(reservaRealizada)
    {
      instalaciones := Some(resultado);
      isLoading := false;
    }

    method OnInstalacionesError(message: string)
      modifies this
      ensures errorMessage == Some("Error al cargar instalaciones: " + message) && !isLoading
      ensures instalaciones == old(instalaciones) && horasReservadas == old(horasReservadas)
      ensures reservaRealizada == old(reservaRealizada)
    {
      errorMessage := Some("Error al cargar instalaciones: " + message);
      isLoading := false;
    }

    /** The `onFailure` of every connection this view model opens. */
    method OnConnectionFailure(message: string)
      modifies this
      ensures errorMessage == Some("Error de conexión: " + message) && !isLoading
      ensures instalaciones == old(instalaciones) && horasReservadas == old(horasReservadas)
      ensures reservaRealizada == old(reservaRealizada)
    {
      errorMessage := Some("Error de conexión: " + message);
      isLoading := false;
    }

    /**
     * `cargarHorariosReservados`, synchronous part: only facility id 0 and a
     * missing date are refused (a negative id goes through).
     */
    method CargarHorariosReservados(idInstalacion: int, fecha: Option<Instant>) returns (request: Option<LoadRequest>)
      modifies this
      ensures idInstalacion == 0 || fecha.None? ==>
        request.None? && errorMessage == Some(InstalacionOFechaInvalidas) && isLoading == old(isLoading)
      ensures idInstalacion != 0 && fecha.Some? ==>
        request == Some(LoadRequest(idInstalacion, fecha.value)) && isLoading && errorMessage.None?
      ensures instalaciones == old(instalaciones) && horasReservadas == old(horasReservadas)
      ensures reservaRealizada == old(reservaRealizada)
    {
      if idInstalacion == 0 || fecha.None? {
        errorMessage := Some(InstalacionOFechaInvalidas);
        return None;
      }
      isLoading := true;
      errorMessage := None;
      request := Some(LoadRequest(idInstalacion, fecha.value));
    }

    method OnHorasResult(resultado: seq<string>)
      modifies this
      ensures horasReservadas == Some(resultado) && !isLoading
      ensures errorMessage == old(errorMessage) && instalaciones == old(instalaciones)
      ensures reservaRealizada == old(reservaRealizada)
    {
      horasReservadas := Some(resultado);
      isLoading := false;
    }

    method OnHorasError(message: string)
      modifies this
      ensures errorMessage == Some("Error al cargar horarios: " + message) && !isLoading
      ensures instalaciones == old(instalaciones) && horasReservadas == old(horasReservadas)
      ensures reservaRealizada == old(reservaRealizada)
    {
      errorMessage := Some("Error al cargar horarios: " + message);
      isLoading := false;
    }

    /**
     * `realizarReserva`, synchronous part: invalid data only sets the error;
     * valid data clears it, raises `isLoading`, lowers `reservaRealizada` and
     * starts the save.
     */
    method RealizarReserva(numeroSocio: Option<string>, idInstalacion: int, fecha: Option<Instant>, hora: Option<string>)
      returns (request: Option<SaveRequest>)
      modifies this
      ensures !DatosReservaValidos(numeroSocio, idInstalacion, fecha, hora) ==>
        request.None? && errorMessage == Some(DatosInvalidos) &&
        isLoading == old(isLoading) && reservaRealizada == old(reservaRealizada)
      ensures DatosReservaValidos(numeroSocio, idInstalacion, fecha, hora) ==>
        request == Some(SaveRequest(numeroSocio.value, idInstalacion, fecha.value, hora.value)) &&
        isLoading && errorMessage.None? && !reservaRealizada
      ensures instalaciones == old(instalaciones) && horasReservadas == old(horasReservadas)
    {
      if numeroSocio.None? || numeroSocio.value == "" || idInstalacion <= 0 || fecha.None? || hora.None? || hora.value == "" {
        errorMessage := Some(DatosInvalidos);
        return None;
      }
      isLoading := true;
      errorMessage := None;
      reservaRealizada := false;
      request := Some(SaveRequest(numeroSocio.value, idInstalacion, fecha.value, hora.value));
    }

    /**
     * The save's `onSuccess`: the booking is reported done, `isLoading` is
     * lowered, and the reload of the reserved hours for the same facility
     * and date raises it again at once.
     */
    method OnReservaGuardada(saved: SaveRequest) returns (reload: Option<LoadRequest>)
      modifies this
      ensures reservaRealizada
      ensures saved.idInstalacion != 0 ==>
        reload == Some(LoadRequest(saved.idInstalacion, saved.fecha)) && isLoading && errorMessage.None?
      ensures saved.idInstalacion == 0 ==>
        reload.None? && !isLoading && errorMessage == Some(InstalacionOFechaInvalidas)
      ensures instalaciones == old(instalaciones) && horasReservadas == old(horasReservadas)
    {
      reservaRealizada := true;
      isLoading := false;
      reload := CargarHorariosReservados(saved.idInstalacion, Some(saved.fecha));
    }

    method OnReservaError(message: string)
      modifies this
      ensures errorMessage == Some("Error al realizar la reserva: " + message) && !isLoading
      ensures instalaciones == old(instalaciones) && horasReservadas == old(horasReservadas)
      ensures reservaRealizada == old(reservaRealizada)
    {
      errorMessage := Some("Error al realizar la reserva: " + message);
      isLoading := false;
    }

    method ResetReservaRealizada()
      modifies this
      ensures !reservaRealizada
      ensures isLoading == old(isLoading) && errorMessage == old(errorMessage)
      ensures instalaciones == old(instalaciones) && horasReservadas == old(horasReservadas)
    {
      reservaRealizada := false;
    }
  }
}
