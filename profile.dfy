/**
 * `ProfileFragment`: the member's profile form. It detects whether anything
 * was edited, saves the edits into the member record and the password
 * cache, and lays out the positional parameters of the UPDATE statement.
 */
module Profile {
  import opened Wrappers
  import opened Entities
  import PC = PasswordCache

  /** The text the password field shows while the password is untouched. */
  const ContrasenaCifrada: string := "(Contraseña cifrada)"

  /**
   * The password counts as changed when the field does not show the
   * placeholder and differs from the cached password (a null cache differs
   * from every text).
   */
  predicate PasswordChanged(nueva: string, cacheada: Option<string>) {
    nueva != ContrasenaCifrada && cacheada != Some(nueva)
  }

  /** The form's fields, as the fragment's views hold them. */
  datatype Formulario = Formulario(
    nombre: string,
    apellidos: string,
    telefono: string,
    dni: string,
    email: string,
    fechaNacimiento: string,
    contrasenia: string,
    hayFoto: bool)

  /** `!texto.equals(original)`: a null original differs from every text. */
  predicate Difiere(texto: string, original: Option<string>) {
    original != Some(texto)
  }

  /** The stored birth date as the form shows it, or "" when there is none. */
  function FechaOriginal(socio: Socio, formato: Fecha -> string): string {
    if socio.fechaNacimiento.Some? then formato(socio.fechaNacimiento.value) else ""
  }

  /** One of the six text fields differs from the stored member. */
  predicate CamposCambiados(form: Formulario, socio: Socio, formato: Fecha -> string) {
    Difiere(form.nombre, socio.nombre) || Difiere(form.apellidos, socio.apellidos) ||
    Difiere(form.telefono, socio.telefono) || Difiere(form.dni, socio.dni) ||
    Difiere(form.email, socio.email) || form.fechaNacimiento != FechaOriginal(socio, formato)
  }

  /**
   * The photo test: a photo shown and none stored (or the reverse), or both
   * present with different image hashes. The hashes are computed from the
   * pixels and are given.
   */
  predicate FotoDistinta(hayFotoActual: bool, foto: Option<seq<bv8>>, hashActual: string, hashOriginal: string) {
    var hayFotoOriginal := foto.Some? && |foto.value| > 0;
    hayFotoActual != hayFotoOriginal || (hayFotoActual && hashActual != hashOriginal)
  }

  /** What the save button leads to. */
  datatype Dialogo = NoHayDatos | NoHayCambios | ConfirmarCambios

  // ------------------------------------------------ the birth-date picker

  /**
   * The picker's test as written: the picked day at the time of day the
   * picker answers (`Calendar.getInstance()` with the picked year, month and
   * day) is after the instant the picker was opened.
   */
  predicate SeleccionPosterior(seleccion: Day, abierto: Instant, elegido: Instant) {
    Midnight(seleccion) + (elegido - Midnight(DayOf(elegido))) > abierto
  }

  /** Picking today a moment after the picker opened is refused as a future date. */
  lemma SeleccionDeHoyRechazada(abierto: Instant, elegido: Instant)
    requires DayOf(elegido) == DayOf(abierto) && elegido > abierto
    ensures SeleccionPosterior(DayOf(abierto), abierto, elegido)
  {
  }

  /** The intended test: the picked day comes after today. */
  predicate FechaFutura(seleccion: Day, abierto: Instant) {
    seleccion > DayOf(abierto)
  }

  /** A day is refused exactly when all of it lies after the instant the picker opened. */
  lemma FechaFuturaSpec(seleccion: Day, abierto: Instant)
    ensures FechaFutura(seleccion, abierto) <==> Midnight(seleccion) > abierto
  {
  }

  /** Both tests agree on every day but today while the picker is answered on the day it opened. */
  lemma SeleccionPosteriorOtroDia(seleccion: Day, abierto: Instant, elegido: Instant)
    requires DayOf(elegido) == DayOf(abierto) && seleccion != DayOf(abierto)
    ensures SeleccionPosterior(seleccion, abierto, elegido) == FechaFutura(seleccion, abierto)
  {
    if seleccion < DayOf(abierto) {
      assert Midnight(seleccion + 1) <= Midnight(DayOf(abierto));
    }
  }

  // ----------------------------------------------- the UPDATE statement

  /** The columns the UPDATE statement binds, and its WHERE key. */
  datatype Columna = Nombre | Apellidos | Telefono | Dni | Email | FechaNacimiento | Foto | Contrasenia | NumeroSocio

  /** A value bound to a `?`. */
  datatype Parametro = Texto(texto: Option<string>) | FechaSql(fecha: Fecha) | Bytes(bytes: Option<seq<bv8>>)

  /** The SET columns in statement order; `contrasenia` only when it is bound. */
  function Columnas(conContrasenia: bool): (cs: seq<Columna>)
    ensures |cs| == if conContrasenia then 8 else 7
  {
    [Nombre, Apellidos, Telefono, Dni, Email, FechaNacimiento, Foto] + (if conContrasenia then [Contrasenia] else [])
  }

  /** The member field each column is written from. */
  function ValorDe(socio: Socio, c: Columna): Parametro
    requires socio.fechaNacimiento.Some?
  {
    match c
    case Nombre => Texto(socio.nombre)
    case Apellidos => Texto(socio.apellidos)
    case Telefono => Texto(socio.telefono)
    case Dni => Texto(socio.dni)
    case Email => Texto(socio.email)
    case FechaNacimiento => FechaSql(socio.fechaNacimiento.value)
    case Foto => Bytes(socio.foto)
    case Contrasenia => Texto(socio.password)
    case NumeroSocio => Texto(socio.numeroSocio)
  }

  /**
   * The statement's own password test, which differs from
   * `PasswordChanged`: a password is cached and the field does not show
   * the placeholder.
   */
  predicate IncluyeContrasenia(cacheada: Option<string>, textoContrasenia: string) {
    cacheada.Some? && textoContrasenia != ContrasenaCifrada
  }

  /**
   * `actualizarDatosSocio`: the SET columns and the value bound at each
   * `?` position, numbered from 1. The columns' values sit at 1..|columnas|
   * in column order and the member number right after them.
   */
  method ActualizarDatosSocio(socio: Socio, cacheada: Option<string>, textoContrasenia: string)
    returns (columnas: seq<Columna>, parametros: map<int, Parametro>)
    requires socio.fechaNacimiento.Some?
    ensures columnas == Columnas(IncluyeContrasenia(cacheada, textoContrasenia))
    ensures forall k :: k in parametros <==> 1 <= k <= |columnas| + 1
    ensures forall k :: 1 <= k <= |columnas| ==> parametros[k] == ValorDe(socio, columnas[k - 1])
    ensures parametros[|columnas| + 1] == ValorDe(socio, NumeroSocio)
  {
    var passwordChanged := cacheada.Some? && textoContrasenia != ContrasenaCifrada;
    columnas := Columnas(passwordChanged);
    parametros := map[1 := Texto(socio.nombre), 2 := Texto(socio.apellidos), 3 := Texto(socio.telefono),
                      4 := Texto(socio.dni), 5 := Texto(socio.email), 6 := FechaSql(socio.fechaNacimiento.value)];
    var paramIndex := 7;
    parametros := parametros[paramIndex := Bytes(socio.foto)];
    paramIndex := paramIndex + 1;
    if passwordChanged {
      parametros := parametros[paramIndex := Texto(socio.password)];
      paramIndex := paramIndex + 1;
    }
    parametros := parametros[paramIndex := Texto(socio.numeroSocio)];
  }

  /** The form, the member it edits, and the sticky photo flag of the profile screen. */
  class Perfil {
    var currentSocio: Option<Socio>
    var form: Formulario
    var fotoChanged: bool

    constructor (form: Formulario)
      ensures currentSocio.None? && this.form == form && !fotoChanged
    {
      currentSocio := None;
      this.form := form;
      fotoChanged := false;
    }

    /**
     * The picker's answer, with the intended test: a day after today is
     * refused and leaves the field as it was; any other day is shown.
     */
    method ElegirFecha(seleccion: Fecha, abierto: Instant, formato: Fecha -> string) returns (rechazada: bool)
      modifies this
      ensures rechazada <==> DayNumber(seleccion) > DayOf(abierto)
      ensures rechazada ==> form == old(form)
      ensures !rechazada ==> form == old(form).(fechaNacimiento := formato(seleccion))
      ensures currentSocio == old(currentSocio) && fotoChanged == old(fotoChanged)
    {
      if FechaFutura(DayNumber(seleccion), abierto) {
        return true;
      }
      form := form.(fechaNacimiento := formato(seleccion));
      return false;
    }

    /**
     * `verificarSiHayCambios`: raises `fotoChanged` when the photo differs
     * and never lowers it; reports a change when a text field, the password
     * or the photo flag says so.
     */
    method VerificarSiHayCambios(cacheada: Option<string>, hashActual: string, hashOriginal: string, formato: Fecha -> string)
      returns (hayCambios: bool)
      requires currentSocio.Some?
      modifies this
      ensures currentSocio == old(currentSocio) && form == old(form)
      ensures fotoChanged == (old(fotoChanged) || FotoDistinta(form.hayFoto, currentSocio.value.foto, hashActual, hashOriginal))
      ensures hayCambios <==>
        CamposCambiados(form, currentSocio.value, formato) || PasswordChanged(form.contrasenia, cacheada) || fotoChanged
      ensures old(fotoChanged) ==> fotoChanged && hayCambios
    {
      var socio := currentSocio.value;
      var passwordChanged := form.contrasenia != ContrasenaCifrada && cacheada != Some(form.contrasenia);
      var hayFotoOriginal := socio.foto.Some? && |socio.foto.value| > 0;
      if form.hayFoto != hayFotoOriginal {
        fotoChanged := true;
      } else if form.hayFoto {
        if hashActual != hashOriginal {
          fotoChanged := true;
        }
      }
      hayCambios := CamposCambiados(form, socio, formato) || passwordChanged || fotoChanged;
    }

    /** `mostrarDialogoConfirmacion`: no member, no change, or the confirmation dialog. */
    method MostrarDialogoConfirmacion(cacheada: Option<string>, hashActual: string, hashOriginal: string, formato: Fecha -> string)
      returns (dialogo: Dialogo)
      modifies this
      ensures currentSocio.None? <==> dialogo == NoHayDatos
      ensures dialogo == NoHayDatos ==> fotoChanged == old(fotoChanged)
      ensures currentSocio.Some? ==>
        fotoChanged == (old(fotoChanged) || FotoDistinta(form.hayFoto, currentSocio.value.foto, hashActual, hashOriginal))
      ensures currentSocio.Some? ==>
        (dialogo == ConfirmarCambios <==>
          CamposCambiados(form, currentSocio.value, formato) || PasswordChanged(form.contrasenia, cacheada) || fotoChanged)
      ensures currentSocio == old(currentSocio) && form == old(form)
    {
      if currentSocio.None? {
        return NoHayDatos;
      }
      var hayModificaciones := VerificarSiHayCambios(cacheada, hashActual, hashOriginal, formato);
      if !hayModificaciones {
        return NoHayCambios;
      }
      return ConfirmarCambios;
    }

    /**
     * `guardarCambios`. The five text fields are written into the member
     * first; a birth-date text that does not parse (`fechaParseada` is
     * `None`) stops the save there. Otherwise the date is written, a changed
     * password is stored as its hash (`hash`, computed outside) and cached
     * in plain text, the photo is the shown one (`fotoBytes`, its
     * compression) or none, and the UPDATE is built from the result.
     */
    method GuardarCambios(fechaParseada: Option<Fecha>, holder: PC.Holder, hash: string, fotoBytes: seq<bv8>)
      returns (update: Option<(seq<Columna>, map<int, Parametro>)>)
      requires currentSocio.Some?
      modifies this, holder, holder.instance
      ensures form == old(form) && fotoChanged == old(fotoChanged)
      ensures currentSocio.Some?
      ensures var s := currentSocio.value;
        s.nombre == Some(form.nombre) && s.apellidos == Some(form.apellidos) &&
        s.telefono == Some(form.telefono) && s.dni == Some(form.dni) && s.email == Some(form.email) &&
        s.numeroSocio == old(currentSocio.value.numeroSocio)
      ensures fechaParseada.None? ==>
        update.None? && holder.instance == old(holder.instance) &&
        (old(holder.instance) != null ==> holder.instance.password == old(holder.instance.password)) &&
        currentSocio.value.fechaNacimiento == old(currentSocio.value.fechaNacimiento) &&
        currentSocio.value.password == old(currentSocio.value.password) &&
        currentSocio.value.foto == old(currentSocio.value.foto)
      ensures fechaParseada.Some? ==>
        var cacheada := if old(holder.instance) == null then None else old(holder.instance.password);
        var cambiada := PasswordChanged(form.contrasenia, cacheada);
        holder.instance != null &&
        currentSocio.value.fechaNacimiento == fechaParseada &&
        currentSocio.value.password == (if cambiada then Some(hash) else old(currentSocio.value.password)) &&
        holder.instance.password == (if cambiada then Some(form.contrasenia) else cacheada) &&
        currentSocio.value.foto == (if form.hayFoto then Some(fotoBytes) else None) &&
        update.Some? &&
        update.value.0 == Columnas(form.contrasenia != ContrasenaCifrada) &&
        (forall k :: k in update.value.1 <==> 1 <= k <= |update.value.0| + 1) &&
        (forall k :: 1 <= k <= |update.value.0| ==> update.value.1[k] == ValorDe(currentSocio.value, update.value.0[k - 1])) &&
        update.value.1[|update.value.0| + 1] == ValorDe(currentSocio.value, NumeroSocio)
    {
      var s := currentSocio.value;
      s := s.(nombre := Some(form.nombre), apellidos := Some(form.apellidos), telefono := Some(form.telefono),
              dni := Some(form.dni), email := Some(form.email));
      currentSocio := Some(s);
      if fechaParseada.None? {
        return None;
      }
      s := s.(fechaNacimiento := fechaParseada);
      var cache := holder.GetInstance();
      var cachedPassword := cache.GetPassword();
      var passwordChanged := form.contrasenia != ContrasenaCifrada && cachedPassword != Some(form.contrasenia);
      if passwordChanged {
        s := s.(password := Some(hash));
        cache.SetPassword(Some(form.contrasenia));
      }
      if form.hayFoto {
        s := s.(foto := Some(fotoBytes));
      } else {
        s := s.(foto := None);
      }
      currentSocio := Some(s);
      var columnas, parametros := ActualizarDatosSocio(s, cache.GetPassword(), form.contrasenia);
      update := Some((columnas, parametros));
    }

    /** The reload half a second after saving: the photo flag goes back down. */
    method TrasGuardar()
      modifies this
      ensures !fotoChanged && currentSocio == old(currentSocio) && form == old(form)
    {
      fotoChanged := false;
    }
  }
}
