/**
 * `FullScreenCarnetDialog`: the full-screen member card. `newInstance`
 * packs the member's data into an argument `Bundle`; `onViewCreated` reads
 * it back to fill the card.
 */
module CarnetDialog {
  import opened Wrappers
  import opened Entities
  import opened Home

  /**
   * A value held in a `Bundle`. The birth date travels as its `getTime()`
   * and comes back through `new Date(millis)`, the same date; the model
   * keeps the date itself.
   */
  datatype Valor = Texto(texto: Option<string>) | Milisegundos(fecha: Fecha) | Bytes(bytes: seq<bv8>)

  const ArgSocioNombre: string := "socio_nombre"
  const ArgSocioApellidos: string := "socio_apellidos"
  const ArgSocioNumero: string := "socio_numero"
  const ArgSocioFechaNac: string := "socio_fecha_nac"
  const ArgSocioFoto: string := "socio_foto"

  /** The five argument keys are different keys. */
  lemma ArgsDistintas()
    ensures ArgSocioNombre != ArgSocioApellidos && ArgSocioNombre != ArgSocioNumero
    ensures ArgSocioNombre != ArgSocioFechaNac && ArgSocioNombre != ArgSocioFoto
    ensures ArgSocioApellidos != ArgSocioNumero && ArgSocioApellidos != ArgSocioFechaNac
    ensures ArgSocioApellidos != ArgSocioFoto && ArgSocioNumero != ArgSocioFechaNac
    ensures ArgSocioNumero != ArgSocioFoto && ArgSocioFechaNac != ArgSocioFoto
  {
    assert ArgSocioNombre[6] == 'n' && ArgSocioApellidos[6] == 'a' && ArgSocioNumero[6] == 'n';
    assert ArgSocioNombre[7] == 'o' && ArgSocioNumero[7] == 'u';
    assert ArgSocioFechaNac[6] == 'f' && ArgSocioFoto[6] == 'f' && ArgSocioFechaNac[7] == 'e' && ArgSocioFoto[7] == 'o';
  }

  /** The date `new Date(0)` reads as: what `getLong` gives for a key without a long. */
  const Epoca: Fecha := CivilDate(1970, 1, 1)

  /** The key-value store Android hands from `newInstance` to `onViewCreated`. */
  class Bundle {
    var entries: map<string, Valor>

    constructor ()
      ensures entries == map[]
    {
      entries := map[];
    }

    method PutString(key: string, value: Option<string>)
      modifies this
      ensures entries == old(entries)[key := Texto(value)]
    {
      entries := entries[key := Texto(value)];
    }

    method PutLong(key: string, fecha: Fecha)
      modifies this
      ensures entries == old(entries)[key := Milisegundos(fecha)]
    {
      entries := entries[key := Milisegundos(fecha)];
    }

    method PutByteArray(key: string, bytes: seq<bv8>)
      modifies this
      ensures entries == old(entries)[key := Bytes(bytes)]
    {
      entries := entries[key := Bytes(bytes)];
    }

    /** `getString(key, defaultValue)`: the default for a missing key, a null value or a value of another type. */
    function GetString(key: string, defaultValue: string): string
      reads this
    {
      if key in entries && entries[key].Texto? && entries[key].texto.Some? then entries[key].texto.value
      else defaultValue
    }

    predicate ContainsKey(key: string)
      reads this
    {
      key in entries
    }

    /** `new Date(getLong(key))`: `getLong` gives 0 for a missing key or a value of another type. */
    function GetFecha(key: string): Fecha
      reads this
    {
      if key in entries && entries[key].Milisegundos? then entries[key].fecha else Epoca
    }

    /** `getByteArray(key)`: null for a missing key or a value of another type. */
    function GetByteArray(key: string): Option<seq<bv8>>
      reads this
    {
      if key in entries && entries[key].Bytes? then Some(entries[key].bytes) else None
    }
  }

  /** The entries `newInstance` puts: the three strings always (a null one as a null value), the birth date and the photo only when present. */
  function Argumentos(socio: Socio): map<string, Valor> {
    var textos := map[ArgSocioNombre := Texto(socio.nombre),
                      ArgSocioApellidos := Texto(socio.apellidos),
                      ArgSocioNumero := Texto(socio.numeroSocio)];
    var conFecha := if socio.fechaNacimiento.Some? then textos[ArgSocioFechaNac := Milisegundos(socio.fechaNacimiento.value)] else textos;
    if socio.foto.Some? then conFecha[ArgSocioFoto := Bytes(socio.foto.value)] else conFecha
  }

  /** `newInstance`: a fresh bundle holding the member's entries. */
  method NewInstance(socio: Socio) returns (args: Bundle)
    ensures fresh(args)
    ensures args.entries == Argumentos(socio)
  {
    args := new Bundle();
    args.PutString(ArgSocioNombre, socio.nombre);
    args.PutString(ArgSocioApellidos, socio.apellidos);
    args.PutString(ArgSocioNumero, socio.numeroSocio);
    if socio.fechaNacimiento.Some? {
      args.PutLong(ArgSocioFechaNac, socio.fechaNacimiento.value);
    }
    if socio.foto.Some? {
      args.PutByteArray(ArgSocioFoto, socio.foto.value);
    }
  }

  /**
   * Reading the entries back gives the member's strings ("" for a null
   * one), the birth date exactly when there is one, and the photo.
   */
  lemma ArgumentosLeidos(socio: Socio, b: Bundle)
    requires b.entries == Argumentos(socio)
    ensures b.GetString(ArgSocioNombre, "") == socio.nombre.GetOr("")
    ensures b.GetString(ArgSocioApellidos, "") == socio.apellidos.GetOr("")
    ensures b.GetString(ArgSocioNumero, "") == socio.numeroSocio.GetOr("")
    ensures b.ContainsKey(ArgSocioFechaNac) <==> socio.fechaNacimiento.Some?
    ensures b.ContainsKey(ArgSocioFechaNac) ==> Some(b.GetFecha(ArgSocioFechaNac)) == socio.fechaNacimiento
    ensures b.GetByteArray(ArgSocioFoto) == socio.foto
  {
    ArgsDistintas();
  }

  /** What the card shows. */
  datatype Carnet = Carnet(
    nombre: string,
    apellidos: string,
    numeroSocio: string,
    categoria: Option<Categoria>,
    foto: Option<seq<bv8>>,
    codigoQr: bool)

  /**
   * `onViewCreated`: nothing without arguments; otherwise the strings (""
   * when missing), the age category only when the birth-date key is
   * present, the photo only when it has bytes, and the QR code only for a
   * non-empty member number.
   */
  method OnViewCreated(args: Bundle?, hoy: Fecha) returns (carnet: Option<Carnet>)
    ensures args == null <==> carnet.None?
    ensures args != null ==>
      carnet.value.nombre == args.GetString(ArgSocioNombre, "") &&
      carnet.value.apellidos == args.GetString(ArgSocioApellidos, "") &&
      carnet.value.numeroSocio == args.GetString(ArgSocioNumero, "")
    ensures args != null ==>
      (carnet.value.categoria.Some? <==> args.ContainsKey(ArgSocioFechaNac)) &&
      (carnet.value.categoria.Some? ==> carnet.value.categoria.value == CategoriaSocio(args.GetFecha(ArgSocioFechaNac), hoy))
    ensures args != null ==>
      (carnet.value.foto.Some? <==> args.GetByteArray(ArgSocioFoto).Some? && |args.GetByteArray(ArgSocioFoto).value| > 0) &&
      (carnet.value.foto.Some? ==> carnet.value.foto == args.GetByteArray(ArgSocioFoto))
    ensures args != null ==> (carnet.value.codigoQr <==> carnet.value.numeroSocio != "")
  {
    if args == null {
      return None;
    }
    var nombre := args.GetString(ArgSocioNombre, "");
    var apellidos := args.GetString(ArgSocioApellidos, "");
    var numeroSocio := args.GetString(ArgSocioNumero, "");
    var categoria: Option<Categoria> := None;
    if args.ContainsKey(ArgSocioFechaNac) {
      var fechaNacimiento := args.GetFecha(ArgSocioFechaNac);
      categoria := Some(CategoriaSocio(fechaNacimiento, hoy));
    }
    var foto: Option<seq<bv8>> := None;
    var fotoBytes := args.GetByteArray(ArgSocioFoto);
    if fotoBytes.Some? && |fotoBytes.value| > 0 {
      foto := fotoBytes;
    }
    var codigoQr := numeroSocio != "";
    carnet := Some(Carnet(nombre, apellidos, numeroSocio, categoria, foto, codigoQr));
  }

  /**
   * Opening the card for a member: what `onViewCreated` shows is the
   * member's own data, with the missing strings as "".
   */
  method MostrarCarnet(socio: Socio, hoy: Fecha) returns (carnet: Carnet)
    ensures carnet.nombre == socio.nombre.GetOr("") && carnet.apellidos == socio.apellidos.GetOr("")
    ensures carnet.numeroSocio == socio.numeroSocio.GetOr("")
    ensures carnet.categoria.Some? <==> socio.fechaNacimiento.Some?
    ensures carnet.categoria.Some? ==> carnet.categoria.value == CategoriaSocio(socio.fechaNacimiento.value, hoy)
    ensures carnet.foto.Some? <==> socio.foto.Some? && |socio.foto.value| > 0
    ensures carnet.foto.Some? ==> carnet.foto == socio.foto
    ensures carnet.codigoQr <==> socio.numeroSocio.Some? && socio.numeroSocio.value != ""
  {
    var args := NewInstance(socio);
    ArgumentosLeidos(socio, args);
    var shown := OnViewCreated(args, hoy);
    carnet := shown.value;
  }
}
