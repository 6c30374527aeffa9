/** `TransaccionController.procesarTransaccion`: normalise the request, apply
    the deferred and recurring pre-checks, call the service, and turn its
    outcome (or exception) into an HTTP status and body. */
module TransaccionControlador {
  import opened Wrappers
  import opened JavaLang
  import opened TransaccionModelo
  import opened TransaccionDto
  import CS = ConfiguracionPosServicio
  import CT = CodigoTransaccion
  import opened TransaccionServicio
  import opened Errores

  /** A response body: plain text, or the mapped DTO. */
  datatype Cuerpo = Texto(texto: string) | Dto(dto: TransaccionDTO)

  datatype RespuestaHttp = RespuestaHttp(estado: int, cuerpo: Cuerpo)

  /** The response, together with the transaction table the request leaves. */
  datatype Atencion = Atencion(respuesta: RespuestaHttp, filas: Filas)

  const PagoRechazado: string := "Pago rechazado"
  const MensajeDiferida: string := "La transacción diferida requiere un plazo válido"
  const MensajeRecurrente: string := "La transacción recurrente requiere una frecuencia válida"

  /** `TransaccionMapper.toModel`: the fields the two types share, by name;
      `cvv` and `fechaExpiracion` have no entity field, and `recurrente` no DTO field. */
  function ToModel(d: TransaccionDTO): Transaccion
  {
    Transaccion(d.codTransaccion, d.tipo, d.marca, d.modalidad, d.detalle, d.monto,
                d.codigoUnicoTransaccion, d.fecha, d.estado, d.estadoRecibo, d.moneda,
                d.plazo, d.numeroTarjeta, d.nombreTitular, None, d.frecuenciaDias)
  }

  /** `TransaccionMapper.toDTO`. */
  function ToDto(t: Transaccion): TransaccionDTO
  {
    TransaccionDTO(t.codTransaccion, t.tipo, t.marca, t.modalidad, t.detalle, t.monto,
                   t.codigoUnicoTransaccion, t.fecha, t.estado, t.estadoRecibo, t.moneda,
                   t.numeroTarjeta, t.nombreTitular, t.frecuenciaDias, t.plazo, None, None)
  }

  /** The two mappings are inverse on the fields both types have. */
  lemma MapeoIdaYVuelta(d: TransaccionDTO, t: Transaccion)
    ensures ToDto(ToModel(d)) == d.(cvv := None, fechaExpiracion := None)
    ensures ToModel(ToDto(t)) == t.(recurrente := None)
  {
  }

  predicate SimRecODif(m: Option<string>) { m == Some("SIM") || m == Some("REC") || m == Some("DIF") }

  /** Lines 47-57: tipo is forced to PAG; a modality outside SIM, REC and DIF,
      or none, becomes SIM; nothing else changes. */
  function Normalizar(d: TransaccionDTO): (n: TransaccionDTO)
    ensures n.tipo == Some("PAG")
    ensures SimRecODif(n.modalidad)
    ensures SimRecODif(d.modalidad) ==> n.modalidad == d.modalidad
    ensures !SimRecODif(d.modalidad) ==> n.modalidad == Some("SIM")
    ensures n.(tipo := d.tipo, modalidad := d.modalidad) == d
  {
    d.(tipo := Some("PAG"), modalidad := if SimRecODif(d.modalidad) then d.modalidad else Some("SIM"))
  }

  /** Lines 59-69: the answer given without calling the service, if any. */
  function PreRechazo(n: TransaccionDTO): (h: Option<RespuestaHttp>)
    ensures h.Some? <==>
      || (n.modalidad == Some("DIF") && (n.plazo.None? || n.plazo.value <= 0))
      || (n.modalidad == Some("REC") && (n.frecuenciaDias.None? || n.frecuenciaDias.value <= 0))
    ensures h.Some? ==> h.value.estado == 400
    ensures h.Some? && n.modalidad == Some("DIF") ==> h.value.cuerpo == Texto(MensajeDiferida)
    ensures h.Some? && n.modalidad == Some("REC") ==> h.value.cuerpo == Texto(MensajeRecurrente)
  {
    if n.modalidad == Some("DIF") && (n.plazo.None? || n.plazo.value <= 0) then
      Some(RespuestaHttp(400, Texto(MensajeDiferida)))
    else if n.modalidad == Some("REC") && (n.frecuenciaDias.None? || n.frecuenciaDias.value <= 0) then
      Some(RespuestaHttp(400, Texto(MensajeRecurrente)))
    else None
  }

  /** `TransaccionController.java` lines 76-96: a returned REC row is a 400, any other row a 200 with the
      mapped DTO; validation and communication errors are 400, not-found 404,
      anything else 500; every non-200 body is "Pago rechazado". */
  function Responder(r: Result<Transaccion, Falla>): (h: RespuestaHttp)
    ensures h.estado == 200 <==> r.Success? && r.value.estado != Some("REC")
    ensures h.estado == 200 ==> h.cuerpo == Dto(ToDto(r.value))
    ensures h.estado != 200 ==> h.cuerpo == Texto(PagoRechazado)
    ensures h.estado == 404 <==> r.Failure? && r.error.NoEncontrado?
    ensures h.estado == 500 <==> r.Failure? && !(r.error.Validacion? || r.error.NoEncontrado? || r.error.Comunicacion?)
    ensures h.estado == 200 || h.estado == 400 || h.estado == 404 || h.estado == 500
  {
    match r
    case Success(t) =>
      if t.estado == Some("REC") then RespuestaHttp(400, Texto(PagoRechazado))
      else RespuestaHttp(200, Dto(ToDto(t)))
    case Failure(Validacion(_)) => RespuestaHttp(400, Texto(PagoRechazado))
    case Failure(NoEncontrado(_, _)) => RespuestaHttp(404, Texto(PagoRechazado))
    case Failure(Comunicacion(_, _)) => RespuestaHttp(400, Texto(PagoRechazado))
    case Failure(_) => RespuestaHttp(500, Texto(PagoRechazado))
  }

  /** The whole handler, as a function of the two tables, the request body and
      the service's environment. */
  function Atender(config: CS.Tabla, filas: Filas, d: TransaccionDTO, e: Entorno): Atencion
    requires e.sorteo < CT.Rango
  {
    var n := Normalizar(d);
    match PreRechazo(n)
    case Some(h) => Atencion(h, filas)
    case None =>
      var ef := Procesar(config, filas, ToModel(n), n.cvv, n.fechaExpiracion, e);
      Atencion(Responder(ef.resultado), ef.tabla)
  }

  /** A pre-check rejection answers 400 and never reaches the service, so no row is written. */
  lemma PreRechazoNoEscribe(config: CS.Tabla, filas: Filas, d: TransaccionDTO, e: Entorno)
    requires e.sorteo < CT.Rango && PreRechazo(Normalizar(d)).Some?
    ensures Atender(config, filas, d, e).filas == filas
    ensures Atender(config, filas, d, e).respuesta.estado == 400
  {
  }

  /** The handler never answers 404: the service never lets a not-found through. */
  lemma Nunca404(config: CS.Tabla, filas: Filas, d: TransaccionDTO, e: Entorno)
    requires e.sorteo < CT.Rango
    ensures Atender(config, filas, d, e).respuesta.estado in {200, 400, 500}
  {
    var n := Normalizar(d);
    if PreRechazo(n).None? {
      FallasPosibles(config, filas, ToModel(n), n.cvv, n.fechaExpiracion, e);
    }
  }

  /** For a request that passed `@Valid`: the modality is SIM or REC, so the
      deferred check never fires; the CVV always parses; and the service is
      called exactly unless a REC request has no frequency. */
  lemma PeticionValida(d: TransaccionDTO)
    requires DtoValido(d)
    ensures Normalizar(d).modalidad == d.modalidad && SimORec(d.modalidad)
    ensures d.cvv.Some? ==> ParseInt(d.cvv.value).Some? && d.cvv.value != []
    ensures PreRechazo(Normalizar(d)).Some? <==> d.modalidad == Some("REC") && d.frecuenciaDias.None?
  {
    ModalidadValidaSiSimORec(d.modalidad);
    if d.cvv.Some? {
      CvvValidoSeLee(d.cvv);
      CvvValidoSi3o4Digitos(d.cvv);
    }
  }

  /** End to end, for a request that passed `@Valid` and reached the gateway:
      the answer is 200 exactly when the gateway approved (APR), 500 exactly
      when its reply was empty, and 400 otherwise. */
  lemma AutorizadaSiAprobada(config: CS.Tabla, filas: Filas, d: TransaccionDTO, e: Entorno)
    requires e.sorteo < CT.Rango && DtoValido(d) && PreRechazo(Normalizar(d)).None?
    requires var n := Normalizar(d); LlegaAPasarela(config, ToModel(n), n.cvv, n.fechaExpiracion, e)
    ensures var n := Normalizar(d);
            var g := Contestacion(config, ToModel(n), n.cvv, n.fechaExpiracion, e);
            var h := Atender(config, filas, d, e).respuesta;
            && (h.estado == 200 <==> g.Respuesta? && g.estado == Some("APR"))
            && (h.estado == 500 <==> g.RespuestaNula?)
            && (h.estado != 200 && h.estado != 500 ==> h.estado == 400)
  {
    var n := Normalizar(d);
    var g := Contestacion(config, ToModel(n), n.cvv, n.fechaExpiracion, e);
    if g.Respuesta? {
      RespuestaGuardada(config, filas, ToModel(n), n.cvv, n.fechaExpiracion, e);
    } else if g.FallaComunicacion? {
      FallaGuardada(config, filas, ToModel(n), n.cvv, n.fechaExpiracion, e);
    }
  }

  /** A validated request the gateway could be reached with: the amount is
      positive and the brand present, so the service's own checks reduce to
      the card number (16 characters) and the holder's name (non-empty). */
  lemma ValidacionDeServicio(d: TransaccionDTO)
    requires DtoValido(d) && PreRechazo(Normalizar(d)).None?
    ensures Aceptable(ToModel(Normalizar(d))) <==>
      d.numeroTarjeta.Some? && d.nombreTitular.Some? && d.nombreTitular.value != []
  {
    MontoValidoSiPositivoAcotado(d.monto);
    NumeroTarjetaValidoSi16Digitos(d.numeroTarjeta);
    PeticionValida(d);
  }

  /** For a request that passed `@Valid` and the service's checks, the ENV
      row fits every column of POS_TRANSACCION as declared, key included. */
  lemma FilaEnviadaCabeEnColumnas(config: CS.Tabla, filas: Filas, d: TransaccionDTO, e: Entorno)
    requires EntornoValido(e) && DtoValido(d) && PreRechazo(Normalizar(d)).None?
    requires config != [] && Aceptable(ToModel(Normalizar(d)))
    ensures var c := CT.GenerarCodigoTransaccion(e.sorteo);
            && c in Atender(config, filas, d, e).filas
            && CumpleLongitudes(Atender(config, filas, d, e).filas[c], AnchoCodigoDeclarado)
  {
    var n := Normalizar(d);
    FilaEnviada(config, filas, ToModel(n), n.cvv, n.fechaExpiracion, e);
    MarcaValidaSiConocida(d.marca);
    MonedaValidaSiConocida(d.moneda);
    MontoValidoSiPositivoAcotado(d.monto);
    assert Pow10(20) == 100000000000000000000 by { Pow10Valores(); }
  }

  /** The controller, holding the service it calls. */
  class Controlador {
    const servicio: Servicio

    constructor (servicio: Servicio)
      ensures this.servicio == servicio
    {
      this.servicio := servicio;
    }

    /** `procesarTransaccion`: the request body is normalised in place, checked,
        mapped and handed to the service; its outcome picks the answer. */
    method ProcesarTransaccion(transaccionDTO: TransaccionDTO, e: Entorno) returns (h: RespuestaHttp)
      requires e.sorteo < CT.Rango
      modifies servicio
      ensures Atencion(h, servicio.filas) == Atender(servicio.configuracion.tabla, old(servicio.filas), transaccionDTO, e)
    {
      var d := transaccionDTO;
      d := d.(tipo := Some("PAG"));
      if d.modalidad.Some? {
        if d.modalidad != Some("SIM") && d.modalidad != Some("REC") && d.modalidad != Some("DIF") {
          d := d.(modalidad := Some("SIM"));
        }
      } else {
        d := d.(modalidad := Some("SIM"));
      }
      if d.modalidad == Some("DIF") && (d.plazo.None? || d.plazo.value <= 0) {
        return RespuestaHttp(400, Texto(MensajeDiferida));
      }
      if d.modalidad == Some("REC") && (d.frecuenciaDias.None? || d.frecuenciaDias.value <= 0) {
        return RespuestaHttp(400, Texto(MensajeRecurrente));
      }
      var cvv := d.cvv;
      var fechaExpiracion := d.fechaExpiracion;
      var transaccion := ToModel(d);
      var r := servicio.ProcesarTransaccion(transaccion, cvv, fechaExpiracion, e);
      match r {
        case Success(procesada) =>
          if procesada.estado == Some("REC") {
            h := RespuestaHttp(400, Texto(PagoRechazado));
          } else {
            h := RespuestaHttp(200, Dto(ToDto(procesada)));
          }
        case Failure(Validacion(_)) =>
          h := RespuestaHttp(400, Texto(PagoRechazado));
        case Failure(NoEncontrado(_, _)) =>
          h := RespuestaHttp(404, Texto(PagoRechazado));
        case Failure(Comunicacion(_, _)) =>
          h := RespuestaHttp(400, Texto(PagoRechazado));
        case Failure(_) =>
          h := RespuestaHttp(500, Texto(PagoRechazado));
      }
    }
  }
}
