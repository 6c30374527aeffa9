/** `TransaccionService.procesarTransaccion`: look up the terminal
    configuration, validate and normalise the payment, save an ENV row, call
    the payment gateway, and save a second row with the answer (-RESP) or
    with the communication failure (-ERROR).

    The transaction table is a map from COD_TRANSACCION to the stored row;
    `save` is JPA's merge, which writes the row under its key (replacing a row
    already there) and returns the managed copy, whose transient fields are
    `null`. The random draws, the clock and the gateway are inputs. */
module TransaccionServicio {
  import opened Wrappers
  import opened JavaLang
  import opened CodigoTransaccion
  import opened TransaccionModelo
  import CP = ConfiguracionPosModelo
  import CS = ConfiguracionPosServicio
  import opened Errores

  type Filas = map<string, Fila>

  /** `TransaccionRequestDTO`, the body sent to the gateway. */
  datatype SolicitudPasarela = SolicitudPasarela(
    codigoPOS: Option<string>,
    codigoComercio: Option<string>,
    tipo: Option<string>,
    marca: Option<string>,
    modalidad: Option<string>,
    monto: Option<int>,
    moneda: Option<string>,
    pais: Option<string>,
    plazo: Option<int>,
    numeroTarjeta: Option<string>,
    nombreTitular: Option<string>,
    codigoSeguridad: Option<int>,
    fechaExpiracion: Option<string>,
    codigoUnicoTransaccion: Option<string>,
    referencia: Option<string>,
    recurrente: Option<bool>,
    frecuenciaDias: Option<int>)

  const SolicitudVacia: SolicitudPasarela :=
    SolicitudPasarela(None, None, None, None, None, None, None, None, None,
                      None, None, None, None, None, None, None, None)

  /** What the Feign call yields: the decoded `TransaccionResponseDTO` (only
      `estado` and `mensaje` are read), a body that decodes to `null`, or a
      `FeignException` with its message. */
  datatype RespuestaPasarela =
    | Respuesta(estado: Option<string>, mensaje: Option<string>)
    | RespuestaNula
    | FallaComunicacion(mensaje: Option<string>)

  /** The values the service takes from outside: the correlation UUID, the
      draw `(int) (Math.random() * 10000000)`, the two readings of the clock
      (the ENV row, then the second row), the request-id UUID, and the gateway. */
  datatype Entorno = Entorno(
    uuid: string,
    sorteo: nat,
    ahoraEnvio: Instant,
    ahoraRespuesta: Instant,
    idSolicitud: string,
    pasarela: (string, SolicitudPasarela) -> RespuestaPasarela)

  /** What the environment guarantees: the draw lies below 10^7 and
      `UUID.toString()` is 36 characters long. */
  predicate EntornoValido(e: Entorno)
  {
    e.sorteo < Rango && |e.uuid| == 36
  }

  const MensajeSinConfiguracion: string := "Terminal POS no configurado correctamente"
  const MensajeMonto: string := "El monto debe ser mayor a 0"
  const MensajeTarjeta: string := "El número de tarjeta debe tener 16 dígitos"
  const MensajeTitular: string := "El nombre del titular es requerido"
  const MensajeMarca: string := "La marca de la tarjeta es requerida"
  const MensajeFrecuencia: string := "La frecuencia para una transacción recurrente debe ser mayor a 0"
  const PrefijoErrorComunicacion: string := "Error de comunicación: "
  const ServicioPasarela: string := "Payment Gateway"
  const SufijoRespuesta: string := "-RESP"
  const SufijoError: string := "-ERROR"

  /** `obtenerConfiguracionPOS`: the local configuration; its not-found
      becomes a validation error. */
  function ObtenerConfiguracionPOS(config: CS.Tabla): (r: Result<CP.ConfiguracionPos, Falla>)
    ensures r.Success? <==> config != []
    ensures r.Success? ==> r.value == config[0]
    ensures r.Failure? ==> r.error == Validacion(MensajeSinConfiguracion)
  {
    match CS.ObtenerConfiguracionLocal(config)
    case Success(c) => Success(c)
    case Failure(NoEncontrado(_, _)) => Failure(Validacion(MensajeSinConfiguracion))
    case Failure(f) => Failure(f)
  }

  predicate MontoPositivo(t: Transaccion) { t.monto.Some? && t.monto.value > 0 }
  predicate TarjetaDe16(t: Transaccion) { t.numeroTarjeta.Some? && |t.numeroTarjeta.value| == 16 }
  predicate TitularPresente(t: Transaccion) { t.nombreTitular.Some? && t.nombreTitular.value != [] }
  predicate FrecuenciaSuficiente(t: Transaccion)
  {
    t.modalidad == Some("REC") ==> t.frecuenciaDias.Some? && t.frecuenciaDias.value >= 1
  }

  /** Every check of `validarTransaccion` passes. */
  predicate Aceptable(t: Transaccion)
  {
    MontoPositivo(t) && TarjetaDe16(t) && TitularPresente(t) && t.marca.Some? && FrecuenciaSuficiente(t)
  }

  predicate SimORec(m: Option<string>) { m == Some("SIM") || m == Some("REC") }

  /** Any modality other than SIM or REC (DIF and `null` included) becomes SIM. */
  function ModalidadNormalizada(m: Option<string>): (r: Option<string>)
    ensures SimORec(r)
    ensures SimORec(m) ==> r == m
  {
    if SimORec(m) then m else Some("SIM")
  }

  /** `validarTransaccion`: the checks in their order, each failing with its
      own message; on success tipo is PAG, the modality SIM or REC, a missing
      currency USD, and nothing else is touched. */
  function Validada(t: Transaccion): (r: Result<Transaccion, Falla>)
    ensures r.Success? <==> Aceptable(t)
    ensures !MontoPositivo(t) ==> r == Failure(Validacion(MensajeMonto))
    ensures MontoPositivo(t) && !TarjetaDe16(t) ==> r == Failure(Validacion(MensajeTarjeta))
    ensures MontoPositivo(t) && TarjetaDe16(t) && !TitularPresente(t) ==> r == Failure(Validacion(MensajeTitular))
    ensures MontoPositivo(t) && TarjetaDe16(t) && TitularPresente(t) && t.marca.None?
            ==> r == Failure(Validacion(MensajeMarca))
    ensures MontoPositivo(t) && TarjetaDe16(t) && TitularPresente(t) && t.marca.Some? && !FrecuenciaSuficiente(t)
            ==> r == Failure(Validacion(MensajeFrecuencia))
    ensures r.Success? ==>
      && r.value.tipo == Some("PAG")
      && SimORec(r.value.modalidad) && (SimORec(t.modalidad) ==> r.value.modalidad == t.modalidad)
      && r.value.moneda == (if t.moneda.None? then Some("USD") else t.moneda)
      && r.value.(tipo := t.tipo, modalidad := t.modalidad, moneda := t.moneda) == t
  {
    if !MontoPositivo(t) then Failure(Validacion(MensajeMonto))
    else if !TarjetaDe16(t) then Failure(Validacion(MensajeTarjeta))
    else if !TitularPresente(t) then Failure(Validacion(MensajeTitular))
    else if t.marca.None? then Failure(Validacion(MensajeMarca))
    else if !FrecuenciaSuficiente(t) then Failure(Validacion(MensajeFrecuencia))
    else
      Success(t.(tipo := Some("PAG"), modalidad := ModalidadNormalizada(t.modalidad),
                 moneda := if t.moneda.None? then Some("USD") else t.moneda))
  }

  /** Validating an already validated transaction changes nothing more. */
  lemma ValidacionIdempotente(t: Transaccion)
    requires Validada(t).Success?
    ensures Validada(Validada(t).value) == Validada(t)
  {
    var v := Validada(t).value;
    assert Aceptable(v);
  }

  /** The transaction as saved with state ENV (lines 46-60). */
  function Enviada(t: Transaccion, cod: string, e: Entorno): Transaccion
  {
    t.(codTransaccion := Some(cod), codigoUnicoTransaccion := Some(e.uuid), fecha := Some(e.ahoraEnvio),
       estado := Some("ENV"), estadoRecibo := Some("PEN"), tipo := Some("PAG"),
       modalidad := ModalidadNormalizada(t.modalidad))
  }

  /** The request `enviarTransaccionPaymentGateway` builds, or the
      `NumberFormatException` of parsing a non-numeric CVV. */
  function SolicitudGateway(t: Transaccion, cfg: CP.ConfiguracionPos, cvv: Option<string>,
                            fechaExpiracion: Option<string>): (r: Result<SolicitudPasarela, Falla>)
    ensures r.Failure? <==> cvv.Some? && cvv.value != [] && ParseInt(cvv.value).None?
    ensures r.Failure? ==> r.error == FormatoNumerico(cvv.value)
    ensures r.Success? ==>
      && r.value.codigoPOS == cfg.codigoPos && r.value.codigoComercio == cfg.codigoComercio
      && r.value.pais.None? && r.value.referencia.None?
      && r.value.tipo == t.tipo && r.value.marca == t.marca && r.value.modalidad == t.modalidad
      && r.value.monto == t.monto && r.value.moneda == t.moneda
      && r.value.numeroTarjeta == t.numeroTarjeta && r.value.nombreTitular == t.nombreTitular
      && r.value.codigoUnicoTransaccion == t.codigoUnicoTransaccion
    ensures r.Success? ==>
      && (r.value.codigoSeguridad.Some? <==> cvv.Some? && cvv.value != [])
      && (r.value.codigoSeguridad.Some? ==> ParseInt(cvv.value) == r.value.codigoSeguridad)
    ensures r.Success? ==>
      r.value.fechaExpiracion == if fechaExpiracion.Some? && fechaExpiracion.value != [] then fechaExpiracion else None
    ensures r.Success? ==>
      && (r.value.recurrente.Some? <==> t.modalidad == Some("REC")) && r.value.recurrente != Some(false)
      && r.value.frecuenciaDias == (if t.modalidad == Some("REC") then t.frecuenciaDias else None)
      && r.value.plazo == (if t.modalidad == Some("SIM") then t.plazo else None)
  {
    var base := SolicitudVacia.(
      codigoPOS := cfg.codigoPos, codigoComercio := cfg.codigoComercio, tipo := t.tipo,
      marca := t.marca, modalidad := t.modalidad, monto := t.monto, moneda := t.moneda,
      numeroTarjeta := t.numeroTarjeta, nombreTitular := t.nombreTitular,
      codigoUnicoTransaccion := t.codigoUnicoTransaccion);
    var seguridad: Result<Option<int>, Falla> :=
      if cvv.None? || cvv.value == [] then Success(None)
      else match ParseInt(cvv.value)
        case None => Failure(FormatoNumerico(cvv.value))
        case Some(n) => Success(Some(n));
    if seguridad.Failure? then Failure(seguridad.error)
    else
      var s := base.(codigoSeguridad := seguridad.value);
      var s := if fechaExpiracion.Some? && fechaExpiracion.value != [] then s.(fechaExpiracion := fechaExpiracion) else s;
      var s := if t.modalidad == Some("REC") then s.(recurrente := Some(true), frecuenciaDias := t.frecuenciaDias) else s;
      var s := if t.modalidad == Some("SIM") && t.plazo.Some? then s.(plazo := t.plazo) else s;
      Success(s)
  }

  /** The second row before the gateway answers (lines 68-86). */
  function Copia(t: Transaccion, cod: string, e: Entorno): Transaccion
  {
    Nueva.(codTransaccion := Some(cod), codigoUnicoTransaccion := Some(e.uuid), fecha := Some(e.ahoraRespuesta),
           tipo := t.tipo, marca := t.marca, modalidad := t.modalidad, detalle := t.detalle,
           monto := t.monto, moneda := t.moneda, numeroTarjeta := t.numeroTarjeta,
           nombreTitular := t.nombreTitular, frecuenciaDias := t.frecuenciaDias, plazo := t.plazo,
           estadoRecibo := Some("PEN"))
  }

  /** The -RESP row: AUT when the gateway approved, otherwise REC with the
      gateway's message as detail. */
  function FilaRespuesta(t: Transaccion, cod: string, e: Entorno, estado: Option<string>, mensaje: Option<string>): Transaccion
  {
    var copia := Copia(t, cod + SufijoRespuesta, e);
    if estado == Some("APR") then copia.(estado := Some("AUT"))
    else copia.(estado := Some("REC"), detalle := mensaje)
  }

  /** The -ERROR row (lines 112-129). */
  function FilaError(t: Transaccion, cod: string, e: Entorno, mensaje: Option<string>): Transaccion
  {
    Copia(t, cod + SufijoError, e).(detalle := Some(PrefijoErrorComunicacion + Show(mensaje)), estado := Some("REC"))
  }

  /** `repository.save(t)` for an entity whose key is set. */
  function Guardar(filas: Filas, t: Transaccion): Filas
    requires t.codTransaccion.Some?
  {
    filas[t.codTransaccion.value := Persistir(t)]
  }

  /** `procesarTransaccion`, as a function of the configuration table, the
      transaction table, the arguments and the environment. */
  function Procesar(config: CS.Tabla, filas: Filas, t: Transaccion, cvv: Option<string>,
                    fechaExpiracion: Option<string>, e: Entorno): Efecto<Transaccion, Filas>
    requires e.sorteo < Rango
  {
    match ObtenerConfiguracionPOS(config)
    case Failure(f) => Efecto(Failure(f), filas)
    case Success(cfg) =>
      match Validada(t)
      case Failure(f) => Efecto(Failure(f), filas)
      case Success(valida) =>
        var cod := GenerarCodigoTransaccion(e.sorteo);
        var enviada := Enviada(valida, cod, e);
        var filas1 := Guardar(filas, enviada);
        match SolicitudGateway(enviada, cfg, cvv, fechaExpiracion)
        case Failure(f) => Efecto(Failure(f), filas1)
        case Success(solicitud) =>
          match e.pasarela(e.idSolicitud, solicitud)
          case RespuestaNula => Efecto(Failure(ReferenciaNula), filas1)
          case Respuesta(estado, mensaje) =>
            var fila := FilaRespuesta(enviada, cod, e, estado, mensaje);
            Efecto(Success(Cargar(Persistir(fila))), Guardar(filas1, fila))
          case FallaComunicacion(mensaje) =>
            Efecto(Failure(Comunicacion(ServicioPasarela, mensaje)), Guardar(filas1, FilaError(enviada, cod, e, mensaje)))
  }

  // What one call of `procesarTransaccion` does to the table.

  /** The gateway is called: the configuration exists, validation passes and
      the request is built. */
  predicate LlegaAPasarela(config: CS.Tabla, t: Transaccion, cvv: Option<string>,
                           fechaExpiracion: Option<string>, e: Entorno)
    requires e.sorteo < Rango
  {
    && config != [] && Validada(t).Success?
    && SolicitudGateway(Enviada(Validada(t).value, GenerarCodigoTransaccion(e.sorteo), e),
                        config[0], cvv, fechaExpiracion).Success?
  }

  /** The gateway's reply to the request the call builds. */
  function Contestacion(config: CS.Tabla, t: Transaccion, cvv: Option<string>,
                        fechaExpiracion: Option<string>, e: Entorno): RespuestaPasarela
    requires e.sorteo < Rango && LlegaAPasarela(config, t, cvv, fechaExpiracion, e)
  {
    e.pasarela(e.idSolicitud, SolicitudGateway(Enviada(Validada(t).value, GenerarCodigoTransaccion(e.sorteo), e),
                                               config[0], cvv, fechaExpiracion).value)
  }

  /** Without a configuration the call fails with a validation error and writes nothing. */
  lemma SinConfiguracionNoEscribe(config: CS.Tabla, filas: Filas, t: Transaccion, cvv: Option<string>,
                                  fechaExpiracion: Option<string>, e: Entorno)
    requires e.sorteo < Rango && config == []
    ensures Procesar(config, filas, t, cvv, fechaExpiracion, e)
            == Efecto(Failure(Validacion(MensajeSinConfiguracion)), filas)
  {
  }

  /** A transaction that fails validation is rejected with that check's
      message, before any row is written. */
  lemma RechazoNoEscribe(config: CS.Tabla, filas: Filas, t: Transaccion, cvv: Option<string>,
                         fechaExpiracion: Option<string>, e: Entorno)
    requires e.sorteo < Rango && config != [] && !Aceptable(t)
    ensures Procesar(config, filas, t, cvv, fechaExpiracion, e) == Efecto(Validada(t), filas)
    ensures Validada(t).Failure? && Validada(t).error.Validacion?
  {
  }

  /** Once validation passes, the ENV row is written under the generated code,
      carrying the correlation id, state ENV, receipt PEN, type PAG and a SIM
      or REC modality; the only other key the call may write is that code
      with -RESP or -ERROR, and every other row is left as it was. */
  lemma FilaEnviada(config: CS.Tabla, filas: Filas, t: Transaccion, cvv: Option<string>,
                    fechaExpiracion: Option<string>, e: Entorno)
    requires e.sorteo < Rango && config != [] && Aceptable(t)
    ensures var c := GenerarCodigoTransaccion(e.sorteo);
            var ef := Procesar(config, filas, t, cvv, fechaExpiracion, e);
            && c in ef.tabla
            && ef.tabla[c] == Persistir(Enviada(Validada(t).value, c, e))
            && ef.tabla[c].codTransaccion == Some(c) && ef.tabla[c].codigoUnicoTransaccion == Some(e.uuid)
            && ef.tabla[c].estado == Some("ENV") && ef.tabla[c].estadoRecibo == Some("PEN")
            && ef.tabla[c].tipo == Some("PAG") && SimORec(ef.tabla[c].modalidad)
            && ef.tabla.Keys <= filas.Keys + {c, c + SufijoRespuesta, c + SufijoError}
            && (forall k :: k in filas && k != c && k != c + SufijoRespuesta && k != c + SufijoError
                            ==> k in ef.tabla && ef.tabla[k] == filas[k])
  {
    var c := GenerarCodigoTransaccion(e.sorteo);
    assert c != c + SufijoRespuesta && c != c + SufijoError;
  }

  /** On a gateway reply, exactly one more row is written under code + -RESP
      and returned as loaded: same correlation id, receipt PEN, state AUT
      exactly when the gateway said APR (REC otherwise), and the detail
      replaced by the gateway's message only when REC. */
  lemma RespuestaGuardada(config: CS.Tabla, filas: Filas, t: Transaccion, cvv: Option<string>,
                          fechaExpiracion: Option<string>, e: Entorno)
    requires e.sorteo < Rango && LlegaAPasarela(config, t, cvv, fechaExpiracion, e)
    requires Contestacion(config, t, cvv, fechaExpiracion, e).Respuesta?
    ensures var c := GenerarCodigoTransaccion(e.sorteo);
            var ef := Procesar(config, filas, t, cvv, fechaExpiracion, e);
            var g := Contestacion(config, t, cvv, fechaExpiracion, e);
            var v := Validada(t).value;
            && c + SufijoRespuesta in ef.tabla
            && var f := ef.tabla[c + SufijoRespuesta];
            && ef.tabla == filas[c := Persistir(Enviada(v, c, e))][c + SufijoRespuesta := f]
            && ef.resultado == Success(Cargar(f))
            && f.codTransaccion == Some(c + SufijoRespuesta) && f.codigoUnicoTransaccion == Some(e.uuid)
            && f.estadoRecibo == Some("PEN")
            && (f.estado == Some("AUT") <==> g.estado == Some("APR"))
            && (f.estado == Some("AUT") || f.estado == Some("REC"))
            && f.detalle == (if g.estado == Some("APR") then t.detalle else g.mensaje)
            && f.tipo == Some("PAG") && f.modalidad == v.modalidad && f.marca == t.marca
            && f.monto == t.monto && f.moneda == v.moneda
  {
  }

  /** On a communication failure, exactly one more row is written under
      code + -ERROR, with state REC and the failure message in its detail,
      and the call then fails with a communication error. */
  lemma FallaGuardada(config: CS.Tabla, filas: Filas, t: Transaccion, cvv: Option<string>,
                      fechaExpiracion: Option<string>, e: Entorno)
    requires e.sorteo < Rango && LlegaAPasarela(config, t, cvv, fechaExpiracion, e)
    requires Contestacion(config, t, cvv, fechaExpiracion, e).FallaComunicacion?
    ensures var c := GenerarCodigoTransaccion(e.sorteo);
            var ef := Procesar(config, filas, t, cvv, fechaExpiracion, e);
            var g := Contestacion(config, t, cvv, fechaExpiracion, e);
            && c + SufijoError in ef.tabla
            && var f := ef.tabla[c + SufijoError];
            && ef.tabla == filas[c := Persistir(Enviada(Validada(t).value, c, e))][c + SufijoError := f]
            && ef.resultado == Failure(Comunicacion(ServicioPasarela, g.mensaje))
            && f.codTransaccion == Some(c + SufijoError) && f.codigoUnicoTransaccion == Some(e.uuid)
            && f.estado == Some("REC") && f.estadoRecibo == Some("PEN")
            && f.detalle == Some(PrefijoErrorComunicacion + Show(g.mensaje))
  {
  }

  /** The call never reports not-found (nor a non-unique result): the only
      failures are validation, communication, a non-numeric CVV, and an empty
      gateway reply. */
  lemma FallasPosibles(config: CS.Tabla, filas: Filas, t: Transaccion, cvv: Option<string>,
                       fechaExpiracion: Option<string>, e: Entorno)
    requires e.sorteo < Rango
    ensures var r := Procesar(config, filas, t, cvv, fechaExpiracion, e).resultado;
            r.Failure? ==> r.error.Validacion? || r.error.Comunicacion? || r.error.FormatoNumerico? || r.error == ReferenciaNula
  {
  }

  /** How many rows a call adds when its three possible keys are new: none
      on a validation failure, one when the gateway gives no usable reply,
      two when it answers or the communication fails. */
  lemma FilasAgregadas(config: CS.Tabla, filas: Filas, t: Transaccion, cvv: Option<string>,
                       fechaExpiracion: Option<string>, e: Entorno)
    requires e.sorteo < Rango
    requires var c := GenerarCodigoTransaccion(e.sorteo);
             c !in filas && c + SufijoRespuesta !in filas && c + SufijoError !in filas
    ensures var ef := Procesar(config, filas, t, cvv, fechaExpiracion, e);
            && (ef.resultado.Success? ==> |ef.tabla| == |filas| + 2)
            && (ef.resultado.Failure? && ef.resultado.error.Comunicacion? ==> |ef.tabla| == |filas| + 2)
            && (ef.resultado.Failure? && ef.resultado.error.Validacion? ==> ef.tabla == filas)
            && (ef.resultado.Failure? && (ef.resultado.error.FormatoNumerico? || ef.resultado.error == ReferenciaNula)
                ==> |ef.tabla| == |filas| + 1)
  {
    var c := GenerarCodigoTransaccion(e.sorteo);
    if config != [] && Aceptable(t) {
      var f1 := filas[c := Persistir(Enviada(Validada(t).value, c, e))];
      AgregarUna(filas, c, Persistir(Enviada(Validada(t).value, c, e)));
      if LlegaAPasarela(config, t, cvv, fechaExpiracion, e) {
        var g := Contestacion(config, t, cvv, fechaExpiracion, e);
        if g.Respuesta? {
          RespuestaGuardada(config, filas, t, cvv, fechaExpiracion, e);
          var ef := Procesar(config, filas, t, cvv, fechaExpiracion, e);
          AgregarUna(f1, c + SufijoRespuesta, ef.tabla[c + SufijoRespuesta]);
        } else if g.FallaComunicacion? {
          FallaGuardada(config, filas, t, cvv, fechaExpiracion, e);
          var ef := Procesar(config, filas, t, cvv, fechaExpiracion, e);
          AgregarUna(f1, c + SufijoError, ef.tabla[c + SufijoError]);
        }
      }
    }
  }

  /** Writing a new key adds one row. */
  lemma AgregarUna(filas: Filas, k: string, f: Fila)
    requires k !in filas
    ensures |filas[k := f]| == |filas| + 1
  {
    assert filas[k := f].Keys == filas.Keys + {k};
  }

  /** The keys of the rows that carry correlation id `uuid`. */
  function Correlacionadas(filas: Filas, uuid: string): set<string>
  {
    set k | k in filas && filas[k].codigoUnicoTransaccion == Some(uuid)
  }

  /** With a fresh correlation id, the rows carrying it are exactly the ones
      the call wrote: the ENV row and its -RESP or -ERROR partner, the ENV row
      alone, or nothing. */
  lemma Correlacion(config: CS.Tabla, filas: Filas, t: Transaccion, cvv: Option<string>,
                    fechaExpiracion: Option<string>, e: Entorno)
    requires e.sorteo < Rango && Correlacionadas(filas, e.uuid) == {}
    ensures var c := GenerarCodigoTransaccion(e.sorteo);
            var ef := Procesar(config, filas, t, cvv, fechaExpiracion, e);
            && (ef.resultado.Success? ==> Correlacionadas(ef.tabla, e.uuid) == {c, c + SufijoRespuesta})
            && (ef.resultado.Failure? && ef.resultado.error.Comunicacion? ==>
                  Correlacionadas(ef.tabla, e.uuid) == {c, c + SufijoError})
            && (ef.resultado.Failure? && ef.resultado.error.Validacion? ==> Correlacionadas(ef.tabla, e.uuid) == {})
            && (ef.resultado.Failure? && (ef.resultado.error.FormatoNumerico? || ef.resultado.error == ReferenciaNula)
                ==> Correlacionadas(ef.tabla, e.uuid) == {c})
  {
    var c := GenerarCodigoTransaccion(e.sorteo);
    var ef := Procesar(config, filas, t, cvv, fechaExpiracion, e);
    if config != [] && Aceptable(t) {
      var f1 := filas[c := Persistir(Enviada(Validada(t).value, c, e))];
      assert Correlacionadas(f1, e.uuid) == {c} by {
        forall k | k in f1 && k != c ensures f1[k].codigoUnicoTransaccion != Some(e.uuid) {
          assert k !in Correlacionadas(filas, e.uuid);
        }
      }
      if LlegaAPasarela(config, t, cvv, fechaExpiracion, e) {
        match Contestacion(config, t, cvv, fechaExpiracion, e)
        case RespuestaNula =>
        case Respuesta(_, _) =>
          assert Correlacionadas(ef.tabla, e.uuid) == {c, c + SufijoRespuesta} by {
            forall k | k in ef.tabla && k != c && k != c + SufijoRespuesta
              ensures ef.tabla[k].codigoUnicoTransaccion != Some(e.uuid) {
              assert k !in Correlacionadas(f1, e.uuid);
            }
          }
        case FallaComunicacion(_) =>
          assert Correlacionadas(ef.tabla, e.uuid) == {c, c + SufijoError} by {
            forall k | k in ef.tabla && k != c && k != c + SufijoError
              ensures ef.tabla[k].codigoUnicoTransaccion != Some(e.uuid) {
              assert k !in Correlacionadas(f1, e.uuid);
            }
          }
      }
    }
  }

  // The shape of the transaction table.

  /** The width COD_TRANSACCION needs: a generated code and the longer of the
      two suffixes. */
  const AnchoCodigo: nat := |Prefijo| + Digitos + |SufijoError|

  /** A key is a generated code, alone or followed by -RESP or -ERROR. */
  predicate ClaveBienFormada(k: string)
  {
    && |k| >= |Prefijo| + Digitos && EsCodigoTransaccion(k[..|Prefijo| + Digitos])
    && (k[|Prefijo| + Digitos..] == [] || k[|Prefijo| + Digitos..] == SufijoRespuesta
        || k[|Prefijo| + Digitos..] == SufijoError)
  }

  /** What every stored row satisfies: it is filed under its own well-formed
      key; the non-null columns are present; type PAG, modality SIM or REC,
      a positive amount, receipt PEN and a correlation id; the key and the
      correlation id fit their columns (the key at the width it needs); and
      the state matches the key's suffix: ENV alone, AUT or REC with -RESP,
      REC with -ERROR. */
  predicate FilaValida(k: string, f: Fila)
  {
    && ClaveBienFormada(k)
    && f.codTransaccion == Some(k) && CumpleNoNulos(f)
    && f.tipo == Some("PAG") && SimORec(f.modalidad) && f.monto.value > 0
    && f.estadoRecibo == Some("PEN") && f.codigoUnicoTransaccion.Some?
    && CabeEn(f.codTransaccion, AnchoCodigo) && CabeEn(f.codigoUnicoTransaccion, 64)
    && (k[|Prefijo| + Digitos..] == [] ==> f.estado == Some("ENV"))
    && (k[|Prefijo| + Digitos..] == SufijoRespuesta ==> f.estado == Some("AUT") || f.estado == Some("REC"))
    && (k[|Prefijo| + Digitos..] == SufijoError ==> f.estado == Some("REC"))
  }

  /** Every row is valid, and every -RESP or -ERROR row has its ENV row's code in the table. */
  predicate TablaValida(filas: Filas)
  {
    forall k {:trigger filas[k]} :: k in filas ==> FilaValida(k, filas[k]) && Base(k) in filas
  }

  /** The generated code a key starts with. */
  function Base(k: string): string
  {
    if |k| >= |Prefijo| + Digitos then k[..|Prefijo| + Digitos] else k
  }

  /** Writing a valid row whose base code is present keeps the table valid. */
  lemma GuardarConservaTablaValida(filas: Filas, k: string, f: Fila)
    requires TablaValida(filas) && FilaValida(k, f) && Base(k) in filas[k := f]
    ensures TablaValida(filas[k := f])
  {
    var nuevas := filas[k := f];
    forall j | j in nuevas ensures FilaValida(j, nuevas[j]) && Base(j) in nuevas {
      if j != k {
        assert nuevas[j] == filas[j];
      }
    }
  }

  /** The generated code with a suffix splits back into the code and the suffix. */
  lemma ClaveConSufijo(c: string, sufijo: string)
    requires EsCodigoTransaccion(c)
    requires sufijo == [] || sufijo == SufijoRespuesta || sufijo == SufijoError
    ensures ClaveBienFormada(c + sufijo)
    ensures Base(c + sufijo) == c && (c + sufijo)[|Prefijo| + Digitos..] == sufijo
    ensures |c + sufijo| <= AnchoCodigo
  {
    assert (c + sufijo)[..|Prefijo| + Digitos] == c;
    assert (c + sufijo)[|Prefijo| + Digitos..] == sufijo;
  }

  /** Every call keeps the table valid, whatever the gateway does. */
  lemma {:induction false} ConservaTablaValida(config: CS.Tabla, filas: Filas, t: Transaccion, cvv: Option<string>,
                                               fechaExpiracion: Option<string>, e: Entorno)
    requires EntornoValido(e) && TablaValida(filas)
    ensures TablaValida(Procesar(config, filas, t, cvv, fechaExpiracion, e).tabla)
  {
    if config != [] && Aceptable(t) {
      var c := GenerarCodigoTransaccion(e.sorteo);
      var enviada := Enviada(Validada(t).value, c, e);
      ClaveConSufijo(c, []);
      assert c + [] == c;
      GuardarConservaTablaValida(filas, c, Persistir(enviada));
      var f1 := filas[c := Persistir(enviada)];
      if LlegaAPasarela(config, t, cvv, fechaExpiracion, e) {
        var g := Contestacion(config, t, cvv, fechaExpiracion, e);
        if g.Respuesta? {
          ClaveConSufijo(c, SufijoRespuesta);
          var fila := FilaRespuesta(enviada, c, e, g.estado, g.mensaje);
          GuardarConservaTablaValida(f1, c + SufijoRespuesta, Persistir(fila));
        } else if g.FallaComunicacion? {
          ClaveConSufijo(c, SufijoError);
          var fila := FilaError(enviada, c, e, g.mensaje);
          GuardarConservaTablaValida(f1, c + SufijoError, Persistir(fila));
        }
      }
    }
  }

  /** At the declared width of 10, COD_TRANSACCION cannot hold the second row
      of any call that reaches the gateway: its key is 15 (-RESP) or 16
      (-ERROR) characters long. */
  lemma SegundaFilaExcedeColumnaDeclarada(config: CS.Tabla, filas: Filas, t: Transaccion, cvv: Option<string>,
                                          fechaExpiracion: Option<string>, e: Entorno)
    requires e.sorteo < Rango && LlegaAPasarela(config, t, cvv, fechaExpiracion, e)
    requires !Contestacion(config, t, cvv, fechaExpiracion, e).RespuestaNula?
    ensures var ef := Procesar(config, filas, t, cvv, fechaExpiracion, e);
            exists k :: k in ef.tabla && |k| > AnchoCodigoDeclarado
                        && !CumpleLongitudes(ef.tabla[k], AnchoCodigoDeclarado)
  {
    var c := GenerarCodigoTransaccion(e.sorteo);
    if Contestacion(config, t, cvv, fechaExpiracion, e).Respuesta? {
      RespuestaGuardada(config, filas, t, cvv, fechaExpiracion, e);
      assert |c + SufijoRespuesta| == 15;
    } else {
      FallaGuardada(config, filas, t, cvv, fechaExpiracion, e);
      assert |c + SufijoError| == 16;
    }
  }

  /** The service, holding the transaction table and the configuration service. */
  class Servicio {
    var filas: Filas
    const configuracion: CS.Servicio

    constructor (configuracion: CS.Servicio, inicial: Filas)
      ensures this.configuracion == configuracion && filas == inicial
    {
      this.configuracion := configuracion;
      filas := inicial;
    }

    /** `validarTransaccion`: the checks in order, then the setters. */
    static method ValidarTransaccion(transaccion: Transaccion) returns (r: Result<Transaccion, Falla>)
      ensures r == Validada(transaccion)
    {
      var t := transaccion;
      if t.monto.None? || t.monto.value <= 0 {
        return Failure(Validacion(MensajeMonto));
      }
      if t.numeroTarjeta.None? || |t.numeroTarjeta.value| != 16 {
        return Failure(Validacion(MensajeTarjeta));
      }
      if t.nombreTitular.None? || t.nombreTitular.value == [] {
        return Failure(Validacion(MensajeTitular));
      }
      t := t.(tipo := Some("PAG"));
      if t.marca.None? {
        return Failure(Validacion(MensajeMarca));
      }
      if t.modalidad == Some("REC") && (t.frecuenciaDias.None? || t.frecuenciaDias.value < 1) {
        return Failure(Validacion(MensajeFrecuencia));
      }
      if t.modalidad.None? || (t.modalidad != Some("SIM") && t.modalidad != Some("REC")) {
        t := t.(modalidad := Some("SIM"));
      }
      if t.moneda.None? {
        t := t.(moneda := Some("USD"));
      }
      r := Success(t);
    }

    /** `procesarTransaccion`. */
    method ProcesarTransaccion(transaccion: Transaccion, cvv: Option<string>, fechaExpiracion: Option<string>,
                               e: Entorno) returns (r: Result<Transaccion, Falla>)
      requires e.sorteo < Rango
      modifies this
      ensures Efecto(r, filas) == Procesar(configuracion.tabla, old(filas), transaccion, cvv, fechaExpiracion, e)
      ensures EntornoValido(e) && old(TablaValida(filas)) ==> TablaValida(filas)
    {
      if EntornoValido(e) && TablaValida(filas) {
        ConservaTablaValida(configuracion.tabla, filas, transaccion, cvv, fechaExpiracion, e);
      }
      var configuracionPos := ObtenerConfiguracionPOS(configuracion.tabla);
      if configuracionPos.Failure? {
        return Failure(configuracionPos.error);
      }
      var validada := ValidarTransaccion(transaccion);
      if validada.Failure? {
        return Failure(validada.error);
      }
      var t := validada.value;
      var cod := GenerarCodigoTransaccion(e.sorteo);
      t := t.(codTransaccion := Some(cod), codigoUnicoTransaccion := Some(e.uuid), fecha := Some(e.ahoraEnvio));
      t := t.(estado := Some("ENV"), estadoRecibo := Some("PEN"));
      t := t.(tipo := Some("PAG"));
      if t.modalidad != Some("SIM") && t.modalidad != Some("REC") {
        t := t.(modalidad := Some("SIM"));
      }
      // repository.save(transaccion), line 63
      filas := filas[cod := Persistir(t)];

      var respuesta := Copia(t, cod + SufijoRespuesta, e);
      var solicitud := SolicitudGateway(t, configuracionPos.value, cvv, fechaExpiracion);
      if solicitud.Failure? {
        return Failure(solicitud.error);
      }
      match e.pasarela(e.idSolicitud, solicitud.value) {
        case RespuestaNula =>
          r := Failure(ReferenciaNula);
        case Respuesta(estado, mensaje) =>
          if estado == Some("APR") {
            respuesta := respuesta.(estado := Some("AUT"));
          } else {
            respuesta := respuesta.(estado := Some("REC"));
            respuesta := respuesta.(detalle := mensaje);
          }
          // repository.save(transaccionRespuesta), line 102
          filas := filas[cod + SufijoRespuesta := Persistir(respuesta)];
          r := Success(Cargar(Persistir(respuesta)));
        case FallaComunicacion(mensaje) =>
          var error := Copia(t, cod + SufijoError, e);
          error := error.(detalle := Some(PrefijoErrorComunicacion + Show(mensaje)));
          error := error.(estado := Some("REC"));
          // repository.save(transaccionError), line 132
          filas := filas[cod + SufijoError := Persistir(error)];
          r := Failure(Comunicacion(ServicioPasarela, mensaje));
      }
    }
  }
}
