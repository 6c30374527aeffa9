# Point-of-sale terminal: transaction workflow and POS configuration

This project is a Dafny model of the back end of a card-payment point-of-sale
terminal (package `com.banquito.pos`). It covers four parts:

- **Transaction workflow.** `TransaccionService.procesarTransaccion` and the
  controller around it. Configuration comes first. The input is then
  validated and normalised, an `ENV` row is written, and the payment gateway
  is consulted. Finally a `-RESP` row (`AUT` or `REC`) or a `-ERROR` row
  (`REC`) is written, and the HTTP status is decided.
- **Validators.** The Bean Validation constraints of `TransaccionDTO` and
  `ConfiguracionPosDTO`. Each regular expression is given a
  character-level reading.
- **Configuration table.** `ConfiguracionPosService`: lookups, create with
  uniqueness checks, and update.
- **Transaction code.** `"TRX"` followed by a zero-padded seven-digit draw.

Modules, one file each:

| module | models |
|---|---|
| `Wrappers` | `Option` (Java `null`) and `Result` (a value or a thrown exception) |
| `JavaLang` | `String.format("%07d")`, `Integer.parseInt`, `String.hashCode`/`Objects.hash` with 32-bit wrap-around, `"" + null`, blank strings |
| `Patrones` | regular expressions and the whole-string match that `@Pattern` performs |
| `BeanValidation` | `@NotNull`, `@NotBlank`, `@Size`, `@Pattern`, `@Min`, `@DecimalMin`, `@Digits`, where `null` passes all but the first two |
| `CodigoTransaccion` | the transaction-code formatter and its reading back |
| `TransaccionModelo` | the `Transaccion` entity, its persisted row, and key-only `equals`/`hashCode` |
| `ConfiguracionPosModelo` | the `ConfiguracionPos` entity and its composite key |
| `TransaccionDto`, `ConfiguracionPosDto` | the request bodies and their constraints |
| `Errores` | the exceptions the services throw, as one datatype; the `(result, new table)` pair |
| `ConfiguracionPosServicio` | the configuration table and service; class `Servicio` |
| `TransaccionServicio` | the transaction service; spec function `Procesar`; class `Servicio` |
| `TransaccionControlador` | the HTTP handler; spec function `Atender`; class `Controlador` |

Each stateful class is proved against a spec function:

- `ConfiguracionPosServicio.Servicio` against `Crear` and `Actualizar`.
- `TransaccionServicio.Servicio` against `Procesar`.
- `TransaccionControlador.Controlador` against `Atender`.

Each method's `ensures` ties its result and new state to that function. The
lemmas then state what the source promises about the function.

Tables are modelled as follows:

- The configuration table is a `seq`, in `findAll` order.
- The transaction table is a `map` from `codTransaccion` to the persisted
  columns.
- `save` is a JPA merge. It overwrites the row with the same key, or adds
  one. The entity it returns has its `@Transient` fields cleared.
- A derived finder (`findByCodigoPos`, `findByDireccionMac`) gives:
  - no match: `null`;
  - one match: that row;
  - more than one match: a non-unique-result error.

The environment is the record `Entorno`. It holds the random UUID, the
`Math.random` draw (as an integer below 10^7), the two clock readings, the
gateway request id, and the gateway itself. The gateway is a function from
the request to its reply:

- a reply (`estado`, `mensaje`);
- an empty body;
- a `FeignException` carrying its message.

Some behaviour of the code is narrower than its own documentation or than
one might expect, and the model follows the code:

- The handler's `@ApiResponse` annotations (`TransaccionController.java`
  lines 41-42) announce 404 for a missing terminal and 500 for a gateway
  communication failure. The code answers 400 for both. A missing
  configuration is turned into a validation error at
  `TransaccionService.java` lines 142-144, and the 404 branch is unreachable
  (`TransaccionControlador.Nunca404`). A `FeignException` becomes a
  communication error, which lines 90-92 of the controller answer with 400
  (`TransaccionControlador.AutorizadaSiAprobada`).
- An AUT row keeps the original `detalle`; only a REC row takes the
  gateway's message (`TransaccionService.java` lines 92-99).
- The service turns every modality other than SIM or REC into SIM, DIF
  included (`TransaccionService.java` lines 58-60 and 179-181).
- A CVV that does not parse, or a gateway reply with no body, ends in the
  catch-all 500. The ENV row stays, and no second row is written.

All paths below are under `src/main/java/com/banquito/pos/`.

## Model

| member | source | states |
|---|---|---|
| CodigoTransaccion.GenerarCodigoTransaccion | src/main/java/com/banquito/pos/service/TransaccionService.java:225-227 | the code is exactly 10 characters, "TRX" then seven decimal digits (under a default locale whose zero digit is '0') |
| CodigoTransaccion.LeerCodigoTransaccion | src/main/java/com/banquito/pos/service/TransaccionService.java:225-227 | a string is read back to a draw exactly when it has the generated shape, and the draw is below 10^7 |
| CodigoTransaccion.LeerGenerado | src/main/java/com/banquito/pos/service/TransaccionService.java:225-227 | the last seven characters of a generated code read back as the draw |
| CodigoTransaccion.GeneradoLeido | src/main/java/com/banquito/pos/service/TransaccionService.java:225-227 | every string of the generated shape is the code of the draw it reads as |
| CodigoTransaccion.GenerarInyectivo | src/main/java/com/banquito/pos/service/TransaccionService.java:225-227 | two draws give the same code if and only if they are equal |
| JavaLang.ReadZeroPadded | src/main/java/com/banquito/pos/service/TransaccionService.java:226 | `%0Nd` of a number below 10^N reads back as that number |
| JavaLang.ZeroPaddedRead | src/main/java/com/banquito/pos/service/TransaccionService.java:226 | an all-digit string is the `%0Nd` rendering of its own value |
| JavaLang.ParseInt | src/main/java/com/banquito/pos/service/TransaccionService.java:203 | `Integer.parseInt` yields a value within the 32-bit range, and only for a string holding a digit |
| JavaLang.ParseIntDigits | src/main/java/com/banquito/pos/service/TransaccionService.java:203 | a string of at most 9 ASCII digits parses to its decimal value |
| JavaLang.NullableHash | src/main/java/com/banquito/pos/model/Transaccion.java:87-90 | the hash of a nullable string is a 32-bit value, and 0 for null |
| JavaLang.Show | src/main/java/com/banquito/pos/service/ConfiguracionPosService.java:65 | string concatenation renders a present value as itself and null as "null" |
| TransaccionModelo.ConCodigo | src/main/java/com/banquito/pos/model/Transaccion.java:75-77 | the one-argument constructor sets the key and leaves every other field null |
| TransaccionModelo.TransitoriosNoSePersisten | src/main/java/com/banquito/pos/model/Transaccion.java:60-73 | the five transient fields do not reach the stored row; reloading a row clears them and keeps every persisted column |
| TransaccionModelo.HashCode | src/main/java/com/banquito/pos/model/Transaccion.java:87-90 | `Objects.hash(codTransaccion)` is a 32-bit value, and 31 for a null key |
| TransaccionModelo.EqualsSoloPorClave | src/main/java/com/banquito/pos/model/Transaccion.java:79-90 | `equals` is an equivalence that holds exactly when the keys are equal, whatever the other fields; equal entities hash equally |
| ConfiguracionPosModelo.ConClave | src/main/java/com/banquito/pos/model/ConfiguracionPos.java:43-46 | the two-argument constructor sets exactly the key fields |
| ConfiguracionPosModelo.HashCode | src/main/java/com/banquito/pos/model/ConfiguracionPos.java:57-60 | `Objects.hash(modelo, codigoPos)` is a 32-bit value, and 961 when both are null |
| ConfiguracionPosModelo.HashCodeClave | src/main/java/com/banquito/pos/model/ConfiguracionPosPK.java:29-32 | the key's hash is a 32-bit value |
| ConfiguracionPosModelo.EqualsSoloPorClave | src/main/java/com/banquito/pos/model/ConfiguracionPos.java:48-60 | `equals` is an equivalence that holds exactly when `(modelo, codigoPos)` agree; equal entities hash equally; the entity hashes as its primary key does |
| TransaccionDto.TipoValidoSiPag | src/main/java/com/banquito/pos/controller/dto/TransaccionDTO.java:25-29 | `tipo` is accepted if and only if it is exactly "PAG" |
| TransaccionDto.MarcaValidaSiConocida | src/main/java/com/banquito/pos/controller/dto/TransaccionDTO.java:31-35 | `marca` is accepted if and only if it is present and one of VISA, MAST, AMEX, DISC |
| TransaccionDto.ModalidadValidaSiSimORec | src/main/java/com/banquito/pos/controller/dto/TransaccionDTO.java:37-41 | `modalidad` is accepted if and only if it is SIM or REC, so DIF is rejected |
| TransaccionDto.MontoValidoSiPositivoAcotado | src/main/java/com/banquito/pos/controller/dto/TransaccionDTO.java:47-51 | the amount in cents is accepted if and only if it is present and 1 <= c < 10^20 |
| TransaccionDto.MonedaValidaSiConocida | src/main/java/com/banquito/pos/controller/dto/TransaccionDTO.java:65-69 | `moneda` is accepted if and only if it is present and one of USD, EUR, MXN |
| TransaccionDto.NumeroTarjetaValidoSi16Digitos | src/main/java/com/banquito/pos/controller/dto/TransaccionDTO.java:71-73 | a card number is accepted if and only if it is absent or exactly 16 ASCII digits |
| TransaccionDto.CvvValidoSi3o4Digitos | src/main/java/com/banquito/pos/controller/dto/TransaccionDTO.java:86-88 | a CVV is accepted if and only if it is absent or 3 or 4 ASCII digits |
| TransaccionDto.CvvValidoSeLee | src/main/java/com/banquito/pos/controller/dto/TransaccionDTO.java:86-88 | an accepted CVV always parses as an integer, to its decimal value |
| TransaccionDto.FechaExpiracionValidaSiMMYY | src/main/java/com/banquito/pos/controller/dto/TransaccionDTO.java:90-92 | an expiry is accepted if and only if it is absent or a month 01-12, '/', and two digits |
| ConfiguracionPosDto.PatronMacSiFormato | src/main/java/com/banquito/pos/controller/dto/ConfiguracionPosDTO.java:29 | the MAC pattern matches exactly six hex pairs of either case, separated by ':' or '-' in any mix, 17 characters in all |
| ConfiguracionPosDto.DireccionMacValidaSiFormato | src/main/java/com/banquito/pos/controller/dto/ConfiguracionPosDTO.java:27-31 | `direccionMac` is accepted if and only if it is present and of that form; the 32-character cap and non-blankness follow from the pattern |
| ConfiguracionPosDto.DtoValidoCumpleColumnas | src/main/java/com/banquito/pos/controller/dto/ConfiguracionPosDTO.java:17-39 | an accepted configuration, once create stamps it, satisfies every NOT NULL and length limit of its table |
| ConfiguracionPosServicio.Coincidentes | src/main/java/com/banquito/pos/repository/ConfiguracionPosRepository.java:12-14 | a derived finder's candidates are exactly the rows whose column equals the argument, one entry per matching position, so their number is the number of matching rows; none exactly when no row matches |
| ConfiguracionPosServicio.ConsultaUnica | src/main/java/com/banquito/pos/repository/ConfiguracionPosRepository.java:12-14 | a single-result finder yields null for no candidate, the row for one, and a non-unique-result error for more |
| ConfiguracionPosServicio.UnicosCoincidenUnaVez | src/main/java/com/banquito/pos/repository/ConfiguracionPosRepository.java:12-14 | on a column with unique values a finder has at most one candidate |
| ConfiguracionPosServicio.CodigosUnicosImplicanClavesUnicas | src/main/java/com/banquito/pos/model/ConfiguracionPos.java:26-32 | unique `codigoPos` values imply unique `(modelo, codigoPos)` keys |
| ConfiguracionPosServicio.IndiceClave | src/main/java/com/banquito/pos/service/ConfiguracionPosService.java:62 | `findById` finds the first row under a key, and finds none exactly when no row has it |
| ConfiguracionPosServicio.Guardar | src/main/java/com/banquito/pos/service/ConfiguracionPosService.java:83 | after `save` the row is stored and the key set gains exactly its key; the first row under that key is replaced and every other row is untouched, or the row is appended when the key is new; unique keys stay unique |
| ConfiguracionPosServicio.ObtenerConfiguracionLocal | src/main/java/com/banquito/pos/service/ConfiguracionPosService.java:27-37 | the first stored row is returned, or not-found ("N/A", ConfiguracionPos) exactly when the table is empty |
| ConfiguracionPosServicio.FindByCodigoPos | src/main/java/com/banquito/pos/service/ConfiguracionPosService.java:39-47 | a returned row has the code; success exactly when one row has it; not-found exactly when none has it; non-unique exactly when two or more have it; with unique codes, found or not-found |
| ConfiguracionPosServicio.FindByDireccionMac | src/main/java/com/banquito/pos/service/ConfiguracionPosService.java:49-57 | a returned row has the MAC; success exactly when one row has it; not-found exactly when none has it; non-unique exactly when two or more have it; with unique MACs, found or not-found |
| ConfiguracionPosServicio.BuscarPor | src/main/java/com/banquito/pos/service/ConfiguracionPosService.java:39-57 | the shared finder: success exactly for one matching row, returning a matching row; not-found exactly when none matches; non-unique exactly for two or more |
| ConfiguracionPosServicio.UnaCoincidenciaSeDevuelve | src/main/java/com/banquito/pos/service/ConfiguracionPosService.java:39-57 | a value held by exactly one row is found, and that very row is returned |
| ConfiguracionPosServicio.FindById | src/main/java/com/banquito/pos/service/ConfiguracionPosService.java:59-67 | the row under `(modelo, codigoPos)`, or not-found carrying "modelo:codigoPos" exactly when the key is absent |
| ConfiguracionPosServicio.CrearCodigoRepetido | src/main/java/com/banquito/pos/service/ConfiguracionPosService.java:72-75 | a create whose code is taken fails, leaves the table unchanged and, with unique codes, reports the code message |
| ConfiguracionPosServicio.CrearMacRepetida | src/main/java/com/banquito/pos/service/ConfiguracionPosService.java:76-79 | a create whose MAC is taken fails, leaves the table unchanged and, with unique MACs, reports the MAC message |
| ConfiguracionPosServicio.CrearExito | src/main/java/com/banquito/pos/service/ConfiguracionPosService.java:69-84 | a create succeeds if and only if neither code nor MAC is taken, and then adds exactly the row stamped with the current instant |
| ConfiguracionPosServicio.CrearConservaUnicidad | src/main/java/com/banquito/pos/service/ConfiguracionPosService.java:69-84 | create preserves unique codes, unique MACs and unique keys |
| ConfiguracionPosServicio.ActualizarAusente | src/main/java/com/banquito/pos/service/ConfiguracionPosService.java:86-92 | an update of an absent key fails with the `findById` not-found and changes nothing |
| ConfiguracionPosServicio.ActualizarReemplaza | src/main/java/com/banquito/pos/service/ConfiguracionPosService.java:86-92 | an update of a present key replaces that row in place; the size and key set are unchanged, and unique codes stay unique |
| ConfiguracionPosServicio.ActualizarNoConservaMacsUnicas | src/main/java/com/banquito/pos/service/ConfiguracionPosService.java:86-92 | update does not re-check the MAC: an update can make two rows share one |
| ConfiguracionPosServicio.Servicio.constructor | src/main/java/com/banquito/pos/service/ConfiguracionPosService.java:25 | the service starts on the given table |
| ConfiguracionPosServicio.Servicio.CreateConfiguracion | src/main/java/com/banquito/pos/service/ConfiguracionPosService.java:69-84 | result and new table are those of `Crear`; unique codes and MACs stay unique |
| ConfiguracionPosServicio.Servicio.UpdateConfiguracion | src/main/java/com/banquito/pos/service/ConfiguracionPosService.java:86-92 | result and new table are those of `Actualizar`; the size and key set are unchanged; unique codes stay unique |
| TransaccionServicio.ObtenerConfiguracionPOS | src/main/java/com/banquito/pos/service/TransaccionService.java:139-146 | the first configuration, or a validation error "Terminal POS no configurado correctamente" exactly when there is none |
| TransaccionServicio.ModalidadNormalizada | src/main/java/com/banquito/pos/service/TransaccionService.java:179-181 | the modality becomes SIM or REC, and a SIM or REC modality is kept |
| TransaccionServicio.Validada | src/main/java/com/banquito/pos/service/TransaccionService.java:148-186 | passes if and only if amount > 0, card of length 16, holder non-empty, brand present and, for REC, frequency >= 1; otherwise the first failing check's message; on success tipo PAG, modality SIM/REC, a missing currency USD, all else unchanged |
| TransaccionServicio.ValidacionIdempotente | src/main/java/com/banquito/pos/service/TransaccionService.java:148-186 | validating an already validated transaction changes nothing |
| TransaccionServicio.SolicitudGateway | src/main/java/com/banquito/pos/service/TransaccionService.java:188-219 | the request's fields are: POS and merchant codes from the configuration; pais and referencia null; security code exactly for a non-empty CVV, parsed; expiry only when non-empty; recurrente true and frequency only for REC; plazo only for SIM with plazo; a CVV that does not parse is the only failure |
| TransaccionServicio.SinConfiguracionNoEscribe | src/main/java/com/banquito/pos/service/TransaccionService.java:38 | without a configuration the call fails with the validation error and writes no row |
| TransaccionServicio.RechazoNoEscribe | src/main/java/com/banquito/pos/service/TransaccionService.java:40 | a transaction that fails validation fails with that validation error and writes no row |
| TransaccionServicio.FilaEnviada | src/main/java/com/banquito/pos/service/TransaccionService.java:42-63 | after validation the ENV row is stored under the generated code, with the fresh UUID, estado ENV, estadoRecibo PEN, tipo PAG and a SIM/REC modality |
| TransaccionServicio.RespuestaGuardada | src/main/java/com/banquito/pos/service/TransaccionService.java:66-106 | on a gateway reply the code-RESP row is stored and returned: same UUID, PEN, AUT if and only if APR, and detalle replaced by the gateway message only when REC |
| TransaccionServicio.FallaGuardada | src/main/java/com/banquito/pos/service/TransaccionService.java:108-135 | on a gateway failure the code-ERROR row is stored with the same UUID, REC, PEN and "Error de comunicación: " + message, and a communication error for "Payment Gateway" is raised |
| TransaccionServicio.FallasPosibles | src/main/java/com/banquito/pos/service/TransaccionService.java:34-137 | the only failures are validation, communication, CVV number format and an empty gateway reply; never not-found |
| TransaccionServicio.FilasAgregadas | src/main/java/com/banquito/pos/service/TransaccionService.java:34-137 | with fresh codes: two rows are added on success or communication failure, one after a CVV format error or an empty reply, none on a validation error |
| TransaccionServicio.Correlacion | src/main/java/com/banquito/pos/service/TransaccionService.java:42-135 | with a fresh UUID, the rows sharing it are exactly {code, code-RESP} on success, {code, code-ERROR} on communication failure, {code} after a late failure, none after a validation error |
| TransaccionServicio.ConservaTablaValida | src/main/java/com/banquito/pos/service/TransaccionService.java:34-137 | every stored row sits under a well-formed key equal to its own code; its NOT NULL columns are present; tipo is PAG, the modality SIM or REC, the amount positive and the receipt PEN; the key fits 16 characters and the UUID 64; the state is ENV for a bare code, AUT or REC for -RESP, and REC for -ERROR; each -RESP/-ERROR row has its ENV row |
| TransaccionServicio.SegundaFilaExcedeColumnaDeclarada | src/main/java/com/banquito/pos/model/Transaccion.java:26-28 | whenever the gateway is reached, a stored key is longer than the declared 10 characters of COD_TRANSACCION |
| TransaccionServicio.Servicio.constructor | src/main/java/com/banquito/pos/service/TransaccionService.java:30-32 | the service starts on the given configuration service and transaction table |
| TransaccionServicio.Servicio.ValidarTransaccion | src/main/java/com/banquito/pos/service/TransaccionService.java:148-186 | the step-by-step check and normalisation gives exactly `Validada` |
| TransaccionServicio.Servicio.ProcesarTransaccion | src/main/java/com/banquito/pos/service/TransaccionService.java:34-137 | result and new table are those of `Procesar`; a valid table stays valid |
| TransaccionControlador.MapeoIdaYVuelta | src/main/java/com/banquito/pos/controller/mapper/TransaccionMapper.java:16-18 | DTO to entity to DTO keeps every field but the CVV and expiry; entity to DTO to entity keeps every field but `recurrente` |
| TransaccionControlador.Normalizar | src/main/java/com/banquito/pos/controller/TransaccionController.java:47-57 | tipo becomes PAG; SIM, REC and DIF are kept, any other or a null modality becomes SIM; nothing else changes |
| TransaccionControlador.PreRechazo | src/main/java/com/banquito/pos/controller/TransaccionController.java:59-69 | 400 with the deferred or recurring message exactly when DIF lacks a positive plazo or REC lacks a positive frequency |
| TransaccionControlador.Responder | src/main/java/com/banquito/pos/controller/TransaccionController.java:76-96 | 200 with the mapped DTO exactly for a returned non-REC row; otherwise "Pago rechazado", 404 exactly for not-found, 500 exactly for errors outside validation, not-found and communication, 400 for the rest |
| TransaccionControlador.PreRechazoNoEscribe | src/main/java/com/banquito/pos/controller/TransaccionController.java:59-69 | a pre-check rejection answers 400 and no row is written |
| TransaccionControlador.Nunca404 | src/main/java/com/banquito/pos/controller/TransaccionController.java:84-96 | the handler answers only 200, 400 or 500: the 404 branch is unreachable |
| TransaccionControlador.PeticionValida | src/main/java/com/banquito/pos/controller/TransaccionController.java:49-69 | for an accepted body the modality is SIM or REC and unchanged, the CVV parses, and a pre-check fires exactly for REC without frequency |
| TransaccionControlador.AutorizadaSiAprobada | src/main/java/com/banquito/pos/controller/TransaccionController.java:71-96 | for an accepted body reaching the gateway: 200 if and only if the gateway says APR, 500 if and only if its reply is empty, 400 otherwise |
| TransaccionControlador.ValidacionDeServicio | src/main/java/com/banquito/pos/controller/TransaccionController.java:73-74 | for an accepted body the service's checks reduce to card number and holder name being present, the name non-empty |
| TransaccionControlador.FilaEnviadaCabeEnColumnas | src/main/java/com/banquito/pos/controller/TransaccionController.java:43-74 | for an accepted body that passes the service's checks, the ENV row meets every column limit as declared, key included |
| TransaccionControlador.Controlador.constructor | src/main/java/com/banquito/pos/controller/TransaccionController.java:33-34 | the controller holds the given service |
| TransaccionControlador.Controlador.ProcesarTransaccion | src/main/java/com/banquito/pos/controller/TransaccionController.java:43-97 | the response and the new transaction table are those of `Atender` |
| TransaccionModelo.Persistir | src/main/java/com/banquito/pos/model/Transaccion.java:26-58 | the stored row: the eleven persisted columns; specified by `TransaccionModelo.TransitoriosNoSePersisten` |
| TransaccionModelo.Cargar | src/main/java/com/banquito/pos/model/Transaccion.java:26-73 | the entity read back from a row, with the transient fields null; specified by `TransaccionModelo.TransitoriosNoSePersisten` |
| TransaccionModelo.Equals | src/main/java/com/banquito/pos/model/Transaccion.java:79-85 | `equals`: the keys are equal; specified by `TransaccionModelo.EqualsSoloPorClave` |
| ConfiguracionPosModelo.Equals | src/main/java/com/banquito/pos/model/ConfiguracionPos.java:48-55 | `equals`: `modelo` and `codigoPos` are equal; specified by `ConfiguracionPosModelo.EqualsSoloPorClave` |
| ConfiguracionPosDto.ToModel | src/main/java/com/banquito/pos/controller/mapper/ConfiguracionPosMapper.java:18 | the by-name copy of the five fields; used by `ConfiguracionPosDto.DtoValidoCumpleColumnas` |
| ConfiguracionPosServicio.Crear | src/main/java/com/banquito/pos/service/ConfiguracionPosService.java:69-84 | create as a function of the table; specified by `CrearCodigoRepetido`, `CrearMacRepetida`, `CrearExito` and `CrearConservaUnicidad` |
| ConfiguracionPosServicio.Actualizar | src/main/java/com/banquito/pos/service/ConfiguracionPosService.java:86-92 | update as a function of the table; specified by `ActualizarAusente`, `ActualizarReemplaza` and `ActualizarNoConservaMacsUnicas` |
| TransaccionServicio.Enviada | src/main/java/com/banquito/pos/service/TransaccionService.java:46-60 | the transaction as saved first; specified by `TransaccionServicio.FilaEnviada` |
| TransaccionServicio.FilaRespuesta | src/main/java/com/banquito/pos/service/TransaccionService.java:68-99 | the -RESP row; specified by `TransaccionServicio.RespuestaGuardada` |
| TransaccionServicio.FilaError | src/main/java/com/banquito/pos/service/TransaccionService.java:112-129 | the -ERROR row; specified by `TransaccionServicio.FallaGuardada` |
| TransaccionServicio.Guardar | src/main/java/com/banquito/pos/service/TransaccionService.java:63 | `repository.save` on the transaction table: the row is written under its key; specified by `GuardarConservaTablaValida`, `AgregarUna` and the row lemmas |
| TransaccionServicio.Procesar | src/main/java/com/banquito/pos/service/TransaccionService.java:34-137 | `procesarTransaccion` as a function of the two tables, the arguments and the environment; specified by `SinConfiguracionNoEscribe`, `RechazoNoEscribe`, `FilaEnviada`, `RespuestaGuardada`, `FallaGuardada`, `FallasPosibles`, `FilasAgregadas`, `Correlacion` and `ConservaTablaValida` |
| TransaccionControlador.ToModel | src/main/java/com/banquito/pos/controller/mapper/TransaccionMapper.java:18 | the by-name copy from the body to the entity, dropping CVV and expiry; specified by `TransaccionControlador.MapeoIdaYVuelta` |
| TransaccionControlador.ToDto | src/main/java/com/banquito/pos/controller/mapper/TransaccionMapper.java:16 | the by-name copy from the entity to the body, dropping `recurrente`; specified by `TransaccionControlador.MapeoIdaYVuelta` |
| TransaccionControlador.Atender | src/main/java/com/banquito/pos/controller/TransaccionController.java:43-97 | the handler as a function of the two tables, the body and the environment; specified by `PreRechazoNoEscribe`, `Nunca404`, `AutorizadaSiAprobada` and `FilaEnviadaCabeEnColumnas` |

## Left out

- The Feign client (`client/PaymentGatewayClient.java`) is a network call. It is a function inside `Entorno`, so the model only says what happens for each kind of reply.
- Randomness and the clock are fields of `Entorno`: `UUID.randomUUID` (both calls), `Math.random` (as an integer draw below 10^7) and `LocalDateTime.now`. The random draw's distribution is not modelled.
- Spring's `@Transactional` rollback is not modelled: each `save` takes effect at once. With rollback, a raised exception would also undo the ENV and ERROR rows.
- The database's own enforcement of NOT NULL and column lengths is not modelled. Those limits are stated as predicates (`CumpleNoNulos`, `CumpleLongitudes`, `CumpleColumnas`) and proved about what the code writes.
- The repositories are in-memory. `findAll` order is insertion order, and the transaction table is a map, so it keeps no order. The finders of `TransaccionRepository` are never called by the core and are not modelled.
- `TransaccionServicio.Guardar` and `ConfiguracionPosServicio.Guardar` overwrite a row with the same key, as a JPA merge does. `TransaccionServicio.FilasAgregadas` and `TransaccionServicio.Correlacion` therefore assume the generated codes are not already in the table.
- Amounts are integer cents. `BigDecimal.doubleValue()` and amounts with more than two decimals are not modelled.
- TransaccionServicio.ConservaTablaValida bounds only the key and the correlation id. The service never checks the length of `marca`, `moneda` or `detalle`. A REC or ERROR row's `detalle` is the gateway's message, or the error prefix plus a message, and can exceed 50 characters. For the ENV row of an accepted body, all limits are stated by `TransaccionControlador.FilaEnviadaCabeEnColumnas`.
- `TransaccionServicio.ConservaTablaValida` assumes a UUID string of 36 characters (`EntornoValido`).
- String lengths are counted in characters, not UTF-16 code units. No Unicode case folding or normalisation is modelled.
- JavaLang.StringHash hashes whole characters, while `String.hashCode` hashes UTF-16 code units, so the two differ for a string holding a character outside the Basic Multilingual Plane. No contract depends on the exact hash value: the hash lemmas state its 32-bit range and that equal keys hash equally.
- JavaLang.ZeroPadded assumes a default locale whose zero digit is '0'. `String.format` at `TransaccionService.java` line 226 formats under the JVM's default locale, and a locale with other native digits (such as `th-TH-u-nu-thai`) would write the seven digits of the code in that script. `CodigoTransaccion.EsCodigoTransaccion`, `CodigoTransaccion.LeerCodigoTransaccion` and the well-formed-key clause of `TransaccionServicio.ConservaTablaValida` rest on the same assumption.
- MapStruct mappers are modelled as plain field copies (`ToModel`, `ToDto`).
- Log output, exception message formatting, CORS and OpenAPI configuration are not modelled.
- `@Valid` runs before the handler method. The model takes the body as given, and the lemmas that assume an accepted body say so with `DtoValido`.
- `NotFoundException` is not part of this model. It is taken to carry the searched value and the entity name.
- `ConfiguracionPosController` is not modelled. It only forwards to the service.
- JavaLang.ParseInt reads ASCII digits only. `Integer.parseInt` reads digits through `Character.digit`, so it also accepts other Unicode decimal digits ("١٢٣" parses as 123). Such a CVV fails `@Pattern("^[0-9]{3,4}$")` on `TransaccionDTO`, so it cannot reach the service through the controller. A direct call of `procesarTransaccion` with one would send the request in Java, but ends in the number-format failure (500) in the model.

## Findings

| source | as written | input that shows it | evidently intended | confidence | as-written member | corrected member |
|---|---|---|---|---|---|---|
| src/main/java/com/banquito/pos/model/Transaccion.java:27 | COD_TRANSACCION is declared with length 10 | any call that reaches the gateway writes "TRX0000000-RESP" (15 characters) or "TRX0000000-ERROR" (16 characters) as a key | the key column holds at least 16 characters | not executed | TransaccionServicio.SegundaFilaExcedeColumnaDeclarada | TransaccionServicio.ConservaTablaValida |
