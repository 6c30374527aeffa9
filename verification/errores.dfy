/** The exceptions the core raises or lets through, as values, and the pair
    (outcome, new table) that a state-changing operation produces. */
module Errores {
  import opened Wrappers

  datatype Falla =
    /** `ValidationException(message)`. */
    | Validacion(mensaje: string)
    /** `NotFoundException(value, entity)`. */
    | NoEncontrado(dato: Option<string>, entidad: string)
    /** `CommunicationException(service, details)`. */
    | Comunicacion(servicio: string, detalles: Option<string>)
    /** A derived single-result query that matched more than one row
        (Spring's `IncorrectResultSizeDataAccessException`). */
    | ResultadoNoUnico
    /** `NumberFormatException` from `Integer.parseInt`. */
    | FormatoNumerico(texto: string)
    /** `NullPointerException` from dereferencing an empty gateway reply. */
    | ReferenciaNula

  /** What an operation returns (or throws), together with the table it leaves behind. */
  datatype Efecto<+R, +S> = Efecto(resultado: Result<R, Falla>, tabla: S)
}
