/** The JPA entity `Transaccion` (table POS_TRANSACCION): its persisted and
    transient fields, its key-only `equals`/`hashCode`, and the column
    declarations of the table. */
module TransaccionModelo {
  import opened Wrappers
  import opened JavaLang

  /** Every field is a nullable reference; `monto` is held in cents. The last
      five fields are `@Transient`. */
  datatype Transaccion = Transaccion(
    codTransaccion: Option<string>,
    tipo: Option<string>,
    marca: Option<string>,
    modalidad: Option<string>,
    detalle: Option<string>,
    monto: Option<int>,
    codigoUnicoTransaccion: Option<string>,
    fecha: Option<Instant>,
    estado: Option<string>,
    estadoRecibo: Option<string>,
    moneda: Option<string>,
    plazo: Option<int>,
    numeroTarjeta: Option<string>,
    nombreTitular: Option<string>,
    recurrente: Option<bool>,
    frecuenciaDias: Option<int>)

  /** A stored row: the eleven persisted columns. */
  datatype Fila = Fila(
    codTransaccion: Option<string>,
    tipo: Option<string>,
    marca: Option<string>,
    modalidad: Option<string>,
    detalle: Option<string>,
    monto: Option<int>,
    codigoUnicoTransaccion: Option<string>,
    fecha: Option<Instant>,
    estado: Option<string>,
    estadoRecibo: Option<string>,
    moneda: Option<string>)

  /** The no-argument constructor: every field `null`. */
  const Nueva: Transaccion :=
    Transaccion(None, None, None, None, None, None, None, None, None, None, None, None, None, None, None, None)

  /** No field but the key is set. */
  predicate SoloClave(t: Transaccion)
  {
    t.(codTransaccion := None) == Nueva
  }

  /** The one-argument constructor `Transaccion(codTransaccion)`. */
  function ConCodigo(cod: Option<string>): (t: Transaccion)
    ensures t.codTransaccion == cod && SoloClave(t)
  {
    Nueva.(codTransaccion := cod)
  }

  /** The row that saving `t` writes. */
  function Persistir(t: Transaccion): Fila
  {
    Fila(t.codTransaccion, t.tipo, t.marca, t.modalidad, t.detalle, t.monto,
         t.codigoUnicoTransaccion, t.fecha, t.estado, t.estadoRecibo, t.moneda)
  }

  /** The entity loaded from a row: the transient fields are `null`. */
  function Cargar(f: Fila): Transaccion
  {
    Transaccion(f.codTransaccion, f.tipo, f.marca, f.modalidad, f.detalle, f.monto,
                f.codigoUnicoTransaccion, f.fecha, f.estado, f.estadoRecibo, f.moneda,
                None, None, None, None, None)
  }

  /** The transient fields are not stored: entities that differ only there
      write the same row, and loading what was saved clears exactly them. */
  lemma TransitoriosNoSePersisten(t: Transaccion, plazo: Option<int>, numeroTarjeta: Option<string>,
                                  nombreTitular: Option<string>, recurrente: Option<bool>, frecuenciaDias: Option<int>)
    ensures Persistir(t.(plazo := plazo, numeroTarjeta := numeroTarjeta, nombreTitular := nombreTitular,
                         recurrente := recurrente, frecuenciaDias := frecuenciaDias)) == Persistir(t)
    ensures Cargar(Persistir(t)) == t.(plazo := None, numeroTarjeta := None, nombreTitular := None,
                                       recurrente := None, frecuenciaDias := None)
    ensures Persistir(Cargar(Persistir(t))) == Persistir(t)
  {
  }

  /** `equals`: the key alone decides. */
  predicate Equals(a: Transaccion, b: Transaccion)
  {
    a.codTransaccion == b.codTransaccion
  }

  /** `hashCode` = `Objects.hash(codTransaccion)` = `31 * 1 + hash(codTransaccion)` in `int` arithmetic. */
  function HashCode(t: Transaccion): (h: int)
    ensures MinInt <= h <= MaxInt
    ensures t.codTransaccion.None? ==> h == 31
  {
    Wrap32(31 + NullableHash(t.codTransaccion))
  }

  /** `equals` is an equivalence that ignores every field but the key, and
      `hashCode` agrees with it. */
  lemma EqualsSoloPorClave(a: Transaccion, b: Transaccion, c: Transaccion)
    ensures Equals(a, a)
    ensures Equals(a, b) ==> Equals(b, a)
    ensures Equals(a, b) && Equals(b, c) ==> Equals(a, c)
    ensures Equals(a, b) <==> ConCodigo(a.codTransaccion) == ConCodigo(b.codTransaccion)
    ensures Equals(a, b) ==> HashCode(a) == HashCode(b)
  {
    if ConCodigo(a.codTransaccion) == ConCodigo(b.codTransaccion) {
      assert ConCodigo(a.codTransaccion).codTransaccion == ConCodigo(b.codTransaccion).codTransaccion;
    }
  }

  // Column declarations of POS_TRANSACCION.

  /** The declared length of COD_TRANSACCION. */
  const AnchoCodigoDeclarado: nat := 10

  /** `nullable = false` on COD_TRANSACCION, TIPO, MARCA, MODALIDAD, MONTO, FECHA, ESTADO, MONEDA. */
  predicate CumpleNoNulos(f: Fila)
  {
    && f.codTransaccion.Some? && f.tipo.Some? && f.marca.Some? && f.modalidad.Some?
    && f.monto.Some? && f.fecha.Some? && f.estado.Some? && f.moneda.Some?
  }

  /** The `length` of every string column, with COD_TRANSACCION `anchoCodigo` wide,
      and MONTO's precision 20, scale 2: fewer than 10^20 cents. */
  predicate CumpleLongitudes(f: Fila, anchoCodigo: nat)
  {
    && CabeEn(f.codTransaccion, anchoCodigo) && CabeEn(f.tipo, 3) && CabeEn(f.marca, 4)
    && CabeEn(f.modalidad, 3) && CabeEn(f.detalle, 50) && CabeEn(f.codigoUnicoTransaccion, 64)
    && CabeEn(f.estado, 3) && CabeEn(f.estadoRecibo, 3) && CabeEn(f.moneda, 3)
    && (f.monto.None? || -(Pow10(20) as int) < f.monto.value < Pow10(20))
  }
}
