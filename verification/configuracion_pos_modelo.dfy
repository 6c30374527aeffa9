/** The JPA entity `ConfiguracionPos` (table POS_CONFIGURACION), its composite
    key `ConfiguracionPosPK`, their `equals`/`hashCode`, and the column
    declarations of the table. */
module ConfiguracionPosModelo {
  import opened Wrappers
  import opened JavaLang

  /** Every field is a nullable reference. */
  datatype ConfiguracionPos = ConfiguracionPos(
    modelo: Option<string>,
    codigoPos: Option<string>,
    direccionMac: Option<string>,
    codigoComercio: Option<string>,
    fechaActivacion: Option<Instant>)

  /** `ConfiguracionPosPK`; its Lombok-free `equals` compares both fields,
      which is equality of this datatype. */
  datatype ConfiguracionPosPK = ConfiguracionPosPK(modelo: Option<string>, codigoPos: Option<string>)

  function Clave(c: ConfiguracionPos): ConfiguracionPosPK
  {
    ConfiguracionPosPK(c.modelo, c.codigoPos)
  }

  /** The two-argument constructor `ConfiguracionPos(modelo, codigoPos)`. */
  function ConClave(modelo: Option<string>, codigoPos: Option<string>): (c: ConfiguracionPos)
    ensures Clave(c) == ConfiguracionPosPK(modelo, codigoPos)
    ensures c.direccionMac.None? && c.codigoComercio.None? && c.fechaActivacion.None?
  {
    ConfiguracionPos(modelo, codigoPos, None, None, None)
  }

  /** `equals`: the key fields alone decide. */
  predicate Equals(a: ConfiguracionPos, b: ConfiguracionPos)
  {
    a.modelo == b.modelo && a.codigoPos == b.codigoPos
  }

  /** `Objects.hash(modelo, codigoPos)` = `31 * (31 * 1 + hash(modelo)) + hash(codigoPos)`
      in `int` arithmetic (wrapping once at the end gives the same value as
      wrapping after every step). */
  function HashCode(c: ConfiguracionPos): (h: int)
    ensures MinInt <= h <= MaxInt
    ensures c.modelo.None? && c.codigoPos.None? ==> h == 961
  {
    Wrap32(31 * (31 + NullableHash(c.modelo)) + NullableHash(c.codigoPos))
  }

  /** `ConfiguracionPosPK.hashCode`, the same formula over the same two fields. */
  function HashCodeClave(k: ConfiguracionPosPK): (h: int)
    ensures MinInt <= h <= MaxInt
  {
    Wrap32(31 * (31 + NullableHash(k.modelo)) + NullableHash(k.codigoPos))
  }

  /** `equals` is an equivalence that ignores the non-key fields; it is equality
      of keys, and `hashCode` agrees with it and with the key's own hash. */
  lemma EqualsSoloPorClave(a: ConfiguracionPos, b: ConfiguracionPos, c: ConfiguracionPos)
    ensures Equals(a, a)
    ensures Equals(a, b) ==> Equals(b, a)
    ensures Equals(a, b) && Equals(b, c) ==> Equals(a, c)
    ensures Equals(a, b) <==> Clave(a) == Clave(b)
    ensures Equals(a, b) <==> ConClave(a.modelo, a.codigoPos) == ConClave(b.modelo, b.codigoPos)
    ensures Equals(a, b) ==> HashCode(a) == HashCode(b)
    ensures HashCode(a) == HashCodeClave(Clave(a))
  {
    if ConClave(a.modelo, a.codigoPos) == ConClave(b.modelo, b.codigoPos) {
      assert Clave(ConClave(a.modelo, a.codigoPos)) == Clave(ConClave(b.modelo, b.codigoPos));
    }
  }

  /** All five columns are `nullable = false`; MODELO, CODIGO_POS and
      CODIGO_COMERCIO are 10 wide, DIRECCION_MAC 32. */
  predicate CumpleColumnas(c: ConfiguracionPos)
  {
    && c.modelo.Some? && c.codigoPos.Some? && c.direccionMac.Some?
    && c.codigoComercio.Some? && c.fechaActivacion.Some?
    && CabeEn(c.modelo, 10) && CabeEn(c.codigoPos, 10)
    && CabeEn(c.direccionMac, 32) && CabeEn(c.codigoComercio, 10)
  }
}
