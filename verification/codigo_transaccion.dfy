/** The transaction-code generator of `TransaccionService`:
    "TRX" followed by a random number below 10^7, zero-padded to 7 digits. */
module CodigoTransaccion {
  import opened Wrappers
  import opened JavaLang

  const Prefijo: string := "TRX"
  /** `(int) (Math.random() * 10000000)` lies in `[0, Rango)`. */
  const Rango: nat := 10000000
  const Digitos: nat := 7

  /** The shape of every generated code: the prefix, then seven digits. */
  predicate EsCodigoTransaccion(s: string)
  {
    |s| == |Prefijo| + Digitos && s[..|Prefijo|] == Prefijo && AllDigits(s[|Prefijo|..])
  }

  /** `generarCodigoTransaccion`, given the random draw `sorteo`. */
  function GenerarCodigoTransaccion(sorteo: nat): (c: string)
    requires sorteo < Rango
    ensures |c| == 10 && EsCodigoTransaccion(c)
  {
    var c := Prefijo + ZeroPadded(sorteo, Digitos);
    assert c[..|Prefijo|] == Prefijo && c[|Prefijo|..] == ZeroPadded(sorteo, Digitos);
    c
  }

  /** Reads a code back to its draw; `None` for text that no draw produces. */
  function LeerCodigoTransaccion(s: string): (r: Option<nat>)
    ensures r.Some? <==> EsCodigoTransaccion(s)
    ensures r.Some? ==> r.value < Rango
  {
    if EsCodigoTransaccion(s) then
      assert Pow10(Digitos) == Rango;
      Some(ReadDecimal(s[|Prefijo|..]))
    else None
  }

  /** Round trip: the last seven characters of a generated code read back as the draw. */
  lemma LeerGenerado(sorteo: nat)
    requires sorteo < Rango
    ensures LeerCodigoTransaccion(GenerarCodigoTransaccion(sorteo)) == Some(sorteo)
  {
    var c := GenerarCodigoTransaccion(sorteo);
    assert c[|Prefijo|..] == ZeroPadded(sorteo, Digitos);
    assert Pow10(Digitos) == Rango;
    ReadZeroPadded(sorteo, Digitos);
  }

  /** Round trip the other way: every well-formed code is the code of the draw it reads as. */
  lemma GeneradoLeido(s: string)
    requires EsCodigoTransaccion(s)
    ensures LeerCodigoTransaccion(s).Some?
    ensures GenerarCodigoTransaccion(LeerCodigoTransaccion(s).value) == s
  {
    var ds := s[|Prefijo|..];
    ZeroPaddedRead(ds);
    assert s == Prefijo + ds;
  }

  /** Distinct draws give distinct codes (and so equal codes come from one draw). */
  lemma GenerarInyectivo(a: nat, b: nat)
    requires a < Rango && b < Rango
    ensures GenerarCodigoTransaccion(a) == GenerarCodigoTransaccion(b) <==> a == b
  {
    if GenerarCodigoTransaccion(a) == GenerarCodigoTransaccion(b) {
      LeerGenerado(a);
      LeerGenerado(b);
    }
  }
}
