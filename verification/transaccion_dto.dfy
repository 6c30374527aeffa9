/** `TransaccionDTO`, the request body of the payment endpoint, and the
    Bean Validation constraints declared on its fields. */
module TransaccionDto {
  import opened Wrappers
  import opened JavaLang
  import opened Patrones
  import opened BeanValidation

  /** Every field is a nullable reference; `monto` is held in cents. */
  datatype TransaccionDTO = TransaccionDTO(
    codTransaccion: Option<string>,
    tipo: Option<string>,
    marca: Option<string>,
    modalidad: Option<string>,
    detalle: Option<string>,
    monto: Option<int>,
    codigoUnicoTransaccion: Option<string>,
    fecha: Option<Instant>,
    estado: Option<string>,
    estadoRecibo: Option<string>,
    moneda: Option<string>,
    numeroTarjeta: Option<string>,
    nombreTitular: Option<string>,
    frecuenciaDias: Option<int>,
    plazo: Option<int>,
    cvv: Option<string>,
    fechaExpiracion: Option<string>)

  // The regular expressions of the @Pattern annotations.
  const PatronTipo: Patron := Literal("PAG")
  const PatronMarca: Patron :=
    Alternativa(Literal("VISA"), Alternativa(Literal("MAST"), Alternativa(Literal("AMEX"), Literal("DISC"))))
  const PatronModalidad: Patron := Alternativa(Literal("SIM"), Literal("REC"))
  const PatronMoneda: Patron := Alternativa(Literal("USD"), Alternativa(Literal("EUR"), Literal("MXN")))
  const PatronTarjeta: Patron := Repeticion(Digito, 16, 16)
  const PatronCvv: Patron := Repeticion(Digito, 3, 4)
  const PatronMes: Patron :=
    Alternativa(Concat(Caracter('0'), Clase([Rango('1', '9')])),
                Concat(Caracter('1'), Clase([Rango('0', '2')])))
  const PatronBarraAnio: Patron := Concat(Caracter('/'), Repeticion(Digito, 2, 2))
  const PatronExpiracion: Patron := Concat(PatronMes, PatronBarraAnio)

  // One predicate per annotated field, conjoining its annotations.
  predicate TipoValido(o: Option<string>) { NotBlank(o) && SizeMax(o, 3) && PatternMatches(o, PatronTipo) }
  predicate MarcaValida(o: Option<string>) { NotBlank(o) && SizeMax(o, 4) && PatternMatches(o, PatronMarca) }
  predicate ModalidadValida(o: Option<string>) { NotBlank(o) && SizeMax(o, 3) && PatternMatches(o, PatronModalidad) }
  predicate DetalleValido(o: Option<string>) { SizeMax(o, 50) }
  predicate MontoValido(o: Option<int>) { NotNull(o) && DecimalMinCents(o, 1) && DigitsCents(o, 18) }
  predicate MonedaValida(o: Option<string>) { NotBlank(o) && SizeMax(o, 3) && PatternMatches(o, PatronMoneda) }
  predicate NumeroTarjetaValido(o: Option<string>) { PatternMatches(o, PatronTarjeta) }
  predicate FrecuenciaDiasValida(o: Option<int>) { Min(o, 1) }
  predicate PlazoValido(o: Option<int>) { Min(o, 1) }
  predicate CvvValido(o: Option<string>) { PatternMatches(o, PatronCvv) }
  predicate FechaExpiracionValida(o: Option<string>) { PatternMatches(o, PatronExpiracion) }

  /** What `@Valid` checks before the controller method runs. The fields
      `codTransaccion`, `codigoUnicoTransaccion`, `fecha`, `estado`,
      `estadoRecibo` and `nombreTitular` carry no constraint. */
  predicate DtoValido(d: TransaccionDTO)
  {
    && TipoValido(d.tipo) && MarcaValida(d.marca) && ModalidadValida(d.modalidad)
    && DetalleValido(d.detalle) && MontoValido(d.monto) && MonedaValida(d.moneda)
    && NumeroTarjetaValido(d.numeroTarjeta) && FrecuenciaDiasValida(d.frecuenciaDias)
    && PlazoValido(d.plazo) && CvvValido(d.cvv) && FechaExpiracionValida(d.fechaExpiracion)
  }

  /** A month written as two characters, 01 to 12. */
  predicate MesValido(s: string)
  {
    |s| == 2 && IsDigit(s[0]) && IsDigit(s[1]) && 1 <= 10 * DigitValue(s[0]) + DigitValue(s[1]) <= 12
  }

  /** `MM/YY`: a month 01-12, a slash, two digits. */
  predicate FormatoMMYY(s: string)
  {
    |s| == 5 && MesValido(s[..2]) && s[2] == '/' && IsDigit(s[3]) && IsDigit(s[4])
  }

  // Characterisations of the field constraints.

  lemma AlternativaLiterales(ws: seq<string>, p: Patron, s: string)
    requires |ws| >= 1
    requires p == AlternativasDe(ws)
    ensures Coincide(p, s) <==> s in ws
    decreases |ws|
  {
    LiteralCoincide(ws[0], s);
    if |ws| > 1 { AlternativaLiterales(ws[1..], AlternativasDe(ws[1..]), s); }
  }

  /** `w0|w1|...|wn` */
  function AlternativasDe(ws: seq<string>): Patron
    requires |ws| >= 1
    decreases |ws|
  {
    if |ws| == 1 then Literal(ws[0]) else Alternativa(Literal(ws[0]), AlternativasDe(ws[1..]))
  }

  /** `tipo` must be exactly "PAG". */
  lemma TipoValidoSiPag(o: Option<string>)
    ensures TipoValido(o) <==> o == Some("PAG")
  {
    if o.Some? { LiteralCoincide("PAG", o.value); }
  }

  /** `marca` is required and must be VISA, MAST, AMEX or DISC. */
  lemma MarcaValidaSiConocida(o: Option<string>)
    ensures MarcaValida(o) <==> o.Some? && o.value in ["VISA", "MAST", "AMEX", "DISC"]
  {
    assert PatronMarca == AlternativasDe(["VISA", "MAST", "AMEX", "DISC"]);
    if o.Some? { AlternativaLiterales(["VISA", "MAST", "AMEX", "DISC"], PatronMarca, o.value); }
  }

  /** `modalidad` is required and must be SIM or REC; DIF is rejected. */
  lemma ModalidadValidaSiSimORec(o: Option<string>)
    ensures ModalidadValida(o) <==> o == Some("SIM") || o == Some("REC")
  {
    assert PatronModalidad == AlternativasDe(["SIM", "REC"]);
    if o.Some? { AlternativaLiterales(["SIM", "REC"], PatronModalidad, o.value); }
  }

  /** `moneda` is required and must be USD, EUR or MXN. */
  lemma MonedaValidaSiConocida(o: Option<string>)
    ensures MonedaValida(o) <==> o.Some? && o.value in ["USD", "EUR", "MXN"]
  {
    assert PatronMoneda == AlternativasDe(["USD", "EUR", "MXN"]);
    if o.Some? { AlternativaLiterales(["USD", "EUR", "MXN"], PatronMoneda, o.value); }
  }

  lemma EnClaseDigito(c: char)
    ensures EnClase(c, [Rango('0', '9')]) <==> IsDigit(c)
  {
    var rs := [Rango('0', '9')];
    if IsDigit(c) { assert rs[0].desde <= c <= rs[0].hasta; }
  }

  lemma DigitosRepetidos(lo: nat, hi: nat, s: string)
    ensures CoincideRepeticion(Digito, lo, hi, s) <==> lo <= |s| <= hi && AllDigits(s)
  {
    ClaseRepetida([Rango('0', '9')], lo, hi, s);
    forall i | 0 <= i < |s| { EnClaseDigito(s[i]); }
  }

  /** A card number is absent or exactly sixteen ASCII digits. */
  lemma NumeroTarjetaValidoSi16Digitos(o: Option<string>)
    ensures NumeroTarjetaValido(o) <==> o.None? || (|o.value| == 16 && AllDigits(o.value))
  {
    if o.Some? { DigitosRepetidos(16, 16, o.value); }
  }

  /** A CVV is absent or three or four ASCII digits. */
  lemma CvvValidoSi3o4Digitos(o: Option<string>)
    ensures CvvValido(o) <==> o.None? || (3 <= |o.value| <= 4 && AllDigits(o.value))
  {
    if o.Some? { DigitosRepetidos(3, 4, o.value); }
  }

  lemma MesCoincide(s: string)
    ensures Coincide(PatronMes, s) <==> MesValido(s)
  {
    var a := Concat(Caracter('0'), Clase([Rango('1', '9')]));
    var b := Concat(Caracter('1'), Clase([Rango('0', '2')]));
    forall t | Coincide(Caracter('0'), t) ensures |t| == 1 { CaracterCoincide('0', t); }
    forall t | Coincide(Caracter('1'), t) ensures |t| == 1 { CaracterCoincide('1', t); }
    ConcatLongitudFija(Caracter('0'), Clase([Rango('1', '9')]), 1, s);
    ConcatLongitudFija(Caracter('1'), Clase([Rango('0', '2')]), 1, s);
    if |s| >= 1 {
      CaracterCoincide('0', s[..1]);
      CaracterCoincide('1', s[..1]);
    }
    if |s| == 2 {
      var r1 := [Rango('1', '9')];
      var r2 := [Rango('0', '2')];
      assert s[1..] == [s[1]];
      if '1' <= s[1] <= '9' { assert r1[0].desde <= s[1] <= r1[0].hasta; }
      if '0' <= s[1] <= '2' { assert r2[0].desde <= s[1] <= r2[0].hasta; }
    }
  }

  lemma BarraAnioCoincide(t: string)
    ensures Coincide(PatronBarraAnio, t) <==> |t| == 3 && t[0] == '/' && IsDigit(t[1]) && IsDigit(t[2])
  {
    forall u | Coincide(Caracter('/'), u) ensures |u| == 1 { CaracterCoincide('/', u); }
    ConcatLongitudFija(Caracter('/'), Repeticion(Digito, 2, 2), 1, t);
    if |t| >= 1 {
      CaracterCoincide('/', t[..1]);
      DigitosRepetidos(2, 2, t[1..]);
    }
  }

  /** An expiry date is absent or `MM/YY` with a month from 01 to 12. */
  lemma FechaExpiracionValidaSiMMYY(o: Option<string>)
    ensures FechaExpiracionValida(o) <==> o.None? || FormatoMMYY(o.value)
  {
    if o.Some? {
      var s := o.value;
      forall t | Coincide(PatronMes, t) ensures |t| == 2 { MesCoincide(t); }
      ConcatLongitudFija(PatronMes, PatronBarraAnio, 2, s);
      if |s| >= 2 {
        MesCoincide(s[..2]);
        BarraAnioCoincide(s[2..]);
      }
    }
  }

  /** The amount is required and, in cents, lies in `[1, 10^20)`. */
  lemma MontoValidoSiPositivoAcotado(o: Option<int>)
    ensures MontoValido(o) <==> o.Some? && 1 <= o.value < 100000000000000000000
  {
    Pow10Valores();
  }

  /** A valid request always has a non-empty CVV (or none) that `Integer.parseInt` accepts. */
  lemma CvvValidoSeLee(o: Option<string>)
    requires CvvValido(o) && o.Some?
    ensures ParseInt(o.value) == Some(ReadDecimal(o.value))
  {
    CvvValidoSi3o4Digitos(o);
    ParseIntDigits(o.value);
  }
}
