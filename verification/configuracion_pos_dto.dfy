/** `ConfiguracionPosDTO`, the request body that provisions the terminal,
    and the Bean Validation constraints declared on its fields. */
module ConfiguracionPosDto {
  import opened Wrappers
  import opened JavaLang
  import opened Patrones
  import opened BeanValidation
  import CP = ConfiguracionPosModelo

  datatype ConfiguracionPosDTO = ConfiguracionPosDTO(
    modelo: Option<string>,
    codigoPos: Option<string>,
    direccionMac: Option<string>,
    codigoComercio: Option<string>,
    fechaActivacion: Option<Instant>)   // no constraint

  /** `([0-9A-Fa-f]{2}[:-]){5}([0-9A-Fa-f]{2})` */
  const SeparadorMac: seq<Rango> := [Rango(':', ':'), Rango('-', '-')]
  const PatronGrupoMac: Patron := Concat(Repeticion(Hexadecimal, 2, 2), Clase(SeparadorMac))
  const PatronMac: Patron := Concat(Repeticion(PatronGrupoMac, 5, 5), Repeticion(Hexadecimal, 2, 2))

  /** `@NotBlank @Size(max = 10)` */
  predicate CodigoCortoValido(o: Option<string>) { NotBlank(o) && SizeMax(o, 10) }
  /** `@NotBlank @Size(max = 32) @Pattern(...)` */
  predicate DireccionMacValida(o: Option<string>) { NotBlank(o) && SizeMax(o, 32) && PatternMatches(o, PatronMac) }

  predicate DtoValido(d: ConfiguracionPosDTO)
  {
    CodigoCortoValido(d.modelo) && CodigoCortoValido(d.codigoPos)
    && DireccionMacValida(d.direccionMac) && CodigoCortoValido(d.codigoComercio)
  }

  predicate EsSeparadorMac(c: char) { c == ':' || c == '-' }

  /** Six hexadecimal pairs (either case), each of the first five followed by
      ':' or '-', the separators freely mixed: 17 characters in all. */
  predicate FormatoMac(s: string)
  {
    |s| == 17
    && (forall j :: 0 <= j < 6 ==> IsHexDigit(s[3 * j]) && IsHexDigit(s[3 * j + 1]))
    && (forall j :: 0 <= j < 5 ==> EsSeparadorMac(s[3 * j + 2]))
  }

  /** `n` groups of a hex pair followed by a separator. */
  predicate GruposDe3(s: string, n: nat)
  {
    |s| == 3 * n
    && forall j :: 0 <= j < n ==> IsHexDigit(s[3 * j]) && IsHexDigit(s[3 * j + 1]) && EsSeparadorMac(s[3 * j + 2])
  }

  lemma HexRepetidos(t: string)
    ensures CoincideRepeticion(Hexadecimal, 2, 2, t) <==> |t| == 2 && IsHexDigit(t[0]) && IsHexDigit(t[1])
  {
    ClaseRepetida(Hexadecimal.rangos, 2, 2, t);
    forall i | 0 <= i < |t| ensures EnClase(t[i], Hexadecimal.rangos) <==> IsHexDigit(t[i]) {
      HexadecimalCoincide([t[i]]);
    }
  }

  lemma SeparadorCoincide(t: string)
    ensures Coincide(Clase(SeparadorMac), t) <==> |t| == 1 && EsSeparadorMac(t[0])
  {
    if |t| == 1 {
      if t[0] == ':' { assert SeparadorMac[0].desde <= t[0] <= SeparadorMac[0].hasta; }
      if t[0] == '-' { assert SeparadorMac[1].desde <= t[0] <= SeparadorMac[1].hasta; }
    }
  }

  lemma GrupoMacCoincide(t: string)
    ensures Coincide(PatronGrupoMac, t) <==> GrupoMac(t)
  {
    forall u | Coincide(Repeticion(Hexadecimal, 2, 2), u) ensures |u| == 2 { HexRepetidos(u); }
    ConcatLongitudFija(Repeticion(Hexadecimal, 2, 2), Clase(SeparadorMac), 2, t);
    if |t| >= 2 {
      HexRepetidos(t[..2]);
      SeparadorCoincide(t[2..]);
    }
  }

  predicate GrupoMac(t: string)
  {
    |t| == 3 && IsHexDigit(t[0]) && IsHexDigit(t[1]) && EsSeparadorMac(t[2])
  }

  /** `n` blocks of a pattern that matches exactly the MAC groups. */
  lemma {:induction false} GruposMac(q: Patron, n: nat, s: string)
    requires forall t :: Coincide(q, t) <==> GrupoMac(t)
    ensures Bloques(q, 3, n, s) <==> GruposDe3(s, n)
  {
    if n > 0 && |s| >= 3 {
      GruposMac(q, n - 1, s[3..]);
      if Bloques(q, 3, n, s) {
        assert GrupoMac(s[..3]);
        forall j | 0 <= j < n
          ensures IsHexDigit(s[3 * j]) && IsHexDigit(s[3 * j + 1]) && EsSeparadorMac(s[3 * j + 2])
        {
          if j == 0 {
            assert s[..3][0] == s[3 * j] && s[..3][1] == s[3 * j + 1] && s[..3][2] == s[3 * j + 2];
          } else {
            var k := j - 1;
            assert IsHexDigit(s[3..][3 * k]) && IsHexDigit(s[3..][3 * k + 1]) && EsSeparadorMac(s[3..][3 * k + 2]);
            assert s[3..][3 * k] == s[3 * j] && s[3..][3 * k + 1] == s[3 * j + 1] && s[3..][3 * k + 2] == s[3 * j + 2];
          }
        }
      }
      if GruposDe3(s, n) {
        var cero := 0;
        assert IsHexDigit(s[3 * cero]) && IsHexDigit(s[3 * cero + 1]) && EsSeparadorMac(s[3 * cero + 2]);
        assert GrupoMac(s[..3]);
        assert GruposDe3(s[3..], n - 1) by {
          forall j | 0 <= j < n - 1
            ensures IsHexDigit(s[3..][3 * j]) && IsHexDigit(s[3..][3 * j + 1]) && EsSeparadorMac(s[3..][3 * j + 2])
          {
            assert s[3..][3 * j] == s[3 * (j + 1)];
            assert s[3..][3 * j + 1] == s[3 * (j + 1) + 1];
            assert s[3..][3 * j + 2] == s[3 * (j + 1) + 2];
          }
        }
      }
    }
  }

  /** A MAC is five groups followed by a last hex pair. */
  lemma FormatoMacPartes(s: string)
    requires |s| == 17
    ensures FormatoMac(s) <==> GruposDe3(s[..15], 5) && IsHexDigit(s[15]) && IsHexDigit(s[16])
  {
    var g := s[..15];
    forall j | 0 <= j < 5
      ensures g[3 * j] == s[3 * j] && g[3 * j + 1] == s[3 * j + 1] && g[3 * j + 2] == s[3 * j + 2]
    { }
    if FormatoMac(s) {
      var cinco := 5;
      assert IsHexDigit(s[3 * cinco]) && IsHexDigit(s[3 * cinco + 1]);
    }
    if GruposDe3(g, 5) && IsHexDigit(s[15]) && IsHexDigit(s[16]) {
      forall j | 0 <= j < 6 ensures IsHexDigit(s[3 * j]) && IsHexDigit(s[3 * j + 1]) {
        if j == 5 { assert 3 * j == 15; }
      }
    }
  }

  /** The five repeated groups of the MAC pattern. */
  lemma CincoGruposCoincide(t: string)
    ensures Coincide(Repeticion(PatronGrupoMac, 5, 5), t) <==> GruposDe3(t, 5)
  {
    forall u ensures Coincide(PatronGrupoMac, u) <==> GrupoMac(u) { GrupoMacCoincide(u); }
    RepeticionLongitudFija(PatronGrupoMac, 3, 5, t);
    GruposMac(PatronGrupoMac, 5, t);
  }

  /** The MAC pattern accepts exactly the six-pair format. */
  lemma PatronMacSiFormato(s: string)
    ensures Coincide(PatronMac, s) <==> FormatoMac(s)
  {
    var grupos := Repeticion(PatronGrupoMac, 5, 5);
    var par := Repeticion(Hexadecimal, 2, 2);
    forall t | Coincide(grupos, t) ensures |t| == 15 { CincoGruposCoincide(t); }
    ConcatLongitudFija(grupos, par, 15, s);
    if |s| >= 15 {
      CincoGruposCoincide(s[..15]);
      HexRepetidos(s[15..]);
    }
    if |s| == 17 { FormatoMacPartes(s); }
  }

  /** A MAC is accepted exactly when it is six hex pairs with ':' or '-' between
      them; the non-blank check and the 32-character cap add nothing to the pattern. */
  lemma DireccionMacValidaSiFormato(o: Option<string>)
    ensures DireccionMacValida(o) <==> o.Some? && FormatoMac(o.value)
  {
    if o.Some? {
      var s := o.value;
      PatronMacSiFormato(s);
      if FormatoMac(s) {
        var cero := 0;
        assert IsHexDigit(s[3 * cero]);
        assert !IsBlank(s);
      }
    }
  }

  /** `ConfiguracionPosMapper.toModel`: the same five fields. */
  function ToModel(d: ConfiguracionPosDTO): CP.ConfiguracionPos
  {
    CP.ConfiguracionPos(d.modelo, d.codigoPos, d.direccionMac, d.codigoComercio, d.fechaActivacion)
  }

  /** A valid request, once its activation instant is stamped, fits every
      column of POS_CONFIGURACION. */
  lemma DtoValidoCumpleColumnas(d: ConfiguracionPosDTO, ahora: Instant)
    requires DtoValido(d)
    ensures CP.CumpleColumnas(ToModel(d).(fechaActivacion := Some(ahora)))
  {
  }
}
