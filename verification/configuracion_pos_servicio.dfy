/** `ConfiguracionPosService`: the configuration table of the terminal, its
    finders, and the create and update operations that change it. The
    repository is modelled as the sequence of rows that `findAll` returns;
    `save` is JPA's merge (replace the row with the same key, else add one). */
module ConfiguracionPosServicio {
  import opened Wrappers
  import opened JavaLang
  import opened ConfiguracionPosModelo
  import opened Errores

  type Tabla = seq<ConfiguracionPos>

  /** The two columns that have a derived single-result finder. */
  datatype Columna = CodigoPos | DireccionMac

  function Valor(c: ConfiguracionPos, col: Columna): Option<string>
  {
    match col
    case CodigoPos => c.codigoPos
    case DireccionMac => c.direccionMac
  }

  /** Some row has value `v` in column `col`. */
  predicate HayCon(tabla: Tabla, col: Columna, v: Option<string>)
  {
    exists i :: 0 <= i < |tabla| && Valor(tabla[i], col) == v
  }

  /** The positions of the rows with value `v` in column `col`. */
  function Posiciones(tabla: Tabla, col: Columna, v: Option<string>): set<nat>
  {
    set i: nat | i < |tabla| && Valor(tabla[i], col) == v
  }

  function Desplazar(s: set<nat>): set<nat>
  {
    set i | i in s :: i + 1
  }

  /** Shifting positions by one keeps their number. */
  lemma {:induction false} DesplazarConserva(s: set<nat>)
    ensures |Desplazar(s)| == |s|
    decreases s
  {
    if s != {} {
      var x :| x in s;
      var s' := s - {x};
      DesplazarConserva(s');
      forall y | y in Desplazar(s) ensures y in Desplazar(s') + {x + 1} {
        var z :| z in s && y == z + 1;
        if z != x { assert z in s'; }
      }
      forall y | y in Desplazar(s') + {x + 1} ensures y in Desplazar(s) {
        if y != x + 1 { var z :| z in s' && y == z + 1; assert z in s; }
      }
      assert Desplazar(s) == Desplazar(s') + {x + 1};
      assert x + 1 !in Desplazar(s');
    }
  }

  /** The matching positions of a table are its first row's, if it matches,
      and those of the rest shifted by one. */
  lemma PosicionesDescompuestas(tabla: Tabla, col: Columna, v: Option<string>)
    requires tabla != []
    ensures Posiciones(tabla, col, v)
            == Desplazar(Posiciones(tabla[1..], col, v)) + (if Valor(tabla[0], col) == v then {0} else {})
  {
    var resto := Desplazar(Posiciones(tabla[1..], col, v));
    forall i | i in Posiciones(tabla, col, v) && i > 0 ensures i in resto {
      assert tabla[1..][i - 1] == tabla[i];
      assert i - 1 in Posiciones(tabla[1..], col, v);
    }
    forall i | i in resto ensures i in Posiciones(tabla, col, v) {
      var j :| j in Posiciones(tabla[1..], col, v) && i == j + 1;
      assert tabla[1..][j] == tabla[i];
    }
  }

  /** Hence their number. */
  lemma PosicionesPrimero(tabla: Tabla, col: Columna, v: Option<string>)
    requires tabla != []
    ensures |Posiciones(tabla, col, v)|
            == (if Valor(tabla[0], col) == v then 1 else 0) + |Posiciones(tabla[1..], col, v)|
  {
    PosicionesDescompuestas(tabla, col, v);
    DesplazarConserva(Posiciones(tabla[1..], col, v));
    assert 0 !in Desplazar(Posiciones(tabla[1..], col, v));
  }

  /** The rows a derived query `findBy<col>(v)` selects, in table order, one
      per matching row; a `null` argument selects the rows where the column
      is null. */
  function Coincidentes(tabla: Tabla, col: Columna, v: Option<string>): (r: Tabla)
    ensures forall c :: c in r <==> c in tabla && Valor(c, col) == v
    ensures |r| == |Posiciones(tabla, col, v)|
    ensures r == [] <==> !HayCon(tabla, col, v)
    ensures |r| <= |tabla|
  {
    if tabla == [] then
      assert Posiciones(tabla, col, v) == {};
      []
    else
      var resto := Coincidentes(tabla[1..], col, v);
      PosicionesPrimero(tabla, col, v);
      assert forall c :: c in tabla <==> c == tabla[0] || c in tabla[1..];
      assert HayCon(tabla, col, v) <==> Valor(tabla[0], col) == v || HayCon(tabla[1..], col, v) by {
        if HayCon(tabla[1..], col, v) {
          var j :| 0 <= j < |tabla[1..]| && Valor(tabla[1..][j], col) == v;
          assert tabla[j + 1] == tabla[1..][j];
        }
        if HayCon(tabla, col, v) && Valor(tabla[0], col) != v {
          var j :| 0 <= j < |tabla| && Valor(tabla[j], col) == v;
          assert tabla[1..][j - 1] == tabla[j];
        }
      }
      if Valor(tabla[0], col) == v then [tabla[0]] + resto else resto
  }

  /** A derived query declared to return one entity: `null` for no row, the
      row for one, an exception for more. */
  function ConsultaUnica(ms: Tabla): (r: Result<Option<ConfiguracionPos>, Falla>)
    ensures r == Success(None) <==> ms == []
    ensures r.Success? && r.value.Some? <==> |ms| == 1
    ensures r.Success? && r.value.Some? ==> r.value.value == ms[0]
    ensures r.Failure? ==> r.error == ResultadoNoUnico
  {
    if ms == [] then Success(None)
    else if |ms| == 1 then Success(Some(ms[0]))
    else Failure(ResultadoNoUnico)
  }

  /** No two rows share a value in column `col` (two nulls count as equal,
      since the finder matches null with IS NULL). */
  predicate Unicos(tabla: Tabla, col: Columna)
  {
    forall i, j :: 0 <= i < j < |tabla| ==> Valor(tabla[i], col) != Valor(tabla[j], col)
  }

  /** No two rows share a primary key. */
  predicate ClavesUnicas(tabla: Tabla)
  {
    forall i, j :: 0 <= i < j < |tabla| ==> Clave(tabla[i]) != Clave(tabla[j])
  }

  function Claves(tabla: Tabla): set<ConfiguracionPosPK>
  {
    set c | c in tabla :: Clave(c)
  }

  /** With a unique column, a finder never sees more than one row. */
  lemma {:induction false} UnicosCoincidenUnaVez(tabla: Tabla, col: Columna, v: Option<string>)
    ensures Unicos(tabla, col) ==> |Coincidentes(tabla, col, v)| <= 1
  {
    if tabla != [] && Unicos(tabla, col) {
      var resto := tabla[1..];
      assert Unicos(resto, col);
      UnicosCoincidenUnaVez(resto, col, v);
      if Valor(tabla[0], col) == v {
        assert !HayCon(resto, col, v) by {
          forall j | 0 <= j < |resto| ensures Valor(resto[j], col) != v {
            assert resto[j] == tabla[j + 1];
          }
        }
      }
    }
  }

  /** A column whose values are unique also makes the key unique. */
  lemma CodigosUnicosImplicanClavesUnicas(tabla: Tabla)
    requires Unicos(tabla, CodigoPos)
    ensures ClavesUnicas(tabla)
  {
  }

  /** The first row with key `k`, if any. */
  function IndiceClave(tabla: Tabla, k: ConfiguracionPosPK): (i: Option<nat>)
    ensures i.Some? ==> i.value < |tabla| && Clave(tabla[i.value]) == k
    ensures i.Some? ==> forall j :: 0 <= j < i.value ==> Clave(tabla[j]) != k
    ensures i.None? <==> forall c :: c in tabla ==> Clave(c) != k
  {
    if tabla == [] then None
    else if Clave(tabla[0]) == k then Some(0)
    else
      match IndiceClave(tabla[1..], k)
      case None =>
        assert forall c :: c in tabla ==> c == tabla[0] || c in tabla[1..];
        None
      case Some(j) => Some(j + 1)
  }

  /** Overwriting a row with one of the same key keeps the key set and its uniqueness. */
  lemma ReemplazarConservaClaves(tabla: Tabla, i: nat, c: ConfiguracionPos)
    requires i < |tabla| && Clave(tabla[i]) == Clave(c)
    ensures c in tabla[i := c]
    ensures Claves(tabla[i := c]) == Claves(tabla)
    ensures ClavesUnicas(tabla) ==> ClavesUnicas(tabla[i := c])
  {
    var t := tabla[i := c];
    assert t[i] == c;
    forall k | k in Claves(tabla) ensures k in Claves(t) {
      var x :| x in tabla && Clave(x) == k;
      var j :| 0 <= j < |tabla| && tabla[j] == x;
      if j == i { assert Clave(t[i]) == k; } else { assert t[j] == x; }
    }
    forall k | k in Claves(t) ensures k in Claves(tabla) {
      var x :| x in t && Clave(x) == k;
      var j :| 0 <= j < |t| && t[j] == x;
      if j == i { assert Clave(tabla[i]) == k; } else { assert tabla[j] == x; }
    }
  }

  /** `repository.save(c)`: JPA merge. The row with the same key is replaced;
      without one, the row is added. */
  function Guardar(tabla: Tabla, c: ConfiguracionPos): (t: Tabla)
    ensures c in t
    ensures Claves(t) == Claves(tabla) + {Clave(c)}
    ensures |t| == if Clave(c) in Claves(tabla) then |tabla| else |tabla| + 1
    ensures ClavesUnicas(tabla) ==> ClavesUnicas(t)
    ensures IndiceClave(tabla, Clave(c)).Some? ==> t == tabla[IndiceClave(tabla, Clave(c)).value := c]
    ensures IndiceClave(tabla, Clave(c)).None? ==> t == tabla + [c]
  {
    match IndiceClave(tabla, Clave(c))
    case Some(i) =>
      ReemplazarConservaClaves(tabla, i, c);
      tabla[i := c]
    case None =>
      var t := tabla + [c];
      assert forall x :: x in t <==> x == c || x in tabla;
      assert Claves(t) == Claves(tabla) + {Clave(c)};
      t
  }

  // The service's operations.

  /** `obtenerConfiguracionLocal`: the first row, or not-found on an empty table. */
  function ObtenerConfiguracionLocal(tabla: Tabla): (r: Result<ConfiguracionPos, Falla>)
    ensures r.Success? <==> tabla != []
    ensures r.Success? ==> r.value == tabla[0]
    ensures r.Failure? ==> r.error == NoEncontrado(Some("N/A"), "ConfiguracionPos")
  {
    if tabla == [] then Failure(NoEncontrado(Some("N/A"), "ConfiguracionPos")) else Success(tabla[0])
  }

  /** The finder behind `findByCodigoPos` and `findByDireccionMac`: the row
      when exactly one matches, not-found for none, non-unique for more. */
  function BuscarPor(tabla: Tabla, col: Columna, v: Option<string>, entidad: string): (r: Result<ConfiguracionPos, Falla>)
    ensures r.Success? ==> r.value in tabla && Valor(r.value, col) == v
    ensures r.Success? <==> |Coincidentes(tabla, col, v)| == 1
    ensures r == Failure(ResultadoNoUnico) <==> |Coincidentes(tabla, col, v)| >= 2
    ensures r == Failure(NoEncontrado(v, entidad)) <==> forall c :: c in tabla ==> Valor(c, col) != v
    ensures r.Failure? && r.error != NoEncontrado(v, entidad) ==> r.error == ResultadoNoUnico
    ensures Unicos(tabla, col) ==> r.Success? || r == Failure(NoEncontrado(v, entidad))
  {
    var ms := Coincidentes(tabla, col, v);
    UnicosCoincidenUnaVez(tabla, col, v);
    match ConsultaUnica(ms)
    case Failure(e) => assert ms[0] in ms; Failure(e)
    case Success(None) => Failure(NoEncontrado(v, entidad))
    case Success(Some(c)) => assert c == ms[0] && c in ms; Success(c)
  }

  /** `findByCodigoPos`. */
  function FindByCodigoPos(tabla: Tabla, codigoPos: Option<string>): (r: Result<ConfiguracionPos, Falla>)
    ensures r.Success? ==> r.value in tabla && r.value.codigoPos == codigoPos
    ensures r == Failure(NoEncontrado(codigoPos, "ConfiguracionPos.codigoPos"))
            <==> forall c :: c in tabla ==> c.codigoPos != codigoPos
    ensures r.Success? <==> |Coincidentes(tabla, CodigoPos, codigoPos)| == 1
    ensures r == Failure(ResultadoNoUnico) <==> |Coincidentes(tabla, CodigoPos, codigoPos)| >= 2
    ensures Unicos(tabla, CodigoPos) ==> r.Success? || r == Failure(NoEncontrado(codigoPos, "ConfiguracionPos.codigoPos"))
  {
    BuscarPor(tabla, CodigoPos, codigoPos, "ConfiguracionPos.codigoPos")
  }

  /** `findByDireccionMac`. */
  function FindByDireccionMac(tabla: Tabla, direccionMac: Option<string>): (r: Result<ConfiguracionPos, Falla>)
    ensures r.Success? ==> r.value in tabla && r.value.direccionMac == direccionMac
    ensures r == Failure(NoEncontrado(direccionMac, "ConfiguracionPos.direccionMac"))
            <==> forall c :: c in tabla ==> c.direccionMac != direccionMac
    ensures r.Success? <==> |Coincidentes(tabla, DireccionMac, direccionMac)| == 1
    ensures r == Failure(ResultadoNoUnico) <==> |Coincidentes(tabla, DireccionMac, direccionMac)| >= 2
    ensures Unicos(tabla, DireccionMac) ==> r.Success? || r == Failure(NoEncontrado(direccionMac, "ConfiguracionPos.direccionMac"))
  {
    BuscarPor(tabla, DireccionMac, direccionMac, "ConfiguracionPos.direccionMac")
  }

  /** A value held by exactly one row is found, and that row is returned. */
  lemma UnaCoincidenciaSeDevuelve(tabla: Tabla, col: Columna, v: Option<string>, entidad: string, i: int)
    requires 0 <= i < |tabla| && Valor(tabla[i], col) == v
    requires forall j :: 0 <= j < |tabla| && j != i ==> Valor(tabla[j], col) != v
    ensures BuscarPor(tabla, col, v, entidad) == Success(tabla[i])
  {
    assert Posiciones(tabla, col, v) == {i};
    var r := BuscarPor(tabla, col, v, entidad);
    var k :| 0 <= k < |tabla| && tabla[k] == r.value;
  }

  /** `findById(modelo, codigoPos)`: the row with that key, or not-found. */
  function FindById(tabla: Tabla, modelo: Option<string>, codigoPos: Option<string>): (r: Result<ConfiguracionPos, Falla>)
    ensures r.Success? ==> r.value in tabla && Clave(r.value) == ConfiguracionPosPK(modelo, codigoPos)
    ensures r.Failure? <==> ConfiguracionPosPK(modelo, codigoPos) !in Claves(tabla)
    ensures r.Failure? ==> r.error == NoEncontrado(Some(Show(modelo) + ":" + Show(codigoPos)), "ConfiguracionPos")
  {
    match IndiceClave(tabla, ConfiguracionPosPK(modelo, codigoPos))
    case None => Failure(NoEncontrado(Some(Show(modelo) + ":" + Show(codigoPos)), "ConfiguracionPos"))
    case Some(i) => Success(tabla[i])
  }

  function MensajeCodigoRepetido(codigoPos: Option<string>): string
  {
    "Ya existe una configuración para el POS con código: " + Show(codigoPos)
  }

  function MensajeMacRepetida(direccionMac: Option<string>): string
  {
    "Ya existe una configuración para el POS con dirección MAC: " + Show(direccionMac)
  }

  /** `createConfiguracion(c)` at instant `ahora`, as a function of the table. */
  function Crear(tabla: Tabla, c: ConfiguracionPos, ahora: Instant): Efecto<ConfiguracionPos, Tabla>
  {
    match ConsultaUnica(Coincidentes(tabla, CodigoPos, c.codigoPos))
    case Failure(e) => Efecto(Failure(e), tabla)
    case Success(Some(_)) => Efecto(Failure(Validacion(MensajeCodigoRepetido(c.codigoPos))), tabla)
    case Success(None) =>
      match ConsultaUnica(Coincidentes(tabla, DireccionMac, c.direccionMac))
      case Failure(e) => Efecto(Failure(e), tabla)
      case Success(Some(_)) => Efecto(Failure(Validacion(MensajeMacRepetida(c.direccionMac))), tabla)
      case Success(None) =>
        var activada := c.(fechaActivacion := Some(ahora));
        Efecto(Success(activada), Guardar(tabla, activada))
  }

  /** `updateConfiguracion(c)`, as a function of the table. */
  function Actualizar(tabla: Tabla, c: ConfiguracionPos): Efecto<ConfiguracionPos, Tabla>
  {
    match FindById(tabla, c.modelo, c.codigoPos)
    case Failure(e) => Efecto(Failure(e), tabla)
    case Success(_) => Efecto(Success(c), Guardar(tabla, c))
  }

  /** Create fails and changes nothing when the code is taken; on a table
      with unique codes the failure is the duplicate-code validation error. */
  lemma CrearCodigoRepetido(tabla: Tabla, c: ConfiguracionPos, ahora: Instant)
    requires HayCon(tabla, CodigoPos, c.codigoPos)
    ensures Crear(tabla, c, ahora).resultado.Failure?
    ensures Crear(tabla, c, ahora).tabla == tabla
    ensures Unicos(tabla, CodigoPos) ==>
      Crear(tabla, c, ahora).resultado == Failure(Validacion(MensajeCodigoRepetido(c.codigoPos)))
  {
    var i :| 0 <= i < |tabla| && Valor(tabla[i], CodigoPos) == c.codigoPos;
    assert tabla[i] in Coincidentes(tabla, CodigoPos, c.codigoPos);
    UnicosCoincidenUnaVez(tabla, CodigoPos, c.codigoPos);
  }

  /** Create fails and changes nothing when the code is free but the MAC is
      taken; on a table with unique MACs the failure is the duplicate-MAC
      validation error. */
  lemma CrearMacRepetida(tabla: Tabla, c: ConfiguracionPos, ahora: Instant)
    requires !HayCon(tabla, CodigoPos, c.codigoPos)
    requires HayCon(tabla, DireccionMac, c.direccionMac)
    ensures Crear(tabla, c, ahora).resultado.Failure?
    ensures Crear(tabla, c, ahora).tabla == tabla
    ensures Unicos(tabla, DireccionMac) ==>
      Crear(tabla, c, ahora).resultado == Failure(Validacion(MensajeMacRepetida(c.direccionMac)))
  {
    var i :| 0 <= i < |tabla| && Valor(tabla[i], DireccionMac) == c.direccionMac;
    assert tabla[i] in Coincidentes(tabla, DireccionMac, c.direccionMac);
    UnicosCoincidenUnaVez(tabla, DireccionMac, c.direccionMac);
  }

  /** Create succeeds exactly when neither the code nor the MAC is taken; it
      then stamps the activation instant and adds exactly that row at the end. */
  lemma CrearExito(tabla: Tabla, c: ConfiguracionPos, ahora: Instant)
    ensures Crear(tabla, c, ahora).resultado.Success? <==>
      !HayCon(tabla, CodigoPos, c.codigoPos) && !HayCon(tabla, DireccionMac, c.direccionMac)
    ensures Crear(tabla, c, ahora).resultado.Success? ==>
      && Crear(tabla, c, ahora).resultado.value == c.(fechaActivacion := Some(ahora))
      && Crear(tabla, c, ahora).tabla == tabla + [c.(fechaActivacion := Some(ahora))]
  {
    if HayCon(tabla, CodigoPos, c.codigoPos) {
      CrearCodigoRepetido(tabla, c, ahora);
    } else if HayCon(tabla, DireccionMac, c.direccionMac) {
      CrearMacRepetida(tabla, c, ahora);
    } else {
        var activada := c.(fechaActivacion := Some(ahora));
      assert Clave(activada) !in Claves(tabla);
    }
  }

  /** Create keeps codes, MACs and keys unique. */
  lemma CrearConservaUnicidad(tabla: Tabla, c: ConfiguracionPos, ahora: Instant)
    ensures Unicos(tabla, CodigoPos) ==> Unicos(Crear(tabla, c, ahora).tabla, CodigoPos)
    ensures Unicos(tabla, DireccionMac) ==> Unicos(Crear(tabla, c, ahora).tabla, DireccionMac)
    ensures ClavesUnicas(tabla) ==> ClavesUnicas(Crear(tabla, c, ahora).tabla)
  {
    CrearExito(tabla, c, ahora);
    var t := Crear(tabla, c, ahora).tabla;
    if Crear(tabla, c, ahora).resultado.Success? {
      var activada := c.(fechaActivacion := Some(ahora));
      assert t == tabla + [activada];
      forall col: Columna | Unicos(tabla, col) ensures Unicos(t, col) {
        assert !HayCon(tabla, col, Valor(activada, col)) by {
          assert Valor(activada, col) == Valor(c, col);
        }
      }
    }
  }

  /** Update of an absent key fails with not-found and changes nothing. */
  lemma ActualizarAusente(tabla: Tabla, c: ConfiguracionPos)
    requires Clave(c) !in Claves(tabla)
    ensures Actualizar(tabla, c).resultado
            == Failure(NoEncontrado(Some(Show(c.modelo) + ":" + Show(c.codigoPos)), "ConfiguracionPos"))
    ensures Actualizar(tabla, c).tabla == tabla
  {
  }

  /** Update of a present key replaces that row in place: the length and the
      key set stay, every other row stays, and codes stay unique. */
  lemma ActualizarReemplaza(tabla: Tabla, c: ConfiguracionPos)
    requires Clave(c) in Claves(tabla)
    ensures Actualizar(tabla, c).resultado == Success(c)
    ensures |Actualizar(tabla, c).tabla| == |tabla|
    ensures Claves(Actualizar(tabla, c).tabla) == Claves(tabla)
    ensures exists i :: 0 <= i < |tabla| && Clave(tabla[i]) == Clave(c)
                        && Actualizar(tabla, c).tabla == tabla[i := c]
    ensures Unicos(tabla, CodigoPos) ==> Unicos(Actualizar(tabla, c).tabla, CodigoPos)
  {
    var i := IndiceClave(tabla, Clave(c)).value;
    var t := Actualizar(tabla, c).tabla;
    assert t == tabla[i := c];
    if Unicos(tabla, CodigoPos) {
      forall j, k | 0 <= j < k < |t| ensures Valor(t[j], CodigoPos) != Valor(t[k], CodigoPos) {
        assert Valor(c, CodigoPos) == Valor(tabla[i], CodigoPos);
      }
    }
  }

  /** Update does not re-check the MAC: a table with unique MACs can leave it
      with two rows sharing one. */
  lemma ActualizarNoConservaMacsUnicas()
    ensures exists tabla: Tabla, c: ConfiguracionPos ::
      && Unicos(tabla, DireccionMac)
      && Actualizar(tabla, c).resultado.Success?
      && !Unicos(Actualizar(tabla, c).tabla, DireccionMac)
  {
    var a := ConfiguracionPos(Some("M1"), Some("P1"), Some("AA"), Some("C"), Some(0));
    var b := ConfiguracionPos(Some("M1"), Some("P2"), Some("BB"), Some("C"), Some(0));
    var tabla := [a, b];
    var c := b.(direccionMac := Some("AA"));
    assert Clave(c) == Clave(tabla[1]);
    ActualizarReemplaza(tabla, c);
    var t := Actualizar(tabla, c).tabla;
    assert t[1] == c by { assert IndiceClave(tabla, Clave(c)) == Some(1); }
    assert t[0] == a;
    assert Unicos(tabla, DireccionMac);
  }

  /** The service, holding the table its repository sees. */
  class Servicio {
    var tabla: Tabla

    constructor (inicial: Tabla)
      ensures tabla == inicial
    {
      tabla := inicial;
    }

    /** `createConfiguracion`: two duplicate checks, then stamp and save. */
    method CreateConfiguracion(c: ConfiguracionPos, ahora: Instant) returns (r: Result<ConfiguracionPos, Falla>)
      modifies this
      ensures Efecto(r, tabla) == Crear(old(tabla), c, ahora)
      ensures old(Unicos(tabla, CodigoPos)) ==> Unicos(tabla, CodigoPos)
      ensures old(Unicos(tabla, DireccionMac)) ==> Unicos(tabla, DireccionMac)
    {
      CrearConservaUnicidad(tabla, c, ahora);
      var porCodigo := ConsultaUnica(Coincidentes(tabla, CodigoPos, c.codigoPos));
      if porCodigo.Failure? {
        return Failure(porCodigo.error);
      }
      if porCodigo.value.Some? {
        return Failure(Validacion(MensajeCodigoRepetido(c.codigoPos)));
      }
      var porMac := ConsultaUnica(Coincidentes(tabla, DireccionMac, c.direccionMac));
      if porMac.Failure? {
        return Failure(porMac.error);
      }
      if porMac.value.Some? {
        return Failure(Validacion(MensajeMacRepetida(c.direccionMac)));
      }
      var activada := c.(fechaActivacion := Some(ahora));
      tabla := Guardar(tabla, activada);
      r := Success(activada);
    }

    /** `updateConfiguracion`: the key must exist, then save. */
    method UpdateConfiguracion(c: ConfiguracionPos) returns (r: Result<ConfiguracionPos, Falla>)
      modifies this
      ensures Efecto(r, tabla) == Actualizar(old(tabla), c)
      ensures |tabla| == |old(tabla)| && Claves(tabla) == Claves(old(tabla))
      ensures old(Unicos(tabla, CodigoPos)) ==> Unicos(tabla, CodigoPos)
    {
      var existente := FindById(tabla, c.modelo, c.codigoPos);
      if existente.Failure? {
        return Failure(existente.error);
      }
      ActualizarReemplaza(tabla, c);
      tabla := Guardar(tabla, c);
      r := Success(c);
    }
  }
}
