/** The regular expressions of the `@Pattern` constraints, as a small syntax
    tree with the full-match semantics of `Matcher.matches()` (the whole value
    must match, so `^` and `$` add nothing and are not represented). */
module Patrones {
  import opened JavaLang

  /** `[desde-hasta]`; a single character `c` is `Rango(c, c)`. */
  datatype Rango = Rango(desde: char, hasta: char)

  datatype Patron =
    | Vacio                                      // matches only the empty string
    | Clase(rangos: seq<Rango>)                  // one character from a bracket class
    | Concat(izq: Patron, der: Patron)           // xy
    | Alternativa(izq: Patron, der: Patron)      // x|y
    | Repeticion(cuerpo: Patron, min: nat, max: nat)  // x{min,max}

  predicate EnClase(c: char, rangos: seq<Rango>)
  {
    exists i :: 0 <= i < |rangos| && rangos[i].desde <= c <= rangos[i].hasta
  }

  /** `s` matches `p` in full. */
  predicate Coincide(p: Patron, s: string)
    decreases p, 0, 0
  {
    match p
    case Vacio => s == []
    case Clase(rs) => |s| == 1 && EnClase(s[0], rs)
    case Concat(a, b) => exists k :: 0 <= k <= |s| && Coincide(a, s[..k]) && Coincide(b, s[k..])
    case Alternativa(a, b) => Coincide(a, s) || Coincide(b, s)
    case Repeticion(q, lo, hi) => CoincideRepeticion(q, lo, hi, s)
  }

  /** `s` is the concatenation of between `lo` and `hi` pieces that each match `q`. */
  predicate CoincideRepeticion(q: Patron, lo: nat, hi: nat, s: string)
    decreases q, 1, hi
  {
    (lo == 0 && s == [])
    || (hi > 0 && exists k :: 0 <= k <= |s| && Coincide(q, s[..k])
                              && CoincideRepeticion(q, if lo == 0 then 0 else lo - 1, hi - 1, s[k..]))
  }

  /** A single literal character. */
  function Caracter(c: char): Patron { Clase([Rango(c, c)]) }

  lemma CaracterCoincide(c: char, s: string)
    ensures Coincide(Caracter(c), s) <==> s == [c]
  {
    if s == [c] { assert Caracter(c).rangos[0].desde <= s[0] <= Caracter(c).rangos[0].hasta; }
  }

  /** A literal string as a pattern. */
  function Literal(w: string): Patron
  {
    if w == [] then Vacio else Concat(Caracter(w[0]), Literal(w[1..]))
  }

  const Digito: Patron := Clase([Rango('0', '9')])
  const Hexadecimal: Patron := Clase([Rango('0', '9'), Rango('A', 'F'), Rango('a', 'f')])

  predicate IsHexDigit(c: char) { '0' <= c <= '9' || 'A' <= c <= 'F' || 'a' <= c <= 'f' }

  lemma DigitoCoincide(s: string)
    ensures Coincide(Digito, s) <==> |s| == 1 && IsDigit(s[0])
  {
    if |s| == 1 && IsDigit(s[0]) { assert Digito.rangos[0].desde <= s[0] <= Digito.rangos[0].hasta; }
  }

  lemma HexadecimalCoincide(s: string)
    ensures Coincide(Hexadecimal, s) <==> |s| == 1 && IsHexDigit(s[0])
  {
    if |s| == 1 && IsHexDigit(s[0]) {
      var rs := Hexadecimal.rangos;
      if '0' <= s[0] <= '9' { assert rs[0].desde <= s[0] <= rs[0].hasta; }
      else if 'A' <= s[0] <= 'F' { assert rs[1].desde <= s[0] <= rs[1].hasta; }
      else { assert rs[2].desde <= s[0] <= rs[2].hasta; }
    }
  }

  /** A literal matches exactly its own text. */
  lemma {:induction false} LiteralCoincide(w: string, s: string)
    ensures Coincide(Literal(w), s) <==> s == w
  {
    if w != [] {
      var a := Caracter(w[0]);
      if Coincide(Literal(w), s) {
        var k :| 0 <= k <= |s| && Coincide(a, s[..k]) && Coincide(Literal(w[1..]), s[k..]);
        LiteralCoincide(w[1..], s[k..]);
        assert s == s[..k] + s[k..];
      }
      if s == w {
        assert s[..1] == [w[0]] && s[1..] == w[1..];
        CaracterCoincide(w[0], s[..1]);
        LiteralCoincide(w[1..], s[1..]);
        assert Coincide(a, s[..1]) && Coincide(Literal(w[1..]), s[1..]);
      }
    }
  }

  /** Repeating a one-character class: between `lo` and `hi` characters, each in the class. */
  lemma {:induction false} ClaseRepetida(rs: seq<Rango>, lo: nat, hi: nat, s: string)
    ensures CoincideRepeticion(Clase(rs), lo, hi, s)
            <==> lo <= |s| <= hi && forall i :: 0 <= i < |s| ==> EnClase(s[i], rs)
  {
    var q := Clase(rs);
    var lo' := if lo == 0 then 0 else lo - 1;
    if CoincideRepeticion(q, lo, hi, s) && !(lo == 0 && s == []) {
      var k :| 0 <= k <= |s| && Coincide(q, s[..k]) && CoincideRepeticion(q, lo', hi - 1, s[k..]);
      ClaseRepetida(rs, lo', hi - 1, s[k..]);
      assert k == 1;
      forall i | 0 <= i < |s| ensures EnClase(s[i], rs) {
        if i > 0 { assert s[i] == s[1..][i - 1]; }
      }
    }
    if lo <= |s| <= hi && (forall i :: 0 <= i < |s| ==> EnClase(s[i], rs)) && s != [] {
      ClaseRepetida(rs, lo', hi - 1, s[1..]);
      assert Coincide(q, s[..1]);
    }
  }

  /** When every match of `a` has length `n`, matching `a` then `b` is matching
      the first `n` characters against `a` and the rest against `b`. */
  lemma ConcatLongitudFija(a: Patron, b: Patron, n: nat, s: string)
    requires forall t :: Coincide(a, t) ==> |t| == n
    ensures Coincide(Concat(a, b), s) <==> n <= |s| && Coincide(a, s[..n]) && Coincide(b, s[n..])
  {
  }

  /** `s` is `n` consecutive blocks of `m` characters, each matching `q`. */
  predicate Bloques(q: Patron, m: nat, n: nat, s: string)
  {
    if n == 0 then s == [] else m <= |s| && Coincide(q, s[..m]) && Bloques(q, m, n - 1, s[m..])
  }

  /** Exactly `n` repetitions of a pattern whose matches all have length `m`
      are `n` blocks of `m` characters. */
  lemma {:induction false} RepeticionLongitudFija(q: Patron, m: nat, n: nat, s: string)
    requires forall t :: Coincide(q, t) ==> |t| == m
    ensures CoincideRepeticion(q, n, n, s) <==> Bloques(q, m, n, s)
  {
    if n > 0 {
      if CoincideRepeticion(q, n, n, s) {
        var k :| 0 <= k <= |s| && Coincide(q, s[..k]) && CoincideRepeticion(q, n - 1, n - 1, s[k..]);
        assert k == m;
        RepeticionLongitudFija(q, m, n - 1, s[m..]);
      }
      if Bloques(q, m, n, s) {
        RepeticionLongitudFija(q, m, n - 1, s[m..]);
        assert Coincide(q, s[..m]) && CoincideRepeticion(q, n - 1, n - 1, s[m..]);
      }
    }
  }
}
