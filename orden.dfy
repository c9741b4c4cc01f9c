/**
  The orders in which the repository and the service return students, and
  the stable sort (`stream().sorted(comparator)`) that applies them. Java's
  sort of an ordered stream is stable, so students the comparator ranks
  equal keep their original relative order; `OrdenarEstable` proves that of
  the model.
*/
module Orden {
  import opened Texto
  import opened Alumnos

  /** The comparators the source builds. */
  datatype Criterio =
    | PorApellido         // Comparator.comparing(Alumno::getApellido)
    | PorApellidoNombre   // ... .thenComparing(Alumno::getNombre)
    | PorPromedio         // Comparator.comparing(Alumno::getPromedio)
    | PorPromedioDesc     // the same, reversed

  /** `comparator.compare(a, b) <= 0`: `a` may come before `b`. */
  predicate Antes(c: Criterio, a: Alumno, b: Alumno) {
    match c
    case PorApellido => MenorIgualLex(a.apellido, b.apellido)
    case PorApellidoNombre =>
      if a.apellido == b.apellido then MenorIgualLex(a.nombre, b.nombre)
      else MenorIgualLex(a.apellido, b.apellido)
    case PorPromedio => a.promedio <= b.promedio
    case PorPromedioDesc => a.promedio >= b.promedio
  }

  /** The comparator ranks `a` and `b` equal. */
  predicate Empatados(c: Criterio, a: Alumno, b: Alumno) {
    Antes(c, a, b) && Antes(c, b, a)
  }

  lemma AntesTotal(c: Criterio, a: Alumno, b: Alumno)
    ensures Antes(c, a, b) || Antes(c, b, a)
  {
    match c
    case PorApellido => LexTotal(a.apellido, b.apellido);
    case PorApellidoNombre =>
      LexTotal(a.apellido, b.apellido);
      LexTotal(a.nombre, b.nombre);
    case _ =>
  }

  lemma AntesTransitivo(c: Criterio, a: Alumno, b: Alumno, d: Alumno)
    requires Antes(c, a, b) && Antes(c, b, d)
    ensures Antes(c, a, d)
  {
    match c
    case PorApellido => LexTransitivo(a.apellido, b.apellido, d.apellido);
    case PorApellidoNombre =>
      if a.apellido == b.apellido && b.apellido == d.apellido {
        LexTransitivo(a.nombre, b.nombre, d.nombre);
      } else {
        LexReflexivo(a.apellido);
        LexReflexivo(b.apellido);
        LexTransitivo(a.apellido, b.apellido, d.apellido);
        if a.apellido == d.apellido {
          LexAntisimetrico(a.apellido, b.apellido);
        }
      }
    case _ =>
  }

  /** Every pair in order: `sorted` has placed each student no later than the next. */
  predicate Ordenado(c: Criterio, s: seq<Alumno>) {
    forall i, j | 0 <= i < j < |s| :: Antes(c, s[i], s[j])
  }

  /** Puts `x` before the first element it may precede. */
  function Insertar(c: Criterio, x: Alumno, s: seq<Alumno>): (r: seq<Alumno>)
    ensures multiset(r) == multiset(s) + multiset{x}
    ensures |r| == |s| + 1
  {
    if s == [] || Antes(c, x, s[0]) then [x] + s
    else
      assert s == [s[0]] + s[1..];
      [s[0]] + Insertar(c, x, s[1..])
  }

  /** `b` may come before every element of `s`. */
  predicate CotaInferior(c: Criterio, b: Alumno, s: seq<Alumno>) {
    forall i | 0 <= i < |s| :: Antes(c, b, s[i])
  }

  lemma {:induction false} InsertarCota(c: Criterio, b: Alumno, x: Alumno, s: seq<Alumno>)
    requires CotaInferior(c, b, s) && Antes(c, b, x)
    ensures CotaInferior(c, b, Insertar(c, x, s))
  {
    if s != [] && !Antes(c, x, s[0]) {
      assert CotaInferior(c, b, s[1..]);
      InsertarCota(c, b, x, s[1..]);
    }
  }

  lemma {:induction false} InsertarOrdenado(c: Criterio, x: Alumno, s: seq<Alumno>)
    requires Ordenado(c, s)
    ensures Ordenado(c, Insertar(c, x, s))
  {
    var r := Insertar(c, x, s);
    if s == [] {
    } else if Antes(c, x, s[0]) {
      forall i, j | 0 <= i < j < |r| ensures Antes(c, r[i], r[j]) {
        if i == 0 && j > 1 {
          AntesTransitivo(c, x, s[0], s[j - 1]);
        }
      }
    } else {
      AntesTotal(c, x, s[0]);
      assert Ordenado(c, s[1..]);
      InsertarOrdenado(c, x, s[1..]);
      assert CotaInferior(c, s[0], s[1..]);
      InsertarCota(c, s[0], x, s[1..]);
      var t := Insertar(c, x, s[1..]);
      assert r == [s[0]] + t;
      forall i, j | 0 <= i < j < |r| ensures Antes(c, r[i], r[j]) {
        if i == 0 {
          assert r[j] == t[j - 1];
        } else {
          assert r[i] == t[i - 1] && r[j] == t[j - 1];
        }
      }
    }
  }

  /** Insertion sort: each element is inserted ahead of the later ones it ties with. */
  function Ordenar(c: Criterio, s: seq<Alumno>): (r: seq<Alumno>)
    ensures multiset(r) == multiset(s)
    ensures |r| == |s|
  {
    if s == [] then []
    else
      assert s == [s[0]] + s[1..];
      Insertar(c, s[0], Ordenar(c, s[1..]))
  }

  /** The sort's result is in order. */
  lemma {:induction false} OrdenarOrdenado(c: Criterio, s: seq<Alumno>)
    ensures Ordenado(c, Ordenar(c, s))
  {
    if s != [] {
      OrdenarOrdenado(c, s[1..]);
      InsertarOrdenado(c, s[0], Ordenar(c, s[1..]));
    }
  }

  /** The elements of `s` that satisfy `q`, in their order in `s`. */
  function Elegidos(s: seq<Alumno>, q: Alumno -> bool): seq<Alumno> {
    if s == [] then []
    else (if q(s[0]) then [s[0]] else []) + Elegidos(s[1..], q)
  }

  /** Unfolding `Elegidos` at a head element. */
  lemma ElegidosCabeza(y: Alumno, u: seq<Alumno>, q: Alumno -> bool)
    ensures Elegidos([y] + u, q) == (if q(y) then [y] else []) + Elegidos(u, q)
  {
    assert ([y] + u)[1..] == u;
  }

  /** The two cases of `Insertar`. */
  lemma InsertarCasos(c: Criterio, x: Alumno, s: seq<Alumno>)
    ensures s == [] || Antes(c, x, s[0]) ==> Insertar(c, x, s) == [x] + s
    ensures s != [] && !Antes(c, x, s[0]) ==> Insertar(c, x, s) == [s[0]] + Insertar(c, x, s[1..])
  {
  }

  /** The step of `ElegidosInsertar` when `x` goes past the head `y` of the list. */
  lemma ElegidosPaso(x: Alumno, y: Alumno, u: seq<Alumno>, t: seq<Alumno>, q: Alumno -> bool)
    requires !(q(x) && q(y))
    requires Elegidos(t, q) == (if q(x) then [x] else []) + Elegidos(u, q)
    ensures Elegidos([y] + t, q) == (if q(x) then [x] else []) + Elegidos([y] + u, q)
  {
    ElegidosCabeza(y, t, q);
    ElegidosCabeza(y, u, q);
  }

  /**
    Inserting `x` leaves the elements chosen by `q` in their order, with `x`
    ahead of them, provided any two elements `q` chooses may come in either
    order.
  */
  lemma {:induction false} ElegidosInsertar(c: Criterio, x: Alumno, s: seq<Alumno>, q: Alumno -> bool)
    requires forall a, b | q(a) && q(b) :: Antes(c, a, b)
    ensures Elegidos(Insertar(c, x, s), q) == (if q(x) then [x] else []) + Elegidos(s, q)
  {
    InsertarCasos(c, x, s);
    if s == [] || Antes(c, x, s[0]) {
      ElegidosCabeza(x, s, q);
    } else {
      ElegidosInsertar(c, x, s[1..], q);
      ElegidosPaso(x, s[0], s[1..], Insertar(c, x, s[1..]), q);
      assert [s[0]] + s[1..] == s;
    }
  }

  /** The students of `s` that tie with `k`, in their order in `s`. */
  function Empates(c: Criterio, s: seq<Alumno>, k: Alumno): seq<Alumno> {
    Elegidos(s, (a: Alumno) => Empatados(c, a, k))
  }

  /** Two students that tie with the same student may come in either order. */
  lemma EmpatadosEntreSi(c: Criterio, k: Alumno, a: Alumno, b: Alumno)
    requires Empatados(c, a, k) && Empatados(c, b, k)
    ensures Antes(c, a, b)
  {
    AntesTransitivo(c, a, k, b);
  }

  /**
    Stability: for any student `k`, the students tied with `k` appear in the
    sorted result in the same relative order as in the input.
  */
  lemma {:induction false} OrdenarEstable(c: Criterio, s: seq<Alumno>, k: Alumno)
    ensures Empates(c, Ordenar(c, s), k) == Empates(c, s, k)
  {
    if s != [] {
      var q := (a: Alumno) => Empatados(c, a, k);
      forall a, b | q(a) && q(b)
        ensures Antes(c, a, b)
      {
        EmpatadosEntreSi(c, k, a, b);
      }
      OrdenarEstable(c, s[1..], k);
      ElegidosInsertar(c, s[0], Ordenar(c, s[1..]), q);
      ElegidosCabeza(s[0], s[1..], q);
      assert s == [s[0]] + s[1..];
    }
  }
}
