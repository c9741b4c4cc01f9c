/**
  The student store. The storage contract (guardar, actualizar, eliminar,
  limpiar and the lookups) is stated on values: `Guardado`, `Actualizado` and
  `Eliminado` give the new record list and the returned flag for a given old
  list, and the lookups are functions of the list. `AlumnoRepositoryMemoria`
  is the in-memory implementation: an ordered list changed in place, proved
  against those functions, keeping codes and DNIs pairwise distinct and every
  record valid.
*/
module Repositorio {
  import opened Texto
  import opened Wrappers
  import opened Secuencias
  import opened Alumnos
  import opened Orden
  import opened Persona

  // ---------------------------------------------------------------- keys

  function ConCodigo(codigo: string): Alumno -> bool {
    (a: Alumno) => a.codigoAlumno == codigo
  }

  function SinCodigo(codigo: string): Alumno -> bool {
    (a: Alumno) => a.codigoAlumno != codigo
  }

  function ConDNI(dni: string): Alumno -> bool {
    (a: Alumno) => a.dni == dni
  }

  /** `existe`: some stored record has exactly this code. */
  function Existe(s: seq<Alumno>, codigo: string): (r: bool)
    ensures r <==> exists i | 0 <= i < |s| :: s[i].codigoAlumno == codigo
  {
    Alguno(s, ConCodigo(codigo))
  }

  /** `existePorDNI`: some stored record has exactly this DNI. */
  function ExistePorDNI(s: seq<Alumno>, dni: string): (r: bool)
    ensures r <==> exists i | 0 <= i < |s| :: s[i].dni == dni
  {
    Alguno(s, ConDNI(dni))
  }

  /** Position of the first record with this code, or |s|. */
  function IndiceCodigo(s: seq<Alumno>, codigo: string): (i: nat)
    ensures i <= |s|
    ensures forall j | 0 <= j < i :: s[j].codigoAlumno != codigo
    ensures i < |s| ==> s[i].codigoAlumno == codigo
    ensures i < |s| <==> Existe(s, codigo)
  {
    Primero(s, ConCodigo(codigo))
  }

  /** Position of the first record with this DNI, or |s|. */
  function IndiceDNI(s: seq<Alumno>, dni: string): (i: nat)
    ensures i <= |s|
    ensures forall j | 0 <= j < i :: s[j].dni != dni
    ensures i < |s| ==> s[i].dni == dni
    ensures i < |s| <==> ExistePorDNI(s, dni)
  {
    Primero(s, ConDNI(dni))
  }

  /** `buscarPorCodigo`: the first record with this code; present exactly when `existe` holds. */
  function BuscarPorCodigo(s: seq<Alumno>, codigo: string): (r: Option<Alumno>)
    ensures r.Some? <==> Existe(s, codigo)
    ensures r.Some? ==> r.value.codigoAlumno == codigo && r.value == s[IndiceCodigo(s, codigo)]
  {
    var i := IndiceCodigo(s, codigo);
    if i < |s| then Some(s[i]) else None
  }

  /** `buscarPorDNI`: the first record with this DNI; present exactly when `existePorDNI` holds. */
  function BuscarPorDNI(s: seq<Alumno>, dni: string): (r: Option<Alumno>)
    ensures r.Some? <==> ExistePorDNI(s, dni)
    ensures r.Some? ==> r.value.dni == dni && r.value == s[IndiceDNI(s, dni)]
  {
    var i := IndiceDNI(s, dni);
    if i < |s| then Some(s[i]) else None
  }

  /** The exact, case-sensitive status test `getEstado().equals("Activo")`. */
  predicate EstaActivo(a: Alumno) {
    a.estado == ACTIVO
  }

  // ---------------------------------------------------------------- invariant

  /** No two records share a code, and no two share a DNI. */
  predicate Unicos(s: seq<Alumno>) {
    forall i, j | 0 <= i < j < |s| :: s[i].codigoAlumno != s[j].codigoAlumno && s[i].dni != s[j].dni
  }

  /** Every record passes `validarDatos`. */
  predicate ValidosTodos(s: seq<Alumno>) {
    forall i | 0 <= i < |s| :: ValidarDatos(s[i])
  }

  predicate Invariante(s: seq<Alumno>) {
    Unicos(s) && ValidosTodos(s)
  }

  /** With unique codes, looking a stored record up by its code finds that very record. */
  lemma EncontrarPorCodigo(s: seq<Alumno>, i: nat)
    requires Unicos(s) && i < |s|
    ensures IndiceCodigo(s, s[i].codigoAlumno) == i
    ensures BuscarPorCodigo(s, s[i].codigoAlumno) == Some(s[i])
  {
  }

  /** With unique DNIs, looking a stored record up by its DNI finds that very record. */
  lemma EncontrarPorDNI(s: seq<Alumno>, i: nat)
    requires Unicos(s) && i < |s|
    ensures BuscarPorDNI(s, s[i].dni) == Some(s[i])
  {
  }

  // ---------------------------------------------------------------- writes

  /** The list after a write and the flag the write returns. */
  datatype Escritura = Escritura(alumnos: seq<Alumno>, ok: bool)

  /**
    `guardar`: a valid record whose code and DNI are both new is appended at
    the end; anything else leaves the list as it was and returns false.
  */
  function Guardado(s: seq<Alumno>, a: Alumno): (r: Escritura)
    ensures r.ok <==> ValidarDatos(a) && forall i | 0 <= i < |s| :: s[i].codigoAlumno != a.codigoAlumno && s[i].dni != a.dni
    ensures r.alumnos == if r.ok then s + [a] else s
  {
    if !ValidarDatos(a) || Existe(s, a.codigoAlumno) || ExistePorDNI(s, a.dni) then Escritura(s, false)
    else Escritura(s + [a], true)
  }

  /** `guardar` keeps codes and DNIs unique and every record valid. */
  lemma GuardadoPreservaInvariante(s: seq<Alumno>, a: Alumno)
    requires Invariante(s)
    ensures Invariante(Guardado(s, a).alumnos)
  {
    GuardadoPreservaUnicos(s, a);
    GuardadoPreservaValidos(s, a);
  }

  lemma GuardadoPreservaUnicos(s: seq<Alumno>, a: Alumno)
    requires Unicos(s)
    ensures Unicos(Guardado(s, a).alumnos)
  {
    if Guardado(s, a).ok {
      AgregarDistinto(s, a);
    }
  }

  lemma GuardadoPreservaValidos(s: seq<Alumno>, a: Alumno)
    requires ValidosTodos(s)
    ensures ValidosTodos(Guardado(s, a).alumnos)
  {
    var r := Guardado(s, a);
    if r.ok {
      forall i | 0 <= i < |r.alumnos| ensures ValidarDatos(r.alumnos[i]) {
        if i < |s| {
          assert r.alumnos[i] == s[i];
        }
      }
    }
  }

  /** After a successful `guardar` the record is found by its code and by its DNI. */
  lemma GuardadoSeEncuentra(s: seq<Alumno>, a: Alumno)
    requires Guardado(s, a).ok
    ensures BuscarPorCodigo(Guardado(s, a).alumnos, a.codigoAlumno) == Some(a)
    ensures BuscarPorDNI(Guardado(s, a).alumnos, a.dni) == Some(a)
    ensures |Guardado(s, a).alumnos| == |s| + 1
  {
    var t := Guardado(s, a).alumnos;
    assert t[|s|] == a;
    assert IndiceCodigo(t, a.codigoAlumno) == |s|;
    assert IndiceDNI(t, a.dni) == |s|;
  }

  /**
    `actualizar`: a valid record replaces, at the same position, the first
    record with its code, unless the first record holding its DNI has a
    different code. An unknown code, an invalid record or a DNI clash
    returns false and changes nothing.
  */
  function Actualizado(s: seq<Alumno>, a: Alumno): (r: Escritura)
    ensures r.ok ==> ValidarDatos(a) && Existe(s, a.codigoAlumno)
    ensures r.ok ==> r.alumnos == s[IndiceCodigo(s, a.codigoAlumno) := a]
    ensures !r.ok ==> r.alumnos == s
    ensures |r.alumnos| == |s|
  {
    var i := IndiceCodigo(s, a.codigoAlumno);
    if !ValidarDatos(a) || i == |s| then Escritura(s, false)
    else
      var existente := BuscarPorDNI(s, a.dni);
      if existente.Some? && existente.value.codigoAlumno != a.codigoAlumno then Escritura(s, false)
      else Escritura(s[i := a], true)
  }

  /**
    Under the invariant, `actualizar` succeeds exactly when the record is
    valid, its code is stored, and no record with another code holds its DNI.
  */
  lemma ActualizadoExito(s: seq<Alumno>, a: Alumno)
    requires Unicos(s)
    ensures Actualizado(s, a).ok <==>
              && ValidarDatos(a)
              && Existe(s, a.codigoAlumno)
              && forall j | 0 <= j < |s| :: s[j].dni == a.dni ==> s[j].codigoAlumno == a.codigoAlumno
  {
    ConflictoDNI(s, a);
  }

  /** Under unique DNIs, the first record holding a DNI is the only one that can clash with it. */
  lemma ConflictoDNI(s: seq<Alumno>, a: Alumno)
    requires Unicos(s)
    ensures (BuscarPorDNI(s, a.dni).Some? && BuscarPorDNI(s, a.dni).value.codigoAlumno != a.codigoAlumno)
            <==> exists j | 0 <= j < |s| :: s[j].dni == a.dni && s[j].codigoAlumno != a.codigoAlumno
  {
    var e := BuscarPorDNI(s, a.dni);
    if e.Some? && e.value.codigoAlumno != a.codigoAlumno {
      var k := IndiceDNI(s, a.dni);
      assert s[k].dni == a.dni && s[k].codigoAlumno != a.codigoAlumno;
    }
  }

  /** `actualizar` keeps codes and DNIs unique and every record valid. */
  lemma ActualizadoPreservaInvariante(s: seq<Alumno>, a: Alumno)
    requires Invariante(s)
    ensures Invariante(Actualizado(s, a).alumnos)
  {
    ActualizadoPreservaUnicos(s, a);
  }

  /** After a successful `actualizar` the new record is the one found by its code. */
  lemma ActualizadoSeEncuentra(s: seq<Alumno>, a: Alumno)
    requires Unicos(s) && Actualizado(s, a).ok
    ensures BuscarPorCodigo(Actualizado(s, a).alumnos, a.codigoAlumno) == Some(a)
  {
    ActualizadoPreservaUnicos(s, a);
    var i := IndiceCodigo(s, a.codigoAlumno);
    EncontrarPorCodigo(Actualizado(s, a).alumnos, i);
  }

  /** Replacing a record keeps codes and DNIs distinct: its code is its own, and the DNI check rules out a clash. */
  lemma ActualizadoPreservaUnicos(s: seq<Alumno>, a: Alumno)
    requires Unicos(s)
    ensures Unicos(Actualizado(s, a).alumnos)
  {
    var r := Actualizado(s, a);
    if r.ok {
      var i := IndiceCodigo(s, a.codigoAlumno);
      ActualizadoExito(s, a);
      forall j, k | 0 <= j < k < |r.alumnos|
        ensures r.alumnos[j].codigoAlumno != r.alumnos[k].codigoAlumno && r.alumnos[j].dni != r.alumnos[k].dni
      {
        if j == i || k == i {
          var m := if j == i then k else j;
          assert r.alumnos[m] == s[m];
        }
      }
    }
  }

  /**
    `eliminar` (`removeIf`): drops every record with the code, keeping the
    order of the rest; true exactly when some record had it.
  */
  function Eliminado(s: seq<Alumno>, codigo: string): (r: Escritura)
    ensures forall i | 0 <= i < |r.alumnos| :: r.alumnos[i].codigoAlumno != codigo && r.alumnos[i] in s
    ensures forall i | 0 <= i < |s| :: s[i].codigoAlumno != codigo ==> s[i] in r.alumnos
    ensures r.alumnos == Filtrar(s, SinCodigo(codigo))
    ensures r.ok <==> Existe(s, codigo)
    ensures r.ok <==> |r.alumnos| < |s|
    ensures !r.ok ==> r.alumnos == s
  {
    QuitarCodigo(s, codigo);
    Escritura(Filtrar(s, SinCodigo(codigo)), Existe(s, codigo))
  }

  /** Removing by code shrinks the list exactly when the code is present. */
  lemma QuitarCodigo(s: seq<Alumno>, codigo: string)
    ensures Existe(s, codigo) <==> |Filtrar(s, SinCodigo(codigo))| < |s|
    ensures !Existe(s, codigo) ==> Filtrar(s, SinCodigo(codigo)) == s
  {
    if Existe(s, codigo) {
      var k :| 0 <= k < |s| && s[k].codigoAlumno == codigo;
      FiltrarDisjuntos(s, SinCodigo(codigo), ConCodigo(codigo), x => true);
      FiltrarTodos(s, x => true);
      assert s[k] in Filtrar(s, ConCodigo(codigo));
    } else {
      FiltrarTodos(s, SinCodigo(codigo));
    }
  }

  /** Dropping records keeps the survivors' codes and DNIs distinct. */
  lemma {:induction false} FiltrarPreservaUnicos(s: seq<Alumno>, p: Alumno -> bool)
    requires Unicos(s)
    ensures Unicos(Filtrar(s, p))
  {
    if s != [] {
      var init := s[..|s| - 1];
      var x := s[|s| - 1];
      assert Unicos(init);
      FiltrarPreservaUnicos(init, p);
      var f := Filtrar(init, p);
      if p(x) {
        forall j | 0 <= j < |f| ensures f[j].codigoAlumno != x.codigoAlumno && f[j].dni != x.dni {
          DistintoDelUltimo(s, f[j]);
        }
        AgregarDistinto(f, x);
      }
    }
  }

  /** An earlier element of a list with unique keys differs from the last one in both keys. */
  lemma DistintoDelUltimo(s: seq<Alumno>, y: Alumno)
    requires Unicos(s) && s != [] && y in s[..|s| - 1]
    ensures y.codigoAlumno != s[|s| - 1].codigoAlumno && y.dni != s[|s| - 1].dni
  {
    var m :| 0 <= m < |s| - 1 && s[..|s| - 1][m] == y;
    assert s[m] == y;
  }

  /** Appending a record whose keys are new keeps the keys unique. */
  lemma AgregarDistinto(f: seq<Alumno>, x: Alumno)
    requires Unicos(f)
    requires forall j | 0 <= j < |f| :: f[j].codigoAlumno != x.codigoAlumno && f[j].dni != x.dni
    ensures Unicos(f + [x])
  {
  }

  /** `eliminar` keeps the invariant, and afterwards the code is gone. */
  lemma EliminadoPreservaInvariante(s: seq<Alumno>, codigo: string)
    requires Invariante(s)
    ensures Invariante(Eliminado(s, codigo).alumnos)
    ensures !Existe(Eliminado(s, codigo).alumnos, codigo)
  {
    FiltrarPreservaUnicos(s, SinCodigo(codigo));
    var t := Eliminado(s, codigo).alumnos;
    forall i | 0 <= i < |t| ensures ValidarDatos(t[i]) {
      var m :| 0 <= m < |s| && s[m] == t[i];
    }
  }

  // ---------------------------------------------------------------- queries

  /** Filter, then stable sort: the shape of every list query. */
  function Consulta(c: Criterio, s: seq<Alumno>, p: Alumno -> bool): (r: seq<Alumno>)
    ensures Ordenado(c, r)
    ensures multiset(r) == multiset(Filtrar(s, p))
    ensures forall x :: x in r <==> x in s && p(x)
  {
    var f := Filtrar(s, p);
    OrdenarOrdenado(c, f);
    var r := Ordenar(c, f);
    forall x ensures x in r <==> x in s && p(x) {
      assert x in r <==> x in multiset(f);
    }
    r
  }

  /** The name filter: the lowered first name, last name or full name contains the lowered term. */
  predicate CoincideTermino(a: Alumno, terminoMinusculas: string) {
    || Contiene(Minusculas(a.nombre), terminoMinusculas)
    || Contiene(Minusculas(a.apellido), terminoMinusculas)
    || Contiene(Minusculas(NombreCompleto(a)), terminoMinusculas)
  }

  function ConTermino(termino: string): Alumno -> bool {
    (a: Alumno) => CoincideTermino(a, Minusculas(termino))
  }

  /** `buscarPorNombre`: case-insensitive partial match, sorted by last name then first name. */
  function BuscarPorNombre(s: seq<Alumno>, termino: string): (r: seq<Alumno>)
    ensures forall x :: x in r <==> x in s && CoincideTermino(x, Minusculas(termino))
    ensures Ordenado(PorApellidoNombre, r)
    ensures multiset(r) == multiset(Filtrar(s, ConTermino(termino)))
  {
    Consulta(PorApellidoNombre, s, ConTermino(termino))
  }

  function ConCarrera(carrera: string): Alumno -> bool {
    (a: Alumno) => IgualIgnorandoMayusculas(a.carrera, carrera)
  }

  /** `buscarPorCarrera`: equal ignoring case, sorted by last name. */
  function BuscarPorCarrera(s: seq<Alumno>, carrera: string): (r: seq<Alumno>)
    ensures forall x :: x in r <==> x in s && IgualIgnorandoMayusculas(x.carrera, carrera)
    ensures Ordenado(PorApellido, r)
    ensures multiset(r) == multiset(Filtrar(s, ConCarrera(carrera)))
  {
    Consulta(PorApellido, s, ConCarrera(carrera))
  }

  function ConEstado(estado: string): Alumno -> bool {
    (a: Alumno) => IgualIgnorandoMayusculas(a.estado, estado)
  }

  /** `buscarPorEstado`: equal ignoring case, sorted by last name. */
  function BuscarPorEstado(s: seq<Alumno>, estado: string): (r: seq<Alumno>)
    ensures forall x :: x in r <==> x in s && IgualIgnorandoMayusculas(x.estado, estado)
    ensures Ordenado(PorApellido, r)
    ensures multiset(r) == multiset(Filtrar(s, ConEstado(estado)))
    ensures |r| == |Filtrar(s, ConEstado(estado))|
  {
    Consulta(PorApellido, s, ConEstado(estado))
  }

  function EnCiclo(ciclo: int): Alumno -> bool {
    (a: Alumno) => a.ciclo == ciclo
  }

  /** `buscarPorCiclo`: exact cycle, sorted by last name. */
  function BuscarPorCiclo(s: seq<Alumno>, ciclo: int): (r: seq<Alumno>)
    ensures forall x :: x in r <==> x in s && x.ciclo == ciclo
    ensures Ordenado(PorApellido, r)
    ensures multiset(r) == multiset(Filtrar(s, EnCiclo(ciclo)))
  {
    Consulta(PorApellido, s, EnCiclo(ciclo))
  }

  /** `contarPorEstado`: counts without sorting, and agrees with `buscarPorEstado`. */
  function ContarPorEstado(s: seq<Alumno>, estado: string): (n: nat)
    ensures n == |BuscarPorEstado(s, estado)|
    ensures n <= |s|
  {
    |Filtrar(s, ConEstado(estado))|
  }

  /** `obtenerEnRiesgoAcademico`: the at-risk records, lowest grade first. */
  function ObtenerEnRiesgoAcademico(s: seq<Alumno>): (r: seq<Alumno>)
    ensures forall x :: x in r <==> x in s && EnRiesgoAcademico(x)
    ensures Ordenado(PorPromedio, r)
    ensures multiset(r) == multiset(Filtrar(s, EnRiesgoAcademico))
    ensures |r| <= ContarPorEstado(s, ACTIVO)
  {
    var r := Consulta(PorPromedio, s, EnRiesgoAcademico);
    FiltrarMenos(s, EnRiesgoAcademico, ConEstado(ACTIVO));
    r
  }

  /** `obtenerMejoresPromedios(limite)`: the best `limite` "Activo" records, highest grade first. */
  function ObtenerMejoresPromedios(s: seq<Alumno>, limite: int): (r: seq<Alumno>)
    requires limite >= 0
    ensures MejoresActivos(s, limite, r)
  {
    var orden := Ordenar(PorPromedioDesc, Filtrar(s, EstaActivo));
    MejoresDeOrden(s, orden, limite);
    Tomar(orden, limite)
  }

  /** Cutting the descending sort of the "Activo" records after `k` places is a best-`k` selection. */
  lemma MejoresDeOrden(s: seq<Alumno>, orden: seq<Alumno>, k: nat)
    requires orden == Ordenar(PorPromedioDesc, Filtrar(s, EstaActivo))
    ensures MejoresActivos(s, k, Tomar(orden, k))
  {
    var activos := Filtrar(s, EstaActivo);
    MejoresPorPromedio(activos, orden, k);
    ElegidosActivos(s, orden, k);
    OmitidosNoMejores(s, Tomar(orden, k));
  }

  /** A selection that beats every omitted "Activo" record of the filter beats every omitted "Activo" record of the store. */
  lemma OmitidosNoMejores(s: seq<Alumno>, r: seq<Alumno>)
    requires forall i, j | 0 <= i < |r| && 0 <= j < |Filtrar(s, EstaActivo)| ::
               Filtrar(s, EstaActivo)[j] !in r ==> r[i].promedio >= Filtrar(s, EstaActivo)[j].promedio
    ensures forall i, j | 0 <= i < |r| && 0 <= j < |s| :: EstaActivo(s[j]) && s[j] !in r ==> r[i].promedio >= s[j].promedio
  {
    var activos := Filtrar(s, EstaActivo);
    forall i, j | 0 <= i < |r| && 0 <= j < |s| && EstaActivo(s[j]) && s[j] !in r
      ensures r[i].promedio >= s[j].promedio
    {
      var m :| 0 <= m < |activos| && activos[m] == s[j];
    }
  }

  /** A prefix of a rearrangement of the "Activo" records holds only "Activo" records, none more often than stored. */
  lemma ElegidosActivos(s: seq<Alumno>, orden: seq<Alumno>, k: nat)
    requires multiset(orden) == multiset(Filtrar(s, EstaActivo))
    ensures multiset(Tomar(orden, k)) <= multiset(Filtrar(s, EstaActivo))
    ensures forall i | 0 <= i < |Tomar(orden, k)| :: Tomar(orden, k)[i] in s && EstaActivo(Tomar(orden, k)[i])
  {
    var activos := Filtrar(s, EstaActivo);
    var r := Tomar(orden, k);
    PrefijoSubmultiset(orden, |r|);
    forall i | 0 <= i < |r| ensures r[i] in s && EstaActivo(r[i]) {
      assert r[i] in multiset(activos);
    }
  }

  /** A prefix holds no more of any element than the whole sequence. */
  lemma PrefijoSubmultiset(s: seq<Alumno>, n: nat)
    requires n <= |s|
    ensures multiset(s[..n]) <= multiset(s)
  {
    assert s == s[..n] + s[n..];
  }

  /**
    `r` is a best-`k` selection of the "Activo" records of `s`: as many as
    allowed, all "Activo" and drawn from the stored records without repetition beyond theirs, highest grade first, and none with a
    lower grade than an "Activo" record it leaves out.
  */
  predicate MejoresActivos(s: seq<Alumno>, k: nat, r: seq<Alumno>) {
    var n := |Filtrar(s, EstaActivo)|;
    && |r| == (if k < n then k else n)
    && (forall i | 0 <= i < |r| :: r[i] in s && EstaActivo(r[i]))
    && multiset(r) <= multiset(Filtrar(s, EstaActivo))
    && Ordenado(PorPromedioDesc, r)
    && (forall i, j | 0 <= i < |r| && 0 <= j < |s| :: EstaActivo(s[j]) && s[j] !in r ==> r[i].promedio >= s[j].promedio)
  }

  /**
    Cutting a list sorted by descending grade after `k` places: what is kept
    is sorted, and every kept record has at least the grade of any record
    that was cut.
  */
  lemma MejoresPorPromedio(activos: seq<Alumno>, orden: seq<Alumno>, k: nat)
    requires orden == Ordenar(PorPromedioDesc, activos)
    ensures Ordenado(PorPromedioDesc, Tomar(orden, k))
    ensures forall i, j | 0 <= i < |Tomar(orden, k)| && 0 <= j < |activos| ::
              activos[j] !in Tomar(orden, k) ==> Tomar(orden, k)[i].promedio >= activos[j].promedio
  {
    OrdenarOrdenado(PorPromedioDesc, activos);
    var r := Tomar(orden, k);
    PrefijoOrdenado(PorPromedioDesc, orden, |r|);
    forall i, j | 0 <= i < |r| && 0 <= j < |activos| && activos[j] !in r
      ensures r[i].promedio >= activos[j].promedio
    {
      assert activos[j] in multiset(orden);
      CortadoDespues(orden, k, i, activos[j]);
    }
  }

  /** A prefix of a sorted list is sorted. */
  lemma PrefijoOrdenado(c: Criterio, s: seq<Alumno>, n: nat)
    requires Ordenado(c, s) && n <= |s|
    ensures Ordenado(c, s[..n])
  {
  }

  /** A record of a descending list that the cut leaves out has at most the grade of any kept one. */
  lemma CortadoDespues(orden: seq<Alumno>, k: nat, i: nat, y: Alumno)
    requires Ordenado(PorPromedioDesc, orden)
    requires y in orden && y !in Tomar(orden, k) && i < |Tomar(orden, k)|
    ensures Tomar(orden, k)[i].promedio >= y.promedio
  {
    var m :| 0 <= m < |orden| && orden[m] == y;
    assert i < m;
    assert Antes(PorPromedioDesc, orden[i], orden[m]);
  }

  // ---------------------------------------------------------------- seed data

  /** The six records the in-memory store starts with. */
  function DatosIniciales(): (s: seq<Alumno>)
    ensures |s| == 6
  {
    [ Alumno("Juan Carlos", "Pérez García", "12345678", "2000-05-15",
             "Av. Principal 123, Lima", "987654321", "juan.perez@sideral.edu.pe",
             "2020001", "Ingeniería de Sistemas", 5, 15.5, ACTIVO, "2020-03-01", 120),
      Alumno("María Fernanda", "García López", "87654321", "2001-08-20",
             "Calle Secundaria 456, Lima", "912345678", "maria.garcia@sideral.edu.pe",
             "2021002", "Administración de Empresas", 3, 16.2, ACTIVO, "2021-03-01", 75),
      Alumno("Carlos Alberto", "López Martínez", "11223344", "1999-12-10",
             "Jr. Los Álamos 789, Lima", "998877665", "carlos.lopez@sideral.edu.pe",
             "2019003", "Derecho", 7, 14.8, ACTIVO, "2019-03-01", 165),
      Alumno("Ana Sofía", "Rodríguez Sánchez", "44556677", "2002-03-25",
             "Av. Universitaria 321, Lima", "955443322", "ana.rodriguez@sideral.edu.pe",
             "2022004", "Medicina", 2, 17.3, ACTIVO, "2022-03-01", 45),
      Alumno("Pedro Miguel", "Torres Flores", "99887766", "2001-11-05",
             "Calle Los Pinos 654, Lima", "966554433", "pedro.torres@sideral.edu.pe",
             "2021005", "Ingeniería Civil", 4, 13.9, ACTIVO, "2021-03-01", 90),
      Alumno("Lucía Isabel", "Díaz Romero", "55667788", "2000-07-18",
             "Jr. Las Flores 147, Lima", "977665544", "lucia.diaz@sideral.edu.pe",
             "2020006", "Psicología", 6, 10.5, ACTIVO, "2020-03-01", 135) ]
  }

  /** A record with a non-blank first character in each required text, a DNI of 8 digits and an `@` after a valid local part at `k` is valid. */
  lemma SemillaValida(a: Alumno, k: nat)
    requires a.nombre != [] && !EsEspacio(a.nombre[0])
    requires a.apellido != [] && !EsEspacio(a.apellido[0])
    requires a.codigoAlumno != [] && !EsEspacio(a.codigoAlumno[0])
    requires a.carrera != [] && !EsEspacio(a.carrera[0])
    requires |a.dni| == 8 && TodosDigitos(a.dni)
    requires 0 < k < |a.email| - 1 && DivisionEmail(a.email, k)
    requires 1 <= a.ciclo <= 12 && 0.0 <= a.promedio <= 20.0
    ensures ValidarDatos(a)
  {
    ValidarDatosSii(a);
  }

  /** The seed data has pairwise distinct codes and DNIs. */
  lemma DatosInicialesUnicos()
    ensures Unicos(DatosIniciales())
  {
  }

  /** Every seed record passes `validarDatos`. */
  lemma DatosInicialesValidos()
    ensures ValidosTodos(DatosIniciales())
  {
    var s := DatosIniciales();
    forall i | 0 <= i < |s| ensures ValidarDatos(s[i]) {
      if i == 0 { Semilla0Valida(); }
      else if i == 1 { Semilla1Valida(); }
      else if i == 2 { Semilla2Valida(); }
      else if i == 3 { Semilla3Valida(); }
      else if i == 4 { Semilla4Valida(); }
      else { Semilla5Valida(); }
    }
  }

  // One lemma per seed record keeps each evaluation of `validarDatos` on literal text small.

  lemma Semilla0Valida()
    ensures ValidarDatos(DatosIniciales()[0])
  {
    var s := DatosIniciales();
    SemillaValida(s[0], 10);
  }

  lemma Semilla1Valida()
    ensures ValidarDatos(DatosIniciales()[1])
  {
    var s := DatosIniciales();
    SemillaValida(s[1], 12);
  }

  lemma Semilla2Valida()
    ensures ValidarDatos(DatosIniciales()[2])
  {
    var s := DatosIniciales();
    SemillaValida(s[2], 12);
  }

  lemma Semilla3Valida()
    ensures ValidarDatos(DatosIniciales()[3])
  {
    var s := DatosIniciales();
    SemillaValida(s[3], 13);
  }

  lemma Semilla4Valida()
    ensures ValidarDatos(DatosIniciales()[4])
  {
    var s := DatosIniciales();
    SemillaValida(s[4], 12);
  }

  lemma Semilla5Valida()
    ensures ValidarDatos(DatosIniciales()[5])
  {
    var s := DatosIniciales();
    SemillaValida(s[5], 10);
  }

  /** Filtering one more element of a prefix appends it when it passes. */
  lemma FiltrarUnoMas(s: seq<Alumno>, i: nat, p: Alumno -> bool)
    requires i < |s|
    ensures Filtrar(s[..i + 1], p) == Filtrar(s[..i], p) + (if p(s[i]) then [s[i]] else [])
  {
    assert s[..i + 1][..i] == s[..i];
  }

  /**
    The pass `removeIf` makes: keeps, in order, the records with another
    code, and reports whether it dropped any.
  */
  method QuitarSi(s: seq<Alumno>, codigo: string) returns (quedan: seq<Alumno>, quitado: bool)
    ensures quedan == Eliminado(s, codigo).alumnos
    ensures quitado == Eliminado(s, codigo).ok
  {
    quedan := [];
    quitado := false;
    var seQueda := SinCodigo(codigo);
    var i := 0;
    while i < |s|
      invariant 0 <= i <= |s|
      invariant quedan == Filtrar(s[..i], seQueda)
      invariant quitado <==> |quedan| < i
    {
      FiltrarUnoMas(s, i, seQueda);
      if seQueda(s[i]) {
        quedan := quedan + [s[i]];
      } else {
        quitado := true;
      }
      i := i + 1;
    }
    assert s[..i] == s;
  }

  // ---------------------------------------------------------------- the in-memory store

  /** The scan `actualizar` makes: index of the first record with the code, or |s| when there is none. */
  method Posicion(s: seq<Alumno>, codigo: string) returns (i: nat)
    ensures i == IndiceCodigo(s, codigo)
  {
    i := 0;
    while i < |s| && s[i].codigoAlumno != codigo
      invariant i <= |s|
      invariant forall j | 0 <= j < i :: s[j].codigoAlumno != codigo
    {
      i := i + 1;
    }
  }

  /** The step `actualizar` takes once its scan stops at the first record with the code. */
  lemma ActualizadoEn(s: seq<Alumno>, a: Alumno, i: nat)
    requires ValidarDatos(a)
    requires i < |s| && s[i].codigoAlumno == a.codigoAlumno
    requires forall j | 0 <= j < i :: s[j].codigoAlumno != a.codigoAlumno
    ensures var e := BuscarPorDNI(s, a.dni);
            Actualizado(s, a) ==
              if e.Some? && e.value.codigoAlumno != a.codigoAlumno then Escritura(s, false)
              else Escritura(s[i := a], true)
  {
    assert IndiceCodigo(s, a.codigoAlumno) == i;
  }

  /** `AlumnoRepositoryMemoria`: an ordered list of records changed in place. */
  class AlumnoRepositoryMemoria {
    var alumnos: seq<Alumno>

    /** The store's invariant: codes and DNIs pairwise distinct, every record valid. */
    predicate Valid()
      reads this
    {
      Invariante(alumnos)
    }

    /** A fresh store loaded with the seed data (the singleton is not modelled). */
    constructor ()
      ensures alumnos == DatosIniciales()
      ensures Valid()
    {
      alumnos := DatosIniciales();
      DatosInicialesUnicos();
      DatosInicialesValidos();
    }

    /** `guardar`: checks validity, then the code, then the DNI, then appends. */
    method Guardar(alumno: Alumno) returns (ok: bool)
      requires Valid()
      modifies this
      ensures Valid()
      ensures ok == Guardado(old(alumnos), alumno).ok
      ensures alumnos == Guardado(old(alumnos), alumno).alumnos
    {
      if !ValidarDatos(alumno) {
        return false;
      }
      if Existe(alumnos, alumno.codigoAlumno) {
        return false;
      }
      if ExistePorDNI(alumnos, alumno.dni) {
        return false;
      }
      GuardadoPreservaInvariante(alumnos, alumno);
      alumnos := alumnos + [alumno];
      ok := true;
    }

    /** `actualizar`: scans for the first record with the code and replaces it in place. */
    method Actualizar(alumno: Alumno) returns (ok: bool)
      requires Valid()
      modifies this
      ensures Valid()
      ensures ok == Actualizado(old(alumnos), alumno).ok
      ensures alumnos == Actualizado(old(alumnos), alumno).alumnos
    {
      var s := alumnos;
      if !ValidarDatos(alumno) {
        return false;
      }
      var i := Posicion(s, alumno.codigoAlumno);
      if i == |s| {
        return false;
      }
      var existente := BuscarPorDNI(s, alumno.dni);
      ActualizadoEn(s, alumno, i);
      if existente.Some? && existente.value.codigoAlumno != alumno.codigoAlumno {
        return false;
      }
      ActualizadoPreservaInvariante(s, alumno);
      alumnos := s[i := alumno];
      ok := true;
    }

    /** `eliminar` (`removeIf`): the surviving records replace the list. */
    method Eliminar(codigoAlumno: string) returns (ok: bool)
      requires Valid()
      modifies this
      ensures Valid()
      ensures ok == Eliminado(old(alumnos), codigoAlumno).ok
      ensures alumnos == Eliminado(old(alumnos), codigoAlumno).alumnos
    {
      var quedan;
      quedan, ok := QuitarSi(alumnos, codigoAlumno);
      EliminadoPreservaInvariante(alumnos, codigoAlumno);
      alumnos := quedan;
    }

    /** `limpiar`: no records left. */
    method Limpiar()
      modifies this
      ensures alumnos == []
      ensures Valid()
    {
      alumnos := [];
    }

    /** `obtenerTodos`: a copy of the list, same records in the same order. */
    method ObtenerTodos() returns (todos: seq<Alumno>)
      ensures todos == alumnos
    {
      todos := alumnos;
    }

    /** `contarTotal`. */
    function ContarTotal(): (n: nat)
      reads this
      ensures n == |alumnos|
    {
      |alumnos|
    }
  }
}
