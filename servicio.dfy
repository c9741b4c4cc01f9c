/**
  The business rules layered over the store: code format and generation,
  enrolment and graduation policies, the filtered report, the tutoring and
  top-performer selections and the accumulate-all integrity check. None of
  them changes the store; each is a function of the records it reads (the
  list `obtenerTodos` returns) and of its arguments.
*/
module Servicio {
  import opened Texto
  import opened Wrappers
  import opened Secuencias
  import opened Persona
  import opened Alumnos
  import opened Orden
  import opened Repositorio
  import opened Respuestas
  import opened Validacion
  import opened Filtros

  // ---------------------------------------------------------------- codes

  /** `validarFormatoCodigoAlumno`: the length test, then the expression `\d{7}`. */
  function ValidarFormatoCodigoAlumno(codigo: string): (r: bool)
    ensures r <==> |codigo| == 7 && TodosDigitos(codigo)
  {
    if |codigo| != 7 then false else CoincideDigitos(codigo, 7)
  }

  function ConPrefijo(prefijo: string): Alumno -> bool {
    (a: Alumno) => EmpiezaCon(a.codigoAlumno, prefijo)
  }

  function Maximo(a: nat, b: nat): nat {
    if a >= b then a else b
  }

  /** How many stored codes start with the decimal digits of `anio`. */
  function CuentaPrefijo(todos: seq<Alumno>, anio: int): (n: nat)
    ensures n <= |todos|
    ensures n == 0 <==> forall i | 0 <= i < |todos| :: !EmpiezaCon(todos[i].codigoAlumno, Decimal(anio))
  {
    var r := Filtrar(todos, ConPrefijo(Decimal(anio)));
    assert |r| > 0 ==> r[0] in todos && ConPrefijo(Decimal(anio))(r[0]);
    |r|
  }

  /**
    `generarCodigoAlumno`, with the current year passed in: the year, then
    (the number of codes sharing the year's prefix + 1) padded with zeros to
    at least three digits.
  */
  function GenerarCodigoAlumno(todos: seq<Alumno>, anio: int): (r: string)
    ensures EmpiezaCon(r, Decimal(anio))
    ensures |r| >= |Decimal(anio)| + 3
    ensures |r| == |Decimal(anio)| + Maximo(3, |Digitos(CuentaPrefijo(todos, anio) + 1)|)
    ensures TodosDigitos(r[|Decimal(anio)|..])
    ensures Valor(r[|Decimal(anio)|..]) == CuentaPrefijo(todos, anio) + 1
  {
    var prefijo := Decimal(anio);
    var siguiente := CuentaPrefijo(todos, anio) + 1;
    var r := prefijo + RellenoCeros(siguiente, 3);
    assert r[|prefijo|..] == RellenoCeros(siguiente, 3);
    r
  }

  function Pot10(k: nat): (p: nat)
    ensures p >= 1
  {
    if k == 0 then 1 else 10 * Pot10(k - 1)
  }

  /** A number below 10^k takes at most k digits. */
  lemma {:induction false} DigitosCortos(n: nat, k: nat)
    requires k >= 1 && n < Pot10(k)
    ensures |Digitos(n)| <= k
  {
    if n >= 10 {
      assert k >= 2;
      DigitosCortos(n / 10, k - 1);
    }
  }

  /** A number at or above 10^k takes more than k digits. */
  lemma {:induction false} DigitosLargos(n: nat, k: nat)
    requires n >= Pot10(k)
    ensures |Digitos(n)| > k
  {
    if k > 0 {
      DigitosLargos(n / 10, k - 1);
    }
  }

  /**
    For a four-digit year and fewer than 999 codes with its prefix, the
    generated code has the format `validarFormatoCodigoAlumno` accepts.
  */
  lemma GenerarCodigoConFormato(todos: seq<Alumno>, anio: int)
    requires 1000 <= anio <= 9999
    requires CuentaPrefijo(todos, anio) < 999
    ensures ValidarFormatoCodigoAlumno(GenerarCodigoAlumno(todos, anio))
  {
    var siguiente := CuentaPrefijo(todos, anio) + 1;
    DigitosCortos(anio, 4);
    DigitosLargos(anio, 3);
    DigitosCortos(siguiente, 3);
    var p, r := Decimal(anio), GenerarCodigoAlumno(todos, anio);
    assert |p| == 4 && TodosDigitos(p);
    assert |r| == 7;
    forall i | 0 <= i < 7 ensures EsDigito(r[i]) {
      if i < 4 {
        assert r[i] == p[i];
      } else {
        assert r[i] == r[4..][i - 4];
      }
    }
  }

  /**
    The count is not a fresh number: once a code with the prefix has been
    deleted (or a code was entered by hand), the next code can be one that is
    still stored. Here the only record holds "2024002"; one record has the
    prefix, so the year 2024 generates "2024002" again.
  */
  lemma CodigoGeneradoRepetido(a: Alumno)
    requires a.codigoAlumno == "2024002"
    ensures GenerarCodigoAlumno([a], 2024) == "2024002"
    ensures Existe([a], GenerarCodigoAlumno([a], 2024))
  {
    UnoConPrefijo(a);
    assert Ceros(2) == "00";
    assert RellenoCeros(2, 3) == "002";
  }

  /** The year 2024 is written "2024", and the record "2024002" carries it. */
  lemma UnoConPrefijo(a: Alumno)
    requires a.codigoAlumno == "2024002"
    ensures Decimal(2024) == "2024"
    ensures CuentaPrefijo([a], 2024) == 1
  {
    var s := [a];
    assert Digitos(2) == "2";
    assert Digitos(20) == Digitos(2) + "0";
    assert Digitos(202) == Digitos(20) + "2";
    assert Digitos(2024) == Digitos(202) + "4";
    assert ConPrefijo("2024")(a);
    assert Filtrar(s, ConPrefijo("2024")) == [a] by {
      assert s[..0] == [];
    }
  }

  /** The largest number after `prefijo` among the codes whose remainder is all digits (0 if none). */
  function MayorSufijo(todos: seq<Alumno>, prefijo: string): (m: nat)
    ensures forall i | 0 <= i < |todos| ::
              var c := todos[i].codigoAlumno;
              EmpiezaCon(c, prefijo) && TodosDigitos(c[|prefijo|..]) ==> Valor(c[|prefijo|..]) <= m
  {
    if todos == [] then 0
    else
      var c := todos[0].codigoAlumno;
      var resto := MayorSufijo(todos[1..], prefijo);
      if EmpiezaCon(c, prefijo) && TodosDigitos(c[|prefijo|..]) && Valor(c[|prefijo|..]) > resto
      then Valor(c[|prefijo|..])
      else resto
  }

  /**
    The generator the documentation promises ("único"): the year, then one
    more than the largest sequence number already used with that year, padded
    to three digits. The code it returns is never stored.
  */
  function GenerarCodigoAlumnoUnico(todos: seq<Alumno>, anio: int): (r: string)
    ensures EmpiezaCon(r, Decimal(anio))
    ensures !Existe(todos, r)
  {
    var prefijo := Decimal(anio);
    var siguiente := MayorSufijo(todos, prefijo) + 1;
    var relleno := RellenoCeros(siguiente, 3);
    var r := prefijo + relleno;
    assert r[|prefijo|..] == relleno;
    assert !Existe(todos, r) by {
      forall i | 0 <= i < |todos| ensures todos[i].codigoAlumno != r {
        if todos[i].codigoAlumno == r {
          assert EmpiezaCon(r, prefijo);
        }
      }
    }
    r
  }

  // ---------------------------------------------------------------- enrolment

  datatype MensajeMatricula =
    | AlumnoNoValido
    | DebeEstarActivo
    | MasDe24Creditos
    | RiesgoMaximo18
    | MatriculaProcesada(creditos: int, nombreCompleto: string)

  /**
    `procesarMatricula`: a missing student, a status other than "Activo",
    more than 24 credits, and more than 18 credits for a student at risk are
    refused, checked in that order.
  */
  function ProcesarMatricula(alumno: Option<Alumno>, creditos: int): (r: RespuestaOperacion<MensajeMatricula>)
    ensures r.datos == None
    ensures r.exito <==> alumno.Some? && EstaActivo(alumno.value) && creditos <= 24
                         && !(EnRiesgoAcademico(alumno.value) && creditos > 18)
    ensures alumno.None? ==> r.mensaje == AlumnoNoValido
    ensures alumno.Some? && !EstaActivo(alumno.value) ==> r.mensaje == DebeEstarActivo
    ensures alumno.Some? && EstaActivo(alumno.value) && creditos > 24 ==> r.mensaje == MasDe24Creditos
    ensures (alumno.Some? && EstaActivo(alumno.value) && creditos <= 24 && EnRiesgoAcademico(alumno.value) && creditos > 18)
            ==> r.mensaje == RiesgoMaximo18
    ensures r.exito ==> r.mensaje == MatriculaProcesada(creditos, NombreCompleto(alumno.value))
  {
    match alumno
    case None => SinDatos(false, AlumnoNoValido)
    case Some(a) =>
      if a.estado != ACTIVO then SinDatos(false, DebeEstarActivo)
      else if creditos > 24 then SinDatos(false, MasDe24Creditos)
      else if EnRiesgoAcademico(a) && creditos > 18 then SinDatos(false, RiesgoMaximo18)
      else SinDatos(true, MatriculaProcesada(creditos, NombreCompleto(a)))
  }

  /** An enrolment that goes through for a student with a grade below 11.0 is of at most 18 credits. */
  lemma MatriculaEnRiesgo(a: Alumno, creditos: int)
    requires ProcesarMatricula(Some(a), creditos).exito && a.promedio < 11.0
    ensures creditos <= 18
  {
  }

  // ---------------------------------------------------------------- graduation

  datatype Razon = FaltanCreditos(faltan: int) | PromedioInsuficiente(promedio: real) | EstadoNoActivo {
    /** Position of the reason in the message. */
    function Puesto(): nat {
      match this
      case FaltanCreditos(_) => 0
      case PromedioInsuficiente(_) => 1
      case EstadoNoActivo => 2
    }
  }

  datatype MensajeGraduacion =
    | NoEncontrado
    | CumpleRequisitos(nombreCompleto: string, creditos: int, requeridos: int, promedio: real)
    | NoCumple(razones: seq<Razon>)

  /**
    `evaluarGraduacion`: looks the student up; with every requirement met
    (credits, grade 11.0, status "Activo") it succeeds with the student as
    payload, otherwise it lists each unmet requirement, in the order credits,
    grade, status, as the source's `StringBuilder` does.
  */
  method EvaluarGraduacion(todos: seq<Alumno>, codigoAlumno: string, creditosRequeridos: int)
    returns (r: RespuestaOperacion<MensajeGraduacion>)
    ensures r.exito <==> BuscarPorCodigo(todos, codigoAlumno).Some?
                         && PuedeGraduarse(BuscarPorCodigo(todos, codigoAlumno).value, creditosRequeridos)
                         && EstaActivo(BuscarPorCodigo(todos, codigoAlumno).value)
    ensures BuscarPorCodigo(todos, codigoAlumno).None? ==> r.mensaje == NoEncontrado && r.datos == None
    ensures r.exito ==> r.datos == Some(UnAlumno(BuscarPorCodigo(todos, codigoAlumno).value))
    ensures !r.exito && BuscarPorCodigo(todos, codigoAlumno).Some? ==> RazonesDe(r, BuscarPorCodigo(todos, codigoAlumno).value, creditosRequeridos)
  {
    var encontrado := BuscarPorCodigo(todos, codigoAlumno);
    if encontrado.None? {
      return SinDatos(false, NoEncontrado);
    }
    var alumno := encontrado.value;
    var cumpleCreditos := alumno.creditosAcumulados >= creditosRequeridos;
    var cumplePromedio := alumno.promedio >= 11.0;
    var estaActivo := alumno.estado == ACTIVO;
    if cumpleCreditos && cumplePromedio && estaActivo {
      return ConDatos(true, CumpleRequisitos(NombreCompleto(alumno), alumno.creditosAcumulados,
                                             creditosRequeridos, alumno.promedio), UnAlumno(alumno));
    }
    var razones: seq<Razon> := [];
    if !cumpleCreditos {
      razones := razones + [FaltanCreditos(creditosRequeridos - alumno.creditosAcumulados)];
    }
    if !cumplePromedio {
      razones := razones + [PromedioInsuficiente(alumno.promedio)];
    }
    if !estaActivo {
      razones := razones + [EstadoNoActivo];
    }
    assert razones == Pendientes(alumno, creditosRequeridos);
    PendientesSonRazones(alumno, creditosRequeridos);
    return SinDatos(false, NoCumple(razones));
  }

  /** The unmet graduation requirements, in the order credits, grade, status. */
  function Pendientes(a: Alumno, requeridos: int): seq<Razon> {
    (if a.creditosAcumulados < requeridos then [FaltanCreditos(requeridos - a.creditosAcumulados)] else [])
    + (if a.promedio < 11.0 then [PromedioInsuficiente(a.promedio)] else [])
    + (if a.estado != ACTIVO then [EstadoNoActivo] else [])
  }

  /** When some requirement is unmet, the refusal built from the unmet ones is well formed. */
  lemma PendientesSonRazones(a: Alumno, requeridos: int)
    requires !(PuedeGraduarse(a, requeridos) && EstaActivo(a))
    ensures RazonesDe(SinDatos(false, NoCumple(Pendientes(a, requeridos))), a, requeridos)
  {
  }

  /**
    A refusal for a stored student: no payload, between one and three
    reasons in the fixed order, each present exactly when its requirement
    fails, the credit reason carrying the shortfall.
  */
  predicate RazonesDe(r: RespuestaOperacion<MensajeGraduacion>, a: Alumno, requeridos: int) {
    && r.datos == None
    && r.mensaje.NoCumple?
    && var razones := r.mensaje.razones;
    && 1 <= |razones| <= 3
    && (forall i, j | 0 <= i < j < |razones| :: razones[i].Puesto() < razones[j].Puesto())
    && (FaltanCreditos(requeridos - a.creditosAcumulados) in razones <==> a.creditosAcumulados < requeridos)
    && (PromedioInsuficiente(a.promedio) in razones <==> a.promedio < 11.0)
    && (EstadoNoActivo in razones <==> !EstaActivo(a))
    && (forall x | x in razones :: x == FaltanCreditos(requeridos - a.creditosAcumulados)
                                   || x == PromedioInsuficiente(a.promedio) || x == EstadoNoActivo)
  }

  // ---------------------------------------------------------------- report

  function PasaCarrera(carrera: Option<string>): Alumno -> bool {
    (a: Alumno) => carrera.None? || IgualIgnorandoMayusculas(a.carrera, carrera.value)
  }

  function PasaEstado(estado: Option<string>): Alumno -> bool {
    (a: Alumno) => estado.None? || IgualIgnorandoMayusculas(a.estado, estado.value)
  }

  function PasaCiclo(cicloMinimo: int): Alumno -> bool {
    (a: Alumno) => cicloMinimo <= 0 || a.ciclo >= cicloMinimo
  }

  function PasaPromedio(promedioMinimo: real): Alumno -> bool {
    (a: Alumno) => promedioMinimo <= 0.0 || a.promedio >= promedioMinimo
  }

  /** A record passes the report filter when it passes every criterion that is set. */
  predicate CumpleFiltro(a: Alumno, carrera: Option<string>, estado: Option<string>, cicloMinimo: int, promedioMinimo: real) {
    PasaCarrera(carrera)(a) && PasaEstado(estado)(a) && PasaCiclo(cicloMinimo)(a) && PasaPromedio(promedioMinimo)(a)
  }

  function FiltroDe(carrera: Option<string>, estado: Option<string>, cicloMinimo: int, promedioMinimo: real): Alumno -> bool {
    (a: Alumno) => CumpleFiltro(a, carrera, estado, cicloMinimo, promedioMinimo)
  }

  /**
    The four filters of `generarReporte`, each applied only when its
    criterion is set; each only drops records. `ReporteConjuntivo` says
    which records remain.
  */
  function Reporte(todos: seq<Alumno>, carrera: Option<string>, estado: Option<string>,
                   cicloMinimo: int, promedioMinimo: real): (r: seq<Alumno>)
    ensures multiset(r) <= multiset(todos)
  {
    var l1 := if carrera.Some? then Filtrar(todos, PasaCarrera(carrera)) else todos;
    var l2 := if estado.Some? then Filtrar(l1, PasaEstado(estado)) else l1;
    var l3 := if cicloMinimo > 0 then Filtrar(l2, PasaCiclo(cicloMinimo)) else l2;
    if promedioMinimo > 0.0 then Filtrar(l3, PasaPromedio(promedioMinimo)) else l3
  }

  /** A criterion that is not set lets every record through. */
  lemma FiltroInactivo(s: seq<Alumno>, p: Alumno -> bool)
    requires forall x :: p(x)
    ensures Filtrar(s, p) == s
  {
    FiltrarTodos(s, p);
  }

  /**
    The filters applied one after another keep, in their original order,
    exactly the records that satisfy all the criteria that are set.
  */
  lemma ReporteConjuntivo(todos: seq<Alumno>, carrera: Option<string>, estado: Option<string>,
                          cicloMinimo: int, promedioMinimo: real)
    ensures Reporte(todos, carrera, estado, cicloMinimo, promedioMinimo)
         == Filtrar(todos, FiltroDe(carrera, estado, cicloMinimo, promedioMinimo))
  {
    var p1, p2, p3, p4 := PasaCarrera(carrera), PasaEstado(estado), PasaCiclo(cicloMinimo), PasaPromedio(promedioMinimo);
    var l1 := if carrera.Some? then Filtrar(todos, p1) else todos;
    var l2 := if estado.Some? then Filtrar(l1, p2) else l1;
    var l3 := if cicloMinimo > 0 then Filtrar(l2, p3) else l2;
    var l4 := if promedioMinimo > 0.0 then Filtrar(l3, p4) else l3;
    if carrera.None? { FiltroInactivo(todos, p1); }
    if estado.None? { FiltroInactivo(l1, p2); }
    if cicloMinimo <= 0 { FiltroInactivo(l2, p3); }
    if promedioMinimo <= 0.0 { FiltroInactivo(l3, p4); }
    assert l1 == Filtrar(todos, p1);
    assert l2 == Filtrar(l1, p2);
    assert l3 == Filtrar(l2, p3);
    assert l4 == Filtrar(l3, p4);
    var p12 := (a: Alumno) => p1(a) && p2(a);
    var p123 := (a: Alumno) => p12(a) && p3(a);
    var p1234 := FiltroDe(carrera, estado, cicloMinimo, promedioMinimo);
    FiltrarDosVeces(todos, p1, p2, p12);
    FiltrarDosVeces(todos, p12, p3, p123);
    FiltrarDosVeces(todos, p123, p4, p1234);
  }

  /**
    `generarReporte`: the records of the store that satisfy every set
    criterion (text criteria ignoring case, minimums only when positive),
    in store order.
  */
  function GenerarReporte(todos: seq<Alumno>, filtro: FiltroReporte): (r: seq<Alumno>)
    reads filtro
    ensures r == Filtrar(todos, FiltroDe(filtro.carrera, filtro.estado, filtro.cicloMinimo, filtro.promedioMinimo))
    ensures forall x :: x in r <==> x in todos && CumpleFiltro(x, filtro.carrera, filtro.estado, filtro.cicloMinimo, filtro.promedioMinimo)
  {
    var carrera, estado, cicloMinimo, promedioMinimo := filtro.carrera, filtro.estado, filtro.cicloMinimo, filtro.promedioMinimo;
    ReporteConjuntivo(todos, carrera, estado, cicloMinimo, promedioMinimo);
    var r := Reporte(todos, carrera, estado, cicloMinimo, promedioMinimo);
    MiembrosFiltrados(todos, FiltroDe(carrera, estado, cicloMinimo, promedioMinimo));
    r
  }

  /** Membership in a filtered sequence. */
  lemma MiembrosFiltrados(s: seq<Alumno>, p: Alumno -> bool)
    ensures forall x :: x in Filtrar(s, p) <==> x in s && p(x)
  {
    var r := Filtrar(s, p);
    forall x | x in r ensures x in s && p(x) {
      var i :| 0 <= i < |r| && r[i] == x;
    }
  }

  // ---------------------------------------------------------------- selections

  predicate NecesitaTutoria(a: Alumno) {
    EstaActivo(a) && a.promedio < 13.0
  }

  /** `identificarAlumnosParaTutoria`: the "Activo" records below 13.0, lowest grade first. */
  function IdentificarAlumnosParaTutoria(todos: seq<Alumno>): (r: seq<Alumno>)
    ensures forall x :: x in r <==> x in todos && EstaActivo(x) && x.promedio < 13.0
    ensures Ordenado(PorPromedio, r)
    ensures multiset(r) == multiset(Filtrar(todos, NecesitaTutoria))
  {
    var activos := Filtrar(todos, EstaActivo);
    var bajo := (a: Alumno) => a.promedio < 13.0;
    FiltrarDosVeces(todos, EstaActivo, bajo, NecesitaTutoria);
    MiembrosFiltrados(todos, NecesitaTutoria);
    Consulta(PorPromedio, activos, bajo)
  }

  /** `obtenerAlumnosDestacados(limite)`: the same selection as the store's best grades. */
  function ObtenerAlumnosDestacados(todos: seq<Alumno>, limite: int): (r: seq<Alumno>)
    requires limite >= 0
    ensures MejoresActivos(todos, limite, r)
  {
    ObtenerMejoresPromedios(todos, limite)
  }

  // ---------------------------------------------------------------- integrity

  const ERR_NULO: string := "El alumno es nulo"
  const ERR_NOMBRE: string := "El nombre es obligatorio"
  const ERR_APELLIDO: string := "El apellido es obligatorio"
  const ERR_DNI: string := "DNI inválido (debe tener 8 dígitos)"
  const ERR_EMAIL: string := "Email inválido"
  const ERR_CODIGO: string := "Código de alumno es obligatorio"
  const ERR_CARRERA: string := "La carrera es obligatoria"
  const ERR_CICLO: string := "Ciclo inválido (debe estar entre 1 y 12)"
  const ERR_PROMEDIO: string := "Promedio inválido (debe estar entre 0 y 20)"

  /** The messages `validarIntegridadDatos` can record for a student, in the order it checks. */
  const ERRORES_EN_ORDEN: seq<string> :=
    [ERR_NOMBRE, ERR_APELLIDO, ERR_DNI, ERR_EMAIL, ERR_CODIGO, ERR_CARRERA, ERR_CICLO, ERR_PROMEDIO]

  /** One check: its message is appended when it fails. */
  function Anotar(errores: seq<string>, falla: bool, mensaje: string): (r: seq<string>)
    ensures |r| == |errores| + (if falla then 1 else 0)
    ensures r[..|errores|] == errores
    ensures falla ==> r[|errores|] == mensaje
    ensures r == [] <==> errores == [] && !falla
    ensures forall e | e in r :: e in errores || e == mensaje
  {
    if falla then errores + [mensaje] else errores
  }

  /** The messages `ms[i]` whose check `f[i]` fails, in increasing `i`. */
  function Seleccion(f: seq<bool>, ms: seq<string>): (r: seq<string>)
    requires |f| == |ms|
    ensures |r| <= |f|
  {
    if f == [] then []
    else Seleccion(f[..|f| - 1], ms[..|ms| - 1]) + (if f[|f| - 1] then [ms[|ms| - 1]] else [])
  }

  /** Selecting over one more check is one more `Anotar`. */
  lemma SeleccionPaso(f: seq<bool>, ms: seq<string>, k: nat)
    requires |f| == |ms| && k < |f|
    ensures Seleccion(f[..k + 1], ms[..k + 1]) == Anotar(Seleccion(f[..k], ms[..k]), f[k], ms[k])
  {
    assert f[..k + 1][..k] == f[..k];
    assert ms[..k + 1][..k] == ms[..k];
  }

  /** A message is selected exactly when some check carrying it fails. */
  lemma {:induction false} SeleccionMiembros(f: seq<bool>, ms: seq<string>, x: string)
    requires |f| == |ms|
    ensures x in Seleccion(f, ms) <==> exists i | 0 <= i < |f| :: f[i] && ms[i] == x
  {
    if f != [] {
      var n := |f| - 1;
      SeleccionMiembros(f[..n], ms[..n], x);
      if exists i | 0 <= i < |f| :: f[i] && ms[i] == x {
        var i :| 0 <= i < |f| && f[i] && ms[i] == x;
        if i < n {
          assert f[..n][i] && ms[..n][i] == x;
        }
      }
    }
  }

  /** The outcome of each check, `true` where it fails, in check order. */
  function Fallos(a: Alumno): (f: seq<bool>)
    ensures |f| == 8
  {
    [ Trim(a.nombre) == [],
      Trim(a.apellido) == [],
      !CoincideDigitos(a.dni, 8),
      !ValidarEmail(a.email),
      Trim(a.codigoAlumno) == [],
      Trim(a.carrera) == [],
      a.ciclo < 1 || a.ciclo > 12,
      a.promedio < 0.0 || a.promedio > 20.0 ]
  }

  /** The messages of the checks that fail, in check order. */
  function Mensajes(f: seq<bool>): (r: seq<string>)
    requires |f| == 8
    ensures r == Seleccion(f, ERRORES_EN_ORDEN)
    ensures forall i | 0 <= i < 8 :: ERRORES_EN_ORDEN[i] in r <==> f[i]
    ensures |r| <= 8
    ensures r == [] <==> forall i | 0 <= i < 8 :: !f[i]
    ensures forall e | e in r :: e in ERRORES_EN_ORDEN
  {
    var ms := ERRORES_EN_ORDEN;
    assert f[..0] == [] && ms[..0] == [];
    var e1 := Anotar([], f[0], ms[0]);
    SeleccionPaso(f, ms, 0);
    assert e1 == Seleccion(f[..1], ms[..1]);
    var e2 := Anotar(e1, f[1], ms[1]);
    SeleccionPaso(f, ms, 1);
    assert e2 == Seleccion(f[..2], ms[..2]);
    var e3 := Anotar(e2, f[2], ms[2]);
    SeleccionPaso(f, ms, 2);
    assert e3 == Seleccion(f[..3], ms[..3]);
    var e4 := Anotar(e3, f[3], ms[3]);
    SeleccionPaso(f, ms, 3);
    assert e4 == Seleccion(f[..4], ms[..4]);
    var e5 := Anotar(e4, f[4], ms[4]);
    SeleccionPaso(f, ms, 4);
    assert e5 == Seleccion(f[..5], ms[..5]);
    var e6 := Anotar(e5, f[5], ms[5]);
    SeleccionPaso(f, ms, 5);
    assert e6 == Seleccion(f[..6], ms[..6]);
    var e7 := Anotar(e6, f[6], ms[6]);
    SeleccionPaso(f, ms, 6);
    assert e7 == Seleccion(f[..7], ms[..7]);
    var r := Anotar(e7, f[7], ms[7]);
    SeleccionPaso(f, ms, 7);
    assert f[..8] == f && ms[..8] == ms;
    MensajesSeleccionados(f, r);
    r
  }

  /** The eight messages are pairwise different: their lengths already differ. */
  lemma MensajesDistintos(i: nat, j: nat)
    requires i < 8 && j < 8 && ERRORES_EN_ORDEN[i] == ERRORES_EN_ORDEN[j]
    ensures i == j
  {
    var ls := [24, 26, 35, 14, 31, 25, 40, 43];
    assert forall k | 0 <= k < 8 :: |ERRORES_EN_ORDEN[k]| == ls[k];
  }

  /** Each message appears exactly when its own check fails. */
  lemma MensajesSeleccionados(f: seq<bool>, r: seq<string>)
    requires |f| == 8 && r == Seleccion(f, ERRORES_EN_ORDEN)
    ensures forall i | 0 <= i < 8 :: ERRORES_EN_ORDEN[i] in r <==> f[i]
    ensures r == [] <==> forall i | 0 <= i < 8 :: !f[i]
    ensures forall e | e in r :: e in ERRORES_EN_ORDEN
  {
    var ms := ERRORES_EN_ORDEN;
    forall i | 0 <= i < 8 ensures ms[i] in r <==> f[i] {
      SeleccionMiembros(f, ms, ms[i]);
      if ms[i] in r {
        var j :| 0 <= j < 8 && f[j] && ms[j] == ms[i];
        MensajesDistintos(i, j);
      }
    }
    forall e | e in r ensures e in ms {
      SeleccionMiembros(f, ms, e);
    }
    if r != [] {
      SeleccionMiembros(f, ms, r[0]);
    }
  }

  function ErroresDeAlumno(a: Alumno): seq<string> {
    Mensajes(Fallos(a))
  }

  /** The integrity check finds nothing exactly when `validarDatos` accepts the record. */
  lemma ErroresSiiInvalido(a: Alumno)
    ensures ErroresDeAlumno(a) == [] <==> ValidarDatos(a)
  {
    ValidarDatosSii(a);
    var f := Fallos(a);
    if forall i | 0 <= i < 8 :: !f[i] {
      assert !f[0] && !f[1] && !f[2] && !f[3] && !f[4] && !f[5] && !f[6] && !f[7];
    }
  }

  /**
    What `validarIntegridadDatos` records: for a null student one error; for
    any other, the message of every failing check in check order, none at
    all exactly when `validarDatos` holds.
  */
  function ErroresIntegridad(alumno: Option<Alumno>): (r: seq<string>)
    ensures alumno.None? ==> r == [ERR_NULO]
    ensures alumno.Some? ==> r == Seleccion(Fallos(alumno.value), ERRORES_EN_ORDEN)
    ensures alumno.Some? ==> forall i | 0 <= i < 8 :: ERRORES_EN_ORDEN[i] in r <==> Fallos(alumno.value)[i]
    ensures alumno.Some? ==> |r| <= 8
    ensures alumno.Some? ==> (r == [] <==> ValidarDatos(alumno.value))
  {
    match alumno
    case None => [ERR_NULO]
    case Some(a) =>
      ErroresSiiInvalido(a);
      ErroresDeAlumno(a)
  }

  /** One check of the integrity validation: `agregarError(mensaje)` when it fails. */
  method Verificar(result: ValidationResult, falla: bool, mensaje: string)
    modifies result
    ensures result.errores == Anotar(old(result.errores), falla, mensaje)
  {
    if falla {
      result.AgregarError(mensaje);
    }
  }

  /** Check `k` of the integrity validation, seen as one more step of the selection. */
  method VerificarPaso(result: ValidationResult, f: seq<bool>, ms: seq<string>, k: nat)
    requires |f| == |ms| && k < |f|
    requires result.errores == Seleccion(f[..k], ms[..k])
    modifies result
    ensures result.errores == Seleccion(f[..k + 1], ms[..k + 1])
  {
    Verificar(result, f[k], ms[k]);
    SeleccionPaso(f, ms, k);
  }

  /** Four consecutive checks `k` .. `k + 3`. */
  method VerificarCuatro(result: ValidationResult, f: seq<bool>, ms: seq<string>, k: nat)
    requires |f| == |ms| && k + 4 <= |f|
    requires result.errores == Seleccion(f[..k], ms[..k])
    modifies result
    ensures result.errores == Seleccion(f[..k + 4], ms[..k + 4])
  {
    VerificarPaso(result, f, ms, k);
    VerificarPaso(result, f, ms, k + 1);
    VerificarPaso(result, f, ms, k + 2);
    VerificarPaso(result, f, ms, k + 3);
  }

  /** The eight checks on a present student, in order, into an empty result. */
  method VerificarAlumno(result: ValidationResult, a: Alumno)
    requires result.errores == []
    modifies result
    ensures result.errores == Seleccion(Fallos(a), ERRORES_EN_ORDEN)
  {
    var f, ms := Fallos(a), ERRORES_EN_ORDEN;
    assert f[..0] == [] && ms[..0] == [];
    VerificarCuatro(result, f, ms, 0);
    VerificarCuatro(result, f, ms, 4);
    assert f[..8] == f && ms[..8] == ms;
  }

  /** The integrity check accumulates into a fresh `ValidationResult`, one `agregarError` per failing check. */
  method ValidarIntegridadDatos(alumno: Option<Alumno>) returns (result: ValidationResult)
    ensures fresh(result)
    ensures result.errores == ErroresIntegridad(alumno)
  {
    result := new ValidationResult();
    if alumno.None? {
      result.AgregarError(ERR_NULO);
      return;
    }
    VerificarAlumno(result, alumno.value);
  }
}
