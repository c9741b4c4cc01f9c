/**
  The student record (a person plus academic data), its aggregate validity
  check, the derived threshold predicates, and the four guarded mutators that
  silently ignore bad input.

  `Alumno` is the value of a record: what the repository stores and what the
  controller and service read. `AlumnoObjeto` is the mutable Java object,
  whose mutators update its fields in place and are proved against the pure
  transitions `TrasAvanzarCiclo`, `TrasActualizarPromedio`,
  `TrasCambiarEstado` and `TrasAgregarCreditos`.
*/
module Alumnos {
  import opened Texto
  import opened Wrappers
  import opened Persona

  datatype Alumno = Alumno(
    // person
    nombre: string,
    apellido: string,
    dni: string,
    fechaNacimiento: string,
    direccion: string,
    telefono: string,
    email: string,
    // student
    codigoAlumno: string,
    carrera: string,
    ciclo: int,
    promedio: real,
    estado: string,
    fechaIngreso: string,
    creditosAcumulados: int)

  const ACTIVO: string := "Activo"
  const INACTIVO: string := "Inactivo"
  const EGRESADO: string := "Egresado"
  const RETIRADO: string := "Retirado"

  /** The canonical spellings that `cambiarEstado` accepts, in the order it tries them. */
  const EstadosValidos: seq<string> := [ACTIVO, INACTIVO, EGRESADO, RETIRADO]

  // ---------------------------------------------------------------- derived

  /** `getNombreCompleto`: first name, one space, last name. */
  function NombreCompleto(a: Alumno): (r: string)
    ensures |r| == |a.nombre| + 1 + |a.apellido|
    ensures r[..|a.nombre|] == a.nombre && r[|a.nombre|] == ' '
    ensures r[|a.nombre| + 1..] == a.apellido
  {
    a.nombre + " " + a.apellido
  }

  /**
    `validarDatos`: names, code and programme not blank after `trim`, a valid
    DNI and e-mail, cycle in 1..12, grade in 0..20. Status and credits are
    not checked.
  */
  function ValidarDatos(a: Alumno): (r: bool)
    ensures r ==> 1 <= a.ciclo <= 12 && 0.0 <= a.promedio <= 20.0
  {
    var datosPersonalesValidos :=
      Trim(a.nombre) != [] && Trim(a.apellido) != [] && ValidarDNI(a.dni) && ValidarEmail(a.email);
    var datosAcademicosValidos :=
      Trim(a.codigoAlumno) != [] && Trim(a.carrera) != [] && 0 < a.ciclo <= 12 && 0.0 <= a.promedio <= 20.0;
    datosPersonalesValidos && datosAcademicosValidos
  }

  /** What `validarDatos` accepts, each check stated through its meaning rather than its code. */
  lemma ValidarDatosSii(a: Alumno)
    ensures ValidarDatos(a) <==>
      && !EsBlanco(a.nombre) && !EsBlanco(a.apellido)
      && |a.dni| == 8 && TodosDigitos(a.dni)
      && FormaEmail(a.email)
      && !EsBlanco(a.codigoAlumno) && !EsBlanco(a.carrera)
      && 1 <= a.ciclo <= 12
      && 0.0 <= a.promedio <= 20.0
  {
  }

  /**
    `puedeAvanzarCiclo`: an "Activo" student (exact spelling) with at least
    13.0, below the last cycle, so the next cycle is still at most 12.
  */
  function PuedeAvanzarCiclo(a: Alumno): (r: bool)
    ensures r <==> a.promedio >= 13.0 && a.estado == ACTIVO && a.ciclo < 12
    ensures r ==> a.ciclo + 1 <= 12
  {
    a.promedio >= 13.0 && a.estado == ACTIVO && a.ciclo < 12
  }

  /** `puedeGraduarse`: credits and grade only; the status is not consulted. */
  function PuedeGraduarse(a: Alumno, creditosRequeridos: int): (r: bool)
    ensures r <==> a.creditosAcumulados >= creditosRequeridos && a.promedio >= 11.0
  {
    a.creditosAcumulados >= creditosRequeridos && a.promedio >= 11.0
  }

  /**
    `enRiesgoAcademico`: an active (exact spelling) student below 11. A student
    at risk can neither advance a cycle nor graduate.
  */
  function EnRiesgoAcademico(a: Alumno): (r: bool)
    ensures r <==> a.promedio < 11.0 && a.estado == ACTIVO
    ensures r ==> !PuedeAvanzarCiclo(a)
    ensures r ==> forall n :: !PuedeGraduarse(a, n)
  {
    a.promedio < 11.0 && a.estado == ACTIVO
  }

  datatype Nivel = Inicial | Intermedio | Avanzado | Finalizando {
    function Rango(): nat {
      match this
      case Inicial => 0
      case Intermedio => 1
      case Avanzado => 2
      case Finalizando => 3
    }
  }

  /** `getNivelAcademico`: a total classification by cycle, monotone in it. */
  function NivelAcademico(a: Alumno): (n: Nivel)
    ensures n == Inicial <==> a.ciclo <= 2
    ensures n == Intermedio <==> 2 < a.ciclo <= 6
    ensures n == Avanzado <==> 6 < a.ciclo <= 10
    ensures n == Finalizando <==> 10 < a.ciclo
  {
    if a.ciclo <= 2 then Inicial
    else if a.ciclo <= 6 then Intermedio
    else if a.ciclo <= 10 then Avanzado
    else Finalizando
  }

  /** A later cycle never has a lower level. */
  lemma NivelMonotono(a: Alumno, b: Alumno)
    requires a.ciclo <= b.ciclo
    ensures NivelAcademico(a).Rango() <= NivelAcademico(b).Rango()
  {
  }

  // ---------------------------------------------------------------- transitions

  /** The record after `avanzarCiclo`: one more cycle when allowed, never beyond 12. */
  function TrasAvanzarCiclo(a: Alumno): (r: Alumno)
    ensures r == a.(ciclo := r.ciclo)
    ensures r.ciclo == if PuedeAvanzarCiclo(a) then a.ciclo + 1 else a.ciclo
    ensures a.ciclo <= 12 ==> r.ciclo <= 12
    ensures ValidarDatos(a) ==> ValidarDatos(r)
  {
    if PuedeAvanzarCiclo(a) then a.(ciclo := a.ciclo + 1) else a
  }

  /** The record after `actualizarPromedio(p)`: `p` when it is in 0..20, else unchanged. */
  function TrasActualizarPromedio(a: Alumno, p: real): (r: Alumno)
    ensures r == a.(promedio := r.promedio)
    ensures r.promedio == if 0.0 <= p <= 20.0 then p else a.promedio
    ensures ValidarDatos(a) ==> ValidarDatos(r)
  {
    if 0.0 <= p <= 20.0 then a.(promedio := p) else a
  }

  /**
    The first canonical status equal to `s` ignoring case, trying them in the
    order of `validos`.
  */
  function BuscarEstado(validos: seq<string>, s: string): (r: Option<string>)
    ensures r.Some? <==> exists v | v in validos :: IgualIgnorandoMayusculas(v, s)
    ensures r.Some? ==> r.value in validos && IgualIgnorandoMayusculas(r.value, s)
  {
    if validos == [] then None
    else if IgualIgnorandoMayusculas(validos[0], s) then Some(validos[0])
    else BuscarEstado(validos[1..], s)
  }

  /**
    The record after `cambiarEstado(s)`: the canonical spelling of `s` when it
    names one of the four statuses ignoring case, else the old status.
  */
  function TrasCambiarEstado(a: Alumno, s: string): (r: Alumno)
    ensures r == a.(estado := r.estado)
    ensures (exists v | v in EstadosValidos :: IgualIgnorandoMayusculas(v, s)) ==>
              r.estado in EstadosValidos && IgualIgnorandoMayusculas(r.estado, s)
    ensures (forall v | v in EstadosValidos :: !IgualIgnorandoMayusculas(v, s)) ==> r == a
    ensures a.estado in EstadosValidos ==> r.estado in EstadosValidos
    ensures ValidarDatos(a) ==> ValidarDatos(r)
  {
    match BuscarEstado(EstadosValidos, s)
    case Some(v) => a.(estado := v)
    case None => a
  }

  /** The four canonical spellings are pairwise different even ignoring case. */
  lemma EstadosDistintosIgnorandoMayusculas(i: nat, j: nat)
    requires i < j < |EstadosValidos|
    ensures !IgualIgnorandoMayusculas(EstadosValidos[i], EstadosValidos[j])
  {
    // Their initials A, I, E and R already differ.
    assert MinusculaAscii(EstadosValidos[i][0]) != MinusculaAscii(EstadosValidos[j][0]);
  }

  /** Changing the status twice with the same argument is the same as once. */
  lemma CambiarEstadoIdempotente(a: Alumno, s: string)
    ensures TrasCambiarEstado(TrasCambiarEstado(a, s), s) == TrasCambiarEstado(a, s)
  {
  }

  /**
    The record after `agregarCreditos(n)`: `n` more credits when `n > 0`, else
    unchanged, so this never lowers the credit count. See `TrasAgregarCreditosInt32`
    for what the Java `int` addition does near its upper bound.
  */
  function TrasAgregarCreditos(a: Alumno, n: int): (r: Alumno)
    ensures r == a.(creditosAcumulados := r.creditosAcumulados)
    ensures r.creditosAcumulados == if n > 0 then a.creditosAcumulados + n else a.creditosAcumulados
    ensures r.creditosAcumulados >= a.creditosAcumulados
    ensures ValidarDatos(a) ==> ValidarDatos(r)
  {
    if n > 0 then a.(creditosAcumulados := a.creditosAcumulados + n) else a
  }

  // ---------------------------------------------------------------- Java int arithmetic

  const MIN_INT: int := -0x8000_0000
  const MAX_INT: int := 0x7FFF_FFFF

  predicate EsInt32(x: int) {
    MIN_INT <= x <= MAX_INT
  }

  /** Two's-complement wrap-around of a Java `int` sum. */
  function Envolver32(x: int): (r: int)
    ensures EsInt32(r)
    ensures EsInt32(x) ==> r == x
  {
    (x - MIN_INT) % 0x1_0000_0000 + MIN_INT
  }

  /** `creditosAcumulados += creditos` exactly as Java computes it on `int`. */
  function TrasAgregarCreditosInt32(a: Alumno, n: int): (r: Alumno)
    requires EsInt32(a.creditosAcumulados) && EsInt32(n)
    ensures r == a.(creditosAcumulados := r.creditosAcumulados)
    ensures EsInt32(r.creditosAcumulados)
    ensures EsInt32(a.creditosAcumulados + n) ==> r == TrasAgregarCreditos(a, n)
  {
    if n > 0 then a.(creditosAcumulados := Envolver32(a.creditosAcumulados + n)) else a
  }

  /** On Java `int`, adding one credit to the largest count makes it negative. */
  lemma AgregarCreditosDesborda(a: Alumno)
    requires a.creditosAcumulados == MAX_INT
    ensures TrasAgregarCreditosInt32(a, 1).creditosAcumulados == MIN_INT
    ensures TrasAgregarCreditosInt32(a, 1).creditosAcumulados < a.creditosAcumulados
  {
  }

  // ---------------------------------------------------------------- the mutable object

  /** The Java `Alumno` object: its fields are updated in place by the mutators. */
  class AlumnoObjeto {
    var nombre: string
    var apellido: string
    var dni: string
    var fechaNacimiento: string
    var direccion: string
    var telefono: string
    var email: string
    var codigoAlumno: string
    var carrera: string
    var ciclo: int
    var promedio: real
    var estado: string
    var fechaIngreso: string
    var creditosAcumulados: int

    /** The value the object currently holds. */
    function Datos(): Alumno
      reads this
    {
      Alumno(nombre, apellido, dni, fechaNacimiento, direccion, telefono, email,
             codigoAlumno, carrera, ciclo, promedio, estado, fechaIngreso, creditosAcumulados)
    }

    /** The full constructor: every argument is stored as given, without trimming or checks. */
    constructor (nombre: string, apellido: string, dni: string, fechaNacimiento: string,
                 direccion: string, telefono: string, email: string,
                 codigoAlumno: string, carrera: string, ciclo: int, promedio: real,
                 estado: string, fechaIngreso: string, creditosAcumulados: int)
      ensures Datos() == Alumno(nombre, apellido, dni, fechaNacimiento, direccion, telefono, email,
                                codigoAlumno, carrera, ciclo, promedio, estado, fechaIngreso,
                                creditosAcumulados)
    {
      this.nombre := nombre;
      this.apellido := apellido;
      this.dni := dni;
      this.fechaNacimiento := fechaNacimiento;
      this.direccion := direccion;
      this.telefono := telefono;
      this.email := email;
      this.codigoAlumno := codigoAlumno;
      this.carrera := carrera;
      this.ciclo := ciclo;
      this.promedio := promedio;
      this.estado := estado;
      this.fechaIngreso := fechaIngreso;
      this.creditosAcumulados := creditosAcumulados;
    }

    method AvanzarCiclo()
      modifies this
      ensures Datos() == TrasAvanzarCiclo(old(Datos()))
    {
      if promedio >= 13.0 && estado == ACTIVO && ciclo < 12 {
        ciclo := ciclo + 1;
      }
    }

    method ActualizarPromedio(nuevoPromedio: real)
      modifies this
      ensures Datos() == TrasActualizarPromedio(old(Datos()), nuevoPromedio)
    {
      if nuevoPromedio >= 0.0 && nuevoPromedio <= 20.0 {
        promedio := nuevoPromedio;
      }
    }

    /** Tries the canonical statuses in order and keeps the first that matches. */
    method CambiarEstado(nuevoEstado: string)
      modifies this
      ensures Datos() == TrasCambiarEstado(old(Datos()), nuevoEstado)
    {
      var estadosValidos := EstadosValidos;
      var i := 0;
      while i < |estadosValidos|
        invariant 0 <= i <= |estadosValidos|
        invariant BuscarEstado(estadosValidos, nuevoEstado) == BuscarEstado(estadosValidos[i..], nuevoEstado)
        invariant Datos() == old(Datos())
      {
        if IgualIgnorandoMayusculas(estadosValidos[i], nuevoEstado) {
          estado := estadosValidos[i];
          return;
        }
        i := i + 1;
      }
    }

    /** Adds positive credits; the addition is on unbounded integers (see TrasAgregarCreditosInt32). */
    method AgregarCreditos(creditos: int)
      modifies this
      ensures Datos() == TrasAgregarCreditos(old(Datos()), creditos)
      ensures creditosAcumulados >= old(creditosAcumulados)
    {
      if creditos > 0 {
        creditosAcumulados := creditosAcumulados + creditos;
      }
    }
  }
}
