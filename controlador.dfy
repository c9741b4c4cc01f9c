/**
  The controller that gates every write to the store. Each write checks its
  arguments fail-fast in a fixed order, normalises the record, and hands it
  to the repository; every outcome is wrapped in a `RespuestaOperacion`.

  The effect of each write is stated first as a function of the stored list
  (`ResultadoCrear`, `ResultadoModificar`, ...), which returns the response
  together with the list afterwards; the methods of `AlumnoController`
  perform the same steps against the repository object and are proved to
  agree with those functions. The read-only wrappers are functions of the
  repository's list.
*/
module Controlador {
  import opened Texto
  import opened Wrappers
  import opened Secuencias
  import opened Persona
  import opened Alumnos
  import opened Orden
  import opened Repositorio
  import opened Respuestas

  /** The messages the controller answers with, as tags carrying the values they quote. */
  datatype Mensaje =
    // field checks
    | CodigoObligatorio
    | NombreObligatorio
    | ApellidoObligatorio
    | DniInvalido
    | EmailInvalido
    | CarreraObligatoria
    | CicloInvalido
    | PromedioInvalido
    // duplicates and the store's answer
    | CodigoDuplicado(codigo: string)
    | DniDuplicado(dni: string)
    | AlumnoCreado(nombreCompleto: string)
    | NoSeGuardo
    | NoEncontrado(codigo: string)
    | AlumnoActualizado(nombreCompleto: string)
    | NoSeActualizo
    | CodigoRequerido
    | AlumnoEliminado(nombreCompleto: string)
    | NoSeElimino
    | EstadoCambiado(estadoAnterior: string, estadoNuevo: string, nombreCompleto: string)
    | NoSeActualizoEstado
    | PromedioActualizado(promedioAnterior: real, promedioNuevo: real, nombreCompleto: string)
    | NoSeActualizoPromedio
    // queries
    | FaltaCodigo
    | Encontrado
    | FaltaTermino
    | SinCoincidencias(termino: string)
    | Encontrados(cantidad: nat)
    | FaltaDni
    | DniNoEncontrado(dni: string)
    | SinAlumnos
    | TotalAlumnos(cantidad: nat)
    | SinAlumnosEnCarrera(carrera: string)
    | EnCarrera(cantidad: nat, carrera: string)
    | SinAlumnosConEstado(estado: string)
    | ConEstadoMinusculas(cantidad: nat, estadoMinusculas: string)
    | NadieEnRiesgo
    | EnRiesgo(cantidad: nat)

  type Respuesta = RespuestaOperacion<Mensaje>

  /** The arguments `crearAlumno` and `modificarAlumno` receive for the record. */
  datatype Formulario = Formulario(
    codigoAlumno: string,
    nombre: string,
    apellido: string,
    dni: string,
    fechaNacimiento: string,
    direccion: string,
    telefono: string,
    email: string,
    carrera: string,
    ciclo: int,
    promedio: real,
    fechaIngreso: string)

  /** A write's response and the stored list after it. */
  datatype Efecto = Efecto(respuesta: Respuesta, alumnos: seq<Alumno>)

  // ---------------------------------------------------------------- field checks

  /** The first four checks of `crearAlumno` pass: code, first name and last name not blank, an 8-digit DNI. */
  predicate IdentidadCompleta(f: Formulario) {
    !EsBlanco(f.codigoAlumno) && !EsBlanco(f.nombre) && !EsBlanco(f.apellido) && |f.dni| == 8 && TodosDigitos(f.dni)
  }

  /**
    The field checks of `crearAlumno`, in order: code, first name, last name
    (each not blank after `trim`), an 8-digit DNI, the e-mail shape, the
    programme, the cycle and the grade. The first failing one is reported.
  */
  function FalloCrear(f: Formulario): (m: Option<Mensaje>)
    ensures m.None? <==> && !EsBlanco(f.codigoAlumno) && !EsBlanco(f.nombre) && !EsBlanco(f.apellido)
                         && |f.dni| == 8 && TodosDigitos(f.dni) && FormaEmail(f.email)
                         && !EsBlanco(f.carrera) && 1 <= f.ciclo <= 12 && 0.0 <= f.promedio <= 20.0
    ensures m == Some(CodigoObligatorio) <==> EsBlanco(f.codigoAlumno)
    ensures m == Some(NombreObligatorio) <==> !EsBlanco(f.codigoAlumno) && EsBlanco(f.nombre)
    ensures m == Some(ApellidoObligatorio) <==>
              !EsBlanco(f.codigoAlumno) && !EsBlanco(f.nombre) && EsBlanco(f.apellido)
    ensures m == Some(DniInvalido) <==>
              !EsBlanco(f.codigoAlumno) && !EsBlanco(f.nombre) && !EsBlanco(f.apellido)
              && !(|f.dni| == 8 && TodosDigitos(f.dni))
    ensures m == Some(EmailInvalido) <==> IdentidadCompleta(f) && !FormaEmail(f.email)
    ensures m == Some(CarreraObligatoria) <==> IdentidadCompleta(f) && FormaEmail(f.email) && EsBlanco(f.carrera)
    ensures m == Some(CicloInvalido) <==>
              IdentidadCompleta(f) && FormaEmail(f.email) && !EsBlanco(f.carrera) && !(1 <= f.ciclo <= 12)
    ensures m == Some(PromedioInvalido) <==>
              IdentidadCompleta(f) && FormaEmail(f.email) && !EsBlanco(f.carrera) && 1 <= f.ciclo <= 12
              && !(0.0 <= f.promedio <= 20.0)
  {
    if Trim(f.codigoAlumno) == [] then Some(CodigoObligatorio)
    else if Trim(f.nombre) == [] then Some(NombreObligatorio)
    else if Trim(f.apellido) == [] then Some(ApellidoObligatorio)
    else if !CoincideDigitos(f.dni, 8) then Some(DniInvalido)
    else if !ValidarEmail(f.email) then Some(EmailInvalido)
    else if Trim(f.carrera) == [] then Some(CarreraObligatoria)
    else if f.ciclo < 1 || f.ciclo > 12 then Some(CicloInvalido)
    else if f.promedio < 0.0 || f.promedio > 20.0 then Some(PromedioInvalido)
    else None
  }

  /**
    The field checks of `modificarAlumno`: the same order without the code
    and the programme, which it does not check.
  */
  function FalloModificar(f: Formulario): (m: Option<Mensaje>)
    ensures m.None? <==> && !EsBlanco(f.nombre) && !EsBlanco(f.apellido)
                         && |f.dni| == 8 && TodosDigitos(f.dni) && FormaEmail(f.email)
                         && 1 <= f.ciclo <= 12 && 0.0 <= f.promedio <= 20.0
    ensures m != Some(CodigoObligatorio) && m != Some(CarreraObligatoria)
  {
    if Trim(f.nombre) == [] then Some(NombreObligatorio)
    else if Trim(f.apellido) == [] then Some(ApellidoObligatorio)
    else if !CoincideDigitos(f.dni, 8) then Some(DniInvalido)
    else if !ValidarEmail(f.email) then Some(EmailInvalido)
    else if f.ciclo < 1 || f.ciclo > 12 then Some(CicloInvalido)
    else if f.promedio < 0.0 || f.promedio > 20.0 then Some(PromedioInvalido)
    else None
  }

  /**
    The checks of `modificarAlumno` are those of `crearAlumno` with the code
    and the programme checks taken out: they answer as `crearAlumno` would
    for the same fields with a non-blank code and programme.
  */
  lemma ModificarComoCrear(f: Formulario)
    ensures FalloModificar(f) == FalloCrear(f.(codigoAlumno := "X", carrera := "X"))
  {
    assert !EsEspacio('X');
    var x := "X";
    assert x[0] == 'X';
    assert !EsBlanco(x);
  }

  /** `modificarAlumno` never looks at the programme: any value passes its checks alike. */
  lemma ModificarIgnoraCarrera(f: Formulario, carrera: string)
    ensures FalloModificar(f.(carrera := carrera)) == FalloModificar(f)
  {
  }

  // ---------------------------------------------------------------- records built

  /**
    The record `crearAlumno` builds: name, surname, DNI and programme trimmed,
    the code also upper-cased, the e-mail also lower-cased, the other fields
    as given, status "Activo" and no credits.
  */
  function Normalizado(f: Formulario): (a: Alumno)
    ensures a.codigoAlumno == Mayusculas(Trim(f.codigoAlumno))
    ensures a.email == Minusculas(Trim(f.email))
    ensures a.nombre == Trim(f.nombre) && a.apellido == Trim(f.apellido)
    ensures a.dni == Trim(f.dni) && a.carrera == Trim(f.carrera)
    ensures a.fechaNacimiento == f.fechaNacimiento && a.direccion == f.direccion && a.telefono == f.telefono
    ensures a.ciclo == f.ciclo && a.promedio == f.promedio && a.fechaIngreso == f.fechaIngreso
    ensures a.estado == ACTIVO && a.creditosAcumulados == 0
  {
    Alumno(Trim(f.nombre), Trim(f.apellido), Trim(f.dni), f.fechaNacimiento, f.direccion, f.telefono,
           Minusculas(Trim(f.email)), Mayusculas(Trim(f.codigoAlumno)), Trim(f.carrera),
           f.ciclo, f.promedio, ACTIVO, f.fechaIngreso, 0)
  }

  /** The record `modificarAlumno` builds: normalised as on creation, but with the status and credits given. */
  function Reemplazo(f: Formulario, estado: string, creditos: int): (a: Alumno)
    ensures a == Normalizado(f).(estado := estado, creditosAcumulados := creditos)
  {
    Normalizado(f).(estado := estado, creditosAcumulados := creditos)
  }

  // ---------------------------------------------------------------- writes as functions

  /** `crearAlumno`: field checks, then the duplicate code, then the duplicate DNI, then `guardar`. */
  function ResultadoCrear(s: seq<Alumno>, f: Formulario): (e: Efecto)
    ensures e.respuesta.exito <==> FalloCrear(f).None? && !Existe(s, f.codigoAlumno)
                                   && !ExistePorDNI(s, f.dni) && Guardado(s, Normalizado(f)).ok
    ensures FalloCrear(f).Some? ==> e.respuesta == SinDatos(false, FalloCrear(f).value)
    ensures FalloCrear(f).None? && Existe(s, f.codigoAlumno) ==>
              e.respuesta == SinDatos(false, CodigoDuplicado(f.codigoAlumno))
    ensures FalloCrear(f).None? && !Existe(s, f.codigoAlumno) && ExistePorDNI(s, f.dni) ==>
              e.respuesta == SinDatos(false, DniDuplicado(f.dni))
    ensures !e.respuesta.exito ==> e.alumnos == s && e.respuesta.datos == None
    ensures e.respuesta.exito ==> e.alumnos == s + [Normalizado(f)]
                                  && e.respuesta.datos == Some(UnAlumno(Normalizado(f)))
  {
    match FalloCrear(f)
    case Some(m) => Efecto(SinDatos(false, m), s)
    case None =>
      if Existe(s, f.codigoAlumno) then Efecto(SinDatos(false, CodigoDuplicado(f.codigoAlumno)), s)
      else if ExistePorDNI(s, f.dni) then Efecto(SinDatos(false, DniDuplicado(f.dni)), s)
      else
        var a := Normalizado(f);
        var w := Guardado(s, a);
        if w.ok then Efecto(ConDatos(true, AlumnoCreado(NombreCompleto(a)), UnAlumno(a)), w.alumnos)
        else Efecto(SinDatos(false, NoSeGuardo), w.alumnos)
  }

  /** After a successful creation the new record is found under its normalised code and its DNI. */
  lemma CrearSeEncuentra(s: seq<Alumno>, f: Formulario)
    requires ResultadoCrear(s, f).respuesta.exito
    ensures BuscarPorCodigo(ResultadoCrear(s, f).alumnos, Mayusculas(Trim(f.codigoAlumno))) == Some(Normalizado(f))
    ensures BuscarPorDNI(ResultadoCrear(s, f).alumnos, Trim(f.dni)) == Some(Normalizado(f))
  {
    GuardadoSeEncuentra(s, Normalizado(f));
  }

  /** Creation keeps codes and DNIs unique and every record valid. */
  lemma CrearPreservaInvariante(s: seq<Alumno>, f: Formulario)
    requires Invariante(s)
    ensures Invariante(ResultadoCrear(s, f).alumnos)
  {
    GuardadoPreservaInvariante(s, Normalizado(f));
  }

  /** `modificarAlumno`: not-found first, then the field checks, then `actualizar` with the rebuilt record. */
  function ResultadoModificar(s: seq<Alumno>, f: Formulario, estado: string, creditos: int): (e: Efecto)
    ensures !Existe(s, f.codigoAlumno) ==> e.respuesta == SinDatos(false, NoEncontrado(f.codigoAlumno))
    ensures Existe(s, f.codigoAlumno) && FalloModificar(f).Some? ==>
              e.respuesta == SinDatos(false, FalloModificar(f).value)
    ensures e.respuesta.exito <==> Existe(s, f.codigoAlumno) && FalloModificar(f).None?
                                   && Actualizado(s, Reemplazo(f, estado, creditos)).ok
    ensures !e.respuesta.exito ==> e.alumnos == s && e.respuesta.datos == None
    ensures e.respuesta.exito ==>
              && e.alumnos == Actualizado(s, Reemplazo(f, estado, creditos)).alumnos
              && e.respuesta.datos == Some(UnAlumno(Reemplazo(f, estado, creditos)))
  {
    if BuscarPorCodigo(s, f.codigoAlumno).None? then Efecto(SinDatos(false, NoEncontrado(f.codigoAlumno)), s)
    else
      match FalloModificar(f)
      case Some(m) => Efecto(SinDatos(false, m), s)
      case None =>
        var a := Reemplazo(f, estado, creditos);
        var w := Actualizado(s, a);
        if w.ok then Efecto(ConDatos(true, AlumnoActualizado(NombreCompleto(a)), UnAlumno(a)), w.alumnos)
        else Efecto(SinDatos(false, NoSeActualizo), w.alumnos)
  }

  /**
    After a successful modification the record stored under the normalised
    code is the rebuilt one, in the place of the old one; in particular its
    status is exactly the one given, recognised or not.
  */
  lemma ModificarSeEncuentra(s: seq<Alumno>, f: Formulario, estado: string, creditos: int)
    requires Unicos(s) && ResultadoModificar(s, f, estado, creditos).respuesta.exito
    ensures ResultadoModificar(s, f, estado, creditos).alumnos
         == s[IndiceCodigo(s, Mayusculas(Trim(f.codigoAlumno))) := Reemplazo(f, estado, creditos)]
    ensures BuscarPorCodigo(ResultadoModificar(s, f, estado, creditos).alumnos, Mayusculas(Trim(f.codigoAlumno)))
         == Some(Reemplazo(f, estado, creditos))
  {
    ActualizadoSeEncuentra(s, Reemplazo(f, estado, creditos));
  }

  /** Modification keeps codes and DNIs unique and every record valid. */
  lemma ModificarPreservaInvariante(s: seq<Alumno>, f: Formulario, estado: string, creditos: int)
    requires Invariante(s)
    ensures Invariante(ResultadoModificar(s, f, estado, creditos).alumnos)
  {
    ActualizadoPreservaInvariante(s, Reemplazo(f, estado, creditos));
  }

  /** `eliminarAlumno`: a blank code, then an unknown one, is refused; otherwise `eliminar`. */
  function ResultadoEliminar(s: seq<Alumno>, codigo: string): (e: Efecto)
    ensures e.respuesta.exito <==> !EsBlanco(codigo) && Existe(s, codigo)
    ensures EsBlanco(codigo) ==> e.respuesta.mensaje == CodigoRequerido
    ensures !EsBlanco(codigo) && !Existe(s, codigo) ==> e.respuesta.mensaje == NoEncontrado(codigo)
    ensures !e.respuesta.exito ==> e.alumnos == s
    ensures e.respuesta.exito ==>
              && !Existe(e.alumnos, codigo)
              && e.respuesta.mensaje == AlumnoEliminado(NombreCompleto(BuscarPorCodigo(s, codigo).value))
    ensures e.alumnos == if e.respuesta.exito then Eliminado(s, codigo).alumnos else s
    ensures e.respuesta.datos == None
  {
    if Trim(codigo) == [] then Efecto(SinDatos(false, CodigoRequerido), s)
    else
      match BuscarPorCodigo(s, codigo)
      case None => Efecto(SinDatos(false, NoEncontrado(codigo)), s)
      case Some(a) =>
        var w := Eliminado(s, codigo);
        QuitarCodigo(s, codigo);
        if w.ok then Efecto(SinDatos(true, AlumnoEliminado(NombreCompleto(a))), w.alumnos)
        else Efecto(SinDatos(false, NoSeElimino), w.alumnos)
  }

  /** `cambiarEstado`: look the record up, apply the guarded status change, then `actualizar`. */
  function ResultadoCambiarEstado(s: seq<Alumno>, codigo: string, nuevoEstado: string): (e: Efecto)
    ensures !Existe(s, codigo) ==> e == Efecto(SinDatos(false, NoEncontrado(codigo)), s)
    ensures !e.respuesta.exito ==> e.alumnos == s && e.respuesta.datos == None
  {
    match BuscarPorCodigo(s, codigo)
    case None => Efecto(SinDatos(false, NoEncontrado(codigo)), s)
    case Some(a) =>
      var b := TrasCambiarEstado(a, nuevoEstado);
      var w := Actualizado(s, b);
      if w.ok then Efecto(ConDatos(true, EstadoCambiado(a.estado, nuevoEstado, NombreCompleto(b)), UnAlumno(b)), w.alumnos)
      else Efecto(SinDatos(false, NoSeActualizoEstado), w.alumnos)
  }

  /**
    Writing back a stored record whose code and DNI are unchanged and which
    is still valid always succeeds and replaces it in place.
  */
  lemma ReescrituraExito(s: seq<Alumno>, i: nat, b: Alumno)
    requires Unicos(s) && i < |s|
    requires b.codigoAlumno == s[i].codigoAlumno && b.dni == s[i].dni && ValidarDatos(b)
    ensures Actualizado(s, b) == Escritura(s[i := b], true)
  {
    EncontrarPorCodigo(s, i);
    ActualizadoExito(s, b);
    forall j | 0 <= j < |s| && s[j].dni == b.dni ensures j == i {
      assert s[j].dni == s[i].dni;
    }
  }

  /**
    On a store that keeps its invariant, changing the status of a stored
    student always succeeds, even when the new status is not recognised; the
    record is replaced in place by the changed one.
  */
  lemma CambiarEstadoExito(s: seq<Alumno>, codigo: string, nuevoEstado: string)
    requires Invariante(s) && Existe(s, codigo)
    ensures ResultadoCambiarEstado(s, codigo, nuevoEstado).respuesta.exito
    ensures ResultadoCambiarEstado(s, codigo, nuevoEstado).alumnos
         == s[IndiceCodigo(s, codigo) := TrasCambiarEstado(s[IndiceCodigo(s, codigo)], nuevoEstado)]
    ensures ResultadoCambiarEstado(s, codigo, nuevoEstado).respuesta.mensaje
         == EstadoCambiado(s[IndiceCodigo(s, codigo)].estado, nuevoEstado,
                           NombreCompleto(TrasCambiarEstado(s[IndiceCodigo(s, codigo)], nuevoEstado)))
  {
    var i := IndiceCodigo(s, codigo);
    assert BuscarPorCodigo(s, codigo) == Some(s[i]);
    assert ValidarDatos(s[i]);
    var b := TrasCambiarEstado(s[i], nuevoEstado);
    ReescrituraExito(s, i, b);
  }

  /** Writing an element back in its own place changes nothing. */
  lemma MismoEnSuLugar(s: seq<Alumno>, i: nat)
    requires i < |s|
    ensures s[i := s[i]] == s
  {
  }

  /** An unrecognised status leaves the store as it was, yet the answer is a success naming that status. */
  lemma CambiarEstadoNoReconocido(s: seq<Alumno>, codigo: string, nuevoEstado: string)
    requires Invariante(s) && Existe(s, codigo)
    requires forall v | v in EstadosValidos :: !IgualIgnorandoMayusculas(v, nuevoEstado)
    ensures ResultadoCambiarEstado(s, codigo, nuevoEstado).respuesta.exito
    ensures ResultadoCambiarEstado(s, codigo, nuevoEstado).alumnos == s
    ensures ResultadoCambiarEstado(s, codigo, nuevoEstado).respuesta.mensaje
         == EstadoCambiado(s[IndiceCodigo(s, codigo)].estado, nuevoEstado, NombreCompleto(s[IndiceCodigo(s, codigo)]))
  {
    var i := IndiceCodigo(s, codigo);
    CambiarEstadoExito(s, codigo, nuevoEstado);
    assert TrasCambiarEstado(s[i], nuevoEstado) == s[i];
    MismoEnSuLugar(s, i);
  }

  /** `actualizarPromedio`: the range check first, then the lookup, then `actualizar`. */
  function ResultadoActualizarPromedio(s: seq<Alumno>, codigo: string, nuevoPromedio: real): (e: Efecto)
    ensures !(0.0 <= nuevoPromedio <= 20.0) ==> e == Efecto(SinDatos(false, PromedioInvalido), s)
    ensures 0.0 <= nuevoPromedio <= 20.0 && !Existe(s, codigo) ==> e == Efecto(SinDatos(false, NoEncontrado(codigo)), s)
    ensures !e.respuesta.exito ==> e.alumnos == s && e.respuesta.datos == None
  {
    if nuevoPromedio < 0.0 || nuevoPromedio > 20.0 then Efecto(SinDatos(false, PromedioInvalido), s)
    else
      match BuscarPorCodigo(s, codigo)
      case None => Efecto(SinDatos(false, NoEncontrado(codigo)), s)
      case Some(a) =>
        var b := TrasActualizarPromedio(a, nuevoPromedio);
        var w := Actualizado(s, b);
        if w.ok then Efecto(ConDatos(true, PromedioActualizado(a.promedio, nuevoPromedio, NombreCompleto(b)), UnAlumno(b)), w.alumnos)
        else Efecto(SinDatos(false, NoSeActualizoPromedio), w.alumnos)
  }

  /**
    On a store that keeps its invariant, a grade update succeeds exactly when
    the grade is in range and the code is stored, and then the stored record
    has the new grade and nothing else changed.
  */
  lemma ActualizarPromedioExito(s: seq<Alumno>, codigo: string, nuevoPromedio: real)
    requires Invariante(s)
    ensures ResultadoActualizarPromedio(s, codigo, nuevoPromedio).respuesta.exito
        <==> 0.0 <= nuevoPromedio <= 20.0 && Existe(s, codigo)
    ensures ResultadoActualizarPromedio(s, codigo, nuevoPromedio).respuesta.exito ==>
              ResultadoActualizarPromedio(s, codigo, nuevoPromedio).alumnos
              == s[IndiceCodigo(s, codigo) := s[IndiceCodigo(s, codigo)].(promedio := nuevoPromedio)]
  {
    if 0.0 <= nuevoPromedio <= 20.0 && Existe(s, codigo) {
      var i := IndiceCodigo(s, codigo);
      var b := TrasActualizarPromedio(s[i], nuevoPromedio);
      ReescrituraExito(s, i, b);
      PromedioReescrito(s, codigo, nuevoPromedio, i);
    } else {
      assert !ResultadoActualizarPromedio(s, codigo, nuevoPromedio).respuesta.exito;
    }
  }

  /** The success case of `actualizarPromedio`, once the write-back is known to succeed in place. */
  lemma PromedioReescrito(s: seq<Alumno>, codigo: string, nuevoPromedio: real, i: nat)
    requires 0.0 <= nuevoPromedio <= 20.0
    requires i == IndiceCodigo(s, codigo) && i < |s|
    requires Actualizado(s, TrasActualizarPromedio(s[i], nuevoPromedio))
          == Escritura(s[i := TrasActualizarPromedio(s[i], nuevoPromedio)], true)
    ensures ResultadoActualizarPromedio(s, codigo, nuevoPromedio).respuesta.exito
    ensures ResultadoActualizarPromedio(s, codigo, nuevoPromedio).alumnos
         == s[i := s[i].(promedio := nuevoPromedio)]
  {
    assert BuscarPorCodigo(s, codigo) == Some(s[i]);
  }

  // ---------------------------------------------------------------- reads as functions

  /** Some record satisfies `p`. */
  predicate Hay(s: seq<Alumno>, p: Alumno -> bool) {
    exists i | 0 <= i < |s| :: p(s[i])
  }

  /** A list that holds exactly the records of `s` satisfying `p` is empty exactly when none does. */
  lemma VacioSiNinguno(s: seq<Alumno>, p: Alumno -> bool, l: seq<Alumno>)
    requires forall x :: x in l <==> x in s && p(x)
    ensures l != [] <==> Hay(s, p)
  {
    if l != [] {
      assert l[0] in l;
    }
    if Hay(s, p) {
      var i :| 0 <= i < |s| && p(s[i]);
      assert s[i] in l;
    }
  }

  /** A non-empty list answers with success and the list; an empty one with the given failure. */
  function ListaOFallo(l: seq<Alumno>, vacio: Mensaje, hallados: Mensaje): (r: Respuesta)
    ensures r.exito <==> l != []
    ensures r.exito ==> r.mensaje == hallados && r.datos == Some(Lista(l))
    ensures !r.exito ==> r.mensaje == vacio && r.datos == None
  {
    if l == [] then SinDatos(false, vacio) else ConDatos(true, hallados, Lista(l))
  }

  /** The counts of `obtenerEstadisticas` (its average is not modelled). */
  datatype Estadisticas = Estadisticas(total: nat, activos: nat, inactivos: nat, egresados: nat, enRiesgo: nat)

  /** Records with status "Activo", "Inactivo" or "Egresado" (ignoring case) are counted once each. */
  lemma ConteosDisjuntos(s: seq<Alumno>)
    ensures ContarPorEstado(s, ACTIVO) + ContarPorEstado(s, INACTIVO) + ContarPorEstado(s, EGRESADO) <= |s|
  {
    var pa, pi, pe := ConEstado(ACTIVO), ConEstado(INACTIVO), ConEstado(EGRESADO);
    var pai := (a: Alumno) => pa(a) || pi(a);
    var paie := (a: Alumno) => pai(a) || pe(a);
    forall x ensures !(pa(x) && pi(x)) && !(pai(x) && pe(x)) {
      DistintosIgnorandoMayusculas(x.estado, 0, 1);
      DistintosIgnorandoMayusculas(x.estado, 0, 2);
      DistintosIgnorandoMayusculas(x.estado, 1, 2);
    }
    FiltrarDisjuntos(s, pa, pi, pai);
    FiltrarDisjuntos(s, pai, pe, paie);
  }

  /** No text equals two different canonical statuses ignoring case. */
  lemma DistintosIgnorandoMayusculas(t: string, i: nat, j: nat)
    requires i < j < |EstadosValidos|
    ensures !(IgualIgnorandoMayusculas(t, EstadosValidos[i]) && IgualIgnorandoMayusculas(t, EstadosValidos[j]))
  {
    if IgualIgnorandoMayusculas(t, EstadosValidos[i]) && IgualIgnorandoMayusculas(t, EstadosValidos[j]) {
      IgualIgnorandoMinusculas(t, EstadosValidos[i]);
      IgualIgnorandoMinusculas(t, EstadosValidos[j]);
      IgualIgnorandoMinusculas(EstadosValidos[i], EstadosValidos[j]);
      EstadosDistintosIgnorandoMayusculas(i, j);
    }
  }

  // ---------------------------------------------------------------- the controller object

  class AlumnoController {
    const repositorio: AlumnoRepositoryMemoria

    /** The constructor with an injected repository. */
    constructor (repositorio: AlumnoRepositoryMemoria)
      ensures this.repositorio == repositorio
    {
      this.repositorio := repositorio;
    }

    method CrearAlumno(f: Formulario) returns (r: Respuesta)
      requires repositorio.Valid()
      modifies repositorio
      ensures repositorio.Valid()
      ensures r == ResultadoCrear(old(repositorio.alumnos), f).respuesta
      ensures repositorio.alumnos == ResultadoCrear(old(repositorio.alumnos), f).alumnos
    {
      var m := FalloCrear(f);
      if m.Some? {
        return SinDatos(false, m.value);
      }
      if Existe(repositorio.alumnos, f.codigoAlumno) {
        return SinDatos(false, CodigoDuplicado(f.codigoAlumno));
      }
      if ExistePorDNI(repositorio.alumnos, f.dni) {
        return SinDatos(false, DniDuplicado(f.dni));
      }
      var nuevo := Normalizado(f);
      var ok := repositorio.Guardar(nuevo);
      if ok {
        r := ConDatos(true, AlumnoCreado(NombreCompleto(nuevo)), UnAlumno(nuevo));
      } else {
        r := SinDatos(false, NoSeGuardo);
      }
    }

    method ModificarAlumno(f: Formulario, estado: string, creditosAcumulados: int) returns (r: Respuesta)
      requires repositorio.Valid()
      modifies repositorio
      ensures repositorio.Valid()
      ensures r == ResultadoModificar(old(repositorio.alumnos), f, estado, creditosAcumulados).respuesta
      ensures repositorio.alumnos == ResultadoModificar(old(repositorio.alumnos), f, estado, creditosAcumulados).alumnos
    {
      if Repositorio.BuscarPorCodigo(repositorio.alumnos, f.codigoAlumno).None? {
        return SinDatos(false, NoEncontrado(f.codigoAlumno));
      }
      var m := FalloModificar(f);
      if m.Some? {
        return SinDatos(false, m.value);
      }
      var actualizado := Reemplazo(f, estado, creditosAcumulados);
      var ok := repositorio.Actualizar(actualizado);
      if ok {
        r := ConDatos(true, AlumnoActualizado(NombreCompleto(actualizado)), UnAlumno(actualizado));
      } else {
        r := SinDatos(false, NoSeActualizo);
      }
    }

    method EliminarAlumno(codigo: string) returns (r: Respuesta)
      requires repositorio.Valid()
      modifies repositorio
      ensures repositorio.Valid()
      ensures r == ResultadoEliminar(old(repositorio.alumnos), codigo).respuesta
      ensures repositorio.alumnos == ResultadoEliminar(old(repositorio.alumnos), codigo).alumnos
    {
      if Trim(codigo) == [] {
        return SinDatos(false, CodigoRequerido);
      }
      var encontrado := Repositorio.BuscarPorCodigo(repositorio.alumnos, codigo);
      if encontrado.None? {
        return SinDatos(false, NoEncontrado(codigo));
      }
      var nombreCompleto := NombreCompleto(encontrado.value);
      var ok := repositorio.Eliminar(codigo);
      if ok {
        r := SinDatos(true, AlumnoEliminado(nombreCompleto));
      } else {
        r := SinDatos(false, NoSeElimino);
      }
    }

    method CambiarEstado(codigo: string, nuevoEstado: string) returns (r: Respuesta)
      requires repositorio.Valid()
      modifies repositorio
      ensures repositorio.Valid()
      ensures r == ResultadoCambiarEstado(old(repositorio.alumnos), codigo, nuevoEstado).respuesta
      ensures repositorio.alumnos == ResultadoCambiarEstado(old(repositorio.alumnos), codigo, nuevoEstado).alumnos
    {
      var encontrado := Repositorio.BuscarPorCodigo(repositorio.alumnos, codigo);
      if encontrado.None? {
        return SinDatos(false, NoEncontrado(codigo));
      }
      var alumno := encontrado.value;
      var estadoAnterior := alumno.estado;
      alumno := TrasCambiarEstado(alumno, nuevoEstado);
      var ok := repositorio.Actualizar(alumno);
      if ok {
        r := ConDatos(true, EstadoCambiado(estadoAnterior, nuevoEstado, NombreCompleto(alumno)), UnAlumno(alumno));
      } else {
        r := SinDatos(false, NoSeActualizoEstado);
      }
    }

    method ActualizarPromedio(codigo: string, nuevoPromedio: real) returns (r: Respuesta)
      requires repositorio.Valid()
      modifies repositorio
      ensures repositorio.Valid()
      ensures r == ResultadoActualizarPromedio(old(repositorio.alumnos), codigo, nuevoPromedio).respuesta
      ensures repositorio.alumnos == ResultadoActualizarPromedio(old(repositorio.alumnos), codigo, nuevoPromedio).alumnos
    {
      if nuevoPromedio < 0.0 || nuevoPromedio > 20.0 {
        return SinDatos(false, PromedioInvalido);
      }
      var encontrado := Repositorio.BuscarPorCodigo(repositorio.alumnos, codigo);
      if encontrado.None? {
        return SinDatos(false, NoEncontrado(codigo));
      }
      var alumno := encontrado.value;
      var promedioAnterior := alumno.promedio;
      alumno := TrasActualizarPromedio(alumno, nuevoPromedio);
      var ok := repositorio.Actualizar(alumno);
      if ok {
        r := ConDatos(true, PromedioActualizado(promedioAnterior, nuevoPromedio, NombreCompleto(alumno)), UnAlumno(alumno));
      } else {
        r := SinDatos(false, NoSeActualizoPromedio);
      }
    }

    /** `buscarPorCodigo`: a blank code is refused; otherwise the stored record, if any. */
    function BuscarPorCodigo(codigo: string): (r: Respuesta)
      reads repositorio
      ensures r.exito <==> !EsBlanco(codigo) && Existe(repositorio.alumnos, codigo)
      ensures r.exito ==> r.datos.Some? && r.datos.value.UnAlumno? && r.datos.value.alumno.codigoAlumno == codigo
                          && r.datos.value.alumno in repositorio.alumnos
      ensures !r.exito ==> r.datos == None
    {
      if Trim(codigo) == [] then SinDatos(false, FaltaCodigo)
      else
        match Repositorio.BuscarPorCodigo(repositorio.alumnos, codigo)
        case Some(a) => ConDatos(true, Encontrado, UnAlumno(a))
        case None => SinDatos(false, NoEncontrado(codigo))
    }

    /** `buscarPorNombre`: a blank term is refused, and so is a search that finds nobody. */
    function BuscarPorNombre(termino: string): (r: Respuesta)
      reads repositorio
      ensures r.exito <==> !EsBlanco(termino) && Hay(repositorio.alumnos, (a: Alumno) => CoincideTermino(a, Minusculas(termino)))
      ensures r.exito ==> r.datos == Some(Lista(Repositorio.BuscarPorNombre(repositorio.alumnos, termino)))
      ensures !r.exito ==> r.datos == None
    {
      if Trim(termino) == [] then SinDatos(false, FaltaTermino)
      else
        var l := Repositorio.BuscarPorNombre(repositorio.alumnos, termino);
        VacioSiNinguno(repositorio.alumnos, (a: Alumno) => CoincideTermino(a, Minusculas(termino)), l);
        ListaOFallo(l, SinCoincidencias(termino), Encontrados(|l|))
    }

    /** `buscarPorDNI`: a blank DNI is refused; otherwise the stored record, if any. */
    function BuscarPorDNI(dni: string): (r: Respuesta)
      reads repositorio
      ensures r.exito <==> !EsBlanco(dni) && ExistePorDNI(repositorio.alumnos, dni)
      ensures r.exito ==> r.datos.Some? && r.datos.value.UnAlumno? && r.datos.value.alumno.dni == dni
      ensures !r.exito ==> r.datos == None
    {
      if Trim(dni) == [] then SinDatos(false, FaltaDni)
      else
        match Repositorio.BuscarPorDNI(repositorio.alumnos, dni)
        case Some(a) => ConDatos(true, Encontrado, UnAlumno(a))
        case None => SinDatos(false, DniNoEncontrado(dni))
    }

    /** `obtenerTodos`: an empty store is reported as a failure. */
    function ObtenerTodos(): (r: Respuesta)
      reads repositorio
      ensures r.exito <==> |repositorio.alumnos| > 0
      ensures r.exito ==> r.datos == Some(Lista(repositorio.alumnos)) && r.mensaje == TotalAlumnos(|repositorio.alumnos|)
    {
      ListaOFallo(repositorio.alumnos, SinAlumnos, TotalAlumnos(|repositorio.alumnos|))
    }

    /** `buscarPorCarrera`: no records in that programme is reported as a failure. */
    function BuscarPorCarrera(carrera: string): (r: Respuesta)
      reads repositorio
      ensures r.exito <==> Hay(repositorio.alumnos, (a: Alumno) => IgualIgnorandoMayusculas(a.carrera, carrera))
      ensures r.exito ==> r.datos == Some(Lista(Repositorio.BuscarPorCarrera(repositorio.alumnos, carrera)))
    {
      var l := Repositorio.BuscarPorCarrera(repositorio.alumnos, carrera);
      VacioSiNinguno(repositorio.alumnos, (a: Alumno) => IgualIgnorandoMayusculas(a.carrera, carrera), l);
      ListaOFallo(l, SinAlumnosEnCarrera(carrera), EnCarrera(|l|, carrera))
    }

    /** `buscarPorEstado`: no records with that status is reported as a failure. */
    function BuscarPorEstado(estado: string): (r: Respuesta)
      reads repositorio
      ensures r.exito <==> Hay(repositorio.alumnos, (a: Alumno) => IgualIgnorandoMayusculas(a.estado, estado))
      ensures r.exito ==> r.datos == Some(Lista(Repositorio.BuscarPorEstado(repositorio.alumnos, estado)))
    {
      var l := Repositorio.BuscarPorEstado(repositorio.alumnos, estado);
      VacioSiNinguno(repositorio.alumnos, (a: Alumno) => IgualIgnorandoMayusculas(a.estado, estado), l);
      ListaOFallo(l, SinAlumnosConEstado(estado), ConEstadoMinusculas(|l|, Minusculas(estado)))
    }

    /** `obtenerAlumnosEnRiesgo`: always a success; an empty result carries no payload. */
    function ObtenerAlumnosEnRiesgo(): (r: Respuesta)
      reads repositorio
      ensures r.exito
      ensures r.datos.None? <==> !Hay(repositorio.alumnos, EnRiesgoAcademico)
      ensures r.datos.Some? ==> r.datos == Some(Lista(ObtenerEnRiesgoAcademico(repositorio.alumnos)))
    {
      var l := ObtenerEnRiesgoAcademico(repositorio.alumnos);
      VacioSiNinguno(repositorio.alumnos, EnRiesgoAcademico, l);
      if l == [] then SinDatos(true, NadieEnRiesgo)
      else ConDatos(true, EnRiesgo(|l|), Lista(l))
    }

    /**
      The counts of `obtenerEstadisticas`. The three statuses are different
      even ignoring case, so no record is counted twice, and everyone at risk
      is active.
    */
    function ObtenerEstadisticas(): (e: Estadisticas)
      reads repositorio
      ensures e.total == |repositorio.alumnos|
      ensures e.activos == ContarPorEstado(repositorio.alumnos, ACTIVO)
      ensures e.inactivos == ContarPorEstado(repositorio.alumnos, INACTIVO)
      ensures e.egresados == ContarPorEstado(repositorio.alumnos, EGRESADO)
      ensures e.enRiesgo == |ObtenerEnRiesgoAcademico(repositorio.alumnos)|
      ensures e.activos + e.inactivos + e.egresados <= e.total
      ensures e.enRiesgo <= e.activos
    {
      var s := repositorio.alumnos;
      ConteosDisjuntos(s);
      Estadisticas(|s|, ContarPorEstado(s, ACTIVO), ContarPorEstado(s, INACTIVO),
                   ContarPorEstado(s, EGRESADO), |ObtenerEnRiesgoAcademico(s)|)
    }
  }
}
