# Student-record engine, modelled in Dafny

This project models the core of a student-records system (`src/` of a Java
application). It covers:

- the validated student entity (`Persona` → `Alumno`);
- an in-memory store that keeps student codes and DNIs (national identity
  numbers) unique;
- the controller that gates every write and wraps every outcome in a
  `RespuestaOperacion` envelope;
- the business rules of `AlumnoService`.

Modules, one per concern of the source:

| module | file | models |
|---|---|---|
| `Wrappers` | wrappers.dfy | `Option` (null / `Optional`) |
| `Texto` | texto.dfy | Java `trim`, ASCII case folding, `\d{n}`, `contains`/`startsWith`, `compareTo` on strings, decimal digits and zero padding |
| `Persona` | persona.dfy | the DNI, phone and e-mail validators |
| `Alumnos` | alumno.dfy | the record, `validarDatos`, the threshold predicates, the academic level; the four guarded mutators as methods of the class `AlumnoObjeto` |
| `Secuencias` | secuencias.dfy | the stream stages `filter`, `limit`, `anyMatch`, and their algebra |
| `Orden` | orden.dfy | the comparators and the stable sort of `sorted(...)` |
| `Repositorio` | repositorio.dfy | `IAlumnoRepository`'s contract as functions on the stored list, and the class `AlumnoRepositoryMemoria` proved against them |
| `Respuestas` | respuesta.dfy | `RespuestaOperacion` |
| `Validacion` | validacion.dfy | `ValidationResult` |
| `Filtros` | filtro.dfy | `FiltroReporte` |
| `Servicio` | servicio.dfy | `AlumnoService` |
| `Controlador` | controlador.dfy | `AlumnoController` |

Each write is specified twice, once per concern:

- A function on values returns the response together with the list afterwards:
  - `Repositorio.Guardado`, `Actualizado` and `Eliminado`;
  - `Controlador.ResultadoCrear`, `ResultadoModificar` and the other `Resultado*` functions.
- The lemmas state what the source promises about those functions:
  - the uniqueness invariant is preserved;
  - a stored record is found again;
  - the conditions under which the write succeeds.
- The class methods change fields in place. Their `ensures` tie the new
  state to those functions of the old state:
  - `AlumnoRepositoryMemoria.Guardar`, `Actualizar`, `Eliminar`, `Limpiar`;
  - `AlumnoController.CrearAlumno` and the other write methods;
  - `AlumnoObjeto.AvanzarCiclo` and the other mutators;
  - `ValidationResult.AgregarError`;
  - the setters of `FiltroReporte`.

Where the code is a loop, the model keeps the loop:

- the `removeIf` pass of `eliminar`;
- the index scan of `actualizar`;
- the loop of `cambiarEstado` over the canonical statuses.

Where the code builds a value step by step without a loop, the model is a
method with the same steps:

- the three `if`s with which `evaluarGraduacion` appends its reasons;
- the eight checks with which `validarIntegridadDatos` records its errors.

Messages are modelled as tags (`Controlador.Mensaje`, `Servicio.MensajeMatricula`,
`Servicio.MensajeGraduacion`) that carry the values the text quotes.

## Model

| member | source | states |
|---|---|---|
| Texto.CoincideDigitos | src/modelo/Persona.java:114 | `matches("\\d{n}")`: true iff exactly n characters, all ASCII digits |
| Texto.Trim | src/modelo/Alumno.java:112-118 | `trim`: a slice that neither starts nor ends with a character at or below U+0020, empty iff the input is blank |
| Texto.TrimIdempotente | src/controlador/AlumnoController.java:84-86 | trimming twice is trimming once |
| Texto.Minusculas | src/repositorio/AlumnoRepositoryMemoria.java:132-136 | `toLowerCase`: same length, each ASCII capital lowered, every other character kept |
| Texto.Mayusculas | src/controlador/AlumnoController.java:86 | `toUpperCase`: same length, each ASCII small letter raised, every other character kept |
| Texto.IgualIgnorandoMinusculas | src/repositorio/AlumnoRepositoryMemoria.java:152 | `equalsIgnoreCase` holds iff the lower-case forms are equal |
| Texto.LexReflexivo | src/repositorio/AlumnoRepositoryMemoria.java:137-138 | `compareTo`'s order relates every string to itself |
| Texto.LexTotal | src/repositorio/AlumnoRepositoryMemoria.java:137-138 | `compareTo`'s order relates any two strings one way or the other |
| Texto.LexAntisimetrico | src/repositorio/AlumnoRepositoryMemoria.java:137-138 | strings ordered both ways are equal |
| Texto.LexTransitivo | src/repositorio/AlumnoRepositoryMemoria.java:137-138 | `compareTo`'s order is transitive |
| Texto.ValorDeDigitos | src/servicio/AlumnoService.java:57 | reading back the decimal rendering of n gives n |
| Texto.RellenoCeros | src/servicio/AlumnoService.java:57 | `%03d`-style padding: length is the width or the digit count, whichever is larger; the number's own digits end the string, every position before them is `0`; the whole denotes the number |
| Texto.Decimal | src/servicio/AlumnoService.java:52 | `String.valueOf(int)`: for a non-negative number, its digits without a leading zero (unless it is 0); for a negative one, `-` followed by the digits of its absolute value, without a leading zero |
| Orden.InsertarOrdenado | src/repositorio/AlumnoRepositoryMemoria.java:153 | inserting one student into a sorted list keeps it sorted |
| Secuencias.Alguno | src/repositorio/AlumnoRepositoryMemoria.java:194-197 | `anyMatch`: true iff some element satisfies the predicate |
| Repositorio.IndiceCodigo | src/repositorio/AlumnoRepositoryMemoria.java:97-108 | the index of the first record with the code, or the size when there is none |
| Repositorio.IndiceDNI | src/repositorio/AlumnoRepositoryMemoria.java:143-147 | the index of the first record with the DNI, or the size when there is none; no earlier record has it |
| Repositorio.EncontrarPorDNI | src/repositorio/IAlumnoRepository.java:59-64 | with unique DNIs, every stored record is found under its own DNI |
| Repositorio.DatosIniciales | src/repositorio/AlumnoRepositoryMemoria.java:34-70 | the seed list holds six records |
| Validacion.MensajeErrores | src/servicio/ValidationResult.java:24-29 | "Sin errores" for no errors, the single error alone, otherwise the earlier message, a line break and the last error |
| Servicio.Verificar | src/servicio/AlumnoService.java:276-305 | one `if (...) agregarError(...)` step: the errors afterwards are `Anotar` of the errors before |
| Controlador.ModificarIgnoraCarrera | src/controlador/AlumnoController.java:121-139 | the programme given to `modificarAlumno` never changes the outcome of its checks |
| Controlador.AlumnoController.constructor | src/controlador/AlumnoController.java:18-20 | the injected repository is the one the controller uses |
| Persona.ValidarDNI | src/modelo/Persona.java:112-115 | true iff the string has exactly 8 characters, all ASCII digits; the empty string fails |
| Persona.ValidarTelefono | src/modelo/Persona.java:118-121 | true iff exactly 9 ASCII digits |
| Persona.ValidarEmail | src/modelo/Persona.java:105-109 | true iff the address splits into a non-empty local part of `[A-Za-z0-9+_.-]`, `@`, and at least one character that is not a line terminator; empty gives false |
| Persona.PosArroba | src/modelo/Persona.java:105-109 | index of the first `@`: no `@` before it, an `@` at it when it is in range |
| Persona.EmailRechazado | src/modelo/Persona.java:105-109 | an address with no `@`, starting with `@`, or whose first `@` is its last character is rejected |
| Persona.EmailConArrobaFinal | src/modelo/Persona.java:107-108 | "a@b@" is accepted: the domain part `.+` may itself contain `@` |
| Persona.EmailEspacios | src/modelo/Persona.java:107-108 | a space in the local part is rejected, one in the domain part is accepted |
| Alumnos.NombreCompleto | src/modelo/Alumno.java:105-107 | the first name, one space and the last name, in that order |
| Alumnos.ValidarDatos | src/modelo/Alumno.java:111-123 | acceptance implies cycle in 1..12 and grade in 0..20 |
| Alumnos.ValidarDatosSii | src/modelo/Alumno.java:111-123 | valid iff names, code and programme are not blank after trim, the DNI is 8 digits, the e-mail has the accepted form, 1 <= cycle <= 12 and 0 <= grade <= 20; status and credits are not consulted |
| Alumnos.EnRiesgoAcademico | src/modelo/Alumno.java:126-128 | at risk iff grade < 11 and status is exactly "Activo"; a student at risk can neither advance nor graduate |
| Alumnos.PuedeAvanzarCiclo | src/modelo/Alumno.java:131-133 | true iff the grade is at least 13.0, the status is exactly "Activo" and the cycle is below 12; then the next cycle is at most 12 |
| Alumnos.PuedeGraduarse | src/modelo/Alumno.java:168-170 | true iff the credits reach the requirement and the grade is at least 11.0; the status plays no part |
| Alumnos.NivelAcademico | src/modelo/Alumno.java:173-178 | each of the four levels holds exactly on its cycle range, so the level is total |
| Alumnos.NivelMonotono | src/modelo/Alumno.java:173-178 | a higher cycle never gives a lower level |
| Alumnos.TrasAvanzarCiclo | src/modelo/Alumno.java:131-140 | cycle + 1 exactly when grade >= 13, status "Activo" and cycle < 12; nothing else changes; never above 12; validity kept |
| Alumnos.TrasActualizarPromedio | src/modelo/Alumno.java:143-147 | grade becomes p iff 0 <= p <= 20, else unchanged; no other field changes; validity kept |
| Alumnos.BuscarEstado | src/modelo/Alumno.java:150-158 | finds a canonical status equal to the argument ignoring case, exactly when there is one |
| Alumnos.TrasCambiarEstado | src/modelo/Alumno.java:150-158 | a status that matches a canonical one ignoring case is replaced by the canonical spelling; otherwise the record is unchanged; only the status changes |
| Alumnos.EstadosDistintosIgnorandoMayusculas | src/modelo/Alumno.java:151 | the four canonical statuses are pairwise different even ignoring case |
| Alumnos.CambiarEstadoIdempotente | src/modelo/Alumno.java:150-158 | changing to the same status twice is the same as once |
| Alumnos.TrasAgregarCreditos | src/modelo/Alumno.java:161-165 | credits grow by n iff n > 0, else unchanged; they never decrease; validity kept |
| Alumnos.TrasAgregarCreditosInt32 | src/modelo/Alumno.java:161-165 | with Java's 32-bit `int`, the result stays in range and agrees with the unbounded model whenever the sum fits |
| Alumnos.AgregarCreditosDesborda | src/modelo/Alumno.java:163 | at `Integer.MAX_VALUE`, adding one credit wraps to `Integer.MIN_VALUE`, so credits decrease |
| Alumnos.AlumnoObjeto.constructor | src/modelo/Alumno.java:32-44 | the full constructor stores all fourteen arguments unchanged (the seven of `Persona` included), with no trim and no validation |
| Alumnos.AlumnoObjeto.AvanzarCiclo | src/modelo/Alumno.java:136-140 | the object's new state is `TrasAvanzarCiclo` of its old state |
| Alumnos.AlumnoObjeto.ActualizarPromedio | src/modelo/Alumno.java:143-147 | the new state is `TrasActualizarPromedio` of the old |
| Alumnos.AlumnoObjeto.CambiarEstado | src/modelo/Alumno.java:150-158 | the loop over the canonical statuses yields `TrasCambiarEstado` of the old state |
| Alumnos.AlumnoObjeto.AgregarCreditos | src/modelo/Alumno.java:161-165 | the new state is `TrasAgregarCreditos` of the old; credits never decrease |
| Secuencias.Filtrar | src/repositorio/AlumnoRepositoryMemoria.java:150-155 | `filter`: every element kept satisfies the predicate and comes from the input; every input element satisfying it is kept; a sub-multiset |
| Secuencias.FiltrarDosVeces | src/servicio/AlumnoService.java:191-213 | two successive filters equal one filter by their conjunction |
| Secuencias.FiltrarDisjuntos | src/controlador/AlumnoController.java:357-362 | filters by two exclusive predicates count together what their disjunction counts |
| Secuencias.Tomar | src/repositorio/AlumnoRepositoryMemoria.java:224 | `limit(k)`: a prefix of length min(k, n) |
| Secuencias.Primero | src/repositorio/AlumnoRepositoryMemoria.java:120-122 | `findFirst`: no earlier element satisfies the predicate, the one found does, and it is found exactly when one exists |
| Orden.AntesTotal | src/repositorio/AlumnoRepositoryMemoria.java:137-138 | every comparator relates any two students one way or the other |
| Orden.AntesTransitivo | src/repositorio/AlumnoRepositoryMemoria.java:137-138 | every comparator is transitive |
| Orden.Ordenar | src/repositorio/AlumnoRepositoryMemoria.java:153 | `sorted`: the result is a permutation of the input |
| Orden.OrdenarOrdenado | src/repositorio/AlumnoRepositoryMemoria.java:153 | the sorted result is ordered by the comparator |
| Orden.OrdenarEstable | src/repositorio/AlumnoRepositoryMemoria.java:153 | stability: students the comparator ties keep their input order |
| Repositorio.Existe | src/repositorio/AlumnoRepositoryMemoria.java:194-197 | true iff some stored record has exactly that code |
| Repositorio.ExistePorDNI | src/repositorio/AlumnoRepositoryMemoria.java:200-203 | true iff some stored record has exactly that DNI |
| Repositorio.BuscarPorCodigo | src/repositorio/AlumnoRepositoryMemoria.java:119-123 | present iff `existe`; then the first record with that code |
| Repositorio.BuscarPorDNI | src/repositorio/AlumnoRepositoryMemoria.java:143-147 | present iff `existePorDNI`; then the first record with that DNI |
| Repositorio.EncontrarPorCodigo | src/repositorio/IAlumnoRepository.java:37-42 | with unique codes, every stored record is found under its own code |
| Repositorio.Guardado | src/repositorio/AlumnoRepositoryMemoria.java:73-89 | succeeds iff the record is valid and neither its code nor its DNI is stored; then it is appended at the end, otherwise the list is unchanged |
| Repositorio.GuardadoPreservaInvariante | src/repositorio/AlumnoRepositoryMemoria.java:73-89 | `guardar` keeps codes and DNIs pairwise distinct and every record valid |
| Repositorio.GuardadoSeEncuentra | src/repositorio/IAlumnoRepository.java:16-21 | after a successful `guardar`, the record is found by its code and by its DNI, and the size grew by one |
| Repositorio.Actualizado | src/repositorio/AlumnoRepositoryMemoria.java:92-111 | on success the first record with the code is replaced at its index; in every other case the list is unchanged |
| Repositorio.ActualizadoExito | src/repositorio/IAlumnoRepository.java:23-28 | under unique keys, `actualizar` succeeds iff the record is valid, its code is stored, and no record with another code holds its DNI |
| Repositorio.ActualizadoPreservaInvariante | src/repositorio/AlumnoRepositoryMemoria.java:92-111 | `actualizar` keeps the uniqueness invariant and validity |
| Repositorio.ActualizadoSeEncuentra | src/repositorio/IAlumnoRepository.java:23-28 | after a successful `actualizar`, looking the code up yields the new record |
| Repositorio.Eliminado | src/repositorio/AlumnoRepositoryMemoria.java:114-116 | `removeIf`: the list afterwards is the old list without the records carrying the code, the others in their original order; true iff the code was stored |
| Repositorio.QuitarCodigo | src/repositorio/IAlumnoRepository.java:30-35 | `eliminar` removes something iff the code was stored; otherwise the list is unchanged |
| Repositorio.FiltrarPreservaUnicos | src/repositorio/AlumnoRepositoryMemoria.java:114-116 | removing records keeps codes and DNIs unique |
| Repositorio.EliminadoPreservaInvariante | src/repositorio/AlumnoRepositoryMemoria.java:114-116 | `eliminar` keeps the invariant, and the code is gone afterwards |
| Repositorio.QuitarSi | src/repositorio/AlumnoRepositoryMemoria.java:115 | the removal pass yields exactly the surviving list and flag of `Eliminado` |
| Repositorio.Posicion | src/repositorio/AlumnoRepositoryMemoria.java:97-108 | the index scan stops at the first record with the code, or at the end |
| Repositorio.Consulta | src/repositorio/AlumnoRepositoryMemoria.java:150-155 | filter-then-sort: ordered, a permutation of the filtered records, and membership iff in the list and passing the filter |
| Repositorio.BuscarPorNombre | src/repositorio/AlumnoRepositoryMemoria.java:131-140 | exactly the records whose lower-cased first name, last name or full name contains the lower-cased term, each as often as stored (same multiset as the filter), sorted by last name then first name |
| Repositorio.BuscarPorCarrera | src/repositorio/AlumnoRepositoryMemoria.java:150-155 | exactly the records whose programme equals the argument ignoring case, each as often as stored, sorted by last name |
| Repositorio.BuscarPorEstado | src/repositorio/AlumnoRepositoryMemoria.java:158-163 | exactly the records whose status equals the argument ignoring case, each as often as stored, sorted by last name |
| Repositorio.BuscarPorCiclo | src/repositorio/AlumnoRepositoryMemoria.java:166-171 | exactly the records with that cycle, each as often as stored, sorted by last name |
| Repositorio.ContarPorEstado | src/repositorio/AlumnoRepositoryMemoria.java:179-183 | equals the size of `buscarPorEstado` for the same status, and is at most the total |
| Repositorio.ObtenerEnRiesgoAcademico | src/repositorio/AlumnoRepositoryMemoria.java:186-191 | exactly the records at academic risk, each as often as stored, in ascending grade; at most the number of active records |
| Repositorio.ObtenerMejoresPromedios | src/repositorio/AlumnoRepositoryMemoria.java:220-226 | min(k, #active) active records, none repeated beyond its stored multiplicity, in descending grade, none ranked below an omitted active record |
| Repositorio.MejoresDeOrden | src/repositorio/AlumnoRepositoryMemoria.java:220-226 | cutting the descending sort of the "Activo" records after k places is a best-k selection |
| Repositorio.MejoresPorPromedio | src/repositorio/AlumnoRepositoryMemoria.java:220-226 | the first k of a descending sort are ordered and outrank every element of the input they leave out |
| Repositorio.DatosInicialesUnicos | src/repositorio/AlumnoRepositoryMemoria.java:34-70 | the six seed records have pairwise distinct codes and DNIs |
| Repositorio.DatosInicialesValidos | src/repositorio/AlumnoRepositoryMemoria.java:34-70 | every seed record passes `validarDatos` |
| Repositorio.AlumnoRepositoryMemoria.constructor | src/repositorio/AlumnoRepositoryMemoria.java:20-23 | a fresh store holds the seed records and satisfies the invariant |
| Repositorio.AlumnoRepositoryMemoria.Guardar | src/repositorio/AlumnoRepositoryMemoria.java:73-89 | flag and new list are those of `Guardado` on the old list; the invariant is kept |
| Repositorio.AlumnoRepositoryMemoria.Actualizar | src/repositorio/AlumnoRepositoryMemoria.java:92-111 | flag and new list are those of `Actualizado` on the old list; the invariant is kept |
| Repositorio.AlumnoRepositoryMemoria.Eliminar | src/repositorio/AlumnoRepositoryMemoria.java:114-116 | flag and new list are those of `Eliminado` on the old list; the invariant is kept |
| Repositorio.AlumnoRepositoryMemoria.Limpiar | src/repositorio/AlumnoRepositoryMemoria.java:206-208 | no records remain |
| Repositorio.AlumnoRepositoryMemoria.ObtenerTodos | src/repositorio/AlumnoRepositoryMemoria.java:126-128 | a copy with the same records in the same order |
| Repositorio.AlumnoRepositoryMemoria.ContarTotal | src/repositorio/IAlumnoRepository.java:89-93 | the number of stored records |
| Respuestas.SinDatos | src/modelo/RespuestaOperacion.java:8-12 | the two-argument constructor keeps flag and message and leaves no payload |
| Respuestas.ConDatos | src/modelo/RespuestaOperacion.java:14-18 | the three-argument constructor keeps flag, message and payload |
| Respuestas.DatosComoTipo | src/modelo/RespuestaOperacion.java:33-38 | the payload when there is one and it has the requested type, otherwise none |
| Respuestas.DatosComoObjeto | src/modelo/RespuestaOperacion.java:33-38 | asking for `Object` returns the payload as it is |
| Respuestas.TextoRespuesta | src/modelo/RespuestaOperacion.java:41-43 | "✓ " followed by the message on success, "✗ " followed by it on failure |
| Respuestas.TextoRespuestaInyectivo | src/modelo/RespuestaOperacion.java:41-43 | the text determines the flag and the message |
| Validacion.MensajeTrasAgregar | src/servicio/ValidationResult.java:24-29 | one more error extends the joined message by a line break and that error |
| Validacion.ValidationResult.constructor | src/servicio/ValidationResult.java:8-10 | a new result has no errors and is valid |
| Validacion.ValidationResult.AgregarError | src/servicio/ValidationResult.java:12-14 | the error is appended at the end, earlier errors are unchanged, the result is no longer valid |
| Validacion.ValidationResult.EsValido | src/servicio/ValidationResult.java:16-18 | valid iff no error has been recorded |
| Validacion.ValidationResult.GetErrores | src/servicio/ValidationResult.java:20-22 | a copy with the same errors in the same order; empty iff valid |
| Validacion.ValidationResult.GetMensajeErrores | src/servicio/ValidationResult.java:24-29 | "Sin errores" when valid, else the errors joined by line breaks |
| Validacion.ValidationResult.Descripcion | src/servicio/ValidationResult.java:31-37 | starts with "✓" iff valid; otherwise a header line followed by the joined errors |
| Filtros.FiltroReporte.constructor | src/servicio/FiltroReporte.java:12-15 | programme and status unset, minimum cycle 0, minimum grade 0.0 |
| Filtros.FiltroReporte.SetCarrera | src/servicio/FiltroReporte.java:19 | sets the programme and no other field |
| Filtros.FiltroReporte.SetEstado | src/servicio/FiltroReporte.java:22 | sets the status and no other field |
| Filtros.FiltroReporte.SetCicloMinimo | src/servicio/FiltroReporte.java:25 | sets the minimum cycle and no other field |
| Filtros.FiltroReporte.SetPromedioMinimo | src/servicio/FiltroReporte.java:28-30 | sets the minimum grade and no other field |
| Servicio.ValidarFormatoCodigoAlumno | src/servicio/AlumnoService.java:36-41 | true iff exactly 7 ASCII digits |
| Servicio.GenerarCodigoAlumno | src/servicio/AlumnoService.java:46-58 | the year's digits, then (count of stored codes with that prefix + 1) zero-padded to three digits: exactly max(3, its digit count) digits after the year, denoting that number |
| Servicio.CuentaPrefijo | src/servicio/AlumnoService.java:50-53 | at most the number of records; zero iff no stored code starts with the year's digits |
| Servicio.GenerarCodigoConFormato | src/servicio/AlumnoService.java:46-58 | for a four-digit year and fewer than 999 codes with its prefix, the code has the format `validarFormatoCodigoAlumno` accepts |
| Servicio.CodigoGeneradoRepetido | src/servicio/AlumnoService.java:50-57 | a store holding only "2024002" gets "2024002" again for 2024: the generated code can already be stored |
| Servicio.MayorSufijo | src/servicio/AlumnoService.java:43-58 | bounds every numeric suffix after the year prefix |
| Servicio.GenerarCodigoAlumnoUnico | src/servicio/AlumnoService.java:43-58 | the code the documentation promises: starts with the year and is never stored already |
| Servicio.ProcesarMatricula | src/servicio/AlumnoService.java:101-133 | refuses a missing student, then a status other than "Activo", then more than 24 credits, then more than 18 for a student at risk, each with its own message; no payload; success iff none applies, with the credits and the full name |
| Servicio.MatriculaEnRiesgo | src/servicio/AlumnoService.java:118-121 | an accepted enrolment for a student below 11.0 has at most 18 credits |
| Servicio.EvaluarGraduacion | src/servicio/AlumnoService.java:138-182 | not found is reported; success iff credits >= required, grade >= 11 and status "Activo", with the student as payload; otherwise every unmet condition, and only those, in the order credits, grade, status |
| Servicio.PendientesSonRazones | src/servicio/AlumnoService.java:157-176 | the list of unmet conditions is non-empty, in order, and lists each exactly when it fails |
| Servicio.ReporteConjuntivo | src/servicio/AlumnoService.java:187-216 | the four successive filters equal one filter by their conjunction |
| Servicio.FiltroInactivo | src/servicio/AlumnoService.java:191-213 | a criterion left unset keeps the list as it is |
| Servicio.GenerarReporte | src/servicio/AlumnoService.java:187-216 | the order-preserving subsequence of the records that pass every criterion that is set |
| Servicio.Reporte | src/servicio/AlumnoService.java:191-213 | the four filter stages only drop records: the result is a sub-multiset of the store |
| Servicio.IdentificarAlumnosParaTutoria | src/servicio/AlumnoService.java:221-227 | exactly the "Activo" records with grade < 13, in ascending grade, a permutation of their filter |
| Servicio.ObtenerAlumnosDestacados | src/servicio/AlumnoService.java:232-238 | min(k, #active) active records, none repeated beyond its stored multiplicity, in descending grade, none below an omitted active record |
| Servicio.Anotar | src/servicio/AlumnoService.java:276-305 | one check: when it fails its message is appended after the earlier errors, otherwise the list is unchanged |
| Servicio.Seleccion | src/servicio/AlumnoService.java:276-308 | at most one message per check; which ones, `SeleccionMiembros` states |
| Servicio.SeleccionMiembros | src/servicio/AlumnoService.java:276-308 | a message is selected iff some check carrying it fails |
| Servicio.VerificarAlumno | src/servicio/AlumnoService.java:276-308 | the eight checks on a present student, run in order into an empty result, record exactly the selection of the failing checks' messages |
| Servicio.Mensajes | src/servicio/AlumnoService.java:276-305 | the messages of the failing checks in check order (`Seleccion`); each fixed message appears iff its check fails; none iff no check fails |
| Servicio.ErroresSiiInvalido | src/servicio/AlumnoService.java:276-308 | the integrity check finds no error iff `validarDatos` holds |
| Servicio.ErroresIntegridad | src/servicio/AlumnoService.java:268-311 | a null student gives exactly the null error; otherwise the messages of the failing checks in check order, each present iff its check fails, none iff `validarDatos` holds |
| Servicio.ValidarIntegridadDatos | src/servicio/AlumnoService.java:268-311 | a fresh result whose errors are those of `ErroresIntegridad`: the failing checks' messages in check order |
| Controlador.FalloCrear | src/controlador/AlumnoController.java:39-69 | no failure iff every field check passes; each of the eight messages is reported exactly when its check fails and every earlier one passes, in the order code, first name, last name, DNI, e-mail, programme, cycle, grade |
| Controlador.FalloModificar | src/controlador/AlumnoController.java:127-151 | the checks of `modificarAlumno` pass iff names, DNI, e-mail, cycle and grade are valid; code and programme are never reported |
| Controlador.ModificarComoCrear | src/controlador/AlumnoController.java:127-151 | those checks answer as `crearAlumno`'s would with a non-blank code and programme |
| Controlador.Normalizado | src/controlador/AlumnoController.java:83-94 | the stored record: name, surname, DNI and programme trimmed; the code trimmed and upper-cased; the e-mail trimmed and lower-cased; birth date, address, phone, cycle, grade and entry date as given; status "Activo" and 0 credits |
| Controlador.Reemplazo | src/controlador/AlumnoController.java:148-153 | the record `modificarAlumno` builds: `Normalizado` of the form (names, DNI and programme trimmed, code trimmed and upper-cased, e-mail trimmed and lower-cased, the other fields as given) with the status and credits given; every field is pinned through `Normalizado`'s contract |
| Controlador.ResultadoCrear | src/controlador/AlumnoController.java:33-104 | first field failure, then the duplicate code, then the duplicate DNI, each leaving the list unchanged; otherwise the normalised record is appended and returned |
| Controlador.CrearSeEncuentra | src/controlador/AlumnoController.java:83-98 | after a successful creation the normalised record is found under its normalised code and its trimmed DNI |
| Controlador.CrearPreservaInvariante | src/controlador/AlumnoController.java:33-104 | creation keeps the store's invariant |
| Controlador.ResultadoModificar | src/controlador/AlumnoController.java:109-169 | not found before any field check; then the field checks; on success the rebuilt record replaces the stored one |
| Controlador.ModificarSeEncuentra | src/controlador/AlumnoController.java:141-163 | after a successful modification the record at the index of the normalised code is the rebuilt record, and looking that code up returns it |
| Controlador.ModificarPreservaInvariante | src/controlador/AlumnoController.java:109-169 | modification keeps the store's invariant |
| Controlador.ResultadoEliminar | src/controlador/AlumnoController.java:174-203 | fails for a blank or unknown code; on success the code is gone and the message names the removed student |
| Controlador.ResultadoCambiarEstado | src/controlador/AlumnoController.java:399-426 | an unknown code fails with the list unchanged |
| Controlador.CambiarEstadoExito | src/controlador/AlumnoController.java:399-426 | under the invariant, a change of status of a stored student always succeeds and replaces the record in place |
| Controlador.CambiarEstadoNoReconocido | src/controlador/AlumnoController.java:399-420 | an unrecognised status leaves the list unchanged yet answers success, naming the attempted status |
| Controlador.ResultadoActualizarPromedio | src/controlador/AlumnoController.java:431-463 | a grade out of [0, 20] is rejected before the lookup; an unknown code fails; failures leave the list unchanged |
| Controlador.ActualizarPromedioExito | src/controlador/AlumnoController.java:431-463 | under the invariant, success iff the grade is in range and the code is stored; the stored grade is then the new one and nothing else changed |
| Controlador.ListaOFallo | src/controlador/AlumnoController.java:287-303 | an empty list answers failure, a non-empty one success with the list |
| Controlador.VacioSiNinguno | src/controlador/AlumnoController.java:236-347 | a query result is empty exactly when no record satisfies the query |
| Controlador.ConteosDisjuntos | src/controlador/AlumnoController.java:354-370 | the active, inactive and graduated counts add up to at most the total |
| Controlador.AlumnoController.CrearAlumno | src/controlador/AlumnoController.java:33-104 | response and new list are those of `ResultadoCrear`; the store's invariant is kept |
| Controlador.AlumnoController.ModificarAlumno | src/controlador/AlumnoController.java:109-169 | response and new list are those of `ResultadoModificar`; the invariant is kept |
| Controlador.AlumnoController.EliminarAlumno | src/controlador/AlumnoController.java:174-203 | response and new list are those of `ResultadoEliminar`; the invariant is kept |
| Controlador.AlumnoController.CambiarEstado | src/controlador/AlumnoController.java:399-426 | response and new list are those of `ResultadoCambiarEstado`; the invariant is kept |
| Controlador.AlumnoController.ActualizarPromedio | src/controlador/AlumnoController.java:431-463 | response and new list are those of `ResultadoActualizarPromedio`; the invariant is kept |
| Controlador.AlumnoController.BuscarPorCodigo | src/controlador/AlumnoController.java:210-231 | success iff the code is not blank and stored; then the payload is the record with that code |
| Controlador.AlumnoController.BuscarPorNombre | src/controlador/AlumnoController.java:236-257 | success iff the term is not blank and some record matches; then the payload is the repository's sorted result |
| Controlador.AlumnoController.BuscarPorDNI | src/controlador/AlumnoController.java:262-282 | success iff the DNI is not blank and stored; then the payload is the record with that DNI |
| Controlador.AlumnoController.ObtenerTodos | src/controlador/AlumnoController.java:287-303 | an empty store answers failure; otherwise all records and their count |
| Controlador.AlumnoController.BuscarPorCarrera | src/controlador/AlumnoController.java:308-325 | success iff some record is in the programme (ignoring case); then the repository's sorted result |
| Controlador.AlumnoController.BuscarPorEstado | src/controlador/AlumnoController.java:330-347 | success iff some record has the status (ignoring case); then the repository's sorted result |
| Controlador.AlumnoController.ObtenerAlumnosEnRiesgo | src/controlador/AlumnoController.java:375-392 | always success; no payload exactly when nobody is at risk |
| Controlador.AlumnoController.ObtenerEstadisticas | src/controlador/AlumnoController.java:354-370 | the total is the store's size; each status count is the number of records with that status ignoring case, and the three add up to at most the total; at risk is the size of the at-risk query, at most the active count |

## Left out

- `IAlumnoRepository` (src/repositorio/IAlumnoRepository.java) is not a Dafny trait. Its contract is stated on the value-level functions `Repositorio.Guardado`, `Actualizado` and `Eliminado`, and the queries. `AlumnoRepositoryMemoria` is proved against them.
- The MySQL repository, the servlet and the console program are not part of this model. They are JDBC, HTTP and terminal I/O.
- The singleton `getInstancia` and its `synchronized` access are not modelled. The store is constructed explicitly.
- Aliasing is not modelled: the controller works on record values.
  - In the source, `cambiarEstado` and `actualizarPromedio` mutate the object the in-memory store returns before calling `actualizar`.
  - The model applies the same change to a copy and writes it back. Neither change can make the record invalid, so the outcome is the same.
- Java `null` for strings is not modelled; text fields are plain strings. `Option` stands for null where the source gives it a meaning:
  - the unset filters of `FiltroReporte`;
  - a null student in `procesarMatricula` and `validarIntegridadDatos`;
  - the payload of `RespuestaOperacion`.
- Case folding is ASCII only. `String.compareTo` is compared code point by code point; UTF-16 surrogate order and locale rules are not modelled.
- Grades are `real`. NaN, signed zero, infinities and double rounding are not modelled. The range checks and the thresholds compare grades with `<`, `<=`, `>` and `>=`, where -0.0 and 0.0 behave alike. Two things differ from `real`: NaN, which fails every such comparison, and the total order of `Double.compare`/`Double.compareTo`, which ranks -0.0 below 0.0 and NaN above everything. The members they affect are named below.
- Repositorio.ObtenerEnRiesgoAcademico: sorts by `Comparator.comparing(Alumno::getPromedio)` (src/repositorio/AlumnoRepositoryMemoria.java:189), which ranks -0.0 below 0.0. A grade of -0.0 passes every range check, so it can be stored. With the "Activo" students A (0.0) stored before B (-0.0), the source returns [B, A]; the model ties them and its stable sort returns [A, B].
- Repositorio.ObtenerMejoresPromedios: same ranking of -0.0 below 0.0 in its reversed comparator (src/repositorio/AlumnoRepositoryMemoria.java:223), which is not modelled.
- Servicio.IdentificarAlumnosParaTutoria: `Double.compare` (src/servicio/AlumnoService.java:225) ranks -0.0 below 0.0, which is not modelled.
- Servicio.ObtenerAlumnosDestacados: `Double.compare` (src/servicio/AlumnoService.java:235) ranks -0.0 below 0.0, which is not modelled.
- Controlador.ActualizarPromedioExito: holds only because `real` has no NaN. The controller refuses a grade when `x < 0 || x > 20` (src/controlador/AlumnoController.java:433), which NaN passes. `Alumno.actualizarPromedio` stores it only when `x >= 0 && x <= 20` (src/modelo/Alumno.java:144), which NaN fails. So `actualizarPromedio(codigo, NaN)` answers success and leaves the grade unchanged.
- Controlador.FalloCrear: a NaN grade passes the controller's range check in `crearAlumno` and `modificarAlumno` (src/controlador/AlumnoController.java:67, 143). `validarDatos` then rejects the record (src/modelo/Alumno.java:120), so the answer is the store's refusal rather than the grade message.
- Servicio.ErroresSiiInvalido: holds only because `real` has no NaN. `validarIntegridadDatos` flags a grade when `x < 0 || x > 20` (src/servicio/AlumnoService.java:306), so a NaN grade draws no error although `validarDatos` rejects the record.
- Floating-point aggregates are not modelled:
  - the average grade of `obtenerEstadisticas` in the repository and in the controller;
  - the percentages of `EstadisticasDTO`;
  - `ReporteAlumnos`.
- Dates are not modelled:
  - `validarFecha`, `calcularEdad` and `validarEdadMinima`;
  - the use of `LocalDate.now()` in `generarCodigoAlumno`. The year is a parameter there.
- Text formatting is not modelled:
  - `obtenerDistribucionPorCarrera`;
  - `Persona.toString`, `Alumno.toString` and `obtenerResumen`;
  - `obtenerInfoRepositorio` and `obtenerFuenteDatos`.
- Messages are modelled as tags with the values they quote, not as wording.
- The catch-all `catch (Exception e)` wrappers of the controller are not modelled. No modelled step throws.
- `Alumno`'s empty constructor and its six-argument constructor (src/modelo/Alumno.java:15-30) are not modelled. The six-argument one leaves `fechaIngreso` null, and text fields here are never null. The getters and setters are the fields themselves.
- `Persona`'s constructor is covered by `Alumnos.AlumnoObjeto.constructor`, which stores its seven fields unchanged. `Persona` is abstract.
- Servicio.ObtenerAlumnosDestacados: requires `limite >= 0`. A negative limit makes Java's `limit` throw, and that is not modelled.
- Repositorio.ObtenerMejoresPromedios: requires `limite >= 0`, for the same reason.
- Servicio.ValidarIntegridadDatos: the eight checks are computed first and then recorded in order. The source interleaves checking and recording, which gives the same list.
- Servicio.CuentaPrefijo: the count of a Java `long` is cast to `int`, so it would wrap past 2^31 records. That is not modelled.
- Alumnos.TrasAgregarCreditos: unbounded. The 32-bit behaviour is `TrasAgregarCreditosInt32`, listed under Findings.
- Alumnos.AlumnoObjeto.AgregarCreditos: credits are an unbounded `int`, so its "credits never decrease" holds only in the model. The 32-bit wrap-around of the source is `AgregarCreditosDesborda`, listed under Findings.
- The controller's twelve record arguments are grouped into `Controlador.Formulario`.
- The controller checks duplicates with the raw code and DNI but stores the normalised ones, as the source does. A clash that only shows after normalisation is caught by the repository: `ResultadoCrear` then answers `NoSeGuardo`.

## Findings

| source | as written | input that shows it | evidently intended | confidence | as-written member | corrected member |
|---|---|---|---|---|---|---|
| src/servicio/AlumnoService.java:46-58 | the new code is the year followed by (number of stored codes with the year's prefix + 1) | a store whose only record has code "2024002" (for example after "2024001" was deleted), year 2024: one code has the prefix, so the generated code is "2024002", which is already stored | a code that is not yet stored, as the method's documentation ("único") says | high (not executed) | Servicio.CodigoGeneradoRepetido | Servicio.GenerarCodigoAlumnoUnico |
| src/modelo/Alumno.java:161-165 | `creditosAcumulados += creditos` on a 32-bit `int` | `creditosAcumulados` = 2147483647, `agregarCreditos(1)`: the credits wrap to -2147483648 | credits never decrease through `agregarCreditos` | high (not executed) | Alumnos.AgregarCreditosDesborda | Alumnos.TrasAgregarCreditos |
