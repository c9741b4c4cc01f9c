/**
  The result envelope every controller and service operation returns:
  success flag, message and an optional payload. The Java payload is an
  `Object`; the operations put either one student or a list of students in
  it, and `getDatosComoTipo` hands it out only to a caller that asks for a
  type it belongs to.
*/
module Respuestas {
  import opened Wrappers
  import opened Alumnos

  /** What the payload can hold. */
  datatype Datos = UnAlumno(alumno: Alumno) | Lista(alumnos: seq<Alumno>)

  /** The class a caller passes to `getDatosComoTipo`. */
  datatype Tipo = ClaseAlumno | ClaseLista | ClaseObjeto

  /** `tipo.isInstance(d)`. */
  predicate EsInstancia(d: Datos, t: Tipo) {
    match t
    case ClaseAlumno => d.UnAlumno?
    case ClaseLista => d.Lista?
    case ClaseObjeto => true
  }

  /** The envelope; the message type is a parameter (text, or a tag naming the message). */
  datatype RespuestaOperacion<M> = RespuestaOperacion(exito: bool, mensaje: M, datos: Option<Datos>)

  /** The two-argument constructor: no payload. */
  function SinDatos<M>(exito: bool, mensaje: M): (r: RespuestaOperacion<M>)
    ensures r.exito == exito && r.mensaje == mensaje && r.datos == None
  {
    RespuestaOperacion(exito, mensaje, None)
  }

  /** The three-argument constructor with a non-null payload. */
  function ConDatos<M>(exito: bool, mensaje: M, d: Datos): (r: RespuestaOperacion<M>)
    ensures r.exito == exito && r.mensaje == mensaje && r.datos == Some(d)
  {
    RespuestaOperacion(exito, mensaje, Some(d))
  }

  /** `getDatosComoTipo(tipo)`: the payload when there is one and it has the type, else null. */
  function DatosComoTipo<M>(r: RespuestaOperacion<M>, t: Tipo): (d: Option<Datos>)
    ensures d.Some? <==> r.datos.Some? && EsInstancia(r.datos.value, t)
    ensures d.Some? ==> d == r.datos
    ensures r.datos == None ==> d == None
  {
    if r.datos.Some? && EsInstancia(r.datos.value, t) then r.datos else None
  }

  /** Asking for `Object` returns whatever payload there is. */
  lemma DatosComoObjeto<M>(r: RespuestaOperacion<M>)
    ensures DatosComoTipo(r, ClaseObjeto) == r.datos
  {
  }

  const MARCA_EXITO: char := '✓'
  const MARCA_FALLO: char := '✗'

  /** `toString`: a check mark or a cross, a space, then the message. */
  function TextoRespuesta(r: RespuestaOperacion<string>): (s: string)
    ensures |s| == |r.mensaje| + 2
    ensures s[1] == ' ' && s[2..] == r.mensaje
    ensures s[0] == MARCA_EXITO <==> r.exito
    ensures s[0] == MARCA_FALLO <==> !r.exito
  {
    [if r.exito then MARCA_EXITO else MARCA_FALLO, ' '] + r.mensaje
  }

  /** The text determines the flag and the message. */
  lemma TextoRespuestaInyectivo(r1: RespuestaOperacion<string>, r2: RespuestaOperacion<string>)
    requires TextoRespuesta(r1) == TextoRespuesta(r2)
    ensures r1.exito == r2.exito && r1.mensaje == r2.mensaje
  {
    assert TextoRespuesta(r1)[2..] == TextoRespuesta(r2)[2..];
  }
}
