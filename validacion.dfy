/**
  The error accumulator used by the integrity check: a list of messages that
  only ever grows at its end.
*/
module Validacion {
  import opened Texto

  const SIN_ERRORES: string := "Sin errores"
  const VALIDACION_EXITOSA: string := "✓ Validación exitosa"
  const ENCABEZADO_ERRORES: string := "✗ Errores encontrados:\n"

  /** `String.join("\n", errores)`, or "Sin errores" for an empty list. */
  function MensajeErrores(errores: seq<string>): (m: string)
    ensures errores == [] ==> m == SIN_ERRORES
    ensures |errores| == 1 ==> m == errores[0]
    ensures |errores| > 1 ==> m == MensajeErrores(errores[..|errores| - 1]) + "\n" + errores[|errores| - 1]
  {
    if errores == [] then SIN_ERRORES else Unir(errores, "\n")
  }

  /** Appending an error extends the message by a line break and that error. */
  lemma MensajeTrasAgregar(errores: seq<string>, e: string)
    requires errores != []
    ensures MensajeErrores(errores + [e]) == MensajeErrores(errores) + "\n" + e
  {
    assert (errores + [e])[..|errores|] == errores;
  }

  class ValidationResult {
    var errores: seq<string>

    /** A new result holds no errors. */
    constructor ()
      ensures errores == []
      ensures EsValido()
    {
      errores := [];
    }

    /** `agregarError`: appends at the end; earlier errors stay as they were. */
    method AgregarError(error: string)
      modifies this
      ensures errores == old(errores) + [error]
      ensures !EsValido()
    {
      errores := errores + [error];
    }

    /** `esValido`: no error has been recorded. */
    function EsValido(): (r: bool)
      reads this
      ensures r <==> |errores| == 0
    {
      errores == []
    }

    /** `getErrores`: a copy, same contents in the same order. */
    method GetErrores() returns (copia: seq<string>)
      ensures copia == errores
      ensures |copia| == 0 <==> EsValido()
    {
      copia := errores;
    }

    /** `getMensajeErrores`. */
    function GetMensajeErrores(): (m: string)
      reads this
      ensures EsValido() ==> m == SIN_ERRORES
      ensures !EsValido() ==> m == Unir(errores, "\n")
    {
      MensajeErrores(errores)
    }

    /**
      `toString`: a fixed line for a valid result; otherwise a header line
      followed by the joined messages, so the text tells the two apart by
      its first character and carries every message after the header.
    */
    function Descripcion(): (t: string)
      reads this
      ensures EsValido() ==> t == VALIDACION_EXITOSA
      ensures |t| > 0
      ensures !EsValido() ==> |t| >= |ENCABEZADO_ERRORES|
      ensures t[0] == '✓' <==> EsValido()
      ensures !EsValido() ==> t[..|ENCABEZADO_ERRORES|] == ENCABEZADO_ERRORES
                              && t[|ENCABEZADO_ERRORES|..] == Unir(errores, "\n")
    {
      assert VALIDACION_EXITOSA[0] == '✓' && ENCABEZADO_ERRORES[0] == '✗';
      if EsValido() then VALIDACION_EXITOSA else ENCABEZADO_ERRORES + GetMensajeErrores()
    }
  }
}
