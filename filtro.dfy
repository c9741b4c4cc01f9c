/**
  The report filter: a mutable record whose four criteria start unset
  (`null` for the text criteria, zero for the minimums) and are overwritten
  one at a time by setters.
*/
module Filtros {
  import opened Wrappers

  class FiltroReporte {
    var carrera: Option<string>
    var estado: Option<string>
    var cicloMinimo: int
    var promedioMinimo: real

    /** Every criterion unset. */
    constructor ()
      ensures carrera == None && estado == None
      ensures cicloMinimo == 0 && promedioMinimo == 0.0
    {
      carrera := None;
      estado := None;
      cicloMinimo := 0;
      promedioMinimo := 0.0;
    }

    method SetCarrera(c: Option<string>)
      modifies this
      ensures carrera == c
      ensures estado == old(estado) && cicloMinimo == old(cicloMinimo) && promedioMinimo == old(promedioMinimo)
    {
      carrera := c;
    }

    method SetEstado(e: Option<string>)
      modifies this
      ensures estado == e
      ensures carrera == old(carrera) && cicloMinimo == old(cicloMinimo) && promedioMinimo == old(promedioMinimo)
    {
      estado := e;
    }

    method SetCicloMinimo(n: int)
      modifies this
      ensures cicloMinimo == n
      ensures carrera == old(carrera) && estado == old(estado) && promedioMinimo == old(promedioMinimo)
    {
      cicloMinimo := n;
    }

    method SetPromedioMinimo(p: real)
      modifies this
      ensures promedioMinimo == p
      ensures carrera == old(carrera) && estado == old(estado) && cicloMinimo == old(cicloMinimo)
    {
      promedioMinimo := p;
    }
  }
}
