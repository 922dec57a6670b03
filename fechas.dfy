/** `java.time.LocalDate`: a proleptic Gregorian (year, month, day). */
module Fechas {
  import opened Wrappers

  datatype Fecha = Fecha(anio: int, mes: int, dia: int)

  /** `Year.isLeap`. */
  predicate Bisiesto(anio: int) {
    anio % 4 == 0 && (anio % 100 != 0 || anio % 400 == 0)
  }

  /** `Month.length`. */
  function DiasDelMes(anio: int, mes: int): (r: int)
    requires 1 <= mes <= 12
    ensures 28 <= r <= 31
  {
    if mes == 2 then (if Bisiesto(anio) then 29 else 28)
    else if mes == 4 || mes == 6 || mes == 9 || mes == 11 then 30
    else 31
  }

  /** The values `LocalDate.of` accepts: years within +-999,999,999 and a real calendar day. */
  predicate Valida(f: Fecha) {
    -999_999_999 <= f.anio <= 999_999_999 &&
    1 <= f.mes <= 12 &&
    1 <= f.dia <= DiasDelMes(f.anio, f.mes)
  }

  /** `LocalDate.of(anio, mes, dia)`, which throws `DateTimeException` on an invalid date. */
  function De(anio: int, mes: int, dia: int): (r: Option<Fecha>)
    ensures r.Some? <==> Valida(Fecha(anio, mes, dia))
    ensures r.Some? ==> r.value.anio == anio && r.value.mes == mes && r.value.dia == dia
  {
    if Valida(Fecha(anio, mes, dia)) then Some(Fecha(anio, mes, dia)) else None
  }

  /** `a.compareTo(b) < 0`: year, then month, then day. */
  predicate Anterior(a: Fecha, b: Fecha) {
    a.anio < b.anio ||
    (a.anio == b.anio && (a.mes < b.mes || (a.mes == b.mes && a.dia < b.dia)))
  }
}
