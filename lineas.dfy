/**
 * One line of the course file, `categoria : nombre : d/m/a : nivel`, as
 * `leerDeFichero` and `obtenerCurso` take it apart. Every exception those
 * two can raise on a line is a `Fallo`.
 */
module Lineas {
  import opened Wrappers
  import opened Texto
  import opened Fechas
  import opened Enteros
  import opened Cursos

  datatype Fallo =
    | SinSeparador      // no ':' in the line: substring(0, -1) throws
    | FaltaCampo        // fewer fields or date parts than read: index out of bounds
    | NumeroInvalido    // Integer.valueOf throws NumberFormatException
    | FechaInvalida     // LocalDate.of throws DateTimeException
    | NivelDesconocido  // Nivel.valueOf throws IllegalArgumentException
    | NombreInvalido    // capitalizarNombre meets an empty word

  /** The values a parsed line gives a new `Curso` (the name already capitalised). */
  datatype Datos = Datos(nombre: string, fecha: Fecha, nivel: Nivel)

  datatype Registro = Registro(categoria: string, datos: Datos)

  /** `Nivel.valueOf`: only the exact constant names are accepted. */
  function NivelDe(token: string): (r: Option<Nivel>)
    ensures r.Some? ==> NombreDeNivel(r.value) == token
  {
    if token == "PRINCIPIANTE" then Some(Principiante)
    else if token == "INTERMEDIO" then Some(Intermedio)
    else if token == "AVANZADO" then Some(Avanzado)
    else None
  }

  /** `Nivel.name()`. */
  function NombreDeNivel(n: Nivel): string {
    match n
    case Principiante => "PRINCIPIANTE"
    case Intermedio => "INTERMEDIO"
    case Avanzado => "AVANZADO"
  }

  lemma NivelDeNombre(n: Nivel)
    ensures NivelDe(NombreDeNivel(n)) == Some(n)
  {
  }

  /** The fields of a course description: split at ':' and each one trimmed. */
  function Campos(s: string): (r: seq<string>)
    ensures |r| == |Split(s, ':')|
  {
    var ps := Split(s, ':');
    seq(|ps|, i requires 0 <= i < |ps| => Trim(ps[i]))
  }

  /**
   * The date field `d/m/a`: `split("/")`, `Integer.valueOf` on the parts
   * in the order year, month, day, then `LocalDate.of`.
   */
  function FechaDeCampo(campo: string): (r: Result<Fecha, Fallo>)
    ensures r.Success? ==> Valida(r.value)
    ensures r.Failure? ==> r.error in {FaltaCampo, NumeroInvalido, FechaInvalida}
  {
    var partes := Split(campo, '/');
    if |partes| < 3 then Failure(FaltaCampo)
    else
      var anio, mes, dia := ValorDe(partes[2]), ValorDe(partes[1]), ValorDe(partes[0]);
      if anio.None? || mes.None? || dia.None? then Failure(NumeroInvalido)
      else
        match De(anio.value, mes.value, dia.value)
        case Some(f) => Success(f)
        case None => Failure(FechaInvalida)
  }

  /**
   * What `obtenerCurso` builds from a course description, in the order its
   * expressions are evaluated: the date, the level, then the constructor's
   * name normalisation.
   */
  function DatosCurso(s: string): (r: Result<Datos, Fallo>)
    ensures r.Success? ==> |Campos(s)| >= 3 && Valida(r.value.fecha)
    ensures r.Success? ==> FechaDeCampo(Campos(s)[1]) == Success(r.value.fecha)
    ensures r.Success? ==> NivelDe(Mayusculas(Campos(s)[2])) == Some(r.value.nivel)
    ensures r.Success? ==> Capitalizacion(Campos(s)[0]) == Some(r.value.nombre)
    ensures r == Failure(NivelDesconocido) <==>
      |Campos(s)| >= 3 && FechaDeCampo(Campos(s)[1]).Success? && NivelDe(Mayusculas(Campos(s)[2])).None?
    ensures r.Failure? ==> r.error != SinSeparador
  {
    DatosDeCampos(Campos(s))
  }

  /** `DatosCurso` once the description is split into trimmed fields. */
  function DatosDeCampos(linea: seq<string>): (r: Result<Datos, Fallo>)
    ensures r.Success? ==> |linea| >= 3 && Valida(r.value.fecha)
    ensures r.Success? ==> FechaDeCampo(linea[1]) == Success(r.value.fecha)
    ensures r.Success? ==> NivelDe(Mayusculas(linea[2])) == Some(r.value.nivel)
    ensures r.Success? ==> Capitalizacion(linea[0]) == Some(r.value.nombre)
    ensures r == Failure(NivelDesconocido) <==>
      |linea| >= 3 && FechaDeCampo(linea[1]).Success? && NivelDe(Mayusculas(linea[2])).None?
    ensures r.Failure? ==> r.error != SinSeparador
  {
    if |linea| < 2 then Failure(FaltaCampo)
    else
      match FechaDeCampo(linea[1])
      case Failure(e) => Failure(e)
      case Success(f) =>
        if |linea| < 3 then Failure(FaltaCampo)
        else
          match NivelDe(Mayusculas(linea[2]))
          case None => Failure(NivelDesconocido)
          case Some(nivel) =>
            match Capitalizacion(linea[0])
            case None => Failure(NombreInvalido)
            case Some(nombre) => Success(Datos(nombre, f, nivel))
  }

  /** The fields `obtenerCurso` collects in its loop are those of `Campos`. */
  lemma CamposCalculados(s: string, aux: seq<string>, linea: seq<string>)
    requires aux == Split(s, ':') && |linea| == |aux|
    requires forall j :: 0 <= j < |aux| ==> linea[j] == Trim(aux[j])
    ensures DatosCurso(s) == DatosDeCampos(linea)
  {
    assert linea == Campos(s);
  }

  /** One line of `leerDeFichero`: trim it, cut at the first ':', trim the category, parse the rest. */
  function ParsearLinea(linea: string): (r: Result<Registro, Fallo>)
    ensures r.Failure? && r.error == SinSeparador <==> ':' !in Trim(linea)
    ensures r.Success? ==> ':' !in r.value.categoria && r.value.categoria == Trim(r.value.categoria)
  {
    ParsearRecortada(Trim(linea))
  }

  /** `ParsearLinea` once the line is trimmed. */
  function ParsearRecortada(l: string): (r: Result<Registro, Fallo>)
    ensures r.Failure? && r.error == SinSeparador <==> ':' !in l
    ensures r.Success? ==> ':' !in r.value.categoria && r.value.categoria == Trim(r.value.categoria)
  {
    var p := IndiceDe(l, ':');
    if p == -1 then Failure(SinSeparador)
    else
      TrimIdempotente(l[..p]);
      TrimSinCaracter(l[..p], ':');
      match DatosCurso(l[p + 1..])
      case Success(d) => Success(Registro(Trim(l[..p]), d))
      case Failure(e) => Failure(e)
  }

  /** A date written day/month/year, as the course file has it. */
  function FechaTexto(f: Fecha): string
    requires f.anio >= 0 && f.mes >= 0 && f.dia >= 0
  {
    Decimal(f.dia) + "/" + Decimal(f.mes) + "/" + Decimal(f.anio)
  }

  /** The part of a line after the category: name, date and level fields. */
  function Descripcion(nombre: string, fecha: string, nivel: string): string {
    nombre + ":" + fecha + ":" + nivel
  }

  /** A whole line of the course file. */
  function Formatear(categoria: string, nombre: string, fecha: string, nivel: string): string {
    categoria + ":" + Descripcion(nombre, fecha, nivel)
  }

  lemma SplitTres(a: string, b: string, c: string, sep: char)
    requires sep !in a && sep !in b && sep !in c && c != []
    ensures Split(a + [sep] + b + [sep] + c, sep) == [a, b, c]
  {
    var s := a + [sep] + b + [sep] + c;
    assert s == a + [sep] + (b + [sep] + c);
    TrozosConcat(a, b + [sep] + c, sep);
    TrozosConcat(b, c, sep);
    TrozosSinSeparador(c, sep);
    SplitSinVaciasFinales(s, sep);
  }

  lemma DigitosSinBlancos(s: string)
    requires s != [] && SoloDigitos(s)
    ensures Trim(s) == s && ':' !in s && '/' !in s
  {
    TrimSinBordes(s);
  }

  /** Trimming a line that ends in a non-blank only removes the category's leading blanks. */
  lemma TrimLinea(categoria: string, resto: string)
    requires resto != [] && !Blanco(resto[|resto| - 1])
    ensures Trim(categoria + ":" + resto) == QuitarInicio(categoria) + ":" + resto
  {
    var c := QuitarInicio(categoria);
    var l := c + (":" + resto);
    InicioLinea(categoria, resto);
    assert l[|l| - 1] == resto[|resto| - 1];
    QuitarFinalSinBorde(l);
    Asociar(c, resto);
  }

  lemma InicioLinea(categoria: string, resto: string)
    ensures QuitarInicio(categoria + ":" + resto) == QuitarInicio(categoria) + (":" + resto)
  {
    Asociar(categoria, resto);
    QuitarInicioConcat(categoria, ":" + resto);
  }

  lemma Asociar(a: string, b: string)
    ensures a + ":" + b == a + (":" + b)
  {
  }

  lemma CorteEn(c: string, resto: string)
    requires ':' !in c
    ensures var l := c + ":" + resto;
      IndiceDe(l, ':') == |c| && l[..|c|] == c && l[|c| + 1..] == resto
  {
    var l := c + ":" + resto;
    assert l[..|c|] == c && l[|c|] == ':';
  }

  /** The line is cut at the category's own end, and trimming it only touches the category. */
  lemma CortarCategoria(categoria: string, resto: string)
    requires ':' !in categoria
    requires resto != [] && !Blanco(resto[|resto| - 1])
    ensures ParsearLinea(categoria + ":" + resto)
         == match DatosCurso(resto)
            case Success(d) => Success(Registro(Trim(categoria), d))
            case Failure(e) => Failure(e)
  {
    var c := QuitarInicio(categoria);
    TrimLinea(categoria, resto);
    TrimQuitarInicio(categoria);
    ParsearCortada(categoria + ":" + resto, c, resto);
  }

  lemma TrimQuitarInicio(s: string)
    ensures Trim(QuitarInicio(s)) == Trim(s)
  {
  }

  /** A line whose trimmed form is `c:resto`, with no ':' in `c`, is parsed from `resto`. */
  lemma ParsearCortada(linea: string, c: string, resto: string)
    requires ':' !in c
    requires Trim(linea) == c + ":" + resto
    ensures ParsearLinea(linea)
         == match DatosCurso(resto)
            case Success(d) => Success(Registro(Trim(c), d))
            case Failure(e) => Failure(e)
  {
    CorteEn(c, resto);
  }

  /** `leerDeFichero` trims the line first, so blanks added at its end change nothing. */
  lemma ParsearBlancosFinales(linea: string, bl: string)
    requires QuitarInicio(linea) != [] && Blancos(bl)
    ensures ParsearLinea(linea + bl) == ParsearLinea(linea)
  {
    TrimBlancosFinales(linea, bl);
  }

  /** A date written day/month/year in decimal reads back as itself. */
  lemma FechaDeFormato(f: Fecha)
    requires Valida(f) && f.anio >= 0
    ensures FechaDeCampo(FechaTexto(f)) == Success(f)
  {
    var d, m, y := Decimal(f.dia), Decimal(f.mes), Decimal(f.anio);
    DigitosSinBlancos(d);
    DigitosSinBlancos(m);
    DigitosSinBlancos(y);
    SplitTres(d, m, y, '/');
    ValorDeDecimal(f.dia);
    ValorDeDecimal(f.mes);
    ValorDeDecimal(f.anio);
  }

  /** The written date field, with blanks on either side, still reads back as the date. */
  lemma FechaRodeada(b: string, f: Fecha, c: string)
    requires Valida(f) && f.anio >= 0
    requires Blancos(b) && Blancos(c)
    ensures ':' !in b + FechaTexto(f) + c
    ensures FechaDeCampo(Trim(b + FechaTexto(f) + c)) == Success(f)
  {
    FechaEscrita(f);
    TrimRodeado(b, FechaTexto(f), c);
    FechaDeFormato(f);
  }

  /** `Nivel.valueOf(token.toUpperCase())` accepts a token in any letter case exactly when it spells a constant. */
  lemma NivelSinMayusculas(token: string, n: Nivel)
    ensures NivelDe(Mayusculas(token)) == Some(n) <==> Mayusculas(token) == NombreDeNivel(n)
  {
    NivelDeNombre(n);
  }

  lemma DatosCursoDe(s: string, nombre: string, fecha: string, nivel: string, f: Fecha, n: Nivel)
    requires Campos(s) == [nombre, fecha, nivel]
    requires FechaDeCampo(fecha) == Success(f)
    requires NivelDe(Mayusculas(nivel)) == Some(n)
    requires Capitalizacion(nombre).Some?
    ensures DatosCurso(s) == Success(Datos(Capitalizacion(nombre).value, f, n))
  {
    DatosDeTres(nombre, fecha, nivel, f, n);
  }

  lemma DatosDeTres(nombre: string, fecha: string, nivel: string, f: Fecha, n: Nivel)
    requires FechaDeCampo(fecha) == Success(f)
    requires NivelDe(Mayusculas(nivel)) == Some(n)
    requires Capitalizacion(nombre).Some?
    ensures DatosDeCampos([nombre, fecha, nivel]) == Success(Datos(Capitalizacion(nombre).value, f, n))
  {
    var linea := [nombre, fecha, nivel];
    assert linea[0] == nombre && linea[1] == fecha && linea[2] == nivel;
  }

  /** Three fields without ':', the last not empty, split and trimmed. */
  lemma CamposTres(a: string, b: string, c: string)
    requires ':' !in a && ':' !in b && ':' !in c && c != []
    ensures Campos(a + ":" + b + ":" + c) == [Trim(a), Trim(b), Trim(c)]
  {
    var s := a + ":" + b + ":" + c;
    assert s == a + [':'] + b + [':'] + c;
    SplitTres(a, b, c, ':');
    CamposDeTres(s, a, b, c);
  }

  lemma CamposDeTres(s: string, a: string, b: string, c: string)
    requires Split(s, ':') == [a, b, c]
    ensures Campos(s) == [Trim(a), Trim(b), Trim(c)]
  {
  }

  /** The written date field has no ':' and no blank at either end. */
  lemma FechaEscrita(f: Fecha)
    requires f.anio >= 0 && f.mes >= 0 && f.dia >= 0
    ensures var fecha := FechaTexto(f);
      ':' !in fecha && fecha != [] && !Blanco(fecha[0]) && !Blanco(fecha[|fecha| - 1])
  {
    var d, m, y := Decimal(f.dia), Decimal(f.mes), Decimal(f.anio);
    DigitosSinBlancos(d);
    DigitosSinBlancos(m);
    DigitosSinBlancos(y);
    var fecha := d + "/" + m + "/" + y;
    assert fecha[0] == d[0] && fecha[|fecha| - 1] == y[|y| - 1];
  }

  /** A level field that upper-cases, once trimmed, to a constant's name is not empty and has no ':'. */
  lemma NivelLegible(nivel: string, n: Nivel)
    requires Mayusculas(Trim(nivel)) == NombreDeNivel(n)
    ensures nivel != [] && NivelDe(Mayusculas(Trim(nivel))) == Some(n)
  {
    NivelDeNombre(n);
  }

  /**
   * A description whose fields have no ':' parses to the capitalised name,
   * the date its trimmed date field reads as, and the level its trimmed and
   * upper-cased level field names, whatever blanks surround the fields.
   */
  lemma DatosDeDescripcion(nombre: string, fecha: string, nivel: string, f: Fecha, n: Nivel)
    requires ':' !in nombre && ':' !in fecha && ':' !in nivel
    requires FechaDeCampo(Trim(fecha)) == Success(f)
    requires Mayusculas(Trim(nivel)) == NombreDeNivel(n)
    requires BienEspaciado(Trim(nombre))
    ensures Capitalizacion(nombre).Some?
    ensures DatosCurso(Descripcion(nombre, fecha, nivel)) == Success(Datos(Capitalizacion(nombre).value, f, n))
  {
    NivelLegible(nivel, n);
    CamposTres(nombre, fecha, nivel);
    CapitalizacionTrim(nombre);
    CapitalizacionFalla(nombre);
    DatosCursoDe(Descripcion(nombre, fecha, nivel), Trim(nombre), Trim(fecha), Trim(nivel), f, n);
  }

  /**
   * Reading back a line of the course file: the trimmed category, the
   * capitalised name, the date and the level, whatever blanks surround the
   * fields and whatever letter case the level is written in.
   */
  lemma LecturaDeFormato(categoria: string, nombre: string, fecha: string, nivel: string, f: Fecha, n: Nivel)
    requires ':' !in categoria && ':' !in nombre && ':' !in fecha && ':' !in nivel
    requires FechaDeCampo(Trim(fecha)) == Success(f)
    requires Mayusculas(Trim(nivel)) == NombreDeNivel(n)
    requires BienEspaciado(Trim(nombre))
    ensures Capitalizacion(nombre).Some?
    ensures ParsearLinea(Formatear(categoria, nombre, fecha, nivel))
         == Success(Registro(Trim(categoria), Datos(Capitalizacion(nombre).value, f, n)))
  {
    var nv := QuitarFinal(nivel);
    var bl := nivel[|nv|..];
    SepararBlancosFinales(nivel);
    TrimQuitarFinal(nivel);
    NivelLegible(nv, n);
    var resto := Descripcion(nombre, fecha, nv);
    DatosDeDescripcion(nombre, fecha, nv, f, n);
    FinDescripcion(nombre, fecha, nv);
    CortarCategoria(categoria, resto);
    var l := categoria + ":" + resto;
    LineaConBlancos(categoria, nombre, fecha, nivel, nv, bl);
    InicioLinea(categoria, resto);
    ParsearBlancosFinales(l, bl);
  }

  /** A description ends where its level field ends. */
  lemma FinDescripcion(nombre: string, fecha: string, nivel: string)
    requires nivel != [] && !Blanco(nivel[|nivel| - 1])
    ensures var d := Descripcion(nombre, fecha, nivel); d != [] && !Blanco(d[|d| - 1])
  {
    var d := Descripcion(nombre, fecha, nivel);
    assert d[|d| - 1] == nivel[|nivel| - 1];
  }

  /** A string is its part up to the last non-blank followed by blanks. */
  lemma SepararBlancosFinales(s: string)
    ensures s == QuitarFinal(s) + s[|QuitarFinal(s)|..] && Blancos(s[|QuitarFinal(s)|..])
  {
  }

  /** Blanks after the level field are blanks at the end of the line. */
  lemma LineaConBlancos(categoria: string, nombre: string, fecha: string, nivel: string, nv: string, bl: string)
    requires nivel == nv + bl
    ensures Formatear(categoria, nombre, fecha, nivel) == categoria + ":" + Descripcion(nombre, fecha, nv) + bl
  {
  }
}
