/**
 * The course platform: a map, ordered by key, from an upper-cased category
 * to the list of its courses in insertion order, with the operations that
 * read and change it.
 */
module Plataforma {
  import opened Wrappers
  import opened Texto
  import opened Orden
  import opened Fechas
  import opened Enteros
  import opened Cursos
  import opened Lineas
  import opened Secuencias

  /** The `TreeMap<String, ArrayList<Curso>>` as a value. */
  type Catalogo = map<string, seq<Curso>>

  /** `addCurso` on the map: append to the key's list, or start a one-course list; every other entry is kept. */
  function Anadido(m: Catalogo, k: string, c: Curso): (r: Catalogo)
    ensures r.Keys == m.Keys + {k}
    ensures r[k] == (if k in m then m[k] + [c] else [c])
    ensures forall o :: o in m && o != k ==> r[o] == m[o]
  {
    m[k := if k in m then m[k] + [c] else [c]]
  }

  /** The courses `borrarCursosDe` keeps: those of another level, in their order. */
  function Conservados(l: seq<Curso>, n: Nivel): seq<Curso> {
    if l == [] then []
    else Conservados(l[..|l| - 1], n) + (if l[|l| - 1].nivel == n then [] else [l[|l| - 1]])
  }

  /** The courses `borrarCursosDe` removes: those of level `n`, in their order. */
  function Borrados(l: seq<Curso>, n: Nivel): seq<Curso> {
    if l == [] then []
    else Borrados(l[..|l| - 1], n) + (if l[|l| - 1].nivel == n then [l[|l| - 1]] else [])
  }

  function Nombres(cs: seq<Curso>): set<string> {
    set i | 0 <= i < |cs| :: cs[i].nombre
  }

  lemma ConservadosUltimo(l: seq<Curso>, n: Nivel)
    requires l != []
    ensures Conservados(l, n) == Conservados(l[..|l| - 1], n) + (if l[|l| - 1].nivel == n then [] else [l[|l| - 1]])
    ensures Borrados(l, n) == Borrados(l[..|l| - 1], n) + (if l[|l| - 1].nivel == n then [l[|l| - 1]] else [])
  {
  }

  /** Deleting by level splits a list into the kept and the removed courses, and loses none. */
  lemma {:induction false} Particion(l: seq<Curso>, n: Nivel)
    ensures multiset(Conservados(l, n)) + multiset(Borrados(l, n)) == multiset(l)
    ensures |Conservados(l, n)| + |Borrados(l, n)| == |l|
  {
    var c, b := Conservados(l, n), Borrados(l, n);
    ParticionMultiset(l, n);
    assert |multiset(c) + multiset(b)| == |multiset(c)| + |multiset(b)|;
    assert |multiset(c)| == |c| && |multiset(b)| == |b| && |multiset(l)| == |l|;
  }

  lemma {:induction false} ParticionMultiset(l: seq<Curso>, n: Nivel)
    ensures multiset(Conservados(l, n)) + multiset(Borrados(l, n)) == multiset(l)
  {
    if l != [] {
      var u := l[..|l| - 1];
      ParticionMultiset(u, n);
      assert l == u + [l[|l| - 1]];
      ParticionPaso(u, l[|l| - 1], n);
    }
  }

  /** Appending one course keeps the partition of the multiset. */
  lemma ParticionPaso(u: seq<Curso>, x: Curso, n: Nivel)
    requires multiset(Conservados(u, n)) + multiset(Borrados(u, n)) == multiset(u)
    ensures multiset(Conservados(u + [x], n)) + multiset(Borrados(u + [x], n)) == multiset(u + [x])
  {
    var l := u + [x];
    ConservadosUltimo(l, n);
    assert l[..|l| - 1] == u;
    MultisetUltimo(u, x);
    if x.nivel == n {
      MultisetUltimo(Borrados(u, n), x);
    } else {
      MultisetUltimo(Conservados(u, n), x);
    }
  }

  /** One turn of the loop of `borrarCursosDe`: the `i`-th course joins the removed or the kept ones. */
  lemma PasoBorrado(cursos: seq<Curso>, i: nat, n: Nivel)
    requires i < |cursos|
    ensures cursos[i].nivel == n ==>
      Borrados(cursos[..i + 1], n) == Borrados(cursos[..i], n) + [cursos[i]] &&
      Conservados(cursos[..i + 1], n) == Conservados(cursos[..i], n)
    ensures cursos[i].nivel != n ==>
      Borrados(cursos[..i + 1], n) == Borrados(cursos[..i], n) &&
      Conservados(cursos[..i + 1], n) == Conservados(cursos[..i], n) + [cursos[i]]
  {
    assert cursos[..i + 1][..i] == cursos[..i];
    ConservadosUltimo(cursos[..i + 1], n);
  }

  /** The kept courses all have another level; the removed ones all have level `n`. */
  lemma {:induction false} NivelesSeparados(l: seq<Curso>, n: Nivel)
    ensures forall i :: 0 <= i < |Conservados(l, n)| ==> Conservados(l, n)[i].nivel != n
    ensures forall i :: 0 <= i < |Borrados(l, n)| ==> Borrados(l, n)[i].nivel == n
  {
    if l != [] {
      var u := l[..|l| - 1];
      NivelesSeparados(u, n);
      ConservadosUltimo(l, n);
    }
  }

  /** A second deletion with the same level keeps everything and removes nothing. */
  lemma {:induction false} BorrarIdempotente(l: seq<Curso>, n: Nivel)
    ensures Conservados(Conservados(l, n), n) == Conservados(l, n)
    ensures Borrados(Conservados(l, n), n) == []
  {
    if l != [] {
      var u, x := l[..|l| - 1], l[|l| - 1];
      BorrarIdempotente(u, n);
      ConservadosUltimo(l, n);
      var cu := Conservados(u, n);
      if x.nivel == n {
        assert Conservados(l, n) == cu;
      } else {
        var c := cu + [x];
        assert Conservados(l, n) == c;
        ConservadosUltimo(c, n);
        assert c[..|c| - 1] == cu && c[|c| - 1] == x;
        assert Conservados(c, n) == Conservados(cu, n) + [x];
        assert Borrados(c, n) == Borrados(cu, n);
      }
    }
  }

  lemma NombresAnadir(cs: seq<Curso>, c: Curso)
    ensures Nombres(cs + [c]) == Nombres(cs) + {c.nombre}
  {
    var t := cs + [c];
    assert forall i :: 0 <= i < |cs| ==> t[i] == cs[i];
    assert t[|cs|] == c;
  }

  /** Distinct courses may share a name, so a list has at most as many names as courses. */
  lemma {:induction false} NombresAcotados(cs: seq<Curso>)
    ensures |Nombres(cs)| <= |cs|
  {
    if cs != [] {
      var u := cs[..|cs| - 1];
      NombresAcotados(u);
      assert cs == u + [cs[|cs| - 1]];
      NombresAnadir(u, cs[|cs| - 1]);
    }
  }

  /** The names `borrarCursosDe` reports number no more than the courses it removes. */
  lemma NombresBorradosAcotados(l: seq<Curso>, n: Nivel)
    ensures |Nombres(Borrados(l, n))| <= |Borrados(l, n)| <= |l|
  {
    NombresAcotados(Borrados(l, n));
    Particion(l, n);
  }

  /** Every course of the map in iteration order: keys in the given order, each key's list in order. */
  function Aplanar(ks: seq<string>, m: Catalogo): seq<Curso> {
    if ks == [] then [] else Aplanar(ks[..|ks| - 1], m) + Lista(m, ks[|ks| - 1])
  }

  /** The list under `k`, or none when `k` is absent. */
  function Lista(m: Catalogo, k: string): seq<Curso> {
    if k in m then m[k] else []
  }

  lemma AplanarSiguiente(ks: seq<string>, m: Catalogo, i: nat)
    requires i < |ks|
    ensures Aplanar(ks[..i + 1], m) == Aplanar(ks[..i], m) + Lista(m, ks[i])
  {
    assert ks[..i + 1][..i] == ks[..i];
  }

  /** Every key is in the map and already upper case. */
  ghost predicate ClavesEn(ks: seq<string>, m: Catalogo) {
    forall i :: 0 <= i < |ks| ==> ks[i] in m && EnMayusculas(ks[i])
  }

  lemma ClavesDelCatalogo(ks: seq<string>, m: Catalogo)
    requires forall k :: k in ks <==> k in m
    requires forall k :: k in m ==> EnMayusculas(k)
    ensures ClavesEn(ks, m)
  {
  }

  /** Looking a stored key up again after `toUpperCase` finds its own list. */
  lemma ListaDeClave(ks: seq<string>, m: Catalogo, i: nat)
    requires ClavesEn(ks, m) && i < |ks|
    ensures Mayusculas(ks[i]) in m && m[Mayusculas(ks[i])] == Lista(m, ks[i])
  {
    MayusculasIdempotente(ks[i]);
  }

  /** `k` is the first course in scan order whose date no other course precedes. */
  predicate PrimeroMasAntiguo(cs: seq<Curso>, k: int) {
    0 <= k < |cs| &&
    (forall j :: 0 <= j < |cs| ==> !Anterior(cs[j].fecha, cs[k].fecha)) &&
    (forall j :: 0 <= j < k ==> Anterior(cs[k].fecha, cs[j].fecha))
  }

  /** The name the sentinel course " a " gets once capitalised. */
  const Centinela: string := "A "

  lemma TrimCentinela()
    ensures Trim(" a ") == "a"
  {
    var s: string := [' ', 'a', ' '];
    assert s[1..] == ['a', ' '];
    assert QuitarInicio(s) == ['a', ' '];
    assert ['a', ' '][..1] == ['a'];
    assert QuitarFinal(['a', ' ']) == ['a'];
  }

  lemma NombreCentinela()
    ensures BienEspaciado(Trim(" a "))
    ensures Capitalizacion(" a ") == Some(Centinela)
  {
    TrimCentinela();
    var t: string := ['a'];
    assert Trim(" a ") == t;
    assert BienEspaciado(t);
    CapitalizacionPorCaracteres(" a ");
    assert MayusculaChar('a') == 'A';
    assert Iniciales(t) == ['A'];
    assert Iniciales(t) + " " == Centinela;
  }

  /**
   * The state of the scan of `cursoMasAntiguo` after the courses `p`: `b`
   * is the index of the current best in `p`, or -1 while the sentinel dated
   * `hoy` is still the best.
   */
  ghost predicate Escaneado(p: seq<Curso>, hoy: Fecha, mejor: Curso, b: int) {
    -1 <= b < |p| &&
    (b == -1 ==> mejor.fecha == hoy && mejor.nombre == Centinela &&
                 forall j :: 0 <= j < |p| ==> !Anterior(p[j].fecha, hoy)) &&
    (b >= 0 ==> mejor == p[b] && Anterior(p[b].fecha, hoy) && PrimeroMasAntiguo(p, b))
  }

  /** `PasoEscaneo` for the `j`-th course of the list scanned after `previos`. */
  lemma PasoLista(previos: seq<Curso>, cursos: seq<Curso>, j: nat, hoy: Fecha, mejor: Curso, b: int)
    requires j < |cursos|
    requires Escaneado(previos + cursos[..j], hoy, mejor, b)
    ensures Anterior(cursos[j].fecha, mejor.fecha) ==> Escaneado(previos + cursos[..j + 1], hoy, cursos[j], |previos| + j)
    ensures !Anterior(cursos[j].fecha, mejor.fecha) ==> Escaneado(previos + cursos[..j + 1], hoy, mejor, b)
  {
    PasoEscaneo(previos + cursos[..j], cursos[j], hoy, mejor, b);
    assert previos + cursos[..j] + [cursos[j]] == previos + cursos[..j + 1];
  }

  /** What a finished scan establishes about the name of its best course. */
  lemma FinEscaneo(todos: seq<Curso>, hoy: Fecha, mejor: Curso, b: int)
    requires Escaneado(todos, hoy, mejor, b)
    ensures (exists j :: 0 <= j < |todos| && Anterior(todos[j].fecha, hoy)) ==>
      exists k :: PrimeroMasAntiguo(todos, k) && mejor.nombre == todos[k].nombre
    ensures (forall j :: 0 <= j < |todos| ==> !Anterior(todos[j].fecha, hoy)) ==> mejor.nombre == Centinela
  {
  }

  /** One step of the scan: a strictly older course replaces the best, an equal one does not. */
  lemma PasoEscaneo(p: seq<Curso>, c: Curso, hoy: Fecha, mejor: Curso, b: int)
    requires Escaneado(p, hoy, mejor, b)
    ensures Anterior(c.fecha, mejor.fecha) ==> Escaneado(p + [c], hoy, c, |p|)
    ensures !Anterior(c.fecha, mejor.fecha) ==> Escaneado(p + [c], hoy, mejor, b)
  {
    var q := p + [c];
    assert forall j :: 0 <= j < |p| ==> q[j] == p[j];
  }

  class PlataformaCursos {
    var plataforma: Catalogo
    /** The keys of `plataforma` in `TreeMap` order. */
    var claves: seq<string>

    ghost predicate Valid()
      reads this
    {
      Ordenada(claves) &&
      (forall k :: k in claves <==> k in plataforma) &&
      (forall k :: k in plataforma ==> EnMayusculas(k))
    }

    constructor ()
      ensures Valid() && plataforma == map[] && claves == []
    {
      plataforma := map[];
      claves := [];
    }

    /** `totalCursosEn`: the number of courses of the category, or -1 when it is absent. */
    function TotalCursosEn(categoria: string): (r: int)
      reads this
      ensures r >= -1
      ensures r == -1 <==> Mayusculas(categoria) !in plataforma
      ensures r >= 0 ==> r == |plataforma[Mayusculas(categoria)]|
    {
      var k := Mayusculas(categoria);
      if k in plataforma then |plataforma[k]| else -1
    }

    method AddCurso(categoria: string, curso: Curso)
      requires Valid()
      modifies this
      ensures Valid()
      ensures plataforma == Anadido(old(plataforma), Mayusculas(categoria), curso)
      ensures claves == if Mayusculas(categoria) in old(plataforma) then old(claves)
                        else Insertar(old(claves), Mayusculas(categoria))
      ensures forall otra :: Mayusculas(otra) == Mayusculas(categoria) ==>
        TotalCursosEn(otra) == if old(TotalCursosEn(otra)) == -1 then 1 else old(TotalCursosEn(otra)) + 1
      ensures forall otra :: Mayusculas(otra) != Mayusculas(categoria) ==>
        TotalCursosEn(otra) == old(TotalCursosEn(otra))
    {
      var k := Mayusculas(categoria);
      MayusculasIdempotente(categoria);
      if k in plataforma {
        plataforma := plataforma[k := plataforma[k] + [curso]];
      } else {
        plataforma := plataforma[Mayusculas(k) := [curso]];
        InsertarOrdenada(claves, k);
        claves := Insertar(claves, k);
      }
    }

    /** `obtenerCategorias`: a fresh sorted set holding exactly the current keys. */
    function ObtenerCategorias(): (r: seq<string>)
      reads this
      requires Valid()
      ensures Ordenada(r)
      ensures forall k :: k in r <==> k in plataforma
      ensures forall i :: 0 <= i < |r| ==> EnMayusculas(r[i])
    {
      claves
    }

    /**
     * `borrarCursosDe`: remove from the category's list every course of the
     * given level, and return the sorted set of their names. The category
     * must exist (the source dereferences the missing list otherwise).
     */
    method BorrarCursosDe(categoria: string, nivel: Nivel) returns (cursosBorrados: seq<string>)
      requires Valid()
      requires Mayusculas(categoria) in plataforma
      modifies this
      ensures Valid()
      ensures plataforma == old(plataforma)[Mayusculas(categoria) := Conservados(old(plataforma)[Mayusculas(categoria)], nivel)]
      ensures claves == old(claves)
      ensures Ordenada(cursosBorrados)
      ensures Elementos(cursosBorrados) == Nombres(Borrados(old(plataforma)[Mayusculas(categoria)], nivel))
    {
      var k := Mayusculas(categoria);
      var cursos := plataforma[k];
      cursosBorrados := [];
      var quedan: seq<Curso> := [];
      var i := 0;
      while i < |cursos|
        invariant 0 <= i <= |cursos|
        invariant plataforma == old(plataforma) && claves == old(claves)
        invariant quedan == Conservados(cursos[..i], nivel)
        invariant Ordenada(cursosBorrados)
        invariant Elementos(cursosBorrados) == Nombres(Borrados(cursos[..i], nivel))
      {
        var curso := cursos[i];
        PasoBorrado(cursos, i, nivel);
        if curso.GetNivel() == nivel {
          InsertarOrdenada(cursosBorrados, curso.GetNombre());
          NombresAnadir(Borrados(cursos[..i], nivel), curso);
          cursosBorrados := Insertar(cursosBorrados, curso.GetNombre());
        } else {
          quedan := quedan + [curso];
        }
        i := i + 1;
      }
      assert cursos[..|cursos|] == cursos;
      plataforma := plataforma[k := quedan];
    }

    /**
     * `cursoMasAntiguo`, with the clock reading `hoy` as a parameter: the
     * name of the first course, in key order then list order, that no
     * course predates, provided it predates `hoy`; otherwise the name of
     * the sentinel course dated `hoy`.
     */
    method CursoMasAntiguo(hoy: Fecha) returns (nombre: string)
      requires Valid()
      ensures var todos := Aplanar(claves, plataforma);
        (exists j :: 0 <= j < |todos| && Anterior(todos[j].fecha, hoy)) ==>
          exists k :: PrimeroMasAntiguo(todos, k) && nombre == todos[k].nombre
      ensures var todos := Aplanar(claves, plataforma);
        (forall j :: 0 <= j < |todos| ==> !Anterior(todos[j].fecha, hoy)) ==> nombre == Centinela
    {
      NombreCentinela();
      var centinela := new Curso(" a ", hoy, Principiante);
      ClavesDelCatalogo(claves, plataforma);
      var cursoMasAntiguo, b := EscanearCatalogo(claves, plataforma, hoy, centinela);
      FinEscaneo(Aplanar(claves, plataforma), hoy, cursoMasAntiguo, b);
      nombre := cursoMasAntiguo.GetNombre();
    }

    /**
     * The outer loop of `cursoMasAntiguo`: scan the lists of the keys in
     * order, starting from the sentinel course dated `hoy`.
     */
    static method EscanearCatalogo(ks: seq<string>, m: Catalogo, hoy: Fecha, centinela: Curso)
      returns (mejor: Curso, ghost b: int)
      requires ClavesEn(ks, m)
      requires centinela.fecha == hoy && centinela.nombre == Centinela
      ensures Escaneado(Aplanar(ks, m), hoy, mejor, b)
    {
      mejor, b := centinela, -1;
      var i := 0;
      while i < |ks|
        invariant 0 <= i <= |ks|
        invariant Escaneado(Aplanar(ks[..i], m), hoy, mejor, b)
      {
        var nombreCategoria := ks[i];
        ListaDeClave(ks, m, i);
        var cursos := m[Mayusculas(nombreCategoria)];
        ghost var previos := Aplanar(ks[..i], m);
        mejor, b := EscanearLista(cursos, hoy, mejor, previos, b);
        AplanarSiguiente(ks, m, i);
        i := i + 1;
      }
      PrefijoEntero(ks);
    }

    /**
     * The inner loop of `cursoMasAntiguo`: scan one category's list in
     * order, replacing the best course by every strictly older one.
     * `previos` are the courses already scanned and `b` the ghost index of
     * the best among them.
     */
    static method EscanearLista(cursos: seq<Curso>, hoy: Fecha, mejor: Curso, ghost previos: seq<Curso>, ghost b: int)
      returns (nuevo: Curso, ghost nb: int)
      requires Escaneado(previos, hoy, mejor, b)
      ensures Escaneado(previos + cursos, hoy, nuevo, nb)
    {
      nuevo, nb := mejor, b;
      assert previos + cursos[..0] == previos;
      var j := 0;
      while j < |cursos|
        invariant 0 <= j <= |cursos|
        invariant Escaneado(previos + cursos[..j], hoy, nuevo, nb)
      {
        var curso := cursos[j];
        PasoLista(previos, cursos, j, hoy, nuevo, nb);
        if Anterior(curso.GetFecha(), nuevo.GetFecha()) {
          nb := |previos| + j;
          nuevo := curso;
        }
        j := j + 1;
      }
      assert cursos[..|cursos|] == cursos;
    }

    /**
     * `obtenerCurso`: split the description at ':', trim every field, and
     * build the course; each exception the source can raise is a `Failure`.
     */
    static method ObtenerCurso(lineaCurso: string) returns (r: Result<Curso, Fallo>)
      ensures match r
        case Success(c) => DatosCurso(lineaCurso) == Success(Datos(c.nombre, c.fecha, c.nivel))
        case Failure(e) => DatosCurso(lineaCurso) == Failure(e)
    {
      var aux := Split(lineaCurso, ':');
      var linea: seq<string> := [];
      for i := 0 to |aux|
        invariant |linea| == i
        invariant forall j :: 0 <= j < i ==> linea[j] == Trim(aux[j])
      {
        linea := linea + [Trim(aux[i])];
      }
      CamposCalculados(lineaCurso, aux, linea);
      if |linea| < 2 {
        return Failure(FaltaCampo);
      }
      var fecha := FechaDeCampo(linea[1]);
      if fecha.Failure? {
        return Failure(fecha.error);
      }
      if |linea| < 3 {
        return Failure(FaltaCampo);
      }
      var nivel := NivelDe(Mayusculas(linea[2]));
      if nivel.None? {
        return Failure(NivelDesconocido);
      }
      // the constructor's capitalizarNombre throws on a name that is not well spaced
      CapitalizacionFalla(linea[0]);
      if !BienEspaciado(Trim(linea[0])) {
        return Failure(NombreInvalido);
      }
      var curso := new Curso(linea[0], fecha.value, nivel.value);
      return Success(curso);
    }

    /**
     * One iteration of `leerDeFichero`: trim the line, cut the category at
     * the first ':', parse the rest and add the course under the category.
     * A line that makes the source throw leaves the platform as it was.
     */
    method LeerLinea(lineaCurso: string) returns (fallo: Option<Fallo>)
      requires Valid()
      modifies this
      ensures Valid()
      ensures match ParsearLinea(lineaCurso)
        case Failure(e) => fallo == Some(e) && plataforma == old(plataforma) && claves == old(claves)
        case Success(reg) =>
          var k := Mayusculas(reg.categoria);
          fallo == None &&
          (exists c: Curso :: Datos(c.nombre, c.fecha, c.nivel) == reg.datos && plataforma == Anadido(old(plataforma), k, c)) &&
          claves == if k in old(plataforma) then old(claves) else Insertar(old(claves), k)
    {
      var l := Trim(lineaCurso);
      var p := IndiceDe(l, ':');
      if p == -1 {
        assert ParsearLinea(lineaCurso) == Failure(SinSeparador);
        return Some(SinSeparador);
      }
      var categoria := Trim(l[..p]);
      var curso := ObtenerCurso(l[p + 1..]);
      if curso.Failure? {
        assert ParsearLinea(lineaCurso) == Failure(curso.error);
        return Some(curso.error);
      }
      var c := curso.value;
      assert ParsearLinea(lineaCurso) == Success(Registro(categoria, Datos(c.nombre, c.fecha, c.nivel)));
      AddCurso(categoria, c);
      return None;
    }
  }
}
