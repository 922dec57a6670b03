/** A course: its level, its name normalisation and the immutable `Curso` object. */
module Cursos {
  import opened Wrappers
  import opened Texto
  import opened Fechas
  import opened Secuencias

  /** The `Nivel` enum. */
  datatype Nivel = Principiante | Intermedio | Avanzado

  /**
   * A trimmed name whose words, split at single spaces, are all non-empty:
   * not empty, no space at either end, never two spaces in a row.
   */
  predicate BienEspaciado(t: string) {
    |t| > 0 && t[0] != ' ' && t[|t| - 1] != ' ' &&
    forall i :: 0 <= i < |t| - 1 && t[i] == ' ' ==> t[i + 1] != ' '
  }

  /** No word is empty (so `substring(0, 1)` succeeds on each). */
  predicate SinVacias(ws: seq<string>) {
    forall i :: 0 <= i < |ws| ==> ws[i] != []
  }

  /** One word as the loop of `capitalizarNombre` emits it: first character upper-cased, the rest as is, then a space. */
  function PalabraCapitalizada(w: string): string
    requires w != []
  {
    [MayusculaChar(w[0])] + w[1..] + " "
  }

  function Capitalizadas(ws: seq<string>): string
    requires SinVacias(ws)
  {
    if ws == [] then "" else PalabraCapitalizada(ws[0]) + Capitalizadas(ws[1..])
  }

  /**
   * What `capitalizarNombre` computes: the words of the trimmed name, each
   * capitalised and followed by a space; `None` when an empty word makes
   * `substring(0, 1)` throw.
   */
  function Capitalizacion(nombre: string): Option<string> {
    var ws := Split(Trim(nombre), ' ');
    if SinVacias(ws) then Some(Capitalizadas(ws)) else None
  }

  /** Reference definition: upper-case every character that starts a word, keep the others. */
  function Iniciales(t: string): (r: string)
    ensures |r| == |t|
  {
    seq(|t|, i requires 0 <= i < |t| => if i == 0 || t[i - 1] == ' ' then MayusculaChar(t[i]) else t[i])
  }

  lemma {:induction false} CapitalizadasAnadir(ws: seq<string>, w: string)
    requires SinVacias(ws)
    requires w != []
    ensures Capitalizadas(ws + [w]) == Capitalizadas(ws) + PalabraCapitalizada(w)
  {
    if ws == [] {
      assert [w][1..] == [];
    } else {
      assert (ws + [w])[1..] == ws[1..] + [w];
      CapitalizadasAnadir(ws[1..], w);
    }
  }

  lemma InicialesPalabra(a: string)
    requires a != [] && ' ' !in a
    ensures Iniciales(a) == [MayusculaChar(a[0])] + a[1..]
  {
  }

  /** Positions after a space are capitalised independently on each side of it. */
  lemma InicialesConcat(a: string, b: string)
    requires a != [] && ' ' !in a
    ensures Iniciales(a + " " + b) == Iniciales(a) + " " + Iniciales(b)
  {
    var t := a + " " + b;
    var l := Iniciales(a) + " " + Iniciales(b);
    forall i | 0 <= i < |t| ensures Iniciales(t)[i] == l[i] {
      if i < |a| {
        if i > 0 { assert t[i - 1] == a[i - 1]; }
      } else if i == |a| {
        assert t[i - 1] == a[|a| - 1];
      } else {
        var j := i - |a| - 1;
        if j > 0 { assert t[i - 1] == b[j - 1]; }
      }
    }
  }

  /** A well-spaced string is one word, or a word, a space and a well-spaced rest. */
  lemma Descomponer(t: string) returns (p: nat)
    requires BienEspaciado(t) && ' ' in t
    ensures 0 < p < |t| - 1
    ensures t == t[..p] + " " + t[p + 1..] && ' ' !in t[..p]
    ensures BienEspaciado(t[p + 1..])
  {
    p := IndiceDe(t, ' ');
    assert t == t[..p] + " " + t[p + 1..];
    RestoBienEspaciado(t, p);
  }

  /** What follows a space of a well-spaced string is well spaced. */
  lemma RestoBienEspaciado(t: string, p: nat)
    requires BienEspaciado(t) && 0 < p < |t| - 1 && t[p] == ' '
    ensures BienEspaciado(t[p + 1..])
  {
    var b := t[p + 1..];
    assert b[0] == t[p + 1];
    forall i | 0 <= i < |b| - 1 && b[i] == ' ' ensures b[i + 1] != ' ' {
      assert b[i] == t[p + 1 + i] && b[i + 1] == t[p + 2 + i];
    }
  }

  /** Well-spaced strings have only non-empty pieces, and capitalising them is `Iniciales` plus a space. */
  lemma {:induction false} CapitalizadasDeTrozos(t: string)
    requires BienEspaciado(t)
    ensures SinVacias(Trozos(t, ' '))
    ensures Capitalizadas(Trozos(t, ' ')) == Iniciales(t) + " "
    decreases |t|
  {
    if ' ' !in t {
      TrozosSinSeparador(t, ' ');
      assert Capitalizadas([t]) == PalabraCapitalizada(t) + Capitalizadas([]);
      InicialesPalabra(t);
    } else {
      var p := Descomponer(t);
      var a, b := t[..p], t[p + 1..];
      CapitalizadasDeTrozos(b);
      CapitalizadasPrimera(a, b);
    }
  }

  /** The first word and the rest of a string are capitalised separately. */
  lemma CapitalizadasPrimera(a: string, b: string)
    requires a != [] && ' ' !in a
    requires SinVacias(Trozos(b, ' ')) && Capitalizadas(Trozos(b, ' ')) == Iniciales(b) + " "
    ensures SinVacias(Trozos(a + " " + b, ' '))
    ensures Capitalizadas(Trozos(a + " " + b, ' ')) == Iniciales(a + " " + b) + " "
  {
    TrozosConcat(a, b, ' ');
    var ws := [a] + Trozos(b, ' ');
    assert ws[1..] == Trozos(b, ' ');
    InicialesConcat(a, b);
    InicialesPalabra(a);
  }

  /** Conversely, only well-spaced strings have no empty piece. */
  lemma {:induction false} TrozosNoVacios(t: string)
    requires SinVacias(Trozos(t, ' '))
    ensures BienEspaciado(t)
    decreases |t|
  {
    if ' ' !in t {
      TrozosSinSeparador(t, ' ');
      assert Trozos(t, ' ')[0] == t;
    } else {
      var p := IndiceDe(t, ' ');
      var a, b := t[..p], t[p + 1..];
      assert t == a + " " + b;
      TrozosConcat(a, b, ' ');
      assert Trozos(t, ' ')[0] == a;
      assert forall i :: 0 <= i < |Trozos(b, ' ')| ==> Trozos(b, ' ')[i] == Trozos(t, ' ')[i + 1];
      TrozosNoVacios(b);
      forall i | 0 <= i < |t| - 1 && t[i] == ' ' ensures t[i + 1] != ' ' {
        if i > p {
          assert t[i] == b[i - p - 1] && t[i + 1] == b[i - p];
        } else {
          assert i == p;
          assert t[i + 1] == b[0];
        }
      }
    }
  }

  /** `capitalizarNombre` throws exactly when its trimmed argument is not well spaced. */
  lemma CapitalizacionFalla(nombre: string)
    ensures Capitalizacion(nombre).None? <==> !BienEspaciado(Trim(nombre))
  {
    var t := Trim(nombre);
    if t != [] {
      SplitSinVaciasFinales(t, ' ');
      if BienEspaciado(t) {
        CapitalizadasDeTrozos(t);
      } else if SinVacias(Trozos(t, ' ')) {
        TrozosNoVacios(t);
      }
    } else {
      assert Split(t, ' ') == [""];
    }
  }

  /** `capitalizarNombre` trims first, so trimming its argument beforehand changes nothing. */
  lemma CapitalizacionTrim(nombre: string)
    ensures Capitalizacion(Trim(nombre)) == Capitalizacion(nombre)
  {
    TrimIdempotente(nombre);
  }

  /**
   * For a well-spaced name the result is the trimmed name with every word's
   * first character upper-cased (the rest untouched) and one trailing space.
   */
  lemma CapitalizacionPorCaracteres(nombre: string)
    requires BienEspaciado(Trim(nombre))
    ensures Capitalizacion(nombre) == Some(Iniciales(Trim(nombre)) + " ")
    ensures var r := Capitalizacion(nombre).value;
      |r| == |Trim(nombre)| + 1 && r[|r| - 1] == ' ' && !Blanco(r[0])
  {
    var t := Trim(nombre);
    SplitSinVaciasFinales(t, ' ');
    CapitalizadasDeTrozos(t);
  }

  /** `Iniciales` keeps the spaces where they were and is idempotent. */
  lemma InicialesIdempotente(t: string)
    ensures forall i :: 0 <= i < |t| ==> (Iniciales(t)[i] == ' ' <==> t[i] == ' ')
    ensures Iniciales(Iniciales(t)) == Iniciales(t)
  {
    var c := Iniciales(t);
    forall i | 0 <= i < |t| ensures Iniciales(c)[i] == c[i] {
      if i > 0 {
        assert c[i - 1] == ' ' <==> t[i - 1] == ' ';
      }
    }
  }

  /** Capitalising a capitalised name changes nothing. */
  lemma CapitalizacionIdempotente(nombre: string)
    requires BienEspaciado(Trim(nombre))
    ensures Capitalizacion(nombre).Some?
    ensures Capitalizacion(Capitalizacion(nombre).value) == Capitalizacion(nombre)
  {
    var t := Trim(nombre);
    CapitalizacionPorCaracteres(nombre);
    var c := Iniciales(t);
    InicialesBordes(t);
    InicialesBienEspaciado(t);
    TrimEspacioFinal(c);
    CapitalizacionPorCaracteres(c + " ");
    InicialesIdempotente(t);
  }

  /** Capitalising keeps a name well spaced. */
  lemma InicialesBienEspaciado(t: string)
    requires BienEspaciado(t)
    ensures BienEspaciado(Iniciales(t))
  {
    var c := Iniciales(t);
    InicialesIdempotente(t);
    assert c[0] != ' ' && c[|c| - 1] != ' ';
    forall i | 0 <= i < |c| - 1 && c[i] == ' ' ensures c[i + 1] != ' ' {
      assert t[i] == ' ';
    }
  }

  /** Capitalising keeps a name without blanks at either end. */
  lemma InicialesBordes(t: string)
    requires t != [] && !Blanco(t[0]) && !Blanco(t[|t| - 1])
    ensures var c := Iniciales(t); !Blanco(c[0]) && !Blanco(c[|c| - 1])
  {
  }

  lemma CapitalizacionDePalabras(nombre: string, ws: seq<string>)
    requires ws == Split(Trim(nombre), ' ')
    ensures Capitalizacion(nombre) == if SinVacias(ws) then Some(Capitalizadas(ws)) else None
  {
  }

  /** One turn of the loop of `capitalizarNombre` on a non-empty word. */
  lemma PasoCapitalizar(ws: seq<string>, i: nat, sb: string)
    requires i < |ws| && ws[i] != []
    requires SinVacias(ws[..i]) && sb == Capitalizadas(ws[..i])
    ensures SinVacias(ws[..i + 1])
    ensures sb + [MayusculaChar(ws[i][0])] + ws[i][1..] + " " == Capitalizadas(ws[..i + 1])
  {
    CapitalizadasAnadir(ws[..i], ws[i]);
    PrefijoSiguiente(ws, i);
    AnadirPalabra(sb, ws[i]);
  }

  lemma AnadirPalabra(previo: string, w: string)
    requires w != []
    ensures previo + [MayusculaChar(w[0])] + w[1..] + " " == previo + PalabraCapitalizada(w)
  {
  }

  /**
   * A course. Its three fields are assigned once, by the constructor, and
   * never change.
   */
  class Curso {
    const nombre: string
    const fecha: Fecha
    const nivel: Nivel

    /** Stores the capitalised name; the source's constructor throws when the name is not well spaced. */
    constructor (nombre: string, fecha: Fecha, nivel: Nivel)
      requires BienEspaciado(Trim(nombre))
      ensures Capitalizacion(nombre) == Some(this.nombre)
      ensures this.fecha == fecha && this.nivel == nivel
    {
      CapitalizacionFalla(nombre);
      var capitalizado := CapitalizarNombre(nombre);
      this.nombre := capitalizado.value;
      this.fecha := fecha;
      this.nivel := nivel;
    }

    /** The loop of `capitalizarNombre`; `None` stands for the exception an empty word raises. */
    static method CapitalizarNombre(nombre: string) returns (r: Option<string>)
      ensures r == Capitalizacion(nombre)
    {
      var aux := Trim(nombre);
      var palabras := Split(aux, ' ');
      CapitalizacionDePalabras(nombre, palabras);
      var sb := "";
      for i := 0 to |palabras|
        invariant SinVacias(palabras[..i])
        invariant sb == Capitalizadas(palabras[..i])
      {
        var palabra := palabras[i];
        if palabra == [] {
          return None;
        }
        PasoCapitalizar(palabras, i, sb);
        sb := sb + [MayusculaChar(palabra[0])];
        sb := sb + palabra[1..] + " ";
      }
      PrefijoEntero(palabras);
      return Some(sb);
    }

    function GetNombre(): (r: string)
      ensures r == nombre
    {
      nombre
    }

    function GetNivel(): (r: Nivel)
      ensures r == nivel
    {
      nivel
    }

    function GetFecha(): (r: Fecha)
      ensures r == fecha
    {
      fecha
    }
  }
}
