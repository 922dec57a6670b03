/**
 * The few `java.lang.String` operations the catalogue relies on:
 * `trim`, `split` on a single literal character, `indexOf` and
 * `toUpperCase` (restricted to ASCII letters).
 */
module Texto {

  /** `String.trim` strips every character whose code is at most U+0020. */
  predicate Blanco(c: char) {
    c <= ' '
  }

  function QuitarInicio(s: string): (r: string)
    ensures |r| <= |s| && r == s[|s| - |r|..]
    ensures forall i :: 0 <= i < |s| - |r| ==> Blanco(s[i])
    ensures r == [] || !Blanco(r[0])
  {
    if |s| > 0 && Blanco(s[0]) then QuitarInicio(s[1..]) else s
  }

  function QuitarFinal(s: string): (r: string)
    ensures |r| <= |s| && r == s[..|r|]
    ensures forall i :: |r| <= i < |s| ==> Blanco(s[i])
    ensures r == [] || !Blanco(r[|r| - 1])
  {
    if |s| > 0 && Blanco(s[|s| - 1]) then QuitarFinal(s[..|s| - 1]) else s
  }

  /** `String.trim`: the longest infix that neither starts nor ends with a blank. */
  function Trim(s: string): (r: string)
    ensures r == [] || (!Blanco(r[0]) && !Blanco(r[|r| - 1]))
    ensures |r| <= |s|
  {
    QuitarFinal(QuitarInicio(s))
  }

  /** Trimming never introduces a character. */
  lemma TrimSinCaracter(s: string, c: char)
    requires c !in s
    ensures c !in Trim(s)
  {
    var a := QuitarInicio(s);
    assert c !in a;
  }

  lemma QuitarFinalSinBorde(s: string)
    requires s == [] || !Blanco(s[|s| - 1])
    ensures QuitarFinal(s) == s
  {
  }

  /** A string that neither starts nor ends with a blank is its own trim. */
  lemma TrimSinBordes(s: string)
    requires s == [] || (!Blanco(s[0]) && !Blanco(s[|s| - 1]))
    ensures Trim(s) == s
  {
  }

  lemma TrimIdempotente(s: string)
    ensures Trim(Trim(s)) == Trim(s)
  {
    TrimSinBordes(Trim(s));
  }

  /** Trimming `s + " "` drops exactly the appended space. */
  lemma TrimEspacioFinal(s: string)
    requires s != [] && !Blanco(s[0]) && !Blanco(s[|s| - 1])
    ensures Trim(s + " ") == s
  {
    var t := s + " ";
    assert QuitarInicio(t) == t;
    assert t[..|t| - 1] == s;
    assert QuitarFinal(t) == QuitarFinal(s) == s;
  }

  /** Leading blanks of a prefix are all that `QuitarInicio` removes when the rest starts with a non-blank. */
  lemma {:induction false} QuitarInicioConcat(a: string, b: string)
    requires b != [] && !Blanco(b[0])
    ensures QuitarInicio(a + b) == QuitarInicio(a) + b
  {
    if a != [] {
      assert (a + b)[0] == a[0];
      if Blanco(a[0]) {
        assert (a + b)[1..] == a[1..] + b;
        QuitarInicioConcat(a[1..], b);
      }
    } else {
      assert a + b == b;
    }
  }

  /** Every character of `b` is one `trim` strips. */
  predicate Blancos(b: string) {
    forall i :: 0 <= i < |b| ==> Blanco(b[i])
  }

  /** Once a prefix has a non-blank, what follows it is kept whole by `QuitarInicio`. */
  lemma {:induction false} QuitarInicioPrefijo(a: string, b: string)
    requires QuitarInicio(a) != []
    ensures QuitarInicio(a + b) == QuitarInicio(a) + b
  {
    assert a != [];
    assert (a + b)[0] == a[0];
    if Blanco(a[0]) {
      assert (a + b)[1..] == a[1..] + b;
      QuitarInicioPrefijo(a[1..], b);
    }
  }

  /** Trailing blanks are all that `QuitarFinal` removes from them. */
  lemma {:induction false} QuitarFinalBlancos(x: string, bl: string)
    requires Blancos(bl)
    ensures QuitarFinal(x + bl) == QuitarFinal(x)
    decreases |bl|
  {
    if bl == [] {
      assert x + bl == x;
    } else {
      var u := bl[..|bl| - 1];
      var t := x + bl;
      assert t[..|t| - 1] == x + u;
      assert Blanco(t[|t| - 1]);
      QuitarFinalBlancos(x, u);
    }
  }

  /** Appending blanks to a string with a non-blank does not change its trim. */
  lemma TrimBlancosFinales(x: string, bl: string)
    requires QuitarInicio(x) != [] && Blancos(bl)
    ensures Trim(x + bl) == Trim(x)
  {
    QuitarInicioPrefijo(x, bl);
    QuitarFinalBlancos(QuitarInicio(x), bl);
  }

  /** A string of blanks trims to nothing. */
  lemma TrimBlancos(b: string)
    requires Blancos(b)
    ensures QuitarInicio(b) == [] && Trim(b) == []
  {
  }

  /** A field with blanks on both sides trims to the field itself. */
  lemma TrimRodeado(b: string, x: string, c: string)
    requires Blancos(b) && Blancos(c)
    requires x != [] && !Blanco(x[0]) && !Blanco(x[|x| - 1])
    ensures Trim(b + x + c) == x
  {
    assert b + x + c == b + (x + c);
    QuitarInicioConcat(b, x + c);
    TrimBlancos(b);
    assert QuitarInicio(b + x + c) == x + c;
    QuitarFinalBlancos(x, c);
    QuitarFinalSinBorde(x);
  }

  /** Dropping the trailing blanks first does not change the trim. */
  lemma TrimQuitarFinal(s: string)
    ensures Trim(QuitarFinal(s)) == Trim(s)
  {
    var nv := QuitarFinal(s);
    var bl := s[|nv|..];
    assert s == nv + bl;
    assert Blancos(bl);
    if QuitarInicio(nv) == [] {
      assert nv == [];
      TrimBlancos(s);
    } else {
      TrimBlancosFinales(nv, bl);
    }
  }

  /** `String.indexOf(char)`: the first position of `c`, or -1. */
  function IndiceDe(s: string, c: char): (r: int)
    ensures -1 <= r < |s|
    ensures r == -1 <==> c !in s
    ensures r >= 0 ==> s[r] == c && c !in s[..r]
  {
    if s == [] then -1
    else if s[0] == c then 0
    else
      var k := IndiceDe(s[1..], c);
      assert s[1..][..if k < 0 then 0 else k] == s[1..1 + if k < 0 then 0 else k];
      if k == -1 then -1 else k + 1
  }

  /** `Character.toUpperCase` restricted to ASCII: only 'a'..'z' change. */
  function MayusculaChar(c: char): (r: char)
    ensures !('a' <= r <= 'z')
    ensures r == ' ' <==> c == ' '
    ensures Blanco(r) <==> Blanco(c)
  {
    if 'a' <= c <= 'z' then (c as int - 32) as char else c
  }

  /** `String.toUpperCase`, character by character. */
  function Mayusculas(s: string): (r: string)
    ensures |r| == |s|
    ensures forall i :: 0 <= i < |s| ==> r[i] == MayusculaChar(s[i])
  {
    seq(|s|, i requires 0 <= i < |s| => MayusculaChar(s[i]))
  }

  predicate EnMayusculas(s: string) {
    forall i :: 0 <= i < |s| ==> !('a' <= s[i] <= 'z')
  }

  /** Upper-casing yields an upper-case string, leaves upper-case strings alone, and so is idempotent. */
  lemma MayusculasIdempotente(s: string)
    ensures EnMayusculas(Mayusculas(s))
    ensures EnMayusculas(s) ==> Mayusculas(s) == s
    ensures Mayusculas(Mayusculas(s)) == Mayusculas(s)
  {
    assert EnMayusculas(Mayusculas(s));
    forall t | EnMayusculas(t) ensures Mayusculas(t) == t {
      assert forall i :: 0 <= i < |t| ==> Mayusculas(t)[i] == t[i];
    }
  }

  /**
   * The pieces between occurrences of `c`, empty ones included: a string
   * with k occurrences of `c` has k + 1 pieces.
   */
  function Trozos(s: string, c: char): (r: seq<string>)
    ensures |r| >= 1
  {
    if s == [] then [""]
    else
      var resto := Trozos(s[1..], c);
      if s[0] == c then [""] + resto
      else [[s[0]] + resto[0]] + resto[1..]
  }

  function QuitarVaciasFinales(ps: seq<string>): (r: seq<string>)
    ensures |r| <= |ps| && r == ps[..|r|]
    ensures r == [] || r[|r| - 1] != ""
  {
    if ps != [] && ps[|ps| - 1] == "" then QuitarVaciasFinales(ps[..|ps| - 1]) else ps
  }

  /**
   * `String.split(String.valueOf(c))` with the default limit: a string
   * without `c` gives itself alone; otherwise the pieces with the trailing
   * empty ones removed.
   */
  function Split(s: string, c: char): (r: seq<string>)
    ensures c !in s ==> r == [s]
  {
    TrozosSinSeparador(s, c);
    var ps := Trozos(s, c);
    if |ps| == 1 then ps else QuitarVaciasFinales(ps)
  }

  lemma {:induction false} TrozosSinSeparador(s: string, c: char)
    ensures c !in s <==> Trozos(s, c) == [s]
    ensures c in s ==> |Trozos(s, c)| > 1
  {
    if s != [] {
      TrozosSinSeparador(s[1..], c);
      assert s == [s[0]] + s[1..];
    }
  }

  /** Splitting at the first separator: the prefix is the first piece. */
  lemma {:induction false} TrozosConcat(a: string, b: string, c: char)
    requires c !in a
    ensures Trozos(a + [c] + b, c) == [a] + Trozos(b, c)
  {
    if a == [] {
      assert a + [c] + b == [c] + b;
      assert ([c] + b)[1..] == b;
    } else {
      var s := a + [c] + b;
      assert s[0] == a[0] && s[1..] == a[1..] + [c] + b;
      TrozosConcat(a[1..], b, c);
      assert [a[0]] + a[1..] == a;
    }
  }

  /** A string that does not end with the separator has a non-empty last piece. */
  lemma {:induction false} TrozosUltimo(s: string, c: char)
    requires s != [] && s[|s| - 1] != c
    ensures var ps := Trozos(s, c); ps[|ps| - 1] != ""
  {
    if |s| > 1 {
      assert s[1..][|s[1..]| - 1] == s[|s| - 1];
      TrozosUltimo(s[1..], c);
    }
  }

  /** When the last piece is non-empty, `Split` keeps every piece. */
  lemma SplitSinVaciasFinales(s: string, c: char)
    requires s != [] && s[|s| - 1] != c
    ensures Split(s, c) == Trozos(s, c)
  {
    var ps := Trozos(s, c);
    TrozosUltimo(s, c);
    assert ps != [] && ps[|ps| - 1] != "";
    assert QuitarVaciasFinales(ps) == ps;
  }
}
