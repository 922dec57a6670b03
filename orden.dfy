/**
 * The order of `String.compareTo` (first differing character decides; a
 * proper prefix comes first), and the sorted sets built on it: the key
 * order of a `TreeMap<String, _>` and the contents of a `TreeSet<String>`.
 */
module Orden {

  /** `a.compareTo(b) < 0`. */
  predicate Menor(a: string, b: string) {
    if a == [] then b != []
    else b != [] && (if a[0] == b[0] then Menor(a[1..], b[1..]) else a[0] < b[0])
  }

  lemma {:induction false} MenorIrreflexivo(a: string)
    ensures !Menor(a, a)
  {
    if a != [] {
      MenorIrreflexivo(a[1..]);
    }
  }

  lemma {:induction false} MenorTransitivo(a: string, b: string, c: string)
    requires Menor(a, b) && Menor(b, c)
    ensures Menor(a, c)
  {
    if a != [] && a[0] == b[0] && b[0] == c[0] {
      MenorTransitivo(a[1..], b[1..], c[1..]);
    }
  }

  lemma {:induction false} MenorTotal(a: string, b: string)
    requires a != b
    ensures Menor(a, b) || Menor(b, a)
  {
    if a != [] && b != [] && a[0] == b[0] {
      assert a == [a[0]] + a[1..] && b == [b[0]] + b[1..];
      MenorTotal(a[1..], b[1..]);
    }
  }

  /** Strictly increasing: the iteration order of a TreeSet or of a TreeMap's keys. */
  predicate Ordenada(s: seq<string>) {
    forall i, j :: 0 <= i < j < |s| ==> Menor(s[i], s[j])
  }

  function Elementos(s: seq<string>): set<string> {
    set x | x in s
  }

  /** `TreeSet.add` / the key part of `TreeMap.put`: insert `x` at its place unless present. */
  function Insertar(s: seq<string>, x: string): seq<string> {
    if s == [] then [x]
    else if x == s[0] then s
    else if Menor(x, s[0]) then [x] + s
    else [s[0]] + Insertar(s[1..], x)
  }

  /** Insertion keeps the sequence strictly sorted and adds exactly `x`. */
  lemma {:induction false} InsertarOrdenada(s: seq<string>, x: string)
    requires Ordenada(s)
    ensures Ordenada(Insertar(s, x))
    ensures forall y :: y in Insertar(s, x) <==> y in s || y == x
    ensures Elementos(Insertar(s, x)) == Elementos(s) + {x}
  {
    if s == [] {
    } else if x == s[0] {
    } else if Menor(x, s[0]) {
      var r := [x] + s;
      forall i, j | 0 <= i < j < |r| ensures Menor(r[i], r[j]) {
        if i == 0 && j > 1 {
          MenorTransitivo(x, s[0], s[j - 1]);
        }
      }
    } else {
      MenorTotal(x, s[0]);
      assert Ordenada(s[1..]);
      InsertarOrdenada(s[1..], x);
      var t := Insertar(s[1..], x);
      var r := [s[0]] + t;
      forall i, j | 0 <= i < j < |r| ensures Menor(r[i], r[j]) {
        if i == 0 {
          assert r[j] in t;
          if r[j] != x {
            var k :| 0 <= k < |s[1..]| && s[1..][k] == r[j];
            assert s[k + 1] == r[j];
          }
        }
      }
      assert s == [s[0]] + s[1..];
    }
  }
}
