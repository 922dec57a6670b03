/** Small facts about slicing and appending sequences, shared by the loops of the model. */
module Secuencias {

  lemma PrefijoEntero<T>(s: seq<T>)
    ensures s[..|s|] == s
  {
  }

  lemma PrefijoSiguiente<T>(s: seq<T>, i: nat)
    requires i < |s|
    ensures s[..i + 1] == s[..i] + [s[i]]
  {
  }

  lemma MultisetUltimo<T>(s: seq<T>, x: T)
    ensures multiset(s + [x]) == multiset(s) + multiset{x}
  {
  }
}
