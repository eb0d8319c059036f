/** The URL slug of an Alura+ video (AluraMais::recuperarUrl):
    `str_replace(' ', '-', strtolower($categoria))`. */
module Slugs {

  /** `strtolower` on one character: ASCII upper-case letters only. */
  function Minuscula(c: char): char {
    if 'A' <= c <= 'Z' then (c as int - 'A' as int + 'a' as int) as char else c
  }

  /** `str_replace(' ', '-', ...)` on one character. */
  function SemEspaco(c: char): char {
    if c == ' ' then '-' else c
  }

  /** `strtolower`: every character lower-cased, in place. */
  function ParaMinusculas(s: string): (r: string)
    ensures |r| == |s|
    ensures forall i :: 0 <= i < |s| ==> r[i] == Minuscula(s[i])
  {
    if s == [] then [] else [Minuscula(s[0])] + ParaMinusculas(s[1..])
  }

  /** `str_replace(' ', '-', ...)`: every space replaced by a dash, in place. */
  function SubstituirEspacos(s: string): (r: string)
    ensures |r| == |s|
    ensures forall i :: 0 <= i < |s| ==> r[i] == SemEspaco(s[i])
  {
    if s == [] then [] else [SemEspaco(s[0])] + SubstituirEspacos(s[1..])
  }

  /** `recuperarUrl`'s transform: lower-case, then spaces to dashes. */
  function Slug(categoria: string): (r: string)
    ensures |r| == |categoria|
    ensures forall i :: 0 <= i < |categoria| ==> r[i] == SemEspaco(Minuscula(categoria[i]))
  {
    SubstituirEspacos(ParaMinusculas(categoria))
  }

  /** The slug has the category's length, each character lower-cased with
      spaces turned into dashes: no space and no ASCII upper-case letter is
      left, and every other character is kept. */
  lemma SlugForma(categoria: string)
    ensures |Slug(categoria)| == |categoria|
    ensures forall i :: 0 <= i < |categoria| ==> Slug(categoria)[i] == SemEspaco(Minuscula(categoria[i]))
    ensures forall i :: 0 <= i < |categoria| ==> Slug(categoria)[i] != ' ' && !('A' <= Slug(categoria)[i] <= 'Z')
    ensures forall i :: 0 <= i < |categoria| && categoria[i] != ' ' && !('A' <= categoria[i] <= 'Z')
                        ==> Slug(categoria)[i] == categoria[i]
  {
  }

  /** Taking the slug of a slug changes nothing. */
  lemma SlugIdempotente(categoria: string)
    ensures Slug(Slug(categoria)) == Slug(categoria)
  {
    var s := Slug(categoria);
    assert forall i :: 0 <= i < |s| ==> Slug(s)[i] == s[i];
  }
}
