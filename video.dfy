/** A course video (Alura\Solid\Model\Video) and its Alura+ subclass
    (AluraMais). Dafny classes cannot extend classes, so one class carries the
    optional category that makes a video an Alura+ one. */
module Videos {
  import opened Resultados
  import opened Slugs

  class Video {
    var assistido: bool
    const nome: string
    /** The minutes field of the `DateInterval` duration. */
    var duracaoMinutos: int
    /** `Some(categoria)` for an `AluraMais`, `None` for a plain `Video`. */
    const categoria: Option<string>

    /** `new Video($nome)`: unwatched, with a zero duration. */
    constructor (nome: string)
      ensures !assistido && this.nome == nome && categoria == None
      ensures MinutosDeDuracao() == 0 && RecuperaPontuacao() == 100
    {
      this.nome := nome;
      assistido := false;
      duracaoMinutos := 0;
      categoria := None;
    }

    /** `new AluraMais($nome, $categoria)`: the parent's defaults, and the
        category stored unchanged; a fresh one scores 0. */
    constructor AluraMais(nome: string, categoria: string)
      ensures !assistido && this.nome == nome && this.categoria == Some(categoria)
      ensures MinutosDeDuracao() == 0 && RecuperaPontuacao() == 0
    {
      this.nome := nome;
      assistido := false;
      duracaoMinutos := 0;
      this.categoria := Some(categoria);
    }

    /** `assistir`: marks the video watched and changes nothing else; doing it
        again leaves the same state. */
    method Assistir()
      modifies this
      ensures assistido
      ensures duracaoMinutos == old(duracaoMinutos)
    {
      assistido := true;
    }

    /** `minutosDeDuracao`: the stored minutes; no method but the
        constructors sets them. */
    function MinutosDeDuracao(): (r: int)
      reads this
      ensures r == duracaoMinutos
    {
      duracaoMinutos
    }

    /** `recuperaPontuacao`: 100 for a plain video; twice the minutes for an
        Alura+ one. */
    function RecuperaPontuacao(): (r: int)
      reads this
      ensures categoria.None? ==> r == 100
      ensures categoria.Some? ==> r == 2 * MinutosDeDuracao()
    {
      if categoria.Some? then MinutosDeDuracao() * 2 else 100
    }

    /** `AluraMais::recuperarUrl`: the category's slug. */
    function RecuperarUrl(): (r: string)
      reads this
      requires categoria.Some?
      ensures r == Slug(categoria.value)
      ensures |r| == |categoria.value| && Slug(r) == r
    {
      SlugIdempotente(categoria.value);
      Slug(categoria.value)
    }
  }

  /** A plain video always scores the constant 100, whatever its state. */
  lemma PontuacaoVideo(v: Video)
    requires v.categoria.None?
    ensures v.RecuperaPontuacao() == 100
  {
  }

  /** An Alura+ video scores twice its minutes. */
  lemma PontuacaoAluraMais(v: Video)
    requires v.categoria.Some?
    ensures v.RecuperaPontuacao() == 2 * v.MinutosDeDuracao()
  {
  }
}
