/** A course (Alura\Solid\Model\Curso): videos accepted only from three
    minutes on, feedbacks always accepted, and a loop that watches every video. */
module Cursos {
  import opened Resultados
  import opened Feedbacks
  import opened Videos

  class Curso {
    const nome: string
    /** `recuperarVideos()` returns this list, in insertion order. */
    var videos: seq<Video>
    var feedbacks: seq<Feedback>

    constructor (nome: string)
      ensures this.nome == nome && videos == [] && feedbacks == []
    {
      this.nome := nome;
      videos := [];
      feedbacks := [];
    }

    /** `receberFeedback`: appends the feedback whatever the score argument. */
    method ReceberFeedback(nota: int, feedback: Feedback)
      modifies this
      ensures feedbacks == old(feedbacks) + [feedback]
      ensures videos == old(videos)
    {
      feedbacks := feedbacks + [feedback];
    }

    /** `adicionarVideo`: a video under three minutes is rejected and nothing
        changes; any other is appended at the end. */
    method AdicionarVideo(video: Video) returns (r: Outcome)
      modifies this
      ensures r.Fail? <==> video.MinutosDeDuracao() < 3
      ensures r.Fail? ==> r.error == VideoMuitoCurto
      ensures videos == if r.Pass? then old(videos) + [video] else old(videos)
      ensures feedbacks == old(feedbacks)
    {
      if video.MinutosDeDuracao() < 3 {
        return Fail(VideoMuitoCurto);
      }
      videos := videos + [video];
      return Pass;
    }

    /** `assistir`: every video of the course is watched afterwards; the list
        itself and the videos' durations are unchanged. */
    method Assistir()
      modifies videos
      ensures videos == old(videos)
      ensures forall v :: v in videos ==> v.assistido
      ensures forall v :: v in videos ==> v.duracaoMinutos == old(v.duracaoMinutos)
    {
      for i := 0 to |videos|
        invariant forall j :: 0 <= j < i ==> videos[j].assistido
        invariant forall v :: v in videos ==> v.duracaoMinutos == old(v.duracaoMinutos)
      {
        videos[i].Assistir();
      }
    }
  }

  /** A freshly constructed video, plain or Alura+, lasts zero minutes, so a
      course always rejects it. */
  method VideoNovoRecusado(nomeCurso: string, nomeVideo: string, categoria: Option<string>) returns (r: Outcome)
    ensures r == Fail(VideoMuitoCurto)
  {
    var curso := new Curso(nomeCurso);
    var video: Video;
    if categoria.Some? {
      video := new Video.AluraMais(nomeVideo, categoria.value);
    } else {
      video := new Video(nomeVideo);
    }
    r := curso.AdicionarVideo(video);
  }
}
