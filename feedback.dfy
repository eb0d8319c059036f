/** A course feedback (Feedback): a score and an optional testimonial, which a
    low score makes mandatory. */
module Feedbacks {
  import opened Resultados

  /** `getNota()` and `getDepoimento()` are the destructors. */
  datatype Feedback = Feedback(nota: int, depoimento: Option<string>)

  /** PHP's `empty()` on a `?string`: null, the empty string and "0". */
  predicate Vazio(depoimento: Option<string>): (r: bool)
    ensures depoimento.Some? && |depoimento.value| > 1 ==> !r
  {
    depoimento.None? || depoimento.value == "" || depoimento.value == "0"
  }

  /** `new Feedback($nota, $depoimento)`: a score below 9 needs a non-empty
      testimonial; otherwise both arguments are stored unchanged. */
  function NovoFeedback(nota: int, depoimento: Option<string>): (r: Result<Feedback>)
    ensures r.Failure? <==> nota < 9 && Vazio(depoimento)
    ensures r.Failure? ==> r.error == DepoimentoObrigatorio
    ensures r.Success? ==> r.value.nota == nota && r.value.depoimento == depoimento
  {
    if nota < 9 && Vazio(depoimento) then Failure(DepoimentoObrigatorio)
    else Success(Feedback(nota, depoimento))
  }

  /** A score of 9 or more is accepted with no testimonial at all. */
  lemma NotaAltaDispensaDepoimento(nota: int, depoimento: Option<string>)
    requires nota >= 9
    ensures NovoFeedback(nota, depoimento) == Success(Feedback(nota, depoimento))
  {
  }

  /** Any score is accepted with a testimonial that PHP does not consider empty. */
  lemma DepoimentoPreenchidoAceito(nota: int, depoimento: string)
    requires depoimento != "" && depoimento != "0"
    ensures NovoFeedback(nota, Some(depoimento)) == Success(Feedback(nota, Some(depoimento)))
  {
  }
}
