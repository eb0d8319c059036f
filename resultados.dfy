/** Failure-compatible wrappers shared by the whole model, and the exceptions
    the PHP classes throw, one constructor per message. */
module Resultados {

  datatype Option<+T> = None | Some(value: T)

  /** Every exception the modelled classes throw. */
  datatype Erro =
    | ValorNegativo           // Dinheiro: "O valor do dinheiro não pode ser negativo."
    | MoedasDiferentes        // Dinheiro: "As moedas devem ser iguais para realizar operações."
    | FatorNegativo           // Dinheiro::multiplicar: "O quantidade não pode ser negativo."
    | QuantidadeInvalida      // ItemPedido: "A quantidade deve ser maior que zero."
    | PedidoNaoAlteravel      // Pedido: "O pedido não pode ser alterado no status atual."
    | NaoPodeConfirmar        // Pedido: "O pedido não pode ser confirmado no status atual."
    | NaoPodeCancelar         // Pedido: "O pedido não pode ser cancelado no status atual."
    | DepoimentoObrigatorio   // Feedback: "Depoimento obrigatório"
    | VideoMuitoCurto         // Curso: "Video muito curto"

  /** A value, or the exception that interrupted its computation. */
  datatype Result<+T> = Success(value: T) | Failure(error: Erro) {
    predicate IsFailure() { Failure? }

    function PropagateFailure<U>(): Result<U>
      requires Failure?
    {
      Failure(error)
    }

    function Extract(): T
      requires Success?
    {
      value
    }
  }

  /** The outcome of a `void` PHP method: it returned, or it threw. */
  datatype Outcome = Pass | Fail(error: Erro)
}
