/** The order status enum (Vendas\Domain\Enum\StatusPedido), a string-backed
    PHP enum with three predicates. */
module Enums {
  import opened Resultados

  datatype StatusPedido = Rascunho | Confirmado | Cancelado

  /** The backing string of each case; `tryFrom` gives the case back. */
  function Valor(s: StatusPedido): (r: string)
    ensures DeValor(r) == Some(s)
  {
    match s
    case Rascunho => "rascunho"
    case Confirmado => "confirmado"
    case Cancelado => "cancelado"
  }

  /** `StatusPedido::tryFrom`, which every string-backed PHP enum has: the case
      whose backing string is `v`, if any. */
  function DeValor(v: string): (r: Option<StatusPedido>)
    ensures r.Some? ==> v in {"rascunho", "confirmado", "cancelado"}
  {
    if v == "rascunho" then Some(Rascunho)
    else if v == "confirmado" then Some(Confirmado)
    else if v == "cancelado" then Some(Cancelado)
    else None
  }

  /** Items may be changed only in draft; whatever may be changed may also
      be confirmed and cancelled. */
  predicate PodeSerAlterado(s: StatusPedido): (r: bool)
    ensures r ==> PodeSerConfirmado(s) && PodeSerCancelado(s)
  {
    s == Rascunho
  }

  /** Only a draft may be confirmed, so a confirmed order cannot be confirmed again. */
  predicate PodeSerConfirmado(s: StatusPedido): (r: bool)
    ensures r ==> s != Confirmado && s != Cancelado
  {
    s == Rascunho
  }

  /** Draft and confirmed orders may be cancelled. */
  predicate PodeSerCancelado(s: StatusPedido): (r: bool)
    ensures r <==> s == Rascunho || s == Confirmado
  {
    s != Cancelado
  }

  /** The backing strings are distinct, so the case-to-string map is injective
      and `tryFrom` inverts it. */
  lemma ValorInjetivo(a: StatusPedido, b: StatusPedido)
    ensures Valor(a) == Valor(b) ==> a == b
    ensures DeValor(Valor(a)) == Some(a)
    ensures forall v :: DeValor(v) == Some(a) ==> Valor(a) == v
  {
  }

  /** Which cases each predicate accepts, stated positively. */
  lemma PredicadosDeStatus(s: StatusPedido)
    ensures PodeSerAlterado(s) <==> s == Rascunho
    ensures PodeSerConfirmado(s) <==> s == Rascunho
    ensures PodeSerCancelado(s) <==> s == Rascunho || s == Confirmado
  {
  }

  /** Whatever may be modified may also be confirmed and cancelled. */
  lemma AlteravelEConfirmavelECancelavel(s: StatusPedido)
    requires PodeSerAlterado(s)
    ensures PodeSerConfirmado(s) && PodeSerCancelado(s)
  {
  }
}
