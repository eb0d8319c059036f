/** The order line item (Vendas\Domain\Entity\ItemPedido): immutable after a
    validating constructor. */
module ItensPedido {
  import opened Resultados
  import opened ValueObjects

  /** Fields in the order of the PHP constructor's parameters. The PHP
      accessors (`produtoId()`, `qantidade()`, `precoUnitario()`,
      `descricao()`) are the datatype's destructors. */
  datatype ItemPedido = ItemPedido(produtoId: int, quantidade: int, precoUnitario: Dinheiro, descricao: string)

  /** What the constructor and the `Dinheiro` type guarantee of every item. */
  predicate ItemValido(i: ItemPedido) {
    i.quantidade > 0 && Valido(i.precoUnitario)
  }

  /** `validarPedido`: a quantity must be positive. */
  function ValidarPedido(quantidade: int): (r: Outcome)
    ensures r.Pass? <==> quantidade > 0
    ensures r.Fail? ==> r.error == QuantidadeInvalida
  {
    if quantidade <= 0 then Fail(QuantidadeInvalida) else Pass
  }

  /** `new ItemPedido(...)`: validates the quantity, then stores the arguments
      unchanged. */
  function NovoItemPedido(produtoId: int, quantidade: int, precoUnitario: Dinheiro, descricao: string): (r: Result<ItemPedido>)
    ensures r.Success? <==> quantidade > 0
    ensures r.Failure? ==> r.error == QuantidadeInvalida
    ensures r.Success? ==> r.value.produtoId == produtoId && r.value.quantidade == quantidade
                           && r.value.precoUnitario == precoUnitario && r.value.descricao == descricao
    ensures r.Success? && Valido(precoUnitario) ==> ItemValido(r.value)
  {
    match ValidarPedido(quantidade)
    case Fail(e) => Failure(e)
    case Pass => Success(ItemPedido(produtoId, quantidade, precoUnitario, descricao))
  }

  /** `subtotal()`: the unit price times the quantity. For a constructed item
      it never fails, and it keeps the unit price's currency. */
  function Subtotal(i: ItemPedido): (r: Result<Dinheiro>)
    ensures ItemValido(i) ==> r == Success(Dinheiro(i.precoUnitario.valor * i.quantidade as real, i.precoUnitario.moeda))
    ensures r.Success? ==> Valido(r.value) && r.value.moeda == i.precoUnitario.moeda
  {
    assert ItemValido(i) ==> i.quantidade as real >= 0.0;
    Multiplicar(i.precoUnitario, i.quantidade as real)
  }
}
