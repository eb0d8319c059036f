/** The order aggregate root (Vendas\Domain\Entity\Pedido): an ordered list of
    items that may grow only in draft, a status moved by guarded transitions,
    and a total folded over the item subtotals. */
module Pedidos {
  import opened Resultados
  import opened ValueObjects
  import opened Enums
  import opened ItensPedido

  /** Every item is a constructed `ItemPedido`. */
  predicate ItensValidos(itens: seq<ItemPedido>) {
    forall k :: 0 <= k < |itens| ==> ItemValido(itens[k])
  }

  /** The folding step of `total()`: starting from `acc`, add each item's
      subtotal in list order, stopping at the first exception. */
  function SomarDesde(acc: Dinheiro, itens: seq<ItemPedido>): Result<Dinheiro>
    decreases |itens|
  {
    if itens == [] then Success(acc)
    else
      match Subtotal(itens[0])
      case Failure(e) => Failure(e)
      case Success(s) =>
        match Sumar(acc, s)
        case Failure(e) => Failure(e)
        case Success(t) => SomarDesde(t, itens[1..])
  }

  /** What `total()` computes: the fold started from zero reais. */
  function TotalDe(itens: seq<ItemPedido>): Result<Dinheiro> {
    SomarDesde(Dinheiro(0.0, "BRL"), itens)
  }

  /** Reference definition: the sum of unit price times quantity over the items. */
  function SomaSubtotais(itens: seq<ItemPedido>): real {
    if itens == [] then 0.0
    else itens[0].precoUnitario.valor * itens[0].quantidade as real + SomaSubtotais(itens[1..])
  }

  predicate TodosEmReais(itens: seq<ItemPedido>) {
    forall k :: 0 <= k < |itens| ==> itens[k].precoUnitario.moeda == "BRL"
  }

  /** The fold adds every subtotal to the accumulator when every item is
      priced in reais, and fails with a currency mismatch otherwise. */
  lemma {:induction false} SomarDesdeCorreto(acc: Dinheiro, itens: seq<ItemPedido>)
    requires Valido(acc) && acc.moeda == "BRL" && ItensValidos(itens)
    ensures SomarDesde(acc, itens) ==
              if TodosEmReais(itens) then Success(Dinheiro(acc.valor + SomaSubtotais(itens), "BRL"))
              else Failure(MoedasDiferentes)
    decreases |itens|
  {
    if itens != [] {
      var s := Subtotal(itens[0]);
      assert ItemValido(itens[0]);
      if s.value.moeda == "BRL" {
        var t := Sumar(acc, s.value).value;
        assert ItensValidos(itens[1..]) by {
          forall k | 0 <= k < |itens[1..]| ensures ItemValido(itens[1..][k]) {
            assert itens[1..][k] == itens[k + 1];
          }
        }
        SomarDesdeCorreto(t, itens[1..]);
        assert TodosEmReais(itens) <==> TodosEmReais(itens[1..]) by {
          if TodosEmReais(itens[1..]) {
            forall k | 0 <= k < |itens| ensures itens[k].precoUnitario.moeda == "BRL" {
              if k > 0 { assert itens[k] == itens[1..][k - 1]; }
            }
          }
          if TodosEmReais(itens) {
            forall k | 0 <= k < |itens[1..]| ensures itens[1..][k].precoUnitario.moeda == "BRL" {
              assert itens[1..][k] == itens[k + 1];
            }
          }
        }
      } else {
        assert !TodosEmReais(itens);
      }
    }
  }

  /** `total()`: the sum of the subtotals in reais, zero reais for an empty
      order; any item priced in another currency makes it fail. */
  lemma TotalCorreto(itens: seq<ItemPedido>)
    requires ItensValidos(itens)
    ensures TodosEmReais(itens) ==> TotalDe(itens) == Success(Dinheiro(SomaSubtotais(itens), "BRL"))
    ensures !TodosEmReais(itens) ==> TotalDe(itens) == Failure(MoedasDiferentes)
    ensures itens == [] ==> TotalDe(itens) == Success(Dinheiro(0.0, "BRL"))
  {
    SomarDesdeCorreto(Dinheiro(0.0, "BRL"), itens);
  }

  /** Two items, 2 x 50 BRL and 1 x 100 BRL, total 200 BRL. */
  lemma TotalExemplo()
    ensures TotalDe([ItemPedido(1, 2, Dinheiro(50.0, "BRL"), "Produto A"),
                     ItemPedido(2, 1, Dinheiro(100.0, "BRL"), "Produto B")])
            == Success(Dinheiro(200.0, "BRL"))
  {
    var itens := [ItemPedido(1, 2, Dinheiro(50.0, "BRL"), "Produto A"),
                  ItemPedido(2, 1, Dinheiro(100.0, "BRL"), "Produto B")];
    assert ItemValido(itens[0]) && ItemValido(itens[1]);
    TotalCorreto(itens);
    assert itens[1..][1..] == [];
  }

  class Pedido {
    /** `id()`, `status()` and `itens()` read these fields. The creation
        timestamp is a clock read and is not part of this model. */
    var id: Option<int>
    var itens: seq<ItemPedido>
    var status: StatusPedido

    ghost predicate Valid()
      reads this
    {
      ItensValidos(itens)
    }

    /** `new Pedido($id)`: a draft with no items and the given id, if any. */
    constructor (id: Option<int>)
      ensures Valid()
      ensures this.id == id && itens == [] && status == Rascunho
    {
      this.id := id;
      itens := [];
      status := Rascunho;
    }

    /** `assertPodeAlterar`: passes only while the order is a draft. */
    method AssertPodeAlterar() returns (r: Outcome)
      ensures r.Pass? <==> status == Rascunho
      ensures r.Fail? ==> r.error == PedidoNaoAlteravel
    {
      if !PodeSerAlterado(status) {
        return Fail(PedidoNaoAlteravel);
      }
      return Pass;
    }

    /** `adicionarItem`: appends the item at the end while in draft; otherwise
        fails and changes nothing. */
    method AdicionarItem(item: ItemPedido) returns (r: Outcome)
      requires Valid() && ItemValido(item)
      modifies this
      ensures Valid()
      ensures r.Pass? <==> old(status) == Rascunho
      ensures r.Fail? ==> r.error == PedidoNaoAlteravel
      ensures itens == if r.Pass? then old(itens) + [item] else old(itens)
      ensures status == old(status) && id == old(id)
    {
      r := AssertPodeAlterar();
      if r.Pass? {
        itens := itens + [item];
      }
    }

    /** `confirmar`: draft becomes confirmed; from any other status it fails
        and nothing changes. */
    method Confirmar() returns (r: Outcome)
      requires Valid()
      modifies this
      ensures Valid()
      ensures r.Pass? <==> old(status) == Rascunho
      ensures r.Fail? ==> r.error == NaoPodeConfirmar
      ensures status == if r.Pass? then Confirmado else old(status)
      ensures itens == old(itens) && id == old(id)
    {
      if !PodeSerConfirmado(status) {
        return Fail(NaoPodeConfirmar);
      }
      status := Confirmado;
      return Pass;
    }

    /** `cancelar`: draft or confirmed becomes cancelled; an already cancelled
        order fails and nothing changes. */
    method Cancelar() returns (r: Outcome)
      requires Valid()
      modifies this
      ensures Valid()
      ensures r.Pass? <==> old(status) != Cancelado
      ensures r.Fail? ==> r.error == NaoPodeCancelar
      ensures status == Cancelado
      ensures itens == old(itens) && id == old(id)
    {
      if !PodeSerCancelado(status) {
        return Fail(NaoPodeCancelar);
      }
      status := Cancelado;
      return Pass;
    }

    /** `total()`: the `foreach` loop that folds `sumar` over the subtotals,
        starting from `new Dinheiro(0, 'BRL')`. */
    method Total() returns (r: Result<Dinheiro>)
      ensures r == TotalDe(itens)
    {
      var zero := NovoDinheiro(0.0, "BRL");
      var total := zero.value;
      for i := 0 to |itens|
        invariant SomarDesde(total, itens[i..]) == TotalDe(itens)
      {
        assert itens[i..][0] == itens[i] && itens[i..][1..] == itens[i + 1..];
        var subtotal := Subtotal(itens[i]);
        if subtotal.Failure? {
          return Failure(subtotal.error);
        }
        var soma := Sumar(total, subtotal.value);
        if soma.Failure? {
          return Failure(soma.error);
        }
        total := soma.value;
      }
      return Success(total);
    }
  }

  /** Confirming twice fails the second time; cancelling after confirming
      succeeds, and cancelling again fails. Neither path returns to draft. */
  method CicloDeVida() returns (primeira: Outcome, segunda: Outcome, cancela: Outcome, recancela: Outcome)
    ensures primeira == Pass && segunda == Fail(NaoPodeConfirmar)
    ensures cancela == Pass && recancela == Fail(NaoPodeCancelar)
  {
    var p := new Pedido(None);
    primeira := p.Confirmar();
    segunda := p.Confirmar();
    cancela := p.Cancelar();
    recancela := p.Cancelar();
  }
}
