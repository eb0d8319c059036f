/** The order creation use case (Vendas\Application\Service\CriarPedidoHandler):
    build one item per input record, add them to a new order, confirm it,
    save it once and return the id the repository assigned. */
module Servicos {
  import opened Resultados
  import opened ValueObjects
  import opened Enums
  import opened ItensPedido
  import opened Pedidos
  import opened Repositorios

  /** One input record: the keys `produtoId`, `descricao`, `quantidade` and
      `precoUnitario` the handler reads. */
  datatype DadosItem = DadosItem(produtoId: int, descricao: string, quantidade: int, precoUnitario: real)

  /** The item one record yields: the price is built first (in reais), then
      the item, so a negative price is reported before a bad quantity. */
  function ItemDe(d: DadosItem): (r: Result<ItemPedido>)
    ensures r.Success? <==> d.precoUnitario >= 0.0 && d.quantidade > 0
    ensures d.precoUnitario < 0.0 ==> r == Failure(ValorNegativo)
    ensures d.precoUnitario >= 0.0 && d.quantidade <= 0 ==> r == Failure(QuantidadeInvalida)
    ensures r.Success? ==> ItemValido(r.value)
                           && r.value == ItemPedido(d.produtoId, d.quantidade, Dinheiro(d.precoUnitario, "BRL"), d.descricao)
  {
    var preco :- NovoDinheiro(d.precoUnitario, "BRL");
    NovoItemPedido(d.produtoId, d.quantidade, preco, d.descricao)
  }

  /** The items of the whole input, in order, stopping at the first record
      that throws. */
  function ItensDe(dados: seq<DadosItem>): Result<seq<ItemPedido>>
    decreases |dados|
  {
    if dados == [] then Success([])
    else
      var item :- ItemDe(dados[0]);
      var resto :- ItensDe(dados[1..]);
      Success([item] + resto)
  }

  predicate DadoValido(d: DadosItem) {
    d.precoUnitario >= 0.0 && d.quantidade > 0
  }

  /** Reference definition: the sum of unit price times quantity over the records. */
  function SomaDados(dados: seq<DadosItem>): real {
    if dados == [] then 0.0
    else dados[0].precoUnitario * dados[0].quantidade as real + SomaDados(dados[1..])
  }

  /** The input yields items exactly when every record is valid. */
  lemma {:induction false} ItensDeSucesso(dados: seq<DadosItem>)
    ensures ItensDe(dados).Success? <==> forall k :: 0 <= k < |dados| ==> DadoValido(dados[k])
    decreases |dados|
  {
    if dados != [] {
      ItensDeSucesso(dados[1..]);
      forall k | 1 <= k < |dados| ensures dados[k] == dados[1..][k - 1] { }
    }
  }

  /** On success there is one item per record, in input order: the record's
      product, description and quantity, its price in reais. */
  lemma {:induction false} ItensDeElementos(dados: seq<DadosItem>)
    requires ItensDe(dados).Success?
    ensures |ItensDe(dados).value| == |dados|
    ensures forall k :: 0 <= k < |dados| ==> ItemDe(dados[k]) == Success(ItensDe(dados).value[k])
    decreases |dados|
  {
    if dados != [] {
      ItensDeElementos(dados[1..]);
      var itens := ItensDe(dados).value;
      var resto := ItensDe(dados[1..]).value;
      assert itens == [ItemDe(dados[0]).value] + resto;
      assert ItemDe(dados[0]) == Success(itens[0]);
      forall k | 1 <= k < |dados| ensures ItemDe(dados[k]) == Success(itens[k]) {
        assert dados[k] == dados[1..][k - 1] && itens[k] == resto[k - 1];
      }
    }
  }

  /** On failure the error is the one of the first invalid record. */
  lemma {:induction false} ItensDeFalha(dados: seq<DadosItem>)
    requires ItensDe(dados).Failure?
    ensures exists j :: 0 <= j < |dados| && ItemDe(dados[j]) == Failure(ItensDe(dados).error)
                        && forall k :: 0 <= k < j ==> DadoValido(dados[k])
    decreases |dados|
  {
    if ItemDe(dados[0]).Failure? {
      assert ItemDe(dados[0]) == Failure(ItensDe(dados).error);
    } else {
      ItensDeFalha(dados[1..]);
      var j :| 0 <= j < |dados[1..]| && ItemDe(dados[1..][j]) == Failure(ItensDe(dados[1..]).error)
               && forall k :: 0 <= k < j ==> DadoValido(dados[1..][k]);
      assert dados[j + 1] == dados[1..][j];
      forall k | 1 <= k < j + 1 ensures DadoValido(dados[k]) {
        assert dados[k] == dados[1..][k - 1];
      }
      assert ItemDe(dados[j + 1]) == Failure(ItensDe(dados).error);
    }
  }

  /** The subtotals of the items add up to the records' price times quantity. */
  lemma {:induction false} ItensDeSoma(dados: seq<DadosItem>)
    requires ItensDe(dados).Success?
    ensures SomaSubtotais(ItensDe(dados).value) == SomaDados(dados)
    decreases |dados|
  {
    if dados != [] {
      ItensDeSoma(dados[1..]);
      var itens := ItensDe(dados).value;
      assert itens == [ItemDe(dados[0]).value] + ItensDe(dados[1..]).value;
      assert itens[1..] == ItensDe(dados[1..]).value;
    }
  }

  /** The order the handler saves totals the records' price times quantity,
      in reais. */
  lemma TotalDoPedidoCriado(dados: seq<DadosItem>)
    requires ItensDe(dados).Success?
    ensures TotalDe(ItensDe(dados).value) == Success(Dinheiro(SomaDados(dados), "BRL"))
  {
    var itens := ItensDe(dados).value;
    ItensDeElementos(dados);
    ItensDeSoma(dados);
    assert ItensValidos(itens) && TodosEmReais(itens) by {
      forall k | 0 <= k < |itens| ensures ItemValido(itens[k]) && itens[k].precoUnitario.moeda == "BRL" {
        assert ItemDe(dados[k]) == Success(itens[k]);
      }
    }
    TotalCorreto(itens);
  }

  /** Prefixes `prefixo` to a successful list of items; keeps a failure. */
  function Anexar(prefixo: seq<ItemPedido>, r: Result<seq<ItemPedido>>): Result<seq<ItemPedido>> {
    match r
    case Success(resto) => Success(prefixo + resto)
    case Failure(e) => Failure(e)
  }

  class CriarPedidoHandler {
    const repositorio: RepositorioPedidos

    constructor (repositorio: RepositorioPedidos)
      ensures this.repositorio == repositorio
    {
      this.repositorio := repositorio;
    }

    /** `handle`: on success exactly one order was saved, after all its items
        were built and it was confirmed: the records' items in input order,
        status confirmed, under a new id, which is returned. On failure the
        first invalid record's exception is returned and nothing was saved. */
    method Handle(dados: seq<DadosItem>) returns (r: Result<int>)
      requires repositorio.Valid()
      modifies repositorio
      ensures repositorio.Valid()
      ensures r.Success? <==> ItensDe(dados).Success?
      ensures r.Failure? ==> r.error == ItensDe(dados).error && unchanged(repositorio)
      ensures r.Success? ==>
                && r.value == old(repositorio.proximoId)
                && repositorio.proximoId == old(repositorio.proximoId) + 1
                && r.value !in old(repositorio.pedidos)
                && repositorio.salvos == old(repositorio.salvos) + [PedidoSalvo(r.value, Confirmado, ItensDe(dados).value)]
                && repositorio.pedidos == old(repositorio.pedidos)[r.value := PedidoSalvo(r.value, Confirmado, ItensDe(dados).value)]
    {
      var pedido := new Pedido(None);
      assert dados[0..] == dados;
      if ItensDe(dados).Success? {
        assert [] + ItensDe(dados).value == ItensDe(dados).value;
      }
      for i := 0 to |dados|
        invariant pedido.Valid() && pedido.status == Rascunho && pedido.id == None
        invariant ItensDe(dados) == Anexar(pedido.itens, ItensDe(dados[i..]))
        invariant unchanged(repositorio)
      {
        assert dados[i..][0] == dados[i] && dados[i..][1..] == dados[i + 1..];
        var item := ItemDe(dados[i]);
        if item.Failure? {
          return Failure(item.error);
        }
        ghost var antes := pedido.itens;
        var adicionado := pedido.AdicionarItem(item.value);
        if ItensDe(dados[i + 1..]).Success? {
          var resto := ItensDe(dados[i + 1..]).value;
          assert pedido.itens + resto == antes + ([item.value] + resto);
        }
      }
      assert dados[|dados|..] == [];
      assert pedido.itens + [] == pedido.itens;
      assert ItensDe(dados) == Success(pedido.itens);
      var confirmado := pedido.Confirmar();
      repositorio.Salvar(pedido);
      return Success(pedido.id.value);
    }
  }
}
