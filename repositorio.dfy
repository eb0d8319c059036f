/** The order repository contract (Vendas\Domain\Interface\PedidoRepositoryInterface),
    given by an in-memory reference store: `salvar` assigns a new id to an
    order that has none and stores a snapshot; `buscarPorId` finds it again. */
module Repositorios {
  import opened Resultados
  import opened Enums
  import opened ItensPedido
  import opened Pedidos

  /** What a repository keeps of an order: its id, status and items. */
  datatype PedidoSalvo = PedidoSalvo(id: int, status: StatusPedido, itens: seq<ItemPedido>)

  class RepositorioPedidos {
    /** The stored orders, by id. */
    var pedidos: map<int, PedidoSalvo>
    /** The id the next insert receives (an auto-increment counter). */
    var proximoId: int
    /** Every call to `salvar`, in order. */
    ghost var salvos: seq<PedidoSalvo>

    ghost predicate Valid()
      reads this
    {
      && proximoId >= 1
      && forall k :: k in pedidos ==> k < proximoId && pedidos[k].id == k
    }

    constructor ()
      ensures Valid()
      ensures pedidos == map[] && proximoId == 1 && salvos == []
    {
      pedidos := map[];
      proximoId := 1;
      salvos := [];
    }

    /** `buscarPorId`: the order stored under `id`, or nothing. */
    function BuscarPorId(id: int): (r: Option<PedidoSalvo>)
      reads this
      requires Valid()
      ensures r.Some? <==> id in pedidos
      ensures r.Some? ==> r.value == pedidos[id] && r.value.id == id && id < proximoId
    {
      if id in pedidos then Some(pedidos[id]) else None
    }

    /** `salvar`: an order without an id receives the next id, which no stored
        order has; then its current status and items are stored under its id,
        where `buscarPorId` finds them again. Status and items of the order
        are not touched. */
    method Salvar(p: Pedido)
      requires Valid()
      modifies this, p
      ensures Valid()
      ensures old(p.id).None? ==> p.id == Some(old(proximoId)) && old(proximoId) !in old(pedidos)
                                  && proximoId == old(proximoId) + 1
      ensures old(p.id).Some? ==> p.id == old(p.id)
                                  && proximoId == if old(p.id).value >= old(proximoId) then old(p.id).value + 1 else old(proximoId)
      ensures p.status == old(p.status) && p.itens == old(p.itens)
      ensures p.id.Some?
      ensures pedidos == old(pedidos)[p.id.value := PedidoSalvo(p.id.value, p.status, p.itens)]
      ensures salvos == old(salvos) + [PedidoSalvo(p.id.value, p.status, p.itens)]
      ensures BuscarPorId(p.id.value) == Some(PedidoSalvo(p.id.value, p.status, p.itens))
    {
      if p.id.None? {
        p.id := Some(proximoId);
        proximoId := proximoId + 1;
      } else if p.id.value >= proximoId {
        proximoId := p.id.value + 1;
      }
      var snapshot := PedidoSalvo(p.id.value, p.status, p.itens);
      pedidos := pedidos[snapshot.id := snapshot];
      salvos := salvos + [snapshot];
    }
  }
}
