# Order sales domain and course model, in Dafny

This project models two parts of a PHP repository and proves properties of
them.

**Sales (`DDD/Vendas`).** It covers these parts:

- `Dinheiro`: an immutable money value. It holds a non-negative amount and a currency code.
- `StatusPedido`: the order status enum (`rascunho`, `confirmado`, `cancelado`) and its three predicates.
- `ItemPedido`: an immutable line item. Its constructor rejects a quantity that is not positive.
- `Pedido`: the order aggregate. It is a class holding an id, an ordered item list that grows only in draft, and a status moved by guarded transitions. Its `total()` folds `sumar` over the item subtotals, starting from zero reais.
- `CriarPedidoHandler::handle`: builds one item per input record, adds them to a new order, confirms it, saves it once through the repository, and returns the assigned id.

**Course model (`SOLID/src/Model`).** It covers these parts:

- `Feedback` and its constructor rule.
- `Video` and its Alura+ subclass `AluraMais`. Alura+ videos have a slug URL and a duration-based score.
- `Curso`: a course whose video list accepts only videos of three minutes or more. Its `assistir` loop marks every video watched.

Modelling choices:

- PHP exceptions become `Result` / `Outcome` values carrying an `Erro`. There is one `Erro` constructor per thrown message.
- PHP floats are exact reals.
- Value objects are datatypes with a validity predicate. That predicate states what the PHP constructor guarantees of every instance: `Valido` for money, `ItemValido` for items.
- Objects whose fields change in place are classes.
- The getters `id()`, `status()`, `itens()`, `recuperarVideos()`, `valor()`, `getMoeda()`, `getNota()`, `getDepoimento()` and the `ItemPedido` accessors are the fields or datatype destructors they return.
- Dafny classes cannot extend classes. So `Video` carries an optional category: `Some` marks an `AluraMais`.
- The repository interface is given by an in-memory reference store, `RepositorioPedidos`. It keeps the stored orders by id, an auto-increment counter, and a ghost log of every `salvar` call. That log is how "saved exactly once" is stated.

Two behaviours of the PHP code worth knowing:

- `total()` always starts from 0 BRL, not from the first item's currency. So an order priced entirely in another currency fails with a currency mismatch.
- The `ItemPedido` constructor does not check the product id or the description.

## Model

| member | source | states |
|---|---|---|
| `ValueObjects.NovoDinheiro` | DDD/Vendas/Domain/ValueObject/Dinheiro.php:10-18 | construction fails with `ValorNegativo` exactly when the amount is negative; otherwise the value holds the arguments and is valid |
| `ValueObjects.DinheiroValidoConstruivel` | DDD/Vendas/Domain/ValueObject/Dinheiro.php:10-28 | a value is valid exactly when the constructor, given its own amount and currency, returns it |
| `ValueObjects.AssertMesmaMoeda` | DDD/Vendas/Domain/ValueObject/Dinheiro.php:37-42 | passes exactly when the currencies are equal, else `MoedasDiferentes` |
| `ValueObjects.Sumar` | DDD/Vendas/Domain/ValueObject/Dinheiro.php:30-35 | a different currency fails with `MoedasDiferentes`; valid same-currency operands never fail; a result is valid, in the receiver's currency, with the summed amount |
| `ValueObjects.Multiplicar` | DDD/Vendas/Domain/ValueObject/Dinheiro.php:44-51 | a negative factor fails with `FatorNegativo`; a valid value times a non-negative factor never fails; a result is valid, same currency, amount times factor |
| `ValueObjects.SumarComutativo` | DDD/Vendas/Domain/ValueObject/Dinheiro.php:34 | in one currency `a.sumar(b)` equals `b.sumar(a)` |
| `ValueObjects.SumarAssociativo` | DDD/Vendas/Domain/ValueObject/Dinheiro.php:34 | for valid values in one currency `(a+b)+c` equals `a+(b+c)` and neither step fails |
| `ValueObjects.SumarZeroNeutro` | DDD/Vendas/Domain/ValueObject/Dinheiro.php:34 | zero in a value's currency is a left and right identity of `sumar` |
| `Enums.DeValor` | DDD/Vendas/Domain/Enum/Statuspedido.php:5-9 | `tryFrom` of the string-backed enum returns a case only for one of the three backing strings |
| `Enums.Valor` | DDD/Vendas/Domain/Enum/Statuspedido.php:7-9 | the backing string of a case, which `tryFrom` maps back to that case |
| `Enums.PodeSerAlterado` | DDD/Vendas/Domain/Enum/Statuspedido.php:11-14 | true only for a draft, and whatever is modifiable is also confirmable and cancellable |
| `Enums.PodeSerConfirmado` | DDD/Vendas/Domain/Enum/Statuspedido.php:16-19 | true only for a draft, so never for a confirmed or cancelled order |
| `Enums.PodeSerCancelado` | DDD/Vendas/Domain/Enum/Statuspedido.php:21-24 | true exactly for a draft or a confirmed order |
| `Enums.ValorInjetivo` | DDD/Vendas/Domain/Enum/Statuspedido.php:7-9 | the backing strings are distinct, and `tryFrom` inverts the case-to-string map |
| `Enums.PredicadosDeStatus` | DDD/Vendas/Domain/Enum/Statuspedido.php:11-24 | modifiable and confirmable exactly in draft; cancellable exactly in draft or confirmed |
| `Enums.AlteravelEConfirmavelECancelavel` | DDD/Vendas/Domain/Enum/Statuspedido.php:11-24 | anything modifiable is also confirmable and cancellable |
| `ItensPedido.ValidarPedido` | DDD/Vendas/Domain/Entity/ItemPedido.php:24-29 | passes exactly for a positive quantity, else `QuantidadeInvalida` |
| `ItensPedido.NovoItemPedido` | DDD/Vendas/Domain/Entity/ItemPedido.php:14-49 | fails with `QuantidadeInvalida` exactly when quantity is at most 0; otherwise the accessors return exactly the arguments and the item is valid when its price is |
| `ItensPedido.Subtotal` | DDD/Vendas/Domain/Entity/ItemPedido.php:51-54 | for a constructed item never fails and is unit price times quantity in the price's currency; any result is valid |
| `Pedidos.SomarDesdeCorreto` | DDD/Vendas/Domain/Entity/Pedido.php:59-68 | folding from a valid reais accumulator adds every subtotal when all items are in reais, and fails with `MoedasDiferentes` otherwise |
| `Pedidos.TotalCorreto` | DDD/Vendas/Domain/Entity/Pedido.php:59-68 | `total()` is the sum of price times quantity in reais when all items are in reais, 0 BRL for no items, and fails with `MoedasDiferentes` when any item is in another currency |
| `Pedidos.TotalExemplo` | DDD/Vendas/Domain/Entity/Pedido.php:59-68 | 2 x 50 BRL plus 1 x 100 BRL totals 200 BRL |
| `Pedidos.Pedido.constructor` | DDD/Vendas/Domain/Entity/Pedido.php:17-22 | a new order is a draft with no items and the given id, if any |
| `Pedidos.Pedido.AssertPodeAlterar` | DDD/Vendas/Domain/Entity/Pedido.php:75-80 | passes exactly in draft, else `PedidoNaoAlteravel` |
| `Pedidos.Pedido.AdicionarItem` | DDD/Vendas/Domain/Entity/Pedido.php:29-34 | in draft appends the item at the end; otherwise fails with items unchanged; status and id never change |
| `Pedidos.Pedido.Confirmar` | DDD/Vendas/Domain/Entity/Pedido.php:36-43 | draft becomes confirmed; any other status fails unchanged; items and id untouched, never back to draft |
| `Pedidos.Pedido.Cancelar` | DDD/Vendas/Domain/Entity/Pedido.php:45-52 | draft or confirmed becomes cancelled; cancelled fails; items and id untouched, never back to draft |
| `Pedidos.Pedido.Total` | DDD/Vendas/Domain/Entity/Pedido.php:59-68 | the `foreach` loop returns exactly the fold `TotalDe` of the current items, whose meaning `TotalCorreto` states |
| `Pedidos.CicloDeVida` | DDD/Vendas/Domain/Entity/Pedido.php:36-52 | confirming twice fails the second time; cancelling after confirming succeeds and cancelling again fails |
| `Repositorios.RepositorioPedidos.BuscarPorId` | DDD/Vendas/Domain/Interface/PedidoRepositoryInterface.php:11 | finds an order exactly when one is stored under that id, with that id |
| `Repositorios.RepositorioPedidos.Salvar` | DDD/Vendas/Domain/Interface/PedidoRepositoryInterface.php:9 | an order without id gets a new id that no stored order has; an existing id is kept; the counter moves one past the id used when that id was new or at or past it; the current status and items are stored, logged once, and found again by `BuscarPorId`; the order's status and items are untouched |
| `Servicos.ItemDe` | DDD/Vendas/Application/Service/CriarPedidoHandler.php:21-26 | a record yields an item exactly when price is non-negative and quantity positive; a negative price fails first with `ValorNegativo`, then `QuantidadeInvalida`; the item carries the record's fields priced in `BRL` |
| `Servicos.ItensDeSucesso` | DDD/Vendas/Application/Service/CriarPedidoHandler.php:20-29 | all records yield items exactly when every record is valid |
| `Servicos.ItensDeElementos` | DDD/Vendas/Application/Service/CriarPedidoHandler.php:20-29 | on success there is one item per record, in input order, each the record's own item |
| `Servicos.ItensDeFalha` | DDD/Vendas/Application/Service/CriarPedidoHandler.php:20-29 | on failure the error is that of the first invalid record, all earlier records being valid |
| `Servicos.ItensDeSoma` | DDD/Vendas/Application/Service/CriarPedidoHandler.php:20-29 | the items' price times quantity add up to the records' price times quantity |
| `Servicos.TotalDoPedidoCriado` | DDD/Vendas/Application/Service/CriarPedidoHandler.php:20-29 | the created order's `total()` is the records' sum of price times quantity in `BRL` |
| `Servicos.CriarPedidoHandler.constructor` | DDD/Vendas/Application/Service/CriarPedidoHandler.php:12-14 | the handler keeps the repository it is given |
| `Servicos.CriarPedidoHandler.Handle` | DDD/Vendas/Application/Service/CriarPedidoHandler.php:16-35 | succeeds exactly when every record is valid; then saves exactly once a confirmed order holding the records' items in order, under a new id that it returns, the repository's counter advancing by one; on failure returns the first record's error and the repository is unchanged |
| `Feedbacks.NovoFeedback` | SOLID/src/Model/Feedback.php:6-14 | fails with `DepoimentoObrigatorio` exactly when the score is below 9 and the testimonial is empty in PHP's sense (null, "" or "0"); otherwise the getters return the arguments |
| `Feedbacks.Vazio` | SOLID/src/Model/Feedback.php:8 | PHP's `empty()` on the testimonial: null, "" or "0"; no string of two or more characters is empty |
| `Feedbacks.NotaAltaDispensaDepoimento` | SOLID/src/Model/Feedback.php:8 | a score of 9 or more is accepted with any testimonial, null included |
| `Feedbacks.DepoimentoPreenchidoAceito` | SOLID/src/Model/Feedback.php:8-13 | any score is accepted with a non-empty testimonial |
| `Slugs.ParaMinusculas` | SOLID/src/Model/AluraMais.php:19 | same length, every character lower-cased at its position |
| `Slugs.SubstituirEspacos` | SOLID/src/Model/AluraMais.php:19 | same length, every space replaced by `-` at its position |
| `Slugs.Slug` | SOLID/src/Model/AluraMais.php:19 | same length as the category, each character lower-cased (ASCII) and then a space turned into `-` |
| `Slugs.SlugForma` | SOLID/src/Model/AluraMais.php:17-20 | the slug has the category's length, each character lower-cased with a space turned into `-`; it contains no space and no ASCII upper-case letter, and keeps every other character |
| `Slugs.SlugIdempotente` | SOLID/src/Model/AluraMais.php:19 | taking the slug of a slug changes nothing |
| `Videos.Video.constructor` | SOLID/src/Model/Video.php:17-22 | a new video is unwatched, lasts 0 minutes and scores 100 |
| `Videos.Video.AluraMais` | SOLID/src/Model/AluraMais.php:11-15 | a new Alura+ video has the parent's defaults, stores the category unchanged and scores 0 |
| `Videos.Video.Assistir` | SOLID/src/Model/Video.php:24-27 | the video is watched afterwards and its duration unchanged (name and category are constant), so a second call changes nothing |
| `Videos.Video.RecuperarUrl` | SOLID/src/Model/AluraMais.php:17-20 | the category's slug: each character lower-cased (ASCII), then a space turned into `-`; it has the category's length and is its own slug |
| `Videos.Video.MinutosDeDuracao` | SOLID/src/Model/Video.php:29-32 | the stored minutes of the duration |
| `Videos.Video.RecuperaPontuacao` | SOLID/src/Model/Video.php:39-42 | 100 for a plain video; for an Alura+ video the override of lines 22-25 of `SOLID/src/Model/AluraMais.php`, twice its minutes |
| `Videos.PontuacaoVideo` | SOLID/src/Model/Video.php:39-42 | a plain video always scores 100 |
| `Videos.PontuacaoAluraMais` | SOLID/src/Model/AluraMais.php:22-25 | an Alura+ video scores twice its minutes |
| `Cursos.Curso.constructor` | SOLID/src/Model/Curso.php:13-18 | a new course has no videos and no feedbacks |
| `Cursos.Curso.ReceberFeedback` | SOLID/src/Model/Curso.php:20-23 | appends the feedback whatever the score argument; videos unchanged |
| `Cursos.Curso.AdicionarVideo` | SOLID/src/Model/Curso.php:25-32 | under three minutes fails with `VideoMuitoCurto` and changes nothing; otherwise appends the video at the end |
| `Cursos.Curso.Assistir` | SOLID/src/Model/Curso.php:39-44 | afterwards every video of the course is watched; the list and the durations are unchanged |
| `Cursos.VideoNovoRecusado` | SOLID/src/Model/Curso.php:25-29 | a freshly constructed video, plain or Alura+, is always rejected by a course |

## Left out

- `Pedido::$criadoEm` and `new DateTimeImmutable()` read the wall clock. They are not modelled.
- `PdoPedidoRepository` is SQL I/O and is not part of this model. `RepositorioPedidos` is one reference implementation of the interface. Its counter-based ids are its own choice, and the id `Servicos.CriarPedidoHandler.Handle` is proved to return depends on that choice.
  - On first save an id is assigned when it is null.
  - A save is found again by `buscarPorId`.
  - Storage errors are not modelled.
  - The PDO `buscarPorId` rebuilds the order as a draft, so it does not restore the saved status.
  - Its line 59 calls `quantidade()`, while the accessor is spelled `qantidade`.
- `Repositorios.RepositorioPedidos.Salvar`: saving an order that already has an id at or past the counter moves the counter past it. This keeps ids that are assigned later new. The PDO code runs an `UPDATE` there instead.
- `PedidoController` is HTTP status, headers and JSON output. It is not part of this model.
- `Video::recuperarUrl` for plain videos depends on `http_build_query` URL encoding. It is not modelled; only the Alura+ slug is.
- `CalculadorPontuacao` and the `SOLID/reforco` demonstration scripts are not part of this model. They are output-only demos or a one-line delegation.
- `DateInterval` is reduced to its minutes field, as an integer.
- `Videos.Video.constructor` assumes `DateInterval::createFromDateString('0')` yields a zero interval. What PHP makes of a bare "0" may depend on its version.
- `Servicos.DadosItem` records always carry all four keys with the right types. A missing key (null passed to a typed parameter, a `TypeError` in PHP) and PHP's coercion of numeric strings are not modelled. `PedidoController` sends `produto_id` and `preco_unitario`, which the handler does not read, so it would hit that `TypeError`.
- IEEE float rounding of amounts is not reproduced. Amounts are exact reals.
- 64-bit PHP integer overflow of quantities and ids is not modelled. Integers are unbounded.
- `strtolower` is modelled on characters with ASCII-only case mapping, the behaviour of PHP 8.2 and later. PHP strings are bytes.
