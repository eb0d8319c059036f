/** The money value object (Vendas\Domain\ValueObject\Dinheiro): an amount and
    a currency code. PHP floats are modelled as exact reals. */
module ValueObjects {
  import opened Resultados

  /** An amount in a currency. Values are immutable: every operation below
      returns a new value and leaves its operands as they were. */
  datatype Dinheiro = Dinheiro(valor: real, moeda: string)

  /** What the constructor guarantees of every instance. */
  predicate Valido(d: Dinheiro) {
    d.valor >= 0.0
  }

  /** `new Dinheiro($valor, $moeda)`: rejects a negative amount. */
  function NovoDinheiro(valor: real, moeda: string): (r: Result<Dinheiro>)
    ensures r.Success? <==> valor >= 0.0
    ensures r.Failure? ==> r.error == ValorNegativo
    ensures r.Success? ==> Valido(r.value) && r.value.valor == valor && r.value.moeda == moeda
  {
    if valor < 0.0 then Failure(ValorNegativo) else Success(Dinheiro(valor, moeda))
  }

  /** The accessors `valor()` and `getMoeda()` give back what was constructed,
      and every valid value is reachable through the constructor. */
  lemma DinheiroValidoConstruivel(d: Dinheiro)
    ensures Valido(d) <==> NovoDinheiro(d.valor, d.moeda) == Success(d)
  {
  }

  /** `assertMesmaMoeda`: passes exactly when both currencies are equal. */
  function AssertMesmaMoeda(a: Dinheiro, b: Dinheiro): (r: Outcome)
    ensures r.Pass? <==> a.moeda == b.moeda
    ensures r.Fail? ==> r.error == MoedasDiferentes
  {
    if a.moeda != b.moeda then Fail(MoedasDiferentes) else Pass
  }

  /** `a.sumar(b)`: checks the currencies, then constructs the sum in the
      receiver's currency (the constructor re-checks the sign). */
  function Sumar(a: Dinheiro, b: Dinheiro): (r: Result<Dinheiro>)
    ensures a.moeda != b.moeda ==> r == Failure(MoedasDiferentes)
    ensures Valido(a) && Valido(b) && a.moeda == b.moeda ==> r.Success?
    ensures r.Success? ==> Valido(r.value) && r.value.valor == a.valor + b.valor && r.value.moeda == a.moeda
  {
    match AssertMesmaMoeda(a, b)
    case Fail(e) => Failure(e)
    case Pass => NovoDinheiro(a.valor + b.valor, a.moeda)
  }

  /** `d.multiplicar(q)`: rejects a negative factor, then constructs the
      product in the same currency. */
  function Multiplicar(d: Dinheiro, quantidade: real): (r: Result<Dinheiro>)
    ensures quantidade < 0.0 ==> r == Failure(FatorNegativo)
    ensures Valido(d) && quantidade >= 0.0 ==> r.Success?
    ensures r.Success? ==> Valido(r.value) && r.value.valor == d.valor * quantidade && r.value.moeda == d.moeda
  {
    if quantidade < 0.0 then Failure(FatorNegativo)
    else NovoDinheiro(d.valor * quantidade, d.moeda)
  }

  /** Adding in one currency does not depend on the order of the operands. */
  lemma SumarComutativo(a: Dinheiro, b: Dinheiro)
    requires a.moeda == b.moeda
    ensures Sumar(a, b) == Sumar(b, a)
  {
  }

  /** Adding valid values in one currency is associative. */
  lemma SumarAssociativo(a: Dinheiro, b: Dinheiro, c: Dinheiro)
    requires Valido(a) && Valido(b) && Valido(c)
    requires a.moeda == b.moeda == c.moeda
    ensures Sumar(a, b).Success? && Sumar(b, c).Success?
    ensures Sumar(Sumar(a, b).value, c) == Sumar(a, Sumar(b, c).value)
  {
  }

  /** Zero in a currency is a two-sided identity of `sumar` in that currency. */
  lemma SumarZeroNeutro(d: Dinheiro)
    requires Valido(d)
    ensures Sumar(Dinheiro(0.0, d.moeda), d) == Success(d)
    ensures Sumar(d, Dinheiro(0.0, d.moeda)) == Success(d)
  {
  }
}
