/** The balance computation and error sanitising of lib/api-utils.js. The
    store read is an input: None when Supabase reports an error, otherwise the
    client's transactions in whatever order the store returns them. */
module Ledger {
  import opened Wrappers
  import Seqs

  const GenericErrorMessage: string := "Erro ao processar requisição"

  /** A `transacoes` row, reduced to the two columns the balance reads. */
  datatype Tx = Tx(tipo: string, valor: real)

  function AbateAmount(t: Tx): real {
    if t.tipo == "abate" then t.valor else 0.0
  }

  function CompraAmount(t: Tx): real {
    if t.tipo == "compra" then t.valor else 0.0
  }

  /** Payments minus purchases. */
  function Balance(txs: seq<Tx>): real {
    Seqs.SumBy(txs, AbateAmount) - Seqs.SumBy(txs, CompraAmount)
  }

  /** `calculateBalance`: the `forEach` loop over the rows, or 0 when the read failed. */
  method CalculateBalance(read: Option<seq<Tx>>) returns (balance: real)
    ensures read.None? ==> balance == 0.0
    ensures read.Some? ==> balance == Seqs.SumBy(read.value, AbateAmount) - Seqs.SumBy(read.value, CompraAmount)
  {
    if read.None? {
      return 0.0;
    }
    var txs := read.value;
    var totalAbates := 0.0;
    var totalCompras := 0.0;
    var i := 0;
    while i < |txs|
      invariant 0 <= i <= |txs|
      invariant totalAbates == Seqs.SumBy(txs[..i], AbateAmount)
      invariant totalCompras == Seqs.SumBy(txs[..i], CompraAmount)
    {
      var t := txs[i];
      Seqs.SumByConcat(txs[..i], [t], AbateAmount);
      Seqs.SumByConcat(txs[..i], [t], CompraAmount);
      assert txs[..i + 1] == txs[..i] + [t];
      if t.tipo == "abate" {
        totalAbates := totalAbates + t.valor;
      } else if t.tipo == "compra" {
        totalCompras := totalCompras + t.valor;
      }
      i := i + 1;
    }
    assert txs[..i] == txs;
    balance := totalAbates - totalCompras;
  }

  /** `sanitizeError`: production hides the error text behind a fixed message. */
  function SanitizeError(production: bool, message: string): (r: string)
    ensures production ==> r == GenericErrorMessage
    ensures !production ==> r == message
  {
    if production then GenericErrorMessage else message
  }

  /** Appending one row changes the balance by that row's signed amount. */
  lemma {:induction false} BalanceAppend(txs: seq<Tx>, t: Tx)
    ensures Balance(txs + [t]) == Balance(txs) + AbateAmount(t) - CompraAmount(t)
  {
    Seqs.SumByConcat(txs, [t], AbateAmount);
    Seqs.SumByConcat(txs, [t], CompraAmount);
  }

  /** An empty history has balance 0, and rows of any other kind contribute nothing. */
  lemma OtherKindsIgnored(txs: seq<Tx>, t: Tx)
    requires t.tipo != "abate" && t.tipo != "compra"
    ensures Balance([]) == 0.0
    ensures Balance(txs + [t]) == Balance(txs)
  {
    BalanceAppend(txs, t);
  }

  /** The balance does not depend on the order of the rows. */
  lemma BalanceOrderIndependent(a: seq<Tx>, b: seq<Tx>)
    requires multiset(a) == multiset(b)
    ensures Balance(a) == Balance(b)
  {
    Seqs.SumByPermutation(a, b, AbateAmount);
    Seqs.SumByPermutation(a, b, CompraAmount);
  }

  /** Recording a purchase of `v` lowers the balance by exactly `v`. */
  lemma PurchaseLowersBalance(txs: seq<Tx>, v: real)
    ensures Balance(txs + [Tx("compra", v)]) == Balance(txs) - v
  {
    BalanceAppend(txs, Tx("compra", v));
  }

  /** Paying off a negative balance with a payment of its absolute value leaves exactly 0. */
  lemma ZeroOutPaymentClearsBalance(txs: seq<Tx>)
    requires Balance(txs) < 0.0
    ensures Balance(txs + [Tx("abate", -Balance(txs))]) == 0.0
  {
    BalanceAppend(txs, Tx("abate", -Balance(txs)));
  }
}
