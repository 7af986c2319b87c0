/** The three figures of components/dashboard/DashboardStats.js, computed over
    the displayed clients: how many are shown, how many owe money, and how
    much they owe in total. */
module Dashboard {
  import Seqs
  import Clients

  type Client = Clients.Client

  predicate IsDebtor(c: Client) { c.saldo < 0.0 }

  function DebtorFn(): Client -> bool { (c: Client) => IsDebtor(c) }

  /** `displayedClientes.filter(c => c.saldo < 0).length`: a debtor counts one,
      anybody else nothing. */
  function DebtorCount(displayed: seq<Client>): (n: nat)
    ensures n <= |displayed|
    ensures displayed == [] ==> n == 0
    ensures displayed != [] ==>
      n == (if IsDebtor(displayed[0]) then 1 else 0) + DebtorCount(displayed[1..])
    decreases |displayed|
  {
    if displayed == [] then 0
    else
      Seqs.FilterCons(displayed[0], displayed[1..], DebtorFn());
      assert displayed == [displayed[0]] + displayed[1..];
      |Seqs.Filter(displayed, DebtorFn())|
  }

  function Saldo(c: Client): real { c.saldo }

  /** What one client adds to "Total em Aberto": `Math.abs(saldo)` for a debt, else 0. */
  function Owed(c: Client): (r: real)
    ensures r >= 0.0
    ensures r > 0.0 <==> IsDebtor(c)
    ensures IsDebtor(c) ==> r == -c.saldo
  {
    if c.saldo < 0.0 then -c.saldo else 0.0
  }

  /** `displayedClientes.reduce((sum, c) => sum + (c.saldo < 0 ? Math.abs(c.saldo) : 0), 0)`:
      the debts of the displayed debtors, added up as positive amounts. */
  function Outstanding(displayed: seq<Client>): (r: real)
    ensures r >= 0.0
    ensures r == -Seqs.SumBy(Seqs.Filter(displayed, DebtorFn()), Saldo)
  {
    Seqs.SumByNonNegative(displayed, Owed);
    OutstandingOverDebtors(displayed);
    Seqs.SumBy(displayed, Owed)
  }

  lemma OutstandingOverDebtors(displayed: seq<Client>)
    ensures Seqs.SumBy(displayed, Owed) == -Seqs.SumBy(Seqs.Filter(displayed, DebtorFn()), Saldo)
  {
    var debtors := Seqs.Filter(displayed, DebtorFn());
    Seqs.SumByFilter(displayed, DebtorFn(), Owed);
    Seqs.SumByNegated(debtors, Saldo, Owed);
  }

  /** The "de N total" note under the client count. */
  predicate ShowsTotalNote(clientes: seq<Client>, displayed: seq<Client>, hasActiveFilters: bool) {
    hasActiveFilters && |clientes| != |displayed|
  }

  /** Every displayed client is counted as a debtor exactly when all of them owe money. */
  lemma AllDebtorsIff(displayed: seq<Client>)
    ensures DebtorCount(displayed) == |displayed| <==> forall k :: 0 <= k < |displayed| ==> IsDebtor(displayed[k])
  {
    Seqs.FilterKeepsLength(displayed, DebtorFn());
  }

  /** Clients that owe nothing add nothing: the total is the same over the debtors alone. */
  lemma OutstandingIsDebtorsOnly(displayed: seq<Client>)
    ensures Outstanding(displayed) == Outstanding(Seqs.Filter(displayed, DebtorFn()))
  {
    Seqs.SumByFilter(displayed, DebtorFn(), Owed);
  }

  /** Nothing is outstanding exactly when nobody displayed owes money. */
  lemma {:induction false} NothingOutstandingIff(displayed: seq<Client>)
    ensures Outstanding(displayed) == 0.0 <==> DebtorCount(displayed) == 0
  {
    if displayed != [] {
      NothingOutstandingIff(displayed[1..]);
      assert Outstanding(displayed) == Owed(displayed[0]) + Outstanding(displayed[1..]);
    }
  }

  /** With no search and no active filter the note is never shown; when shown,
      the full list is not what is displayed. */
  lemma NoteNeedsFiltering(clientes: seq<Client>, p: Clients.Page)
    ensures var displayed := Clients.Displayed(clientes, p);
      ShowsTotalNote(clientes, displayed, Clients.HasActiveFilters(p))
      ==> Clients.IsListModified(p) && displayed == p.searchResults && displayed != clientes
  {
  }
}
