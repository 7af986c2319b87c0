/** Open tables (app/mesas/page.js): the request bodies the page builds when a
    table is opened, an item is added, a quantity changes, an item is removed
    or part of the bill is paid, and what finalizing a table sends. Also the
    totals and per-item figures the table card (MesaCard.js) and the table
    detail (MesaDialog.js) display. The clock is the parameter `now`, which
    also serves as the new item's id (`Date.now().toString()`); the log's
    timestamp is that same reading rather than its ISO text. */
module Mesas {
  import opened Wrappers
  import Text
  import Seqs
  import Validation

  // ---------------------------------------------------------------- data

  datatype Item = Item(
    id: string,
    produtoId: Option<string>,
    nome: string,
    preco: real,
    quantidade: real,
    ehAbatimento: bool,
    isKg: bool)

  datatype LogKind = Info | Add | Update | Remove | Money

  datatype Log = Log(data: nat, mensagem: string, tipo: LogKind)

  /** A stored table; `logs` is null on rows written before logging existed. */
  datatype Mesa = Mesa(id: string, nome: string, itens: seq<Item>, observacoes: Option<string>, logs: Option<seq<Log>>)

  /** The JSON body of a POST or PUT to /api/mesas. */
  datatype Body = Body(nome: string, itens: seq<Item>, observacoes: Option<string>, logs: seq<Log>)

  /** `mesa.logs || []` */
  function Logs(m: Mesa): seq<Log> {
    m.logs.GetOr([])
  }

  /** The body keeps the table's name and notes, keeps every earlier log entry
      in order and appends exactly one of the given kind. */
  predicate AppendsOneLog(m: Mesa, b: Body, kind: LogKind) {
    && b.nome == m.nome && b.observacoes == m.observacoes
    && |b.logs| == |Logs(m)| + 1
    && b.logs[..|Logs(m)|] == Logs(m)
    && b.logs[|Logs(m)|].tipo == kind
  }

  function LastLog(b: Body): string
    requires |b.logs| > 0
  {
    b.logs[|b.logs| - 1].mensagem
  }

  // ---------------------------------------------------------------- totals

  function LineTotal(i: Item): real {
    i.preco * i.quantidade
  }

  /** `calcularTotal` of the table card: the sum of price times quantity. */
  function Total(itens: seq<Item>): (r: real)
    ensures itens == [] ==> r == 0.0
    ensures |itens| == 1 ==> r == itens[0].preco * itens[0].quantidade
  {
    if |itens| == 1 then
      assert itens[1..] == [];
      assert Seqs.SumBy(itens[1..], LineTotal) == 0.0;
      assert Seqs.SumBy(itens, LineTotal) == LineTotal(itens[0]) + Seqs.SumBy(itens[1..], LineTotal);
      Seqs.SumBy(itens, LineTotal)
    else
      Seqs.SumBy(itens, LineTotal)
  }

  /** The card total of two lists of lines is the sum of their totals. */
  lemma {:induction false} TotalConcat(a: seq<Item>, b: seq<Item>)
    ensures Total(a + b) == Total(a) + Total(b)
  {
    Seqs.SumByConcat(a, b, LineTotal);
  }

  /** `parseInt` of a number: its integer part, truncated toward zero. */
  function Trunc(x: real): (r: int)
    ensures x >= 0.0 ==> r as real <= x < r as real + 1.0
    ensures x < 0.0 ==> r as real - 1.0 < x <= r as real
  {
    if x >= 0.0 then x.Floor else -((-x).Floor)
  }

  /** The detail view's line: a kg item's price is already the line total. */
  function KgLine(i: Item): real {
    if i.isKg then i.preco else i.preco * Trunc(i.quantidade) as real
  }

  /** `calcularTotal` of the table detail (and its copy in Options.js). */
  function KgTotal(itens: seq<Item>): (r: real)
    ensures itens == [] ==> r == 0.0
    ensures |itens| == 1 && itens[0].isKg ==> r == itens[0].preco
    ensures |itens| == 1 && !itens[0].isKg ==> r == itens[0].preco * Trunc(itens[0].quantidade) as real
  {
    if |itens| == 1 then
      assert itens[1..] == [];
      assert Seqs.SumBy(itens[1..], KgLine) == 0.0;
      assert Seqs.SumBy(itens, KgLine) == KgLine(itens[0]) + Seqs.SumBy(itens[1..], KgLine);
      Seqs.SumBy(itens, KgLine)
    else
      Seqs.SumBy(itens, KgLine)
  }

  /** The detail total of two lists of lines is the sum of their totals. */
  lemma {:induction false} KgTotalConcat(a: seq<Item>, b: seq<Item>)
    ensures KgTotal(a + b) == KgTotal(a) + KgTotal(b)
  {
    Seqs.SumByConcat(a, b, KgLine);
  }

  predicate IsWhole(x: real) {
    x.Floor as real == x
  }

  /** Without kg items and with whole quantities, the two totals agree. */
  lemma KgTotalMatchesCardTotal(itens: seq<Item>)
    requires forall k :: 0 <= k < |itens| ==> !itens[k].isKg && IsWhole(itens[k].quantidade)
    ensures KgTotal(itens) == Total(itens)
  {
    forall k | 0 <= k < |itens| ensures KgLine(itens[k]) == LineTotal(itens[k]) {
      var q := itens[k].quantidade;
      if q < 0.0 {
        assert (-q).Floor == -(q.Floor);
      }
    }
    Seqs.SumByCongruent(itens, KgLine, LineTotal);
  }

  /** A kg item with a fractional weight is where the two totals part:
      the card multiplies by the weight, the detail takes the price as is. */
  lemma KgItemTotalsDiffer()
    ensures var i := Item("1", None, "Picanha", 30.0, 0.5, false, true);
      Total([i]) == 15.0 && KgTotal([i]) == 30.0
  {
    var i := Item("1", None, "Picanha", 30.0, 0.5, false, true);
    assert [i][1..] == [];
  }

  /** The unit price the detail shows: `preco / quantidade` for a kg item,
      `preco` otherwise; None where that division has no value. */
  function UnitPrice(i: Item): (r: Option<real>)
    ensures r.None? <==> i.isKg && i.quantidade == 0.0
    ensures r.Some? && i.isKg ==> r.value * i.quantidade == KgLine(i)
    ensures r.Some? && !i.isKg && IsWhole(i.quantidade) && i.quantidade >= 0.0 ==> r.value * i.quantidade == KgLine(i)
  {
    if i.isKg then (if i.quantidade == 0.0 then None else Some(i.preco / i.quantidade))
    else Some(i.preco)
  }

  /** The line total the detail shows: `preco` for a kg item, `preco * quantidade` otherwise. */
  function ShownLine(i: Item): (r: real)
    ensures !i.isKg ==> r == LineTotal(i)
    ensures i.isKg ==> r == KgLine(i)
  {
    if i.isKg then i.preco else i.preco * i.quantidade
  }

  // ---------------------------------------------------------------- quantity stepper

  /** The value the minus button sends; None when it is disabled
      (`quantidade <= 1`) or absent (payment lines have no stepper). */
  function Decrement(i: Item): (r: Option<real>)
    ensures r.Some? <==> !i.ehAbatimento && i.quantidade > 1.0
    ensures r.Some? ==> r.value == i.quantidade - 1.0 && r.value > 0.0
    ensures r.Some? && IsWhole(i.quantidade) ==> r.value >= 1.0
  {
    if i.ehAbatimento || i.quantidade <= 1.0 then None else Some(i.quantidade - 1.0)
  }

  /** The value the plus button sends; None on payment lines. */
  function Increment(i: Item): (r: Option<real>)
    ensures r.Some? <==> !i.ehAbatimento
    ensures r.Some? ==> r.value == i.quantidade + 1.0
  {
    if i.ehAbatimento then None else Some(i.quantidade + 1.0)
  }

  /** Whatever the stepper sends for a whole quantity of at least one is again
      a whole quantity of at least one. */
  lemma StepperKeepsQuantityPositive(i: Item)
    requires IsWhole(i.quantidade) && i.quantidade >= 1.0
    ensures Decrement(i).Some? ==> Decrement(i).value >= 1.0 && IsWhole(Decrement(i).value)
    ensures Increment(i).Some? ==> Increment(i).value >= 1.0 && IsWhole(Increment(i).value)
  {
    var q := i.quantidade;
    assert (q - 1.0).Floor == q.Floor - 1;
    assert (q + 1.0).Floor == q.Floor + 1;
  }

  // ---------------------------------------------------------------- opening a table

  /** `handleCreateMesa(nome, observacoes)`: no items and one opening log entry. */
  function CreateMesa(nome: string, observacoes: string, now: nat): (b: Body)
    ensures b.nome == nome && b.itens == []
    ensures b.observacoes == (if observacoes == "" then None else Some(observacoes))
    ensures |b.logs| == 1 && b.logs[0].tipo == Info && b.logs[0].data == now
    ensures b.logs[0].mensagem == "Mesa " + nome + " aberta."
  {
    Body(nome, [], if observacoes == "" then None else Some(observacoes),
         [Log(now, "Mesa " + nome + " aberta.", Info)])
  }

  /** The schema view of a table body. */
  function AsInput(b: Body): Validation.MesaInput {
    Validation.MesaInput(
      Validation.Given(b.nome), Validation.Given(()),
      if b.observacoes.Some? then Validation.Given(b.observacoes.value) else Validation.Null,
      Validation.Given(()))
  }

  /** The server accepts a new table exactly when the name has 1 to 200
      characters and the notes at most 500. */
  lemma CreateAcceptedIff(nome: string, observacoes: string, now: nat)
    ensures Validation.CheckMesa(AsInput(CreateMesa(nome, observacoes, now))) == []
        <==> 1 <= |nome| <= 200 && |observacoes| <= 500
  {
  }

  // ---------------------------------------------------------------- adding an item

  datatype Product = Product(id: string, nome: string, preco: real, valorTaxa: Option<real>)

  /** What the add-item dialog hands over. `quantidade` is the typed text and
      `unidades` its `parseInt`. */
  datatype AddRequest =
    | Manual(nome: string, preco: real, quantidade: string, unidades: int)
    | FromCatalog(produto: Product, quantidade: string, unidades: int)

  /** `valor_taxa && parseFloat(valor_taxa) > 0` */
  predicate FeeApplies(p: Product) {
    p.valorTaxa.Some? && p.valorTaxa.value > 0.0
  }

  const TaxNote: string := " (Taxa inclusa)"

  /** The price charged for a catalog product. */
  function CatalogPrice(p: Product): (r: real)
    ensures FeeApplies(p) ==> r == p.preco + p.valorTaxa.value && r > p.preco
    ensures !FeeApplies(p) ==> r == p.preco
  {
    if FeeApplies(p) then p.preco + p.valorTaxa.value else p.preco
  }

  function NewItem(req: AddRequest, now: nat): (i: Item)
    ensures i.id == Text.IntToString(now) && !i.ehAbatimento && !i.isKg
    ensures i.quantidade == req.unidades as real
    ensures req.Manual? ==> i.nome == req.nome && i.preco == req.preco && i.produtoId == None
    ensures req.FromCatalog? ==>
      i.nome == req.produto.nome && i.preco == CatalogPrice(req.produto) && i.produtoId == Some(req.produto.id)
  {
    match req
    case Manual(nome, preco, _, n) =>
      Item(Text.IntToString(now), None, nome, preco, n as real, false, false)
    case FromCatalog(p, _, n) =>
      Item(Text.IntToString(now), Some(p.id), p.nome, CatalogPrice(p), n as real, false, false)
  }

  function AddMessage(req: AddRequest): (msg: string)
    ensures req.Manual? ==> msg == "Adicionou " + req.quantidade + "x " + req.nome + " (Manual)"
    ensures req.FromCatalog? && !FeeApplies(req.produto) ==>
      msg == "Adicionou " + req.quantidade + "x " + req.produto.nome
    ensures req.FromCatalog? && FeeApplies(req.produto) ==>
      msg == "Adicionou " + req.quantidade + "x " + req.produto.nome + TaxNote
  {
    match req
    case Manual(nome, _, q, _) => "Adicionou " + q + "x " + nome + " (Manual)"
    case FromCatalog(p, q, _) =>
      var base := "Adicionou " + q + "x " + p.nome;
      if FeeApplies(p) then base + TaxNote else base
  }

  /** `handleAdicionarItem(mesa, ...)`: the PUT body. */
  function AddItem(m: Mesa, req: AddRequest, now: nat): (b: Body)
    ensures b.itens == m.itens + [NewItem(req, now)]
    ensures AppendsOneLog(m, b, Add) && LastLog(b) == AddMessage(req)
    ensures Total(b.itens) == Total(m.itens) + NewItem(req, now).preco * req.unidades as real
  {
    Seqs.SumByConcat(m.itens, [NewItem(req, now)], LineTotal);
    assert [NewItem(req, now)][1..] == [];
    Body(m.nome, m.itens + [NewItem(req, now)], m.observacoes, Logs(m) + [Log(now, AddMessage(req), Add)])
  }

  /** The fee note is in the log exactly when the fee was added to the price. */
  lemma FeeNoteIffFeeCharged(m: Mesa, p: Product, q: string, n: int, now: nat)
    ensures var b := AddItem(m, FromCatalog(p, q, n), now);
      var base := "Adicionou " + q + "x " + p.nome;
      && (LastLog(b) == base + TaxNote <==> b.itens[|m.itens|].preco != p.preco)
      && (LastLog(b) == base <==> b.itens[|m.itens|].preco == p.preco)
  {
    var base := "Adicionou " + q + "x " + p.nome;
    assert |base + TaxNote| != |base|;
    if FeeApplies(p) {
      assert base + TaxNote != base;
    } else {
      assert base != base + TaxNote;
    }
  }

  // ---------------------------------------------------------------- changing a quantity

  /** The name the log mentions: that of the last item with the id, or "" when none has it. */
  function LastNameWithId(itens: seq<Item>, itemId: string): (r: string)
    ensures (forall k :: 0 <= k < |itens| ==> itens[k].id != itemId) ==> r == ""
    ensures forall k :: 0 <= k < |itens| && itens[k].id == itemId ==>
      (forall j :: k < j < |itens| ==> itens[j].id != itemId) ==> r == itens[k].nome
  {
    if |itens| == 0 then ""
    else if itens[|itens| - 1].id == itemId then itens[|itens| - 1].nome
    else
      var init := itens[..|itens| - 1];
      assert forall k :: 0 <= k < |init| ==> init[k] == itens[k];
      LastNameWithId(init, itemId)
  }

  function SetQuantidade(i: Item, itemId: string, nova: real): Item {
    if i.id == itemId then i.(quantidade := nova) else i
  }

  /** `handleUpdateQuantidade(mesa, itemId, novaQuantidade)`; `novaTexto` is the
      number as JavaScript prints it. */
  function UpdateQuantidade(m: Mesa, itemId: string, nova: real, novaTexto: string, now: nat): (b: Body)
    ensures |b.itens| == |m.itens|
    ensures forall k :: 0 <= k < |m.itens| && m.itens[k].id != itemId ==> b.itens[k] == m.itens[k]
    ensures forall k :: 0 <= k < |m.itens| && m.itens[k].id == itemId ==>
      b.itens[k] == m.itens[k].(quantidade := nova)
    ensures AppendsOneLog(m, b, Update)
    ensures LastLog(b) == "Alterou " + LastNameWithId(m.itens, itemId) + " para " + novaTexto + "x"
  {
    var itens := seq(|m.itens|, k requires 0 <= k < |m.itens| => SetQuantidade(m.itens[k], itemId, nova));
    Body(m.nome, itens, m.observacoes,
         Logs(m) + [Log(now, "Alterou " + LastNameWithId(m.itens, itemId) + " para " + novaTexto + "x", Update)])
  }

  /** With a unique id, the total moves by that line's price times the change in quantity. */
  lemma UpdateShiftsTotal(m: Mesa, k: nat, nova: real, novaTexto: string, now: nat)
    requires k < |m.itens|
    requires forall j :: 0 <= j < |m.itens| && j != k ==> m.itens[j].id != m.itens[k].id
    ensures Total(UpdateQuantidade(m, m.itens[k].id, nova, novaTexto, now).itens)
         == Total(m.itens) + m.itens[k].preco * (nova - m.itens[k].quantidade)
  {
    var b := UpdateQuantidade(m, m.itens[k].id, nova, novaTexto, now);
    var x := m.itens[k].(quantidade := nova);
    assert b.itens == m.itens[k := x];
    Seqs.SumByUpdate(m.itens, k, x, LineTotal);
  }

  // ---------------------------------------------------------------- removing an item

  function IdIsNot(itemId: string): Item -> bool {
    (i: Item) => i.id != itemId
  }

  /** `itemRemovido?.nome` in the log: the first item with the id, or the text
      "undefined" when none has it. */
  function FirstNameWithId(itens: seq<Item>, itemId: string): (r: string)
    ensures (forall k :: 0 <= k < |itens| ==> itens[k].id != itemId) ==> r == "undefined"
    ensures forall k :: 0 <= k < |itens| && itens[k].id == itemId ==>
      (forall j :: 0 <= j < k ==> itens[j].id != itemId) ==> r == itens[k].nome
  {
    if |itens| == 0 then "undefined"
    else if itens[0].id == itemId then itens[0].nome
    else
      var r := FirstNameWithId(itens[1..], itemId);
      assert forall k :: 1 <= k < |itens| ==> itens[k] == itens[1..][k - 1];
      r
  }

  /** `handleRemoverItem(mesa, itemId)` */
  function RemoveItem(m: Mesa, itemId: string, now: nat): (b: Body)
    ensures forall k :: 0 <= k < |b.itens| ==> b.itens[k].id != itemId
    ensures forall x :: multiset(b.itens)[x] == if x.id != itemId then multiset(m.itens)[x] else 0
    ensures Seqs.Subsequence(b.itens, m.itens)
    ensures AppendsOneLog(m, b, Remove)
    ensures LastLog(b) == "Removeu " + FirstNameWithId(m.itens, itemId)
  {
    var itens := Seqs.Filter(m.itens, IdIsNot(itemId));
    Body(m.nome, itens, m.observacoes, Logs(m) + [Log(now, "Removeu " + FirstNameWithId(m.itens, itemId), Remove)])
  }

  function IdIs(itemId: string): Item -> bool {
    (i: Item) => i.id == itemId
  }

  /** Removing takes exactly the lines with that id off the total. */
  lemma RemoveLowersTotal(m: Mesa, itemId: string, now: nat)
    ensures Total(RemoveItem(m, itemId, now).itens) == Total(m.itens) - Total(Seqs.Filter(m.itens, IdIs(itemId)))
  {
    Seqs.SumByPartition(m.itens, IdIsNot(itemId), IdIs(itemId), LineTotal);
  }

  /** Removing an id no line has leaves the lines as they were. */
  lemma RemoveAbsentKeepsItems(m: Mesa, itemId: string, now: nat)
    requires forall k :: 0 <= k < |m.itens| ==> m.itens[k].id != itemId
    ensures RemoveItem(m, itemId, now).itens == m.itens
  {
    Seqs.FilterKeepsAll(m.itens, IdIsNot(itemId));
  }

  // ---------------------------------------------------------------- partial payment

  /** `handleAbater(mesa, {valorAbater, metodoPagamentoAbater})`; `valorTexto`
      is `valor.toFixed(2)`. */
  function Abater(m: Mesa, valor: real, metodo: string, valorTexto: string, now: nat): (b: Body)
    ensures |b.itens| == |m.itens| + 1 && b.itens[..|m.itens|] == m.itens
    ensures var i := b.itens[|m.itens|];
      i.ehAbatimento && i.preco == -valor && i.quantidade == 1.0 && !i.isKg
      && i.nome == "Abatimento (" + metodo + ")" && i.id == Text.IntToString(now)
    ensures Total(b.itens) == Total(m.itens) - valor
    ensures AppendsOneLog(m, b, Money)
    ensures LastLog(b) == "Abateu R$ " + valorTexto + " (" + metodo + ")"
  {
    var item := Item(Text.IntToString(now), None, "Abatimento (" + metodo + ")", -valor, 1.0, true, false);
    Seqs.SumByConcat(m.itens, [item], LineTotal);
    assert [item][1..] == [];
    Body(m.nome, m.itens + [item], m.observacoes,
         Logs(m) + [Log(now, "Abateu R$ " + valorTexto + " (" + metodo + ")", Money)])
  }

  /** Paying off a positive total leaves the table at exactly zero. */
  lemma PayingTheTotalZeroesIt(m: Mesa, metodo: string, valorTexto: string, now: nat)
    ensures Total(Abater(m, Total(m.itens), metodo, valorTexto, now).itens) == 0.0
  {
  }

  // ---------------------------------------------------------------- finalizing

  datatype Payment = Fiado(clienteId: string, observacoes: string) | PaidNow(forma: string)

  /** How the `fetch` of the purchase went: it rejected, or it resolved with `res.ok`. */
  datatype PostResult = NetworkError | Responded(ok: bool)

  datatype Effect =
    | PostCompra(clienteId: string, valor: real, observacoes: Option<string>)
    | DeleteMesa(id: string)

  function Purchase(p: Payment, total: real): Effect
    requires p.Fiado?
  {
    PostCompra(p.clienteId, total, if p.observacoes == "" then None else Some(p.observacoes))
  }

  /** `handleFinalize` as written: after a 'fiado' purchase post, the table is
      deleted unless the fetch itself rejected, whatever the response status. */
  function FinalizeAsWritten(m: Mesa, p: Payment, total: real, post: PostResult): (effects: seq<Effect>)
    ensures p.PaidNow? ==> effects == [DeleteMesa(m.id)]
    ensures p.Fiado? ==> |effects| >= 1 && effects[0] == Purchase(p, total)
    ensures p.Fiado? ==> (DeleteMesa(m.id) in effects <==> !post.NetworkError?)
  {
    match p
    case PaidNow(_) => [DeleteMesa(m.id)]
    case Fiado(_, _) =>
      if post.NetworkError? then [Purchase(p, total)] else [Purchase(p, total), DeleteMesa(m.id)]
  }

  /** A rejected purchase (a 4xx or 5xx answer) still deletes the table, so the
      tab is lost with nothing recorded on the client. */
  lemma FinalizeAsWrittenLosesRejectedTab(m: Mesa, clienteId: string, total: real)
    ensures FinalizeAsWritten(m, Fiado(clienteId, ""), total, Responded(false))
         == [PostCompra(clienteId, total, None), DeleteMesa(m.id)]
  {
  }

  /** Finalizing with the purchase checked: the table is deleted after a 'fiado'
      purchase only when the server accepted it. */
  function Finalize(m: Mesa, p: Payment, total: real, post: PostResult): (effects: seq<Effect>)
    ensures p.PaidNow? ==> effects == [DeleteMesa(m.id)]
    ensures p.Fiado? ==> |effects| >= 1 && effects[0] == Purchase(p, total)
    ensures p.Fiado? ==> (DeleteMesa(m.id) in effects <==> post == Responded(true))
    ensures forall k :: 0 <= k < |effects| && effects[k].PostCompra? ==> p.Fiado? && effects[k].valor == total
  {
    match p
    case PaidNow(_) => [DeleteMesa(m.id)]
    case Fiado(_, _) =>
      if post == Responded(true) then [Purchase(p, total), DeleteMesa(m.id)] else [Purchase(p, total)]
  }

  /** A reachable refusal: the dialog lets any note through, and a note over
      500 characters makes the server refuse the purchase (400), yet the table
      as written is deleted all the same, and its tab with it. */
  lemma LongNoteLosesTab(m: Mesa, clienteId: string, observacoes: string, total: real, isUuid: string -> bool)
    requires |observacoes| > 500
    ensures Validation.CheckTransacao(PurchaseInput(Purchase(Fiado(clienteId, observacoes), total)), isUuid) != []
    ensures DeleteMesa(m.id) in FinalizeAsWritten(m, Fiado(clienteId, observacoes), total, Responded(false))
    ensures DeleteMesa(m.id) !in Finalize(m, Fiado(clienteId, observacoes), total, Responded(false))
  {
    PurchaseAcceptedIff(clienteId, observacoes, total, isUuid);
  }

  /** A table is never deleted on the 'fiado' path unless its purchase was recorded. */
  lemma DeletedOnlyWhenRecorded(m: Mesa, p: Payment, total: real, post: PostResult)
    requires p.Fiado?
    requires DeleteMesa(m.id) in Finalize(m, p, total, post)
    ensures post == Responded(true) && Purchase(p, total) in Finalize(m, p, total, post)
  {
  }

  /** The schema view of the purchase a 'fiado' finalize posts. */
  function PurchaseInput(e: Effect): Validation.TransacaoInput
    requires e.PostCompra?
  {
    Validation.TransacaoInput(
      Validation.Given(e.clienteId), Validation.Given("compra"), Validation.Given(e.valor),
      Validation.Given(()),
      if e.observacoes.Some? then Validation.Given(e.observacoes.value) else Validation.Null)
  }

  /** The server takes the purchase exactly when the client id is a uuid, the
      total is in (0, 999999] and the note has at most 500 characters; an empty
      or negative table total is refused. */
  lemma PurchaseAcceptedIff(clienteId: string, observacoes: string, total: real, isUuid: string -> bool)
    ensures var e := Purchase(Fiado(clienteId, observacoes), total);
      Validation.CheckTransacao(PurchaseInput(e), isUuid) == []
      <==> isUuid(clienteId) && 0.0 < total <= Validation.MaxMoney && |observacoes| <= 500
  {
  }
}
