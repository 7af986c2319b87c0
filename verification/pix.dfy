/** The PIX counter (app/pix/page.js and its dialog
    app/pix/components/NewPixDialog.js): a cart of items for a walk-in
    customer, its total, posting the purchase, the list of open purchases and
    its name search, and moving a purchase onto a client's tab. `parseInt` and
    `parseFloat` of the form fields are given with each field (`NumText`), a
    NaN result being None; a number that is NaN stays None through the
    arithmetic, as NaN does. */
module Pix {
  import opened Wrappers
  import Text
  import Seqs
  import Validation
  import Mesas

  /** A cart line: `{ id, nome, preco, quantidade }`, NaN as None. */
  datatype CartItem = CartItem(id: string, nome: string, preco: Option<real>, quantidade: Option<int>)

  /** An active product from the catalogue. */
  datatype CatalogProduct = CatalogProduct(nome: string, preco: real)

  /** The item form: custom mode with a typed name and price, or a selected product. */
  datatype Form = Form(
    custom: bool,
    nome: string,
    preco: NumText<real>,
    selected: Option<CatalogProduct>,
    quantidade: NumText<int>)

  datatype Cart = Cart(nomeCliente: string, itens: seq<CartItem>, form: Form)

  /** `setQuantidade('1')` */
  const QuantityOne: NumText<int> := NumText("1", Some(1))

  // ---------------------------------------------------------------- adding an item

  /** The custom-mode guard: `!nome || !preco || parseFloat(preco) <= 0` refuses.
      A NaN price is not `<= 0`, so it passes. */
  predicate CustomAdmitted(f: Form) {
    f.nome != "" && f.preco.text != "" && !(f.preco.parsed.Some? && f.preco.parsed.value <= 0.0)
  }

  /** The catalogue guard: `!produtoSelecionado || !quantidade || parseInt(quantidade) <= 0` refuses. */
  predicate CatalogAdmitted(f: Form) {
    f.selected.Some? && f.quantidade.text != "" && !(f.quantidade.parsed.Some? && f.quantidade.parsed.value <= 0)
  }

  predicate Admitted(f: Form) {
    if f.custom then CustomAdmitted(f) else CatalogAdmitted(f)
  }

  /** `handleAdicionarItem()` at time `now`. */
  function AddItem(c: Cart, now: nat): (r: Cart)
    ensures !Admitted(c.form) ==> r == c
    ensures Admitted(c.form) ==>
      && |r.itens| == |c.itens| + 1
      && r.itens[..|c.itens|] == c.itens
      && r.nomeCliente == c.nomeCliente
      && r.form.quantidade == QuantityOne && !r.form.custom
    ensures Admitted(c.form) ==> var i := r.itens[|c.itens|];
      && i.id == Text.IntToString(now)
      && i.quantidade == c.form.quantidade.parsed
      && (c.form.custom ==> i.nome == c.form.nome && i.preco == c.form.preco.parsed)
      && (!c.form.custom ==> i.nome == c.form.selected.value.nome && i.preco == Some(c.form.selected.value.preco))
    ensures Admitted(c.form) && c.form.custom ==> r.form.nome == "" && r.form.preco.text == ""
    ensures Admitted(c.form) && !c.form.custom ==> r.form.selected.None?
  {
    var f := c.form;
    var id := Text.IntToString(now);
    if !Admitted(f) then c
    else if f.custom then
      var item := CartItem(id, f.nome, f.preco.parsed, f.quantidade.parsed);
      assert (c.itens + [item])[..|c.itens|] == c.itens;
      Cart(c.nomeCliente, c.itens + [item], f.(custom := false, nome := "", preco := NumText("", None), quantidade := QuantityOne))
    else
      var item := CartItem(id, f.selected.value.nome, Some(f.selected.value.preco), f.quantidade.parsed);
      assert (c.itens + [item])[..|c.itens|] == c.itens;
      Cart(c.nomeCliente, c.itens + [item], f.(selected := None, quantidade := QuantityOne))
  }

  // ---------------------------------------------------------------- the total

  predicate Numeric(i: CartItem) { i.preco.Some? && i.quantidade.Some? }

  /** `item.preco * item.quantidade` when both are numbers. */
  function Line(i: CartItem): real {
    if Numeric(i) then i.preco.value * i.quantidade.value as real else 0.0
  }

  /** `itensCompra.reduce((total, item) => total + item.preco * item.quantidade, 0)`:
      NaN (None) as soon as one line is NaN, otherwise the sum of the lines. */
  function Total(itens: seq<CartItem>): (t: Option<real>)
    ensures t.None? <==> exists k :: 0 <= k < |itens| && !Numeric(itens[k])
    ensures t.Some? ==> t.value == Seqs.SumBy(itens, Line)
  {
    if |itens| == 0 then Some(0.0)
    else
      var rest := Total(itens[1..]);
      assert forall k :: 1 <= k < |itens| ==> itens[k] == itens[1..][k - 1];
      if Numeric(itens[0]) && rest.Some? then Some(Line(itens[0]) + rest.value) else None
  }

  /** An admitted item adds its line to the total. */
  lemma AddItemAddsLine(c: Cart, now: nat)
    requires Admitted(c.form)
    ensures var r := AddItem(c, now);
      Seqs.SumBy(r.itens, Line) == Seqs.SumBy(c.itens, Line) + Line(r.itens[|c.itens|])
  {
    var r := AddItem(c, now);
    assert r.itens == c.itens + [r.itens[|c.itens|]];
    Seqs.SumByConcat(c.itens, [r.itens[|c.itens|]], Line);
  }

  /** Lines with positive price and quantity give a positive total. */
  lemma {:induction false} PositiveTotal(itens: seq<CartItem>)
    requires |itens| >= 1
    requires forall k :: 0 <= k < |itens| ==> Numeric(itens[k]) && itens[k].preco.value > 0.0 && itens[k].quantidade.value >= 1
    ensures Seqs.SumBy(itens, Line) > 0.0
  {
    var rest := itens[1..];
    assert Line(itens[0]) > 0.0 by {
      var p, q := itens[0].preco.value, itens[0].quantidade.value as real;
      assert p * q >= p * 1.0;
    }
    if |rest| == 0 {
    } else {
      assert forall k :: 0 <= k < |rest| ==> rest[k] == itens[k + 1];
      PositiveTotal(rest);
    }
  }

  // ---------------------------------------------------------------- removing an item

  function IdIsNot(id: string): CartItem -> bool { (i: CartItem) => i.id != id }
  function IdIs(id: string): CartItem -> bool { (i: CartItem) => i.id == id }

  /** `itensCompra.filter(i => i.id !== itemId)` */
  function RemoveItem(itens: seq<CartItem>, id: string): (r: seq<CartItem>)
    ensures forall k :: 0 <= k < |r| ==> r[k].id != id
    ensures forall x: CartItem :: x.id != id ==> multiset(r)[x] == multiset(itens)[x]
    ensures Seqs.Subsequence(r, itens)
  {
    Seqs.Filter(itens, IdIsNot(id))
  }

  /** Removing takes exactly the removed lines off the total. */
  lemma RemoveLowersTotal(itens: seq<CartItem>, id: string)
    ensures Seqs.SumBy(RemoveItem(itens, id), Line)
         == Seqs.SumBy(itens, Line) - Seqs.SumBy(Seqs.Filter(itens, IdIs(id)), Line)
  {
    Seqs.SumByPartition(itens, IdIs(id), IdIsNot(id), Line);
  }

  /** Removing an id that is not in the cart changes nothing. */
  lemma RemoveAbsentKeepsCart(itens: seq<CartItem>, id: string)
    requires forall k :: 0 <= k < |itens| ==> itens[k].id != id
    ensures RemoveItem(itens, id) == itens
  {
    Seqs.FilterKeepsAll(itens, IdIsNot(id));
  }

  // ---------------------------------------------------------------- posting the purchase

  /** A number as `JSON.stringify` sends it: NaN becomes `null`. */
  function Json(x: Option<real>): Validation.Field<real> {
    if x.Some? then Validation.Given(x.value) else Validation.Null
  }

  function ItemInput(i: CartItem): Validation.PixItemInput {
    Validation.PixItemInput(
      Validation.Given(i.nome), Json(i.preco),
      Json(if i.quantidade.Some? then Some(i.quantidade.value as real) else None))
  }

  function ItemInputs(itens: seq<CartItem>): (r: seq<Validation.PixItemInput>)
    ensures |r| == |itens|
    ensures forall k :: 0 <= k < |itens| ==> r[k] == ItemInput(itens[k])
  {
    if |itens| == 0 then [] else [ItemInput(itens[0])] + ItemInputs(itens[1..])
  }

  /** The body of `POST /api/compras-pix`: the name as typed, the items, the total. */
  function CompraInput(c: Cart): Validation.CompraPixInput {
    Validation.CompraPixInput(Validation.Given(c.nomeCliente), Validation.Given(ItemInputs(c.itens)), Json(Total(c.itens)))
  }

  datatype Finalized = Refused | Posted(body: Validation.CompraPixInput, after: Cart)

  /** `handleFinalizarCompra()`: refused with an empty cart or a blank name;
      otherwise the purchase is posted, and only an accepted post clears the
      name, the cart and the selected product. */
  function Finalize(c: Cart, post: Mesas.PostResult): (r: Finalized)
    ensures r.Refused? <==> |c.itens| == 0 || Text.Blank(c.nomeCliente)
    ensures r.Posted? ==> r.body == CompraInput(c)
    ensures r.Posted? && post == Mesas.Responded(true) ==>
      r.after.nomeCliente == "" && r.after.itens == [] && r.after.form.selected.None?
    ensures r.Posted? && post != Mesas.Responded(true) ==> r.after == c
  {
    if |c.itens| == 0 || Text.Trim(c.nomeCliente) == "" then Refused
    else if post == Mesas.Responded(true) then
      Posted(CompraInput(c), Cart("", [], c.form.(selected := None)))
    else Posted(CompraInput(c), c)
  }

  /** What the schema asks of one line. */
  predicate ItemAccepted(i: CartItem) {
    && 1 <= |i.nome| <= 200
    && i.preco.Some? && 0.0 < i.preco.value <= Validation.MaxMoney
    && i.quantidade.Some? && 1 <= i.quantidade.value <= 1000
  }

  lemma ItemInputAccepted(i: CartItem)
    ensures Validation.ValidPixItem(ItemInput(i)) <==> ItemAccepted(i)
  {
  }

  /** The lines pass the schema exactly when each is acceptable. */
  lemma ItemsAcceptedIff(itens: seq<CartItem>)
    ensures (forall k :: 0 <= k < |itens| ==> Validation.ValidPixItem(ItemInputs(itens)[k]))
        <==> (forall k :: 0 <= k < |itens| ==> ItemAccepted(itens[k]))
  {
    forall k | 0 <= k < |itens|
      ensures Validation.ValidPixItem(ItemInputs(itens)[k]) <==> ItemAccepted(itens[k])
    {
      ItemInputAccepted(itens[k]);
    }
  }

  /** Acceptable lines always give a positive, numeric total. */
  lemma AcceptedLinesTotal(itens: seq<CartItem>)
    requires |itens| >= 1
    requires forall k :: 0 <= k < |itens| ==> ItemAccepted(itens[k])
    ensures Total(itens).Some? && Total(itens).value > 0.0
  {
    PositiveTotal(itens);
  }

  /** A posted cart is stored exactly when the name has at most 200
      characters, every line is acceptable, and the total is at most
      999999; the total is then positive by itself. */
  lemma PostedCartAcceptedIff(c: Cart, post: Mesas.PostResult)
    requires Finalize(c, post).Posted?
    ensures Validation.CheckCompraPix(Finalize(c, post).body) == []
      <==> && |c.nomeCliente| <= 200
           && (forall k :: 0 <= k < |c.itens| ==> ItemAccepted(c.itens[k]))
           && Total(c.itens).Some? && Total(c.itens).value <= Validation.MaxMoney
  {
    CompraInputValidIff(c);
  }

  lemma CompraInputValidIff(c: Cart)
    requires |c.nomeCliente| >= 1 && |c.itens| >= 1
    ensures Validation.CheckCompraPix(CompraInput(c)) == []
      <==> && |c.nomeCliente| <= 200
           && (forall k :: 0 <= k < |c.itens| ==> ItemAccepted(c.itens[k]))
           && Total(c.itens).Some? && Total(c.itens).value <= Validation.MaxMoney
  {
    ItemsAcceptedIff(c.itens);
    if forall k :: 0 <= k < |c.itens| ==> ItemAccepted(c.itens[k]) {
      AcceptedLinesTotal(c.itens);
    }
  }

  /** The quantity is not checked in custom mode: a custom line of quantity 0
      enters the cart, and the purchase holding it is then refused by the server. */
  lemma CustomQuantityUnchecked(now: nat)
    ensures var f := Form(true, "Gelo", NumText("5", Some(5.0)), None, NumText("0", Some(0)));
      var r := AddItem(Cart("Ana", [], f), now);
      && r.itens == [CartItem(Text.IntToString(now), "Gelo", Some(5.0), Some(0))]
      && Finalize(r.(nomeCliente := "Ana"), Mesas.Responded(false)).Posted?
      && Validation.CheckCompraPix(Finalize(r.(nomeCliente := "Ana"), Mesas.Responded(false)).body) != []
  {
    var f := Form(true, "Gelo", NumText("5", Some(5.0)), None, NumText("0", Some(0)));
    var r := AddItem(Cart("Ana", [], f), now);
    assert !Text.Blank("Ana") by { assert !Text.IsSpace("Ana"[0]); }
    PostedCartAcceptedIff(r, Mesas.Responded(false));
    assert !ItemAccepted(r.itens[0]);
  }

  // ---------------------------------------------------------------- the list of open purchases

  /** A stored purchase: `{ id, nome_cliente, itens, total, enviado_para_cliente }`. */
  datatype Compra = Compra(id: string, nomeCliente: Option<string>, itens: seq<CartItem>, total: real, enviado: bool)

  function NotSent(): Compra -> bool { (c: Compra) => !c.enviado }

  /** `loadCompras()`: `(data.compras || []).filter(c => !c.enviado_para_cliente)`. */
  function LoadCompras(compras: Option<seq<Compra>>): (r: seq<Compra>)
    ensures forall k :: 0 <= k < |r| ==> !r[k].enviado
    ensures compras.Some? ==> Seqs.Subsequence(r, compras.value)
    ensures compras.Some? ==> forall x: Compra :: !x.enviado ==> multiset(r)[x] == multiset(compras.value)[x]
    ensures compras.None? ==> r == []
  {
    Seqs.Filter(compras.GetOr([]), NotSent())
  }

  /** `c.nome_cliente?.toLowerCase().includes(searchQuery.toLowerCase())` */
  predicate NameMatches(query: string, c: Compra) {
    c.nomeCliente.Some? && Text.Includes(Text.Lower(c.nomeCliente.value), Text.Lower(query))
  }

  function NameMatchesFn(query: string): Compra -> bool { (c: Compra) => NameMatches(query, c) }

  /** The search effect: a blank query shows everything; otherwise the
      purchases whose name contains the query as typed (not trimmed), ignoring case. */
  function Visible(compras: seq<Compra>, query: string): (r: seq<Compra>)
    ensures Text.Blank(query) ==> r == compras
    ensures !Text.Blank(query) ==>
      && Seqs.Subsequence(r, compras)
      && (forall k :: 0 <= k < |r| ==> NameMatches(query, r[k]))
      && (forall x :: NameMatches(query, x) ==> multiset(r)[x] == multiset(compras)[x])
  {
    if Text.Trim(query) == "" then compras else Seqs.Filter(compras, NameMatchesFn(query))
  }

  lemma LowerIdempotent(s: string)
    ensures Text.Lower(Text.Lower(s)) == Text.Lower(s)
  {
  }

  /** Typing the query in upper or lower case shows the same purchases. */
  lemma SearchIgnoresCase(compras: seq<Compra>, query: string)
    ensures Visible(compras, Text.Lower(query)) == Visible(compras, query)
  {
    var lq := Text.Lower(query);
    assert Text.Blank(lq) <==> Text.Blank(query) by {
      assert forall i :: 0 <= i < |query| ==> (Text.IsSpace(lq[i]) <==> Text.IsSpace(query[i]));
    }
    if !Text.Blank(query) {
      LowerIdempotent(query);
      Seqs.FilterExt(compras, NameMatchesFn(lq), NameMatchesFn(query));
    }
  }

  /** The query is not trimmed: " ana" does not find "Ana". */
  lemma UntrimmedQueryMisses(c: Compra)
    requires c.nomeCliente == Some("Ana")
    ensures Visible([c], " ana") == []
  {
    assert !Text.Blank(" ana") by { assert !Text.IsSpace(" ana"[1]); }
    assert Text.Lower("Ana") == "ana";
    assert Text.Lower(" ana") == " ana";
    assert !Text.Includes("ana", " ana");
  }

  // ---------------------------------------------------------------- sending a purchase to a client's tab

  /** `${i.quantidade}` of a stored line: the purchase has been through JSON,
      where a NaN quantity is written as `null`. */
  function QuantityText(q: Option<int>): string {
    if q.Some? then Text.IntToString(q.value) else "null"
  }

  /** `${i.quantidade}x ${i.nome}` */
  function Part(i: CartItem): string {
    QuantityText(i.quantidade) + "x " + i.nome
  }

  function Parts(itens: seq<CartItem>): (r: seq<string>)
    ensures |r| == |itens|
    ensures forall k :: 0 <= k < |itens| ==> r[k] == Part(itens[k])
  {
    if |itens| == 0 then [] else [Part(itens[0])] + Parts(itens[1..])
  }

  /** `compra.itens.map(...).join(', ')`: the lines one after another, ", " between them. */
  function Descricao(itens: seq<CartItem>): (r: string)
    ensures itens == [] ==> r == ""
    ensures |itens| == 1 ==> r == Part(itens[0])
    ensures |itens| > 1 ==> r == Part(itens[0]) + ", " + Descricao(itens[1..])
    decreases |itens|
  {
    if |itens| > 1 then
      assert Parts(itens)[1..] == Parts(itens[1..]);
      Text.Join(Parts(itens), ", ")
    else
      Text.Join(Parts(itens), ", ")
  }

  datatype Effect =
    | PostTransacao(clienteId: string, valor: real, descricao: string)
    | DeleteCompra(id: string)

  /** `handleEnviarParaCliente(compra)`: nothing without a selected client;
      otherwise a 'compra' on the client for the purchase total, and the
      purchase is deleted only when that post answered ok. */
  function Enviar(compra: Compra, clienteSelecionado: string, post: Mesas.PostResult): (effects: seq<Effect>)
    ensures clienteSelecionado == "" <==> effects == []
    ensures clienteSelecionado != "" ==>
      effects[0] == PostTransacao(clienteSelecionado, compra.total, Descricao(compra.itens))
    ensures DeleteCompra(compra.id) in effects <==> clienteSelecionado != "" && post == Mesas.Responded(true)
    ensures |effects| <= 2
  {
    if clienteSelecionado == "" then []
    else
      var tx := PostTransacao(clienteSelecionado, compra.total, Descricao(compra.itens));
      if post == Mesas.Responded(true) then [tx, DeleteCompra(compra.id)] else [tx]
  }

  /** Every line of the purchase is named in the description. */
  lemma DescricaoListsEveryItem(itens: seq<CartItem>, k: nat)
    requires k < |itens|
    ensures Text.Includes(Descricao(itens), Part(itens[k]))
  {
    Text.JoinIncludesPart(Parts(itens), ", ", k);
  }

  /** The schema view of the transaction sent to the client's tab. */
  function TransacaoInput(e: Effect): Validation.TransacaoInput
    requires e.PostTransacao?
  {
    Validation.TransacaoInput(
      Validation.Given(e.clienteId), Validation.Given("compra"), Validation.Given(e.valor),
      Validation.Given(()), Validation.Absent)
  }

  /** The transaction is accepted exactly when the client id is a uuid and the
      purchase total is in (0, 999999]. */
  lemma TransacaoAcceptedIff(compra: Compra, clienteSelecionado: string, post: Mesas.PostResult, isUuid: string -> bool)
    requires clienteSelecionado != ""
    ensures var e := Enviar(compra, clienteSelecionado, post)[0];
      Validation.CheckTransacao(TransacaoInput(e), isUuid) == []
      <==> isUuid(clienteSelecionado) && 0.0 < compra.total <= Validation.MaxMoney
  {
  }

  /** Once sent and deleted, the purchase is gone from the reloaded list. */
  lemma SentPurchaseLeavesList(stored: seq<Compra>, compra: Compra)
    requires forall k :: 0 <= k < |stored| ==> stored[k].id != compra.id
    ensures forall k :: 0 <= k < |LoadCompras(Some(stored))| ==> LoadCompras(Some(stored))[k].id != compra.id
  {
    var r := LoadCompras(Some(stored));
    forall k | 0 <= k < |r| ensures r[k].id != compra.id {
      assert multiset(r)[r[k]] > 0;
    }
  }
}
