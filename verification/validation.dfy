/** The zod schemas of lib/validation.js. Each `Check*` function lists the
    issues `safeParse` would report (a parse succeeds exactly when the list is
    empty) and each `Valid*` predicate states the accepted inputs directly.
    zod's e-mail and UUID format checks are passed in as `isEmail`/`isUuid`. */
module Validation {

  /** A property of the parsed object: missing, `null`, or a value. */
  datatype Field<+T> = Absent | Null | Given(value: T)

  /** Which non-value states a schema accepts: none, `.optional()`, or `.nullable().optional()`. */
  datatype Presence = Required | Optional | Nullish

  datatype Code = InvalidType | TooSmall | TooBig | NotInteger | InvalidEnum | InvalidFormat

  datatype Issue = Issue(path: string, code: Code)

  /** Lower bound of a number schema: `.positive()` or `.min(v)`. */
  datatype LowerBound = Positive | AtLeast(v: real)

  const MaxMoney: real := 999999.0

  predicate Admits<T>(p: Presence, f: Field<T>) {
    match f
    case Given(_) => true
    case Absent => p != Required
    case Null => p == Nullish
  }

  predicate IsInteger(x: real) {
    x.Floor as real == x
  }

  predicate AboveLower(x: real, lo: LowerBound) {
    match lo
    case Positive => x > 0.0
    case AtLeast(v) => x >= v
  }

  function PresenceIssues<T>(path: string, p: Presence, f: Field<T>): seq<Issue> {
    if Admits(p, f) then [] else [Issue(path, InvalidType)]
  }

  /** `z.string().min(min).max(max)` */
  function LengthIssues(path: string, s: string, min: nat, max: nat): seq<Issue> {
    (if |s| < min then [Issue(path, TooSmall)] else [])
    + (if |s| > max then [Issue(path, TooBig)] else [])
  }

  function StringIssues(path: string, p: Presence, f: Field<string>, min: nat, max: nat): seq<Issue> {
    if f.Given? then LengthIssues(path, f.value, min, max) else PresenceIssues(path, p, f)
  }

  /** `z.number()` with an optional `.int()`, a lower bound and `.max(hi)` */
  function NumberIssues(path: string, p: Presence, f: Field<real>, integer: bool, lo: LowerBound, hi: real): seq<Issue> {
    if f.Given? then
      (if integer && !IsInteger(f.value) then [Issue(path, NotInteger)] else [])
      + (if !AboveLower(f.value, lo) then [Issue(path, TooSmall)] else [])
      + (if f.value > hi then [Issue(path, TooBig)] else [])
    else PresenceIssues(path, p, f)
  }

  function EnumIssues(path: string, p: Presence, f: Field<string>, options: set<string>): seq<Issue> {
    if f.Given? then (if f.value in options then [] else [Issue(path, InvalidEnum)])
    else PresenceIssues(path, p, f)
  }

  /** One issue per element longer than `max` */
  function ElementIssues(path: string, xs: seq<string>, max: nat): (r: seq<Issue>)
    ensures r == [] <==> forall i :: 0 <= i < |xs| ==> |xs[i]| <= max
  {
    if |xs| == 0 then []
    else (if |xs[0]| > max then [Issue(path, TooBig)] else []) + ElementIssues(path, xs[1..], max)
  }

  /** `z.array(z.string().max(maxLen)).max(maxCount)` */
  function StringListIssues(path: string, p: Presence, f: Field<seq<string>>, maxCount: nat, maxLen: nat): seq<Issue> {
    if f.Given? then
      ElementIssues(path, f.value, maxLen) + (if |f.value| > maxCount then [Issue(path, TooBig)] else [])
    else PresenceIssues(path, p, f)
  }

  // ---------------------------------------------------------------- clienteSchema

  datatype ClienteInput = ClienteInput(
    nome: Field<string>, telefone: Field<string>, email: Field<string>,
    apelidos: Field<seq<string>>, dia_pagamento: Field<real>, limite_credito: Field<real>,
    tags: Field<seq<string>>, foto_path: Field<string>, status: Field<string>)

  const ClientStatuses: set<string> := {"ativo", "suspenso", "cancelado"}

  predicate ValidCliente(c: ClienteInput, isEmail: string -> bool) {
    && c.nome.Given? && 1 <= |c.nome.value| <= 200
    && (c.telefone.Given? ==> |c.telefone.value| <= 20)
    && (c.email.Given? ==> c.email.value == "" || isEmail(c.email.value))
    && !c.apelidos.Null?
    && (c.apelidos.Given? ==> |c.apelidos.value| <= 10 && forall i :: 0 <= i < |c.apelidos.value| ==> |c.apelidos.value[i]| <= 100)
    && (c.dia_pagamento.Given? ==> IsInteger(c.dia_pagamento.value) && 1.0 <= c.dia_pagamento.value <= 31.0)
    && !c.limite_credito.Null?
    && (c.limite_credito.Given? ==> 0.0 <= c.limite_credito.value <= MaxMoney)
    && !c.tags.Null?
    && (c.tags.Given? ==> |c.tags.value| <= 20 && forall i :: 0 <= i < |c.tags.value| ==> |c.tags.value[i]| <= 50)
    && (c.foto_path.Given? ==> |c.foto_path.value| <= 500)
    && !c.status.Null?
    && (c.status.Given? ==> c.status.value in ClientStatuses)
  }

  /** `clienteSchema.safeParse(c)` */
  function CheckCliente(c: ClienteInput, isEmail: string -> bool): (issues: seq<Issue>)
    ensures issues == [] <==> ValidCliente(c, isEmail)
  {
    StringIssues("nome", Required, c.nome, 1, 200)
    + StringIssues("telefone", Nullish, c.telefone, 0, 20)
    + (if c.email.Given? && c.email.value != "" && !isEmail(c.email.value) then [Issue("email", InvalidFormat)] else [])
    + StringListIssues("apelidos", Optional, c.apelidos, 10, 100)
    + NumberIssues("dia_pagamento", Nullish, c.dia_pagamento, true, AtLeast(1.0), 31.0)
    + NumberIssues("limite_credito", Optional, c.limite_credito, false, AtLeast(0.0), MaxMoney)
    + StringListIssues("tags", Optional, c.tags, 20, 50)
    + StringIssues("foto_path", Nullish, c.foto_path, 0, 500)
    + EnumIssues("status", Optional, c.status, ClientStatuses)
  }

  // ---------------------------------------------------------------- transacaoSchema

  /** `dados` is any object; only whether it is there matters to the schema. */
  datatype TransacaoInput = TransacaoInput(
    cliente_id: Field<string>, tipo: Field<string>, valor: Field<real>,
    dados: Field<()>, observacoes: Field<string>)

  const TxKinds: set<string> := {"compra", "abate"}

  predicate ValidTransacao(t: TransacaoInput, isUuid: string -> bool) {
    && t.cliente_id.Given? && isUuid(t.cliente_id.value)
    && t.tipo.Given? && t.tipo.value in TxKinds
    && t.valor.Given? && 0.0 < t.valor.value <= MaxMoney
    && !t.dados.Null?
    && (t.observacoes.Given? ==> |t.observacoes.value| <= 500)
  }

  /** `transacaoSchema.safeParse(t)` */
  function CheckTransacao(t: TransacaoInput, isUuid: string -> bool): (issues: seq<Issue>)
    ensures issues == [] <==> ValidTransacao(t, isUuid)
  {
    (if t.cliente_id.Given? then (if isUuid(t.cliente_id.value) then [] else [Issue("cliente_id", InvalidFormat)])
     else PresenceIssues("cliente_id", Required, t.cliente_id))
    + EnumIssues("tipo", Required, t.tipo, TxKinds)
    + NumberIssues("valor", Required, t.valor, false, Positive, MaxMoney)
    + PresenceIssues("dados", Optional, t.dados)
    + StringIssues("observacoes", Nullish, t.observacoes, 0, 500)
  }

  // ---------------------------------------------------------------- produtoSchema

  datatype ProdutoInput = ProdutoInput(
    nome: Field<string>, preco: Field<real>, categoria: Field<string>,
    ativo: Field<bool>, valor_taxa: Field<real>)

  predicate ValidProduto(p: ProdutoInput) {
    && p.nome.Given? && 1 <= |p.nome.value| <= 200
    && p.preco.Given? && 0.0 < p.preco.value <= MaxMoney
    && (p.categoria.Given? ==> |p.categoria.value| <= 100)
    && !p.ativo.Null?
  }

  /** `produtoSchema.safeParse(p)`: `valor_taxa` may be any number, null or absent. */
  function CheckProduto(p: ProdutoInput): (issues: seq<Issue>)
    ensures issues == [] <==> ValidProduto(p)
  {
    StringIssues("nome", Required, p.nome, 1, 200)
    + NumberIssues("preco", Required, p.preco, false, Positive, MaxMoney)
    + StringIssues("categoria", Nullish, p.categoria, 0, 100)
    + PresenceIssues("ativo", Optional, p.ativo)
    + PresenceIssues("valor_taxa", Nullish, p.valor_taxa)
  }

  // ---------------------------------------------------------------- compraPixSchema

  datatype PixItemInput = PixItemInput(nome: Field<string>, preco: Field<real>, quantidade: Field<real>)

  datatype CompraPixInput = CompraPixInput(nome_cliente: Field<string>, itens: Field<seq<PixItemInput>>, total: Field<real>)

  predicate ValidPixItem(i: PixItemInput) {
    && i.nome.Given? && 1 <= |i.nome.value| <= 200
    && i.preco.Given? && 0.0 < i.preco.value <= MaxMoney
    && i.quantidade.Given? && IsInteger(i.quantidade.value) && 0.0 < i.quantidade.value <= 1000.0
  }

  predicate ValidCompraPix(c: CompraPixInput) {
    && c.nome_cliente.Given? && 1 <= |c.nome_cliente.value| <= 200
    && c.itens.Given? && |c.itens.value| >= 1
    && (forall k :: 0 <= k < |c.itens.value| ==> ValidPixItem(c.itens.value[k]))
    && c.total.Given? && 0.0 < c.total.value <= MaxMoney
  }

  function PixItemIssues(i: PixItemInput): (issues: seq<Issue>)
    ensures issues == [] <==> ValidPixItem(i)
  {
    StringIssues("itens.nome", Required, i.nome, 1, 200)
    + NumberIssues("itens.preco", Required, i.preco, false, Positive, MaxMoney)
    + NumberIssues("itens.quantidade", Required, i.quantidade, true, Positive, 1000.0)
  }

  function PixItemsIssues(items: seq<PixItemInput>): (issues: seq<Issue>)
    ensures issues == [] <==> forall k :: 0 <= k < |items| ==> ValidPixItem(items[k])
  {
    if |items| == 0 then [] else PixItemIssues(items[0]) + PixItemsIssues(items[1..])
  }

  /** `compraPixSchema.safeParse(c)` */
  function CheckCompraPix(c: CompraPixInput): (issues: seq<Issue>)
    ensures issues == [] <==> ValidCompraPix(c)
  {
    StringIssues("nome_cliente", Required, c.nome_cliente, 1, 200)
    + (if c.itens.Given? then
         PixItemsIssues(c.itens.value) + (if |c.itens.value| < 1 then [Issue("itens", TooSmall)] else [])
       else PresenceIssues("itens", Required, c.itens))
    + NumberIssues("total", Required, c.total, false, Positive, MaxMoney)
  }

  // ---------------------------------------------------------------- mesaSchema, searchQuerySchema

  /** `itens` and `logs` are arrays of anything; only their presence matters. */
  datatype MesaInput = MesaInput(nome: Field<string>, itens: Field<()>, observacoes: Field<string>, logs: Field<()>)

  predicate ValidMesa(m: MesaInput) {
    && m.nome.Given? && 1 <= |m.nome.value| <= 200
    && !m.itens.Null?
    && (m.observacoes.Given? ==> |m.observacoes.value| <= 500)
    && !m.logs.Null?
  }

  /** `mesaSchema.safeParse(m)` */
  function CheckMesa(m: MesaInput): (issues: seq<Issue>)
    ensures issues == [] <==> ValidMesa(m)
  {
    StringIssues("nome", Required, m.nome, 1, 200)
    + PresenceIssues("itens", Optional, m.itens)
    + StringIssues("observacoes", Nullish, m.observacoes, 0, 500)
    + PresenceIssues("logs", Optional, m.logs)
  }

  /** `searchQuerySchema.safeParse(q)` for a query string. */
  function CheckSearchQuery(q: string): (issues: seq<Issue>)
    ensures issues == [] <==> |q| <= 100
  {
    LengthIssues("", q, 0, 100)
  }
}
