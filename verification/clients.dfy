/** The client list page (app/page.js): the filters and sort behind
    `applyFilters`, the labels it shows for the active filters, `resetFilters`,
    which list is displayed, and the comma-separated nickname and tag fields
    of the new-client form. `parseInt`/`parseFloat` of the filter fields are
    given with each field: a `NumText` carries the typed text and its parsed
    value, None standing for NaN. The locale collation `localeCompare` is the
    parameter `rank`. */
module Clients {
  import opened Wrappers
  import Text
  import Seqs
  import Sorting

  datatype Client = Client(
    nome: string,
    telefone: Option<string>,
    email: Option<string>,
    apelidos: Option<seq<string>>,
    diaPagamento: Option<int>,
    limiteCredito: Option<real>,
    status: Option<string>,
    saldo: real,
    tags: Option<seq<string>>)

  datatype Filters = Filters(
    searchQuery: string,
    dia: NumText<int>,
    limiteMin: NumText<real>,
    limiteMax: NumText<real>,
    status: string,
    financeiro: string,
    tag: string,
    dados: string,
    ordenacao: string)

  // ---------------------------------------------------------------- what each filter keeps

  /** Some element of `xs`, lower-cased, contains `q`. */
  predicate SomeIncludes(xs: seq<string>, q: string) {
    exists k :: 0 <= k < |xs| && Text.Includes(Text.Lower(xs[k]), q)
  }

  predicate MatchesSearch(q: string, c: Client) {
    var lq := Text.Lower(q);
    || Text.Includes(Text.Lower(c.nome), lq)
    || (c.telefone.Some? && Text.Includes(c.telefone.value, q))
    || (c.email.Some? && Text.Includes(Text.Lower(c.email.value), lq))
    || SomeIncludes(c.apelidos.GetOr([]), lq)
  }

  /** `c.limite_credito || 0` */
  function Limite(c: Client): real {
    c.limiteCredito.GetOr(0.0)
  }

  /** `c.status || 'ativo'` */
  function StatusOf(c: Client): string {
    if c.status.None? || c.status.value == "" then "ativo" else c.status.value
  }

  /** `!c.telefone`, `!c.email`: null or the empty string. */
  predicate Missing(s: Option<string>) {
    s.None? || s.value == ""
  }

  predicate WithinLimit(f: Filters, c: Client) {
    var l := Limite(c);
    && (if f.limiteMin.text == "" then l >= 0.0
        else f.limiteMin.parsed.Some? && l >= f.limiteMin.parsed.value)
    && (f.limiteMax.text == "" || (f.limiteMax.parsed.Some? && l <= f.limiteMax.parsed.value))
  }

  predicate DiaActive(f: Filters) { f.dia.text != "" }
  predicate LimiteActive(f: Filters) { f.limiteMin.text != "" || f.limiteMax.text != "" }
  predicate StatusActive(f: Filters) { f.status != "todos" }
  predicate FinanceiroActive(f: Filters) { f.financeiro in {"devedores", "credores", "zerados"} }
  predicate TagActive(f: Filters) { f.tag != "" }
  predicate DadosActive(f: Filters) { f.dados in {"sem_telefone", "sem_email"} }

  predicate FinanceiroKeeps(f: Filters, c: Client) {
    match f.financeiro
    case "devedores" => c.saldo < 0.0
    case "credores" => c.saldo > 0.0
    case "zerados" => c.saldo == 0.0
    case _ => true
  }

  predicate DadosKeeps(f: Filters, c: Client) {
    match f.dados
    case "sem_telefone" => Missing(c.telefone)
    case "sem_email" => Missing(c.email)
    case _ => true
  }

  // Each stage's condition, as the `filter` callback it passes.
  function SearchP(f: Filters): Client -> bool {
    (c: Client) => MatchesSearch(f.searchQuery, c)
  }
  function DiaP(f: Filters): Client -> bool {
    (c: Client) => f.dia.parsed.Some? && c.diaPagamento == Some(f.dia.parsed.value)
  }
  function LimiteP(f: Filters): Client -> bool {
    (c: Client) => WithinLimit(f, c)
  }
  function StatusP(f: Filters): Client -> bool {
    (c: Client) => StatusOf(c) == f.status
  }
  function FinanceiroP(f: Filters): Client -> bool {
    (c: Client) => FinanceiroKeeps(f, c)
  }
  function TagP(f: Filters): Client -> bool {
    (c: Client) => c.tags.Some? && SomeIncludes(c.tags.value, Text.Lower(f.tag))
  }
  function DadosP(f: Filters): Client -> bool {
    (c: Client) => DadosKeeps(f, c)
  }

  /** Everything `applyFilters` asks of a client, as one condition: each
      active filter's test. */
  predicate Keep(f: Filters, c: Client) {
    && (f.searchQuery == "" || MatchesSearch(f.searchQuery, c))
    && (!DiaActive(f) || (f.dia.parsed.Some? && c.diaPagamento == Some(f.dia.parsed.value)))
    && (!LimiteActive(f) || WithinLimit(f, c))
    && (!StatusActive(f) || StatusOf(c) == f.status)
    && (!FinanceiroActive(f) || FinanceiroKeeps(f, c))
    && (!TagActive(f) || (c.tags.Some? && SomeIncludes(c.tags.value, Text.Lower(f.tag))))
    && (!DadosActive(f) || DadosKeeps(f, c))
  }

  // ---------------------------------------------------------------- ordering

  /** The comparator of each `ordenacao` as a key sorted ascending; a
      descending order sorts the negated key, and an unknown value keeps the order. */
  function SortKey(ordenacao: string, rank: string -> real): Client -> real {
    match ordenacao
    case "nome_asc" => (c: Client) => rank(c.nome)
    case "nome_desc" => (c: Client) => -rank(c.nome)
    case "saldo_menor" => (c: Client) => c.saldo
    case "saldo_maior" => (c: Client) => -c.saldo
    case "limite_maior" => (c: Client) => -Limite(c)
    case _ => (c: Client) => 0.0
  }

  // ---------------------------------------------------------------- labels

  datatype FilterKind = Dia | LimiteKind | StatusKind | Financeiro | Tag | Dados

  /** The filters that can add a label, in the order `applyFilters` tests them. */
  const Kinds: seq<FilterKind> := [Dia, LimiteKind, StatusKind, Financeiro, Tag, Dados]

  predicate IsActive(f: Filters, k: FilterKind) {
    match k
    case Dia => DiaActive(f)
    case LimiteKind => LimiteActive(f)
    case StatusKind => StatusActive(f)
    case Financeiro => FinanceiroActive(f)
    case Tag => TagActive(f)
    case Dados => DadosActive(f)
  }

  function ActiveOf(f: Filters, ks: seq<FilterKind>): seq<FilterKind> {
    if |ks| == 0 then [] else (if IsActive(f, ks[0]) then [ks[0]] else []) + ActiveOf(f, ks[1..])
  }

  /** No filter is listed active exactly when none of them is. */
  lemma {:induction false} NoneActive(f: Filters, ks: seq<FilterKind>)
    ensures ActiveOf(f, ks) == [] <==> forall i :: 0 <= i < |ks| ==> !IsActive(f, ks[i])
  {
    if |ks| > 0 {
      NoneActive(f, ks[1..]);
      assert forall i :: 1 <= i < |ks| ==> ks[i] == ks[1..][i - 1];
    }
  }

  /** The active filters, in the order `applyFilters` tests them. */
  function ActiveKinds(f: Filters): seq<FilterKind> {
    ActiveOf(f, Kinds)
  }

  /** `s.charAt(0).toUpperCase() + s.slice(1)` */
  function Capitalize(s: string): (r: string)
    ensures |r| == |s|
    ensures |s| > 0 ==> r[0] == Text.UpperChar(s[0]) && r[1..] == s[1..]
  {
    if |s| == 0 then "" else [Text.UpperChar(s[0])] + s[1..]
  }

  /** `${dia}` of the parsed day; NaN prints as "NaN". */
  function DiaText(d: NumText<int>): string {
    if d.parsed.Some? then Text.IntToString(d.parsed.value) else "NaN"
  }

  function LimiteLabel(f: Filters): string {
    if f.limiteMin.text != "" && f.limiteMax.text != "" then
      "Limite: R$ " + f.limiteMin.text + " - R$ " + f.limiteMax.text
    else if f.limiteMin.text != "" then "Limite: >= R$ " + f.limiteMin.text
    else "Limite: <= R$ " + f.limiteMax.text
  }

  function FinanceiroLabel(f: Filters): string {
    match f.financeiro
    case "devedores" => "Apenas Devedores"
    case "credores" => "Apenas Credores"
    case _ => "Saldo Zerado"
  }

  /** The label a filter pushes to `filters` when it is active. */
  function LabelOf(f: Filters, k: FilterKind): string {
    match k
    case Dia => "Dia de Pagamento: " + DiaText(f.dia)
    case LimiteKind => LimiteLabel(f)
    case StatusKind => "Status: " + Capitalize(f.status)
    case Financeiro => FinanceiroLabel(f)
    case Tag => "Tag: " + f.tag
    case Dados => if f.dados == "sem_telefone" then "Sem Telefone" else "Sem Email"
  }

  function LabelsOf(f: Filters, ks: seq<FilterKind>): seq<string> {
    if |ks| == 0 then [] else (if IsActive(f, ks[0]) then [LabelOf(f, ks[0])] else []) + LabelsOf(f, ks[1..])
  }

  /** The labels pushed to `filters`. */
  function Labels(f: Filters): seq<string> {
    LabelsOf(f, Kinds)
  }

  /** Reads a label back to the filter that produced it, by its fixed opening words. */
  function Classify(shown: string): Option<FilterKind> {
    if Text.StartsWith(shown, "Dia de Pagamento: ") then Some(Dia)
    else if Text.StartsWith(shown, "Limite: ") then Some(LimiteKind)
    else if Text.StartsWith(shown, "Status: ") then Some(StatusKind)
    else if Text.StartsWith(shown, "Apenas ") || shown == "Saldo Zerado" then Some(Financeiro)
    else if Text.StartsWith(shown, "Tag: ") then Some(Tag)
    else if shown == "Sem Telefone" || shown == "Sem Email" then Some(Dados)
    else None
  }

  function ClassifyAll(labels: seq<string>): (r: seq<Option<FilterKind>>)
    ensures |r| == |labels|
    ensures forall k :: 0 <= k < |labels| ==> r[k] == Classify(labels[k])
  {
    if |labels| == 0 then [] else [Classify(labels[0])] + ClassifyAll(labels[1..])
  }

  function SomeAll(kinds: seq<FilterKind>): (r: seq<Option<FilterKind>>)
    ensures |r| == |kinds|
    ensures forall k :: 0 <= k < |kinds| ==> r[k] == Some(kinds[k])
  {
    if |kinds| == 0 then [] else [Some(kinds[0])] + SomeAll(kinds[1..])
  }

  lemma PrefixedWith(p: string, rest: string)
    ensures Text.StartsWith(p + rest, p)
  {
    assert (p + rest)[..|p|] == p;
  }

  lemma {:induction false} ClassifyConcat(a: seq<string>, b: seq<string>)
    ensures ClassifyAll(a + b) == ClassifyAll(a) + ClassifyAll(b)
  {
  }

  lemma {:induction false} SomeConcat(a: seq<FilterKind>, b: seq<FilterKind>)
    ensures SomeAll(a + b) == SomeAll(a) + SomeAll(b)
  {
  }

  lemma DiffersAt(s: string, p: string, i: nat)
    requires i < |p| && i < |s| && s[i] != p[i]
    ensures !Text.StartsWith(s, p)
  {
  }

  lemma LimiteLabelKind(f: Filters)
    ensures Classify(LimiteLabel(f)) == Some(LimiteKind)
  {
    var rest := if f.limiteMin.text != "" && f.limiteMax.text != "" then "R$ " + f.limiteMin.text + " - R$ " + f.limiteMax.text
      else if f.limiteMin.text != "" then ">= R$ " + f.limiteMin.text
      else "<= R$ " + f.limiteMax.text;
    assert LimiteLabel(f) == "Limite: " + rest;
    PrefixedWith("Limite: ", rest);
    DiffersAt(LimiteLabel(f), "Dia de Pagamento: ", 0);
  }

  lemma StatusLabelKind(status: string)
    ensures Classify("Status: " + Capitalize(status)) == Some(StatusKind)
  {
    var st := "Status: " + Capitalize(status);
    PrefixedWith("Status: ", Capitalize(status));
    DiffersAt(st, "Dia de Pagamento: ", 0);
    DiffersAt(st, "Limite: ", 0);
  }

  lemma FinanceiroLabelKind(f: Filters)
    ensures Classify(FinanceiroLabel(f)) == Some(Financeiro)
  {
    var fl := FinanceiroLabel(f);
    DiffersAt(fl, "Dia de Pagamento: ", 0);
    DiffersAt(fl, "Limite: ", 0);
    DiffersAt(fl, "Status: ", 1);
    if fl != "Saldo Zerado" {
      PrefixedWith("Apenas ", if f.financeiro == "devedores" then "Devedores" else "Credores");
    }
  }

  lemma TagLabelKind(tag: string)
    ensures Classify("Tag: " + tag) == Some(Tag)
  {
    var tg := "Tag: " + tag;
    PrefixedWith("Tag: ", tag);
    DiffersAt(tg, "Dia de Pagamento: ", 0);
    DiffersAt(tg, "Limite: ", 0);
    DiffersAt(tg, "Status: ", 0);
    DiffersAt(tg, "Apenas ", 0);
    assert tg != "Saldo Zerado" by { assert tg[0] != "Saldo Zerado"[0]; }
  }

  lemma DadosLabelKind(shown: string)
    requires shown == "Sem Telefone" || shown == "Sem Email"
    ensures Classify(shown) == Some(Dados)
  {
    DiffersAt(shown, "Dia de Pagamento: ", 0);
    DiffersAt(shown, "Limite: ", 0);
    DiffersAt(shown, "Status: ", 1);
    DiffersAt(shown, "Apenas ", 0);
    DiffersAt(shown, "Tag: ", 0);
  }

  /** Each filter's label reads back to that filter. */
  lemma LabelKind(f: Filters, k: FilterKind)
    ensures Classify(LabelOf(f, k)) == Some(k)
  {
    match k
    case Dia => PrefixedWith("Dia de Pagamento: ", DiaText(f.dia));
    case LimiteKind => LimiteLabelKind(f);
    case StatusKind => StatusLabelKind(f.status);
    case Financeiro => FinanceiroLabelKind(f);
    case Tag => TagLabelKind(f.tag);
    case Dados => DadosLabelKind(LabelOf(f, k));
  }

  lemma {:induction false} LabelsOfKinds(f: Filters, ks: seq<FilterKind>)
    ensures ClassifyAll(LabelsOf(f, ks)) == SomeAll(ActiveOf(f, ks))
  {
    if |ks| > 0 {
      var l := if IsActive(f, ks[0]) then [LabelOf(f, ks[0])] else [];
      var a := if IsActive(f, ks[0]) then [ks[0]] else [];
      LabelKind(f, ks[0]);
      LabelsOfKinds(f, ks[1..]);
      ClassifyConcat(l, LabelsOf(f, ks[1..]));
      SomeConcat(a, ActiveOf(f, ks[1..]));
    }
  }

  /** Each label names its own filter: reading the labels back gives exactly
      the active filters, one label each, in the order dia, limite, status,
      financeiro, tag, dados. */
  lemma LabelsNameActiveFilters(f: Filters)
    ensures ClassifyAll(Labels(f)) == SomeAll(ActiveKinds(f))
  {
    LabelsOfKinds(f, Kinds);
  }

  // ---------------------------------------------------------------- applyFilters

  function KeepFn(f: Filters): Client -> bool {
    (c: Client) => Keep(f, c)
  }

  /** The chain of `filter` calls in `applyFilters`, one per active filter. */
  function Staged(clientes: seq<Client>, f: Filters): seq<Client> {
    var s1 := Seqs.Stage(clientes, f.searchQuery != "", SearchP(f));
    var s2 := Seqs.Stage(s1, DiaActive(f), DiaP(f));
    var s3 := Seqs.Stage(s2, LimiteActive(f), LimiteP(f));
    var s4 := Seqs.Stage(s3, StatusActive(f), StatusP(f));
    var s5 := Seqs.Stage(s4, FinanceiroActive(f), FinanceiroP(f));
    var s6 := Seqs.Stage(s5, TagActive(f), TagP(f));
    Seqs.Stage(s6, DadosActive(f), DadosP(f))
  }

  /** Seven stages in a row are one filter by the conjunction of their conditions. */
  lemma SevenStages<T(!new)>(s: seq<T>,
                             o1: bool, p1: T -> bool, o2: bool, p2: T -> bool, o3: bool, p3: T -> bool,
                             o4: bool, p4: T -> bool, o5: bool, p5: T -> bool, o6: bool, p6: T -> bool,
                             o7: bool, p7: T -> bool, all: T -> bool)
    requires forall x :: all(x) == ((!o1 || p1(x)) && (!o2 || p2(x)) && (!o3 || p3(x)) && (!o4 || p4(x))
                                     && (!o5 || p5(x)) && (!o6 || p6(x)) && (!o7 || p7(x)))
    ensures Seqs.Stage(Seqs.Stage(Seqs.Stage(Seqs.Stage(Seqs.Stage(Seqs.Stage(Seqs.Stage(s,
              o1, p1), o2, p2), o3, p3), o4, p4), o5, p5), o6, p6), o7, p7) == Seqs.Filter(s, all)
  {
    var a0 := (x: T) => true;
    var a1 := (x: T) => a0(x) && (!o1 || p1(x));
    var a2 := (x: T) => a1(x) && (!o2 || p2(x));
    var a3 := (x: T) => a2(x) && (!o3 || p3(x));
    var a4 := (x: T) => a3(x) && (!o4 || p4(x));
    var a5 := (x: T) => a4(x) && (!o5 || p5(x));
    var a6 := (x: T) => a5(x) && (!o6 || p6(x));
    var a7 := (x: T) => a6(x) && (!o7 || p7(x));
    Seqs.FilterKeepsAll(s, a0);
    Seqs.StageCompose(s, a0, o1, p1, a1);
    Seqs.StageCompose(s, a1, o2, p2, a2);
    Seqs.StageCompose(s, a2, o3, p3, a3);
    Seqs.StageCompose(s, a3, o4, p4, a4);
    Seqs.StageCompose(s, a4, o5, p5, a5);
    Seqs.StageCompose(s, a5, o6, p6, a6);
    Seqs.StageCompose(s, a6, o7, p7, a7);
    Seqs.FilterExt(s, a7, all);
  }

  /** The chain keeps exactly what the single condition `Keep` keeps. */
  lemma StagedIsOneFilter(clientes: seq<Client>, f: Filters)
    ensures Staged(clientes, f) == Seqs.Filter(clientes, KeepFn(f))
  {
    SevenStages(clientes,
      f.searchQuery != "", SearchP(f), DiaActive(f), DiaP(f), LimiteActive(f), LimiteP(f),
      StatusActive(f), StatusP(f), FinanceiroActive(f), FinanceiroP(f), TagActive(f), TagP(f),
      DadosActive(f), DadosP(f), KeepFn(f));
  }

  datatype Outcome = Outcome(clientes: seq<Client>, labels: seq<string>)

  /** `applyFilters()`: the filtered and sorted list (`searchResults`) and the
      labels (`activeFilters`). */
  function ApplyFilters(clientes: seq<Client>, f: Filters, rank: string -> real): (o: Outcome)
    ensures o.clientes == Sorting.SortBy(Seqs.Filter(clientes, KeepFn(f)), SortKey(f.ordenacao, rank))
    ensures ClassifyAll(o.labels) == SomeAll(ActiveKinds(f))
  {
    StagedIsOneFilter(clientes, f);
    LabelsNameActiveFilters(f);
    Outcome(Sorting.SortBy(Staged(clientes, f), SortKey(f.ordenacao, rank)), Labels(f))
  }

  /** `applyFilters` only removes clients: the result holds each client that
      passes every active filter as often as the input does, and no other. */
  lemma FilteredIsSubsetPermutation(clientes: seq<Client>, f: Filters, rank: string -> real)
    ensures var r := ApplyFilters(clientes, f, rank).clientes;
      && (forall x :: multiset(r)[x] == if Keep(f, x) then multiset(clientes)[x] else 0)
      && multiset(r) <= multiset(clientes)
      && (forall k :: 0 <= k < |r| ==> Keep(f, r[k]))
  {
    Sorting.SortedFilter(clientes, KeepFn(f), SortKey(f.ordenacao, rank));
  }

  /** The sort orders: ascending balance, descending balance, descending limit,
      and the name collation either way. */
  lemma SortOrders(clientes: seq<Client>, f: Filters, rank: string -> real)
    ensures var r := ApplyFilters(clientes, f, rank).clientes;
      && (f.ordenacao == "saldo_menor" ==> forall i, j :: 0 <= i < j < |r| ==> r[i].saldo <= r[j].saldo)
      && (f.ordenacao == "saldo_maior" ==> forall i, j :: 0 <= i < j < |r| ==> r[i].saldo >= r[j].saldo)
      && (f.ordenacao == "limite_maior" ==> forall i, j :: 0 <= i < j < |r| ==> Limite(r[i]) >= Limite(r[j]))
      && (f.ordenacao == "nome_asc" ==> forall i, j :: 0 <= i < j < |r| ==> rank(r[i].nome) <= rank(r[j].nome))
      && (f.ordenacao == "nome_desc" ==> forall i, j :: 0 <= i < j < |r| ==> rank(r[i].nome) >= rank(r[j].nome))
  {
    var r := ApplyFilters(clientes, f, rank).clientes;
    KeyOrders(r, f.ordenacao, rank);
  }

  lemma KeyOrders(r: seq<Client>, ordenacao: string, rank: string -> real)
    requires Sorting.SortedBy(r, SortKey(ordenacao, rank))
    ensures ordenacao == "saldo_menor" ==> forall i, j :: 0 <= i < j < |r| ==> r[i].saldo <= r[j].saldo
    ensures ordenacao == "saldo_maior" ==> forall i, j :: 0 <= i < j < |r| ==> r[i].saldo >= r[j].saldo
    ensures ordenacao == "limite_maior" ==> forall i, j :: 0 <= i < j < |r| ==> Limite(r[i]) >= Limite(r[j])
    ensures ordenacao == "nome_asc" ==> forall i, j :: 0 <= i < j < |r| ==> rank(r[i].nome) <= rank(r[j].nome)
    ensures ordenacao == "nome_desc" ==> forall i, j :: 0 <= i < j < |r| ==> rank(r[i].nome) >= rank(r[j].nome)
  {
  }

  /** An unknown order keeps the clients in the order the filters left them. */
  lemma UnknownOrderKeepsOrder(clientes: seq<Client>, f: Filters, rank: string -> real)
    requires f.ordenacao !in {"nome_asc", "nome_desc", "saldo_menor", "saldo_maior", "limite_maior"}
    ensures ApplyFilters(clientes, f, rank).clientes == Seqs.Filter(clientes, KeepFn(f))
  {
    Sorting.ConstantKeyKeepsOrder(Seqs.Filter(clientes, KeepFn(f)), SortKey(f.ordenacao, rank), 0.0);
  }

  // ---------------------------------------------------------------- resetFilters and the displayed list

  const DefaultFilters: Filters :=
    Filters("", NumText("", None), NumText("", None), NumText("", None), "todos", "todos", "", "todos", "nome_asc")

  datatype Page = Page(filters: Filters, activeFilters: seq<string>, searchResults: seq<Client>)

  /** `resetFilters()` */
  function ResetFilters(p: Page): (r: Page)
    ensures r.filters.searchQuery == "" && r.filters.ordenacao == "nome_asc"
    ensures r.filters.status == "todos" && r.filters.financeiro == "todos" && r.filters.dados == "todos"
    ensures r.filters.dia.text == "" && r.filters.limiteMin.text == "" && r.filters.limiteMax.text == "" && r.filters.tag == ""
    ensures ActiveKinds(r.filters) == [] && Labels(r.filters) == []
    ensures r.activeFilters == [] && r.searchResults == []
  {
    Page(DefaultFilters, [], [])
  }

  /** `isListModified`: a search, an active filter or a non-default order. */
  predicate IsListModified(p: Page) {
    p.filters.searchQuery != "" || |p.activeFilters| > 0 || p.filters.ordenacao != "nome_asc"
  }

  /** `displayedClientes` */
  function Displayed(clientes: seq<Client>, p: Page): (r: seq<Client>)
    ensures !IsListModified(p) ==> r == clientes
    ensures IsListModified(p) ==> r == p.searchResults
  {
    if IsListModified(p) then p.searchResults else clientes
  }

  /** `hasActiveFilters` */
  predicate HasActiveFilters(p: Page) {
    |p.activeFilters| > 0 || p.filters.searchQuery != ""
  }

  /** After a reset the full list is displayed again. */
  lemma ResetShowsEverything(clientes: seq<Client>, p: Page)
    ensures Displayed(clientes, ResetFilters(p)) == clientes
    ensures !HasActiveFilters(ResetFilters(p))
  {
  }

  /** Once the filter effect has run, the displayed list is the filtered list,
      or the full list when nothing is modified. With no search and no active
      filter the filters keep every client. */
  lemma NothingActiveKeepsEveryone(f: Filters, c: Client)
    requires f.searchQuery == "" && ActiveKinds(f) == []
    ensures Keep(f, c)
  {
    NoneActive(f, Kinds);
    assert !IsActive(f, Kinds[1]) && !IsActive(f, Kinds[2]) && !IsActive(f, Kinds[3]);
    assert !IsActive(f, Kinds[4]) && !IsActive(f, Kinds[5]);
  }

  // ---------------------------------------------------------------- the comma-list fields

  function TrimAll(parts: seq<string>): (r: seq<string>)
    ensures |r| == |parts|
    ensures forall k :: 0 <= k < |parts| ==> r[k] == Text.Trim(parts[k])
  {
    if |parts| == 0 then [] else [Text.Trim(parts[0])] + TrimAll(parts[1..])
  }

  predicate NonEmpty(s: string) { s != "" }

  /** `s ? s.split(',').map(a => a.trim()).filter(a => a) : []` */
  function ParseList(s: string): (r: seq<string>)
    ensures s == "" ==> r == []
    ensures forall k :: 0 <= k < |r| ==> r[k] != "" && Text.Trimmed(r[k]) && ',' !in r[k]
    ensures Seqs.Subsequence(r, TrimAll(Text.Split(s, ',')))
    // every non-empty trimmed piece is kept, as often as it occurs
    ensures s != "" ==> forall x :: x != "" ==> multiset(r)[x] == multiset(TrimAll(Text.Split(s, ',')))[x]
  {
    if s == "" then []
    else
      ParsedPieces(Text.Split(s, ','));
      Seqs.Filter(TrimAll(Text.Split(s, ',')), NonEmpty)
  }

  /** What filtering the trimmed pieces of comma-free text keeps. */
  lemma ParsedPieces(parts: seq<string>)
    requires forall k :: 0 <= k < |parts| ==> ',' !in parts[k]
    ensures var r := Seqs.Filter(TrimAll(parts), NonEmpty);
      && (forall k :: 0 <= k < |r| ==> r[k] != "" && Text.Trimmed(r[k]) && ',' !in r[k])
      && Seqs.Subsequence(r, TrimAll(parts))
      && (forall x :: x != "" ==> multiset(r)[x] == multiset(TrimAll(parts))[x])
  {
    CleanPieces(parts);
    var r := Seqs.Filter(TrimAll(parts), NonEmpty);
    forall x | x != "" ensures multiset(r)[x] == multiset(TrimAll(parts))[x] {
      assert NonEmpty(x);
    }
  }

  /** The non-empty trimmed pieces of comma-free text are trimmed and comma-free. */
  lemma CleanPieces(parts: seq<string>)
    requires forall k :: 0 <= k < |parts| ==> ',' !in parts[k]
    ensures var r := Seqs.Filter(TrimAll(parts), NonEmpty);
      forall k :: 0 <= k < |r| ==> r[k] != "" && Text.Trimmed(r[k]) && ',' !in r[k]
  {
    var trimmed := TrimAll(parts);
    var r := Seqs.Filter(trimmed, NonEmpty);
    forall k | 0 <= k < |r| ensures r[k] != "" && Text.Trimmed(r[k]) && ',' !in r[k] {
      assert r[k] in multiset(trimmed);
      var j :| 0 <= j < |trimmed| && trimmed[j] == r[k];
      TrimKeepsOut(parts[j], ',');
    }
  }

  lemma TrimKeepsOut(s: string, c: char)
    requires c !in s
    ensures c !in Text.Trim(s)
  {
  }

  /** The pieces `split(',')` finds in a list written with `", "`. */
  function SpacedParts(xs: seq<string>): (parts: seq<string>)
    ensures |parts| == |xs|
    ensures |xs| > 0 ==> parts[0] == xs[0]
    ensures forall k :: 0 < k < |xs| ==> parts[k] == " " + xs[k]
  {
    seq(|xs|, k requires 0 <= k < |xs| => if k == 0 then xs[0] else " " + xs[k])
  }

  lemma SplitSpaced(xs: seq<string>)
    requires |xs| > 0
    requires forall k :: 0 <= k < |xs| ==> ',' !in xs[k]
    ensures Text.Split(Text.Join(xs, ", "), ',') == SpacedParts(xs)
  {
    var parts := SpacedParts(xs);
    JoinWithSpace(xs);
    forall k | 0 <= k < |parts| ensures ',' !in parts[k] {
      if k > 0 { assert parts[k] == [' '] + xs[k]; }
    }
    Text.SplitJoin(parts, ',');
  }

  lemma TrimSpaced(xs: seq<string>)
    requires forall k :: 0 <= k < |xs| ==> Text.Trimmed(xs[k])
    ensures TrimAll(SpacedParts(xs)) == xs
  {
    var parts := SpacedParts(xs);
    forall k | 0 <= k < |parts| ensures Text.Trim(parts[k]) == xs[k] {
      TrimSpacedAt(xs, k);
    }
  }

  lemma TrimSpacedAt(xs: seq<string>, k: nat)
    requires k < |xs| && Text.Trimmed(xs[k])
    ensures Text.Trim(SpacedParts(xs)[k]) == xs[k]
  {
    if k == 0 {
      Text.TrimAround("", xs[0]);
      assert "" + xs[0] == xs[0];
    } else {
      Text.TrimAround(" ", xs[k]);
    }
  }

  /** Reading back a list written with `", "` between the entries gives the
      entries, provided each is non-empty, trimmed and free of commas. */
  lemma ParseListRoundTrip(xs: seq<string>)
    requires forall k :: 0 <= k < |xs| ==> xs[k] != "" && Text.Trimmed(xs[k]) && ',' !in xs[k]
    ensures ParseList(Text.Join(xs, ", ")) == xs
  {
    if |xs| > 0 {
      SplitSpaced(xs);
      TrimSpaced(xs);
      Seqs.FilterKeepsAll(xs, NonEmpty);
      JoinNonEmpty(xs, ", ");
    }
  }

  lemma {:induction false} JoinNonEmpty(xs: seq<string>, d: string)
    requires |xs| > 0 && xs[0] != ""
    ensures Text.Join(xs, d) != ""
  {
    if |xs| > 1 {
      assert |Text.Join(xs, d)| >= |xs[0]|;
    }
  }

  /** Joining with `", "` is joining with `","` after putting a space before every entry but the first. */
  lemma {:induction false} JoinWithSpace(xs: seq<string>)
    requires |xs| > 0
    ensures Text.Join(xs, ", ") == Text.Join(SpacedParts(xs), [','])
    decreases |xs|
  {
    var parts := SpacedParts(xs);
    if |xs| > 1 {
      var tail := xs[1..];
      JoinWithSpace(tail);
      var tparts := SpacedParts(tail);
      var spaced := seq(|tail|, k requires 0 <= k < |tail| => " " + tail[k]);
      assert parts[1..] == spaced;
      SpacedJoin(tail, tparts, spaced);
      assert Text.Join(xs, ", ") == xs[0] + ", " + Text.Join(tail, ", ");
      assert Text.Join(parts, [',']) == xs[0] + [','] + Text.Join(spaced, [',']);
    }
  }

  /** Putting a space in front of every entry and joining with `","` is one space
      followed by the join of the entries with `", "`. */
  lemma {:induction false} SpacedJoin(tail: seq<string>, tparts: seq<string>, spaced: seq<string>)
    requires |tail| > 0 && |tparts| == |tail| && |spaced| == |tail|
    requires tparts[0] == tail[0] && forall k :: 0 < k < |tail| ==> tparts[k] == " " + tail[k]
    requires forall k :: 0 <= k < |tail| ==> spaced[k] == " " + tail[k]
    requires Text.Join(tail, ", ") == Text.Join(tparts, [','])
    ensures Text.Join(spaced, [',']) == " " + Text.Join(tail, ", ")
    decreases |tail|
  {
    if |tail| == 1 {
    } else {
      assert Text.Join(spaced, [',']) == spaced[0] + [','] + Text.Join(spaced[1..], [',']);
      assert Text.Join(tparts, [',']) == tparts[0] + [','] + Text.Join(tparts[1..], [',']);
      assert spaced[1..] == tparts[1..];
    }
  }
}
