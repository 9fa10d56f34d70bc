/**
 * The dashboard's records (`Categoria`, `Receita`, `Despesa`, `CompraItem`,
 * `Planejamento`), with the field names of the source. Money is exact
 * (`real`); dates entered through date inputs are `YYYY-MM-DD` strings,
 * except an expense's due date, which the installment allocator parses and
 * which is therefore held as a calendar day.
 */
module Records {
  import opened Wrappers
  import opened Calendar

  datatype Tipo = TipoReceita | TipoDespesa

  datatype Categoria = Categoria(id: string, nome: string, tipo: Tipo, centroDeCusto: Option<string>, cor: string)

  datatype Receita = Receita(id: string, data: string, fonte: string, valor: real, categoriaId: string, obs: Option<string>)

  datatype Despesa = Despesa(
    id: string, data: string, descricao: string, valor: real, categoriaId: string, forma: string,
    parcelas: int, vencimento: CalendarDay, pago: bool, obs: Option<string>, cartao: Option<string>)

  datatype CompraItem = CompraItem(
    id: string, data: string, estabelecimento: string, item: string, quantidade: real, valorUnit: real,
    valorTotal: real, categoriaId: string, forma: string, notaUrl: Option<string>, compraId: string)

  datatype Planejamento = Planejamento(mes: string, receitaPrevista: real, despesaPrevista: real, comentarios: Option<string>)

  /** The categories the dashboard starts with. */
  const DefaultCategorias: seq<Categoria> := [
    Categoria("cat-salario", "Salário", TipoReceita, None, "hsl(var(--brand))"),
    Categoria("cat-freela", "Freelas", TipoReceita, None, "hsl(var(--brand-alt))"),
    Categoria("cat-reembolso", "Reembolsos", TipoReceita, None, "hsl(var(--accent-foreground))"),
    Categoria("cat-invest", "Investimentos", TipoReceita, None, "hsl(var(--primary))"),
    Categoria("cat-mercado", "Supermercado", TipoDespesa, None, "#22c55e"),
    Categoria("cat-moradia", "Moradia", TipoDespesa, None, "#ef4444"),
    Categoria("cat-transp", "Transporte", TipoDespesa, None, "#f59e0b"),
    Categoria("cat-lazer", "Lazer", TipoDespesa, None, "#3b82f6")
  ]
}
