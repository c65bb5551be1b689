/**
 * The issue record and the fixed reference data of the dashboard: the
 * eight-row mock catalog and the neighbourhood vocabulary, whose first
 * entry is the "all neighbourhoods" sentinel of the list filter.
 */
module Issues {

  datatype Status = Open | InAnalysis | Forwarded | Resolved

  datatype Severity = Critical | High | Medium | Low

  /** Position of the issue's pin in the map's drawing space. */
  datatype Point = Point(x: int, y: int)

  /**
   * One reported urban problem. The source types its counters as `number`,
   * a double; every counter in the catalog is a whole number, so they are
   * modelled as `int`, and the catalog lemmas below show they are in range.
   * The photo URL is not modelled.
   */
  datatype Issue = Issue(
    id: int,
    title: string,
    address: string,
    neighborhood: string,
    category: string,
    status: Status,
    severity: Severity,
    votes: int,
    daysOpen: int,
    priorityScore: int,
    estimatedAffected: int,
    mapCoords: Point,
    isRecurrent: bool)

  const ISSUES: seq<Issue> := [
    Issue(1, "Cratera de Grande Porte na Av. Almirante Barroso", "Av. Almirante Barroso, 1250 – Marco",
          "Marco", "Vias e Pavimentação", Open, Critical, 247, 14, 89, 1200, Point(318, 175), true),
    Issue(2, "Alagamento Recorrente na Travessa Humaitá", "Tv. Humaitá, 320 – Batista Campos",
          "Batista Campos", "Drenagem e Alagamentos", InAnalysis, Critical, 198, 22, 92, 850, Point(360, 210), true),
    Issue(3, "Poste de Iluminação Danificado", "Rua dos Mundurucus, 890 – Guamá",
          "Guamá", "Iluminação Pública", Forwarded, High, 134, 8, 71, 420, Point(180, 280), false),
    Issue(4, "Descarte Irregular de Lixo em Área Pública", "Passagem Maracangalha, 45 – Sacramenta",
          "Sacramenta", "Resíduos Sólidos", Open, High, 156, 5, 67, 310, Point(475, 205), true),
    Issue(5, "Calçada Danificada com Risco de Queda", "Av. Nazaré, 432 – Nazaré",
          "Nazaré", "Calçadas e Acessibilidade", Open, Medium, 89, 3, 52, 180, Point(290, 240), false),
    Issue(6, "Pichação em Patrimônio Histórico", "Rua Siqueira Mendes, 210 – Cidade Velha",
          "Cidade Velha", "Conservação do Patrimônio", Resolved, Low, 64, 0, 34, 95, Point(255, 385), false),
    Issue(7, "Vazamento de Água na Rede Pública", "Tv. 14 de Março, 78 – Comércio",
          "Comércio", "Abastecimento de Água", InAnalysis, High, 178, 11, 78, 540, Point(262, 355), false),
    Issue(8, "Buraco Profundo na Pista do BRT", "Av. Augusto Montenegro, 2400 – Bengui",
          "Bengui", "Vias e Pavimentação", Forwarded, Critical, 312, 19, 95, 2100, Point(125, 120), true)
  ]

  /** The neighbourhood selector's "all" entry. */
  const ALL_NEIGHBORHOODS: string := "Todos os Bairros"

  const NEIGHBORHOODS: seq<string> := [
    ALL_NEIGHBORHOODS, "Marco", "Batista Campos", "Guamá", "Sacramenta", "Nazaré",
    "Cidade Velha", "Comércio", "Bengui", "Pedreira", "Umarizal"
  ]

  /** No two issues of c share an id. */
  predicate IdsDistinct(c: seq<Issue>) {
    forall i, j :: 0 <= i < j < |c| ==> c[i].id != c[j].id
  }

  /** The ranges every catalog row keeps. */
  predicate InRange(issue: Issue) {
    && 0 <= issue.priorityScore <= 100
    && issue.votes >= 0
    && issue.daysOpen >= 0
    && issue.estimatedAffected >= 0
  }

  /** The catalog holds ids 1 to 8, in order; hence no id repeats. */
  lemma CatalogIds()
    ensures |ISSUES| == 8
    ensures forall k :: 0 <= k < |ISSUES| ==> ISSUES[k].id == k + 1
    ensures IdsDistinct(ISSUES)
  {
  }

  /** Every row has a score in [0,100] and non-negative counters. */
  lemma CatalogInRange()
    ensures forall issue :: issue in ISSUES ==> InRange(issue)
  {
  }

  /**
   * Every row's neighbourhood is a selectable entry of NEIGHBORHOODS other
   * than the sentinel, which therefore names no issue.
   */
  lemma CatalogNeighborhoods()
    ensures NEIGHBORHOODS[0] == ALL_NEIGHBORHOODS
    ensures forall issue :: issue in ISSUES ==> issue.neighborhood in NEIGHBORHOODS[1..]
    ensures forall issue :: issue in ISSUES ==> issue.neighborhood != ALL_NEIGHBORHOODS
  {
  }

  /** Issue 6 is the one resolved row, and its day counter stands at 0. */
  lemma CatalogResolved()
    ensures forall issue :: issue in ISSUES ==> (issue.status == Resolved <==> issue.id == 6)
    ensures forall issue :: issue in ISSUES && issue.status == Resolved ==> issue.daysOpen == 0
  {
  }
}
