/** The analysis records the home page saves and the history page lists,
    and the two storage keys they live under. */
module Records {
  import opened Wrappers
  import opened Metrics

  /** One saved analysis. `id` and `data` are both taken from the clock
      when the home page records it (milliseconds since the epoch);
      `areaEscala` is only ever set by an edit on the history page. A
      missing text field is the empty string. */
  datatype HistoryEntry = HistoryEntry(
    id: int,
    data: int,
    especie: string,
    tratamento: string,
    replica: string,
    nomeImagem: string,
    resultados: seq<LeafMetric>,
    resultadosAgregados: Option<AggregatedMetrics>,
    areaEscala: Option<real>)

  /** A stored value: the JSON of a list of entries written by the app, or
      any other text (which JSON.parse rejects; the empty string is falsy). */
  datatype HistoryData = Entries(entries: seq<HistoryEntry>) | Text(raw: string)

  /** The key the home page reads and writes. */
  const HomeKey := "historico"
  /** The key the history page writes and reads first. */
  const HistoryKey := "historico_analises"

  /** Whether `getItem` returns a truthy string. */
  predicate Truthy(v: Option<HistoryData>) {
    v.Some? && (v.value.Entries? || v.value.raw != "")
  }
}
