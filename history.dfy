/** The history page (src/app/history/history.page.ts): lists the saved
    analyses newest first, filters them by a search term, deletes one,
    edits the text fields and scale of one, or clears them all. It saves
    under "historico_analises" and loads that key first, falling back to
    the home page's "historico". Dialogs are reduced to whether the user
    confirmed; the CSV export is not modelled. */
module History {
  import opened Wrappers
  import opened Text
  import opened Records
  import opened Storage
  import Seqs
  import Sorting

  /** The edit form of the detail view. */
  datatype EditModel = EditModel(
    especie: string,
    tratamento: string,
    replica: string,
    nomeImagem: string,
    areaEscala: Option<real>)

  // ---------------------------------------------------------------------
  // Search.

  /** One entry against an already lower-cased term: the lower-cased
      species, treatment or image name contains it. */
  predicate Matches(h: HistoryEntry, term: string) {
    || Includes(ToLower(h.especie), term)
    || Includes(ToLower(h.tratamento), term)
    || Includes(ToLower(h.nomeImagem), term)
  }

  /** What filtrar shows: everything for a blank term, otherwise the
      matching entries in their order. */
  function Filtered(hs: seq<HistoryEntry>, searchTerm: string): seq<HistoryEntry> {
    if IsBlank(searchTerm) then hs
    else Seqs.Filter(hs, (h: HistoryEntry) => Matches(h, ToLower(searchTerm)))
  }

  /** The filtered list is an order-preserving subsequence of the
      history; a blank term shows it all, and otherwise an entry is shown
      exactly when it matches. */
  lemma FilteredFacts(hs: seq<HistoryEntry>, searchTerm: string)
    ensures Seqs.IsSubsequence(Filtered(hs, searchTerm), hs)
    ensures IsBlank(searchTerm) ==> Filtered(hs, searchTerm) == hs
    ensures !IsBlank(searchTerm) ==> forall h ::
      h in Filtered(hs, searchTerm) <==> h in hs && Matches(h, ToLower(searchTerm))
  {
    var p := (h: HistoryEntry) => Matches(h, ToLower(searchTerm));
    if IsBlank(searchTerm) {
      Seqs.FilterAll(hs, (h: HistoryEntry) => true);
      assert Seqs.IsSubsequence(Seqs.Filter(hs, (h: HistoryEntry) => true), hs) by {
        Seqs.FilterIsSubsequence(hs, (h: HistoryEntry) => true);
      }
    } else {
      Seqs.FilterIsSubsequence(hs, p);
      forall h
        ensures h in Filtered(hs, searchTerm) <==> h in hs && Matches(h, ToLower(searchTerm))
      {
        Seqs.FilterMembership(hs, p, h);
      }
    }
  }

  /** Searching for an entry's own species, treatment or image name, in
      any case, shows that entry. */
  lemma SearchFindsOwnFields(hs: seq<HistoryEntry>, h: HistoryEntry)
    requires h in hs
    ensures h in Filtered(hs, h.especie)
    ensures h in Filtered(hs, h.tratamento)
    ensures h in Filtered(hs, h.nomeImagem)
  {
    IncludesTrivial(ToLower(h.especie));
    IncludesTrivial(ToLower(h.tratamento));
    IncludesTrivial(ToLower(h.nomeImagem));
    FilteredFacts(hs, h.especie);
    FilteredFacts(hs, h.tratamento);
    FilteredFacts(hs, h.nomeImagem);
  }

  lemma LowerCharKeepsSpace(c: char)
    ensures IsSpace(LowerChar(c)) <==> IsSpace(c)
  {
  }

  /** The search ignores case: a term and its lower case show the same
      entries. */
  lemma SearchIgnoresCase(hs: seq<HistoryEntry>, searchTerm: string)
    ensures Filtered(hs, ToLower(searchTerm)) == Filtered(hs, searchTerm)
  {
    var lower := ToLower(searchTerm);
    forall i | 0 <= i < |searchTerm|
      ensures IsSpace(lower[i]) <==> IsSpace(searchTerm[i])
    {
      LowerCharKeepsSpace(searchTerm[i]);
    }
    assert IsBlank(lower) <==> IsBlank(searchTerm);
    ToLowerIdempotent(searchTerm);
  }

  // ---------------------------------------------------------------------
  // Deleting, loading and editing, on values.

  /** The history after deleting the analysis with this id. */
  function WithoutId(hs: seq<HistoryEntry>, id: int): seq<HistoryEntry> {
    Seqs.Filter(hs, (h: HistoryEntry) => h.id != id)
  }

  /** Deleting removes every entry with that id and keeps all others, in
      order and with their multiplicity. */
  lemma WithoutIdFacts(hs: seq<HistoryEntry>, id: int)
    ensures Seqs.IsSubsequence(WithoutId(hs, id), hs)
    ensures forall h :: multiset(WithoutId(hs, id))[h] == if h.id == id then 0 else multiset(hs)[h]
    ensures forall i :: 0 <= i < |WithoutId(hs, id)| ==> WithoutId(hs, id)[i].id != id
  {
    var p := (h: HistoryEntry) => h.id != id;
    Seqs.FilterIsSubsequence(hs, p);
    Seqs.FilterMultiset(hs, p);
    forall i | 0 <= i < |WithoutId(hs, id)|
      ensures WithoutId(hs, id)[i].id != id
    {
      Seqs.FilterMembership(hs, p, WithoutId(hs, id)[i]);
    }
  }

  function DateKey(h: HistoryEntry): real {
    h.data as real
  }

  /** The stored text carregarHistorico reads: the history page's key
      when it holds a truthy string, otherwise the home page's. */
  function Saved(items: map<string, HistoryData>): (v: Option<HistoryData>)
    ensures HistoryKey in items && Truthy(Some(items[HistoryKey])) ==> v == Some(items[HistoryKey])
    ensures !(HistoryKey in items && Truthy(Some(items[HistoryKey]))) ==>
      v == if HomeKey in items then Some(items[HomeKey]) else None
  {
    if HistoryKey in items && Truthy(Some(items[HistoryKey])) then Some(items[HistoryKey])
    else if HomeKey in items then Some(items[HomeKey])
    else None
  }

  /** carregarHistorico's history: kept as it was when nothing truthy is
      stored, empty when the text does not parse, otherwise the stored
      entries sorted newest first (a stable sort). */
  function Loaded(previous: seq<HistoryEntry>, items: map<string, HistoryData>): seq<HistoryEntry> {
    var v := Saved(items);
    if !Truthy(v) then previous
    else if v.value.Text? then []
    else Sorting.SortDesc(v.value.entries, DateKey)
  }

  /** Loading sorts newest first without losing or adding an entry. */
  lemma LoadedFacts(previous: seq<HistoryEntry>, items: map<string, HistoryData>)
    ensures !Truthy(Saved(items)) ==> Loaded(previous, items) == previous
    ensures Truthy(Saved(items)) ==> Sorting.SortedDesc(Loaded(previous, items), DateKey)
    ensures Truthy(Saved(items)) && Saved(items).value.Entries? ==>
      multiset(Loaded(previous, items)) == multiset(Saved(items).value.entries)
    ensures Truthy(Saved(items)) && Saved(items).value.Text? ==> Loaded(previous, items) == []
  {
    var v := Saved(items);
    if Truthy(v) && v.value.Entries? {
      Sorting.SortDescSorted(v.value.entries, DateKey);
      Sorting.SortDescPermutation(v.value.entries, DateKey);
    } else if Truthy(v) {
      assert Sorting.SortedDesc([], DateKey);
    }
  }

  /** Once this page has saved a list, what the home page later saves is
      not loaded: a new analysis recorded on the home page stays out of
      the history page. */
  lemma HomeWritesIgnored(previous: seq<HistoryEntry>, items: map<string, HistoryData>,
                          mine: seq<HistoryEntry>, homes: seq<HistoryEntry>)
    requires HistoryKey in items && items[HistoryKey] == Entries(mine)
    ensures Loaded(previous, items[HomeKey := Entries(homes)]) == Sorting.SortDesc(mine, DateKey)
    ensures forall h :: h in homes && h !in mine ==> h !in Loaded(previous, items[HomeKey := Entries(homes)])
  {
    var after := items[HomeKey := Entries(homes)];
    assert after[HistoryKey] == Entries(mine);
    Sorting.SortDescPermutation(mine, DateKey);
    forall h | h in homes && h !in mine
      ensures h !in Loaded(previous, after)
    {
      assert multiset(Loaded(previous, after))[h] == multiset(mine)[h] == 0;
    }
  }

  /** The edit form opened on an entry (the `scalePatternArea` fallback
      never applies to entries the app writes). */
  function EditOf(d: HistoryEntry): EditModel {
    EditModel(d.especie, d.tratamento, d.replica, d.nomeImagem, d.areaEscala)
  }

  /** The entry after saving the form: the four text fields copied, the
      scale copied only when given. */
  function Applied(d: HistoryEntry, m: EditModel): (r: HistoryEntry)
    ensures r.especie == m.especie && r.tratamento == m.tratamento
         && r.replica == m.replica && r.nomeImagem == m.nomeImagem
    ensures r.areaEscala == if m.areaEscala.Some? then m.areaEscala else d.areaEscala
    ensures r.id == d.id && r.data == d.data && r.resultados == d.resultados
         && r.resultadosAgregados == d.resultadosAgregados
  {
    var r := d.(especie := m.especie, tratamento := m.tratamento,
                replica := m.replica, nomeImagem := m.nomeImagem);
    if m.areaEscala.Some? then r.(areaEscala := m.areaEscala) else r
  }

  /** Saving the form as it was opened leaves the entry as it was. */
  lemma EditRoundTrip(d: HistoryEntry)
    ensures Applied(d, EditOf(d)) == d
  {
  }

  /** `findIndex(h => h.id === id)`. */
  function FirstIndex(hs: seq<HistoryEntry>, id: int): (r: int)
    ensures -1 <= r < |hs|
    ensures r == -1 <==> forall j :: 0 <= j < |hs| ==> hs[j].id != id
    ensures 0 <= r ==> hs[r].id == id && forall j :: 0 <= j < r ==> hs[j].id != id
  {
    if |hs| == 0 then -1
    else if hs[0].id == id then 0
    else
      var k := FirstIndex(hs[1..], id);
      if k == -1 then -1 else k + 1
  }

  // ---------------------------------------------------------------------
  // The page.

  class HistoryPage {
    var historico: seq<HistoryEntry>
    var filteredHistorico: seq<HistoryEntry>
    var analiseDetalhada: Option<HistoryEntry>
    var searchTerm: string
    var editingDetalhe: bool
    var editModel: Option<EditModel>
    const store: LocalStorage<HistoryData>

    constructor(store: LocalStorage<HistoryData>)
      ensures historico == [] && filteredHistorico == [] && analiseDetalhada.None?
      ensures searchTerm == "" && !editingDetalhe && editModel.None?
      ensures this.store == store
    {
      historico, filteredHistorico := [], [];
      analiseDetalhada := None;
      searchTerm := "";
      editingDetalhe := false;
      editModel := None;
      this.store := store;
    }

    /** carregarHistorico (run by ngOnInit): both lists hold the loaded
        history. */
    method CarregarHistorico()
      modifies `historico, `filteredHistorico
      ensures historico == Loaded(old(historico), store.items)
      ensures filteredHistorico == historico
    {
      var saved := store.GetItem(HistoryKey);
      if !Truthy(saved) {
        saved := store.GetItem(HomeKey);
      }
      if Truthy(saved) {
        if saved.value.Entries? {
          historico := Sorting.SortDesc(saved.value.entries, DateKey);
        } else {
          historico := [];
        }
      }
      filteredHistorico := historico;
    }

    /** filtrar. */
    method Filtrar()
      modifies `filteredHistorico
      ensures filteredHistorico == Filtered(historico, searchTerm)
    {
      if searchTerm == "" || IsBlank(searchTerm) {
        filteredHistorico := historico;
        return;
      }
      var term := ToLower(searchTerm);
      filteredHistorico := Seqs.Filter(historico, (h: HistoryEntry) => Matches(h, term));
    }

    /** atualizarStorage: save under the history page's key, refilter. */
    method AtualizarStorage()
      modifies store, `filteredHistorico
      ensures store.items == old(store.items)[HistoryKey := Entries(historico)]
      ensures filteredHistorico == Filtered(historico, searchTerm)
    {
      store.SetItem(HistoryKey, Entries(historico));
      Filtrar();
    }

    method FecharDetalhes()
      modifies `analiseDetalhada, `editingDetalhe, `editModel
      ensures analiseDetalhada.None? && !editingDetalhe && editModel.None?
    {
      analiseDetalhada := None;
      editingDetalhe := false;
      editModel := None;
    }

    method ExpandirAnalise(analise: HistoryEntry)
      modifies `analiseDetalhada, `editingDetalhe
      ensures analiseDetalhada == Some(analise) && !editingDetalhe
    {
      analiseDetalhada := Some(analise);
      editingDetalhe := false;
    }

    /** onDeleteAnalise, `confirmed` standing for the user choosing
        "Excluir": the analysis's id leaves the history, the list is
        saved, and the detail view closes exactly when it shows that id. */
    method OnDeleteAnalise(analise: HistoryEntry, confirmed: bool)
      modifies `historico, `filteredHistorico, `analiseDetalhada, `editingDetalhe, `editModel, store
      ensures !confirmed ==> unchanged(this) && unchanged(store)
      ensures confirmed ==>
        && historico == WithoutId(old(historico), analise.id)
        && filteredHistorico == Filtered(historico, searchTerm)
        && store.items == old(store.items)[HistoryKey := Entries(historico)]
      ensures confirmed && old(analiseDetalhada).Some? && old(analiseDetalhada).value.id == analise.id ==>
        analiseDetalhada.None? && !editingDetalhe && editModel.None?
      ensures confirmed && !(old(analiseDetalhada).Some? && old(analiseDetalhada).value.id == analise.id) ==>
        analiseDetalhada == old(analiseDetalhada) && editingDetalhe == old(editingDetalhe)
        && editModel == old(editModel)
    {
      if !confirmed {
        return;
      }
      historico := WithoutId(historico, analise.id);
      AtualizarStorage();
      if analiseDetalhada.Some? && analiseDetalhada.value.id == analise.id {
        FecharDetalhes();
      }
    }

    /** limparHistorico: nothing happens on an empty history or without
        confirmation; otherwise both lists, both keys and the detail view
        are cleared. */
    method LimparHistorico(confirmed: bool)
      modifies `historico, `filteredHistorico, `analiseDetalhada, store
      ensures |old(historico)| == 0 || !confirmed ==> unchanged(this) && unchanged(store)
      ensures |old(historico)| > 0 && confirmed ==>
        && historico == [] && filteredHistorico == [] && analiseDetalhada.None?
        && store.items == old(store.items) - {HistoryKey, HomeKey}
    {
      if |historico| == 0 || !confirmed {
        return;
      }
      historico := [];
      filteredHistorico := [];
      store.RemoveItem(HistoryKey);
      store.RemoveItem(HomeKey);
      analiseDetalhada := None;
    }

    /** toggleEditDetalhe: open the form on the shown analysis. */
    method ToggleEditDetalhe()
      modifies `editingDetalhe, `editModel
      ensures analiseDetalhada.None? ==> unchanged(this)
      ensures analiseDetalhada.Some? ==> editingDetalhe && editModel == Some(EditOf(analiseDetalhada.value))
    {
      if analiseDetalhada.None? {
        return;
      }
      editingDetalhe := true;
      editModel := Some(EditOf(analiseDetalhada.value));
    }

    /** saveEditDetalhe: the shown analysis takes the form's values; the
        first history entry with its id, and no other, is replaced by it
        and the list saved; edit mode ends. */
    method SaveEditDetalhe()
      modifies `historico, `filteredHistorico, `analiseDetalhada, `editingDetalhe, `editModel, store
      ensures old(analiseDetalhada).None? || old(editModel).None? ==> unchanged(this) && unchanged(store)
      ensures old(analiseDetalhada).Some? && old(editModel).Some? ==>
        var d := Applied(old(analiseDetalhada).value, old(editModel).value);
        var idx := FirstIndex(old(historico), d.id);
        && analiseDetalhada == Some(d)
        && !editingDetalhe && editModel.None?
        && (idx == -1 ==> historico == old(historico) && filteredHistorico == old(filteredHistorico)
                          && unchanged(store))
        && (0 <= idx ==>
              && historico == old(historico)[idx := d]
              && filteredHistorico == Filtered(historico, searchTerm)
              && store.items == old(store.items)[HistoryKey := Entries(historico)])
    {
      if analiseDetalhada.None? || editModel.None? {
        return;
      }
      var m := editModel.value;
      var d := analiseDetalhada.value;
      d := d.(especie := m.especie, tratamento := m.tratamento,
              replica := m.replica, nomeImagem := m.nomeImagem);
      if m.areaEscala.Some? {
        d := d.(areaEscala := m.areaEscala);
      }
      analiseDetalhada := Some(d);
      var idx := FirstIndex(historico, d.id);
      if idx >= 0 {
        historico := historico[idx := d];
        AtualizarStorage();
      }
      editingDetalhe := false;
      editModel := None;
    }
  }

  /** Saving an edit replaces only the first entry with the edited id:
      every other position keeps its entry, and the length is kept. */
  lemma EditTouchesOneEntry(hs: seq<HistoryEntry>, d: HistoryEntry)
    requires 0 <= FirstIndex(hs, d.id)
    ensures var idx := FirstIndex(hs, d.id);
      var r := hs[idx := d];
      |r| == |hs| && r[idx] == d && hs[idx].id == d.id
      && (forall j :: 0 <= j < idx ==> r[j] == hs[j] && hs[j].id != d.id)
      && (forall j :: idx < j < |hs| ==> r[j] == hs[j])
  {
  }
}
