/** The home page (src/app/home/home.page.ts): runs an analysis on the
    selected image, lets the user delete leaves from the result (renumbering
    the rest and recomputing four statistics), and keeps the newest 50
    analyses in `localStorage` under "historico". Dialogs, change detection
    and the CSV export are not modelled; promise chains are run to their
    end with their success or failure given as parameters. */
module Home {
  import opened Wrappers
  import opened Numeric
  import opened Geometry
  import opened Metrics
  import opened Drawing
  import opened ImageAnalysis
  import opened Records
  import opened Storage
  import Seqs

  const HistoryCap := 50

  const AttentionHeader := "Atenção"
  const ErrorHeader := "Erro"
  const SelectImageMessage := "Selecione uma imagem primeiro."
  const ScaleMessage := "Informe uma área de escala válida."
  const ImageLoadError := "Falha ao carregar imagem."

  datatype Alert = Alert(header: string, message: string)

  /** initAggregatedMetrics: four statistics at zero, the rest absent. */
  const InitAggregated := AggregatedMetrics(Some(0.0), Some(0.0), Some(0.0), None, None, None, None, None, None, Some(0.0))

  // ---------------------------------------------------------------------
  // Pure parts of the page's operations.

  /** recalcAggregated's value: the initial block for no leaves; otherwise
      the initial block with the total, the mean and the population
      standard deviation of the areas and the mean ratio filled in. */
  function Recalc(ls: seq<LeafMetric>, sqrt: real -> real): (r: AggregatedMetrics)
    requires IsSqrt(sqrt)
    ensures |ls| == 0 ==> r == InitAggregated
    ensures r.totalArea == Some(Sum(Areas(ls)))
    ensures r.averageArea.Some? && r.standardDeviationArea.Some? && r.averageWidthToLengthRatio.Some?
    ensures 0 < |ls| ==> AverageOf(r.averageArea.value, r.totalArea.value, |ls|)
    ensures 0 < |ls| ==>
      && OptionalStats(r.averageArea, r.standardDeviationArea, Areas(ls), sqrt)
      && AverageOf(r.averageWidthToLengthRatio.value, Sum(Ratios(ls)), |ls|)
    ensures 0.0 <= r.standardDeviationArea.value
    ensures r.averagePerimeter.None? && r.standardDeviationPerimeter.None?
         && r.averageWidth.None? && r.standardDeviationWidth.None?
         && r.averageLength.None? && r.standardDeviationLength.None?
  {
    if |ls| == 0 then InitAggregated
    else
      var areas, ratios := Areas(ls), Ratios(ls);
      StdDevBounds(areas, sqrt);
      MeanAndDeviation(areas, sqrt);
      assert AverageOf(Mean(ratios), Sum(ratios), |ratios|) by {
        assert Mean(ratios) * |ratios| as real == Sum(ratios);
      }
      InitAggregated.(
        totalArea := Some(Sum(areas)),
        averageArea := Some(Mean(areas)),
        standardDeviationArea := Some(StdDev(areas, sqrt)),
        averageWidthToLengthRatio := Some(Mean(ratios)))
  }

  /** On a non-empty list the four recomputed statistics are those the
      analysis reported for the same leaves. */
  lemma RecalcAgreesWithAnalysis(ls: seq<LeafMetric>, sqrt: real -> real)
    requires IsSqrt(sqrt) && 0 < |ls|
    ensures var r, a := Recalc(ls, sqrt), Aggregate(ls, sqrt);
      && r.totalArea == a.totalArea && r.averageArea == a.averageArea
      && r.standardDeviationArea == a.standardDeviationArea
      && r.averageWidthToLengthRatio == a.averageWidthToLengthRatio
  {
  }

  /** Everything but the id agrees. */
  predicate SameLeafData(a: LeafMetric, b: LeafMetric) {
    && a.area == b.area && a.perimetro == b.perimetro
    && a.comprimento == b.comprimento && a.largura == b.largura
    && a.relacaoLarguraComprimento == b.relacaoLarguraComprimento
    && a.cx == b.cx && a.cy == b.cy && a.contour == b.contour && a.uid == b.uid
  }

  /** `map((leaf, idx) => ({ ...leaf, id: idx + 1 }))`. */
  function Renumber(ls: seq<LeafMetric>): (r: seq<LeafMetric>)
    ensures |r| == |ls|
    ensures forall i :: 0 <= i < |r| ==> r[i].id == i + 1 && SameLeafData(r[i], ls[i])
  {
    seq(|ls|, i requires 0 <= i < |ls| => ls[i].(id := i + 1))
  }

  /** The test `!idsToDelete.includes(leaf.id)`. */
  function Unselected(ids: seq<int>): LeafMetric -> bool {
    (l: LeafMetric) => l.id !in ids
  }

  /** `filter(leaf => !idsToDelete.includes(leaf.id))`. */
  function Surviving(ls: seq<LeafMetric>, ids: seq<int>): seq<LeafMetric> {
    Seqs.Filter(ls, Unselected(ids))
  }

  /** Deletion keeps, in their original order and with their multiplicity,
      exactly the leaves whose id is not selected, and numbers them 1..n
      without changing anything else about them. */
  lemma DeletionKeepsTheRest(ls: seq<LeafMetric>, ids: seq<int>)
    ensures var kept := Surviving(ls, ids);
      && Seqs.IsSubsequence(kept, ls)
      && (forall x :: multiset(kept)[x] == if x.id in ids then 0 else multiset(ls)[x])
      && (forall x :: x in kept <==> x in ls && x.id !in ids)
    ensures var kept, r := Surviving(ls, ids), Renumber(Surviving(ls, ids));
      |r| == |kept| && forall i :: 0 <= i < |r| ==> r[i].id == i + 1 && SameLeafData(r[i], kept[i])
  {
    var kept := Surviving(ls, ids);
    assert Seqs.IsSubsequence(kept, ls) by {
      Seqs.FilterIsSubsequence(ls, Unselected(ids));
    }
    assert forall x: LeafMetric :: multiset(kept)[x] == if x.id in ids then 0 else multiset(ls)[x] by {
      Seqs.FilterMultiset(ls, Unselected(ids));
    }
    SurvivingMembership(ls, ids);
  }

  lemma SurvivingMembership(ls: seq<LeafMetric>, ids: seq<int>)
    ensures forall x :: x in Surviving(ls, ids) <==> x in ls && x.id !in ids
  {
    forall x
      ensures x in Surviving(ls, ids) <==> x in ls && x.id !in ids
    {
      Seqs.FilterMembership(ls, Unselected(ids), x);
    }
  }

  /** With nothing selected, deletion only renumbers. */
  lemma DeletingNothing(ls: seq<LeafMetric>)
    ensures Surviving(ls, []) == ls
  {
    Seqs.FilterAll(ls, Unselected([]));
  }

  /** A length cut to the history cap. */
  function Capped(n: int): int {
    if n < HistoryCap then n else HistoryCap
  }

  /** `unshift` then `slice(0, 50)` when longer than 50. */
  function Prepend(h: seq<HistoryEntry>, e: HistoryEntry): (r: seq<HistoryEntry>)
    ensures |r| == Capped(|h| + 1)
    ensures r[0] == e
    ensures forall i :: 1 <= i < |r| ==> r[i] == h[i - 1]
  {
    var u := [e] + h;
    if |u| > HistoryCap then u[..HistoryCap] else u
  }

  /** The history never grows beyond 50 entries, and a run of additions
      leaves the newest first: adding e1 then e2 puts e2 before e1. */
  lemma PrependOrder(h: seq<HistoryEntry>, e1: HistoryEntry, e2: HistoryEntry)
    ensures |Prepend(h, e1)| <= HistoryCap
    ensures var r := Prepend(Prepend(h, e1), e2);
      r[0] == e2 && r[1] == e1 && |r| == Capped(|h| + 2)
  {
  }

  /** toggleLeafDetails on the set of open leaves. */
  function Toggle(open: set<int>, id: int): (r: set<int>)
    ensures id in r <==> id !in open
    ensures forall x :: x != id ==> (x in r <==> x in open)
  {
    if id in open then open - {id} else open + {id}
  }

  lemma ToggleTwice(open: set<int>, id: int)
    ensures Toggle(Toggle(open, id), id) == open
  {
  }

  /** The picture deleteSelectedLeaves settles on: contours and labels
      redrawn, or, when that image cannot be loaded, the labels alone;
      None when neither loads. */
  function Redrawn(base: string, contoursLoad: bool, labelsLoad: bool, ls: seq<LeafMetric>): (r: Option<Picture>)
    ensures r.Some? <==> contoursLoad || labelsLoad
    ensures r.Some? ==> r.value.base == base
    ensures contoursLoad ==> |r.value.marks| == 2 * |Seqs.Filter(ls, HasContour)|
  {
    if contoursLoad then
      RedrawCount(ls);
      Some(Picture(base, RedrawMarks(ls)))
    else if labelsLoad then Some(Picture(base, LabelMarks(ls)))
    else None
  }

  /** What awaiting createImg and processImageDirect yields. */
  function Run(imageLoads: bool, cvLoaded: bool, image: string, contours: seq<Contour>,
               areaEscala: real, sqrt: real -> real, uid: nat -> string): Outcome
    requires IsSqrt(sqrt)
    requires forall i :: 0 <= i < |contours| ==> Traced(contours[i])
  {
    if !imageLoads then Reject(ImageLoadError)
    else if !cvLoaded then Reject(NotLoadedError)
    else Resolve(Analysis(image, contours, areaEscala, sqrt, uid))
  }

  /** createImg followed by processImageDirect: a picture that does not
      load rejects before any analysis. */
  method LoadAndProcess(imageLoads: bool, cvLoaded: bool, image: string, contours: seq<Contour>,
                        areaEscala: real, sqrt: real -> real, uid: nat -> string)
      returns (r: Outcome)
    requires IsSqrt(sqrt)
    requires forall i :: 0 <= i < |contours| ==> Traced(contours[i])
    ensures r == Run(imageLoads, cvLoaded, image, contours, areaEscala, sqrt, uid)
  {
    if !imageLoads {
      r := Reject(ImageLoadError);
    } else {
      r := ProcessImageDirect(cvLoaded, image, contours, areaEscala, sqrt, uid);
    }
  }

  /** A successful run with no reference square is reported as an error. */
  lemma NoSquareIsAnError(image: string, contours: seq<Contour>, areaEscala: real,
                          sqrt: real -> real, uid: nat -> string)
    requires IsSqrt(sqrt)
    requires forall i :: 0 <= i < |contours| ==> Traced(contours[i])
    ensures var o := Run(true, true, image, contours, areaEscala, sqrt, uid);
      ErrorText(o.result).Some? <==> |Classifier.Squares(contours, Classifier.ServiceRule, sqrt)| == 0
  {
  }

  /** `if (r.error)`: a non-empty error string. */
  function ErrorText(r: AnalysisResult): (e: Option<string>)
    ensures e.Some? <==> r.error.Some? && r.error.value != ""
  {
    if r.error.Some? && r.error.value != "" then r.error else None
  }

  // ---------------------------------------------------------------------
  // The page.

  class HomePage {
    var especie: string
    var tratamento: string
    var replica: string
    var areaEscala: real
    var imagemSelecionada: Option<string>
    var imagemProcessada: Option<Picture>
    var nomeImagem: string
    var hasImage: bool
    var resultados: seq<LeafMetric>
    var resultadosAgregados: Option<AggregatedMetrics>
    var historico: seq<HistoryEntry>
    var isAnalyzing: bool
    var visibleLeafDetails: set<int>
    const store: LocalStorage<HistoryData>

    /** The page as constructed: empty form, scale 1, no image, and the
        history read from "historico" (an empty history when the key is
        missing or empty). */
    constructor(store: LocalStorage<HistoryData>)
      requires var v := store.GetItem(HomeKey); v.Some? ==> v.value.Entries? || v.value.raw == ""
      ensures especie == "" && tratamento == "" && replica == "" && nomeImagem == ""
      ensures areaEscala == 1.0 && !hasImage && !isAnalyzing
      ensures imagemSelecionada.None? && imagemProcessada.None?
      ensures resultados == [] && resultadosAgregados.None? && visibleLeafDetails == {}
      ensures this.store == store
      ensures historico == if Truthy(store.GetItem(HomeKey)) then store.items[HomeKey].entries else []
    {
      especie, tratamento, replica, nomeImagem := "", "", "", "";
      areaEscala := 1.0;
      hasImage, isAnalyzing := false, false;
      imagemSelecionada, imagemProcessada := None, None;
      resultados, resultadosAgregados := [], None;
      visibleLeafDetails := {};
      this.store := store;
      var h := store.GetItem(HomeKey);
      historico := if Truthy(h) then h.value.entries else [];
    }

    /** The record adicionarAoHistorico builds at clock reading `now`. */
    function Snapshot(now: int): (e: HistoryEntry)
      reads `especie, `tratamento, `replica, `nomeImagem, `resultados, `resultadosAgregados
      ensures e.id == now && e.data == now && e.areaEscala.None?
      ensures e.resultados == resultados && e.resultadosAgregados == resultadosAgregados
    {
      HistoryEntry(now, now, especie, tratamento, replica, nomeImagem,
                   resultados, resultadosAgregados, None)
    }

    predicate ImageSelected()
      reads `imagemSelecionada
    {
      imagemSelecionada.Some? && imagemSelecionada.value != ""
    }

    /** adicionarAoHistorico: the current analysis goes first, the list
        is cut to 50, and the whole list is saved under "historico". */
    method AdicionarAoHistorico(now: int)
      modifies `historico, store
      ensures historico == Prepend(old(historico), old(Snapshot(now)))
      ensures |historico| <= HistoryCap && historico[0] == old(Snapshot(now))
      ensures store.items == old(store.items)[HomeKey := Entries(historico)]
    {
      var analise := Snapshot(now);
      historico := [analise] + historico;
      if |historico| > HistoryCap {
        historico := historico[..HistoryCap];
      }
      store.SetItem(HomeKey, Entries(historico));
    }

    /** recalcAggregated. */
    method RecalcAggregated(sqrt: real -> real)
      requires IsSqrt(sqrt)
      modifies `resultadosAgregados
      ensures resultadosAgregados == Some(Recalc(resultados, sqrt))
    {
      if |resultados| == 0 {
        resultadosAgregados := Some(InitAggregated);
        return;
      }
      var agg := InitAggregated;
      var areas := Areas(resultados);
      var total := Sum(areas);
      agg := agg.(totalArea := Some(total));
      var avg := total / |areas| as real;
      agg := agg.(averageArea := Some(avg));
      agg := agg.(standardDeviationArea := Some(sqrt(SquaredDeviation(areas, avg) / |areas| as real)));
      var relacoes := Ratios(resultados);
      agg := agg.(averageWidthToLengthRatio := Some(Sum(relacoes) / |relacoes| as real));
      resultadosAgregados := Some(agg);
    }

    /** toggleLeafDetails. */
    method ToggleLeafDetails(id: int)
      modifies `visibleLeafDetails
      ensures visibleLeafDetails == Toggle(old(visibleLeafDetails), id)
    {
      if id in visibleLeafDetails {
        visibleLeafDetails := visibleLeafDetails - {id};
      } else {
        visibleLeafDetails := visibleLeafDetails + {id};
      }
    }

    /** The synchronous part of deleteSelectedLeaves: filter, renumber,
        close every detail panel, recompute the statistics. */
    method RemoveLeaves(ids: seq<int>, sqrt: real -> real)
      requires IsSqrt(sqrt)
      modifies `resultados, `visibleLeafDetails, `resultadosAgregados
      ensures resultados == Renumber(Surviving(old(resultados), ids))
      ensures visibleLeafDetails == {}
      ensures resultadosAgregados == Some(Recalc(resultados, sqrt))
    {
      resultados := Surviving(resultados, ids);
      resultados := Renumber(resultados);
      visibleLeafDetails := {};
      RecalcAggregated(sqrt);
    }

    /** The redraw chain of deleteSelectedLeaves: contours and labels,
        falling back to the labels alone; the processed image is replaced
        only when one of them settles with a picture. */
    method RedrawProcessed(contoursLoad: bool, labelsLoad: bool)
      modifies `imagemProcessada
      ensures imagemProcessada ==
        if ImageSelected() && (contoursLoad || labelsLoad)
        then Redrawn(imagemSelecionada.value, contoursLoad, labelsLoad, resultados)
        else old(imagemProcessada)
    {
      if ImageSelected() {
        var baseImg := imagemSelecionada.value;
        var drawn := DrawContoursAndLabels(baseImg, contoursLoad, resultados);
        if drawn.Rejected? {
          drawn := DrawLabels(baseImg, labelsLoad, resultados);
        }
        if drawn.Resolved? {
          imagemProcessada := Some(drawn.image.GetOr(Picture(baseImg, [])));
        }
      }
    }

    /** deleteSelectedLeaves, with its promise chain run to the end:
        `contoursLoad` and `labelsLoad` say whether the base image loads
        for each of the two redraws, `now` is the clock when the analysis
        is recorded. The frame leaves the form, the selected image and
        the analysing flag as they were. */
    method DeleteSelectedLeaves(ids: seq<int>, contoursLoad: bool, labelsLoad: bool,
                                now: int, sqrt: real -> real)
      requires IsSqrt(sqrt)
      modifies `resultados, `visibleLeafDetails, `resultadosAgregados, `imagemProcessada, `historico, store
      ensures resultados == Renumber(Surviving(old(resultados), ids))
      ensures visibleLeafDetails == {}
      ensures resultadosAgregados == Some(Recalc(resultados, sqrt))
      ensures imagemProcessada ==
        if ImageSelected() && (contoursLoad || labelsLoad)
        then Redrawn(imagemSelecionada.value, contoursLoad, labelsLoad, resultados)
        else old(imagemProcessada)
      ensures historico == Prepend(old(historico), Snapshot(now))
      ensures store.items == old(store.items)[HomeKey := Entries(historico)]
    {
      RemoveLeaves(ids, sqrt);
      RedrawProcessed(contoursLoad, labelsLoad);
      AdicionarAoHistorico(now);
    }

    /** The settled analysis as calcular applies it: a rejection or a
        reported error raises an alert and leaves the results empty;
        otherwise the results, statistics and image are shown and the
        analysis is recorded. */
    method Settle(r: Outcome, now: int) returns (alert: Option<Alert>)
      modifies `resultados, `resultadosAgregados, `imagemProcessada, `historico, store
      ensures r.Reject? ==> alert == Some(Alert(ErrorHeader, r.message))
      ensures r.Resolve? && ErrorText(r.result).Some? ==>
        alert == Some(Alert(ErrorHeader, ErrorText(r.result).value))
      ensures r.Reject? || ErrorText(r.result).Some? ==>
        && resultados == old(resultados) && resultadosAgregados == old(resultadosAgregados)
        && imagemProcessada == old(imagemProcessada)
        && historico == old(historico) && unchanged(store)
      ensures r.Resolve? && ErrorText(r.result).None? ==>
        && alert.None?
        && resultados == r.result.leaves
        && resultadosAgregados == Some(r.result.aggregatedMetrics)
        && imagemProcessada == r.result.processedImage
        && historico == Prepend(old(historico), Snapshot(now))
        && store.items == old(store.items)[HomeKey := Entries(historico)]
    {
      alert := None;
      if r.Reject? {
        alert := Some(Alert(ErrorHeader, r.message));
      } else if ErrorText(r.result).Some? {
        alert := Some(Alert(ErrorHeader, r.result.error.value));
      } else {
        resultados := r.result.leaves;
        resultadosAgregados := Some(r.result.aggregatedMetrics);
        imagemProcessada := r.result.processedImage;
        AdicionarAoHistorico(now);
      }
    }

    /** The try block of calcular, once an image is selected and the
        scale is positive: the results are cleared, the picture is loaded
        and analysed, and the outcome is settled. */
    method AnalyzeSelected(imageLoads: bool, cvLoaded: bool, contours: seq<Contour>,
                           sqrt: real -> real, uid: nat -> string, now: int)
        returns (alert: Option<Alert>, r: Outcome)
      requires IsSqrt(sqrt)
      requires forall i :: 0 <= i < |contours| ==> Traced(contours[i])
      requires hasImage && ImageSelected() && areaEscala > 0.0
      modifies `isAnalyzing, `resultados, `resultadosAgregados, `imagemProcessada, `historico, store
      ensures r == Run(imageLoads, cvLoaded, old(imagemSelecionada).value, contours, old(areaEscala), sqrt, uid)
      ensures !isAnalyzing
      ensures r.Reject? ==> alert == Some(Alert(ErrorHeader, r.message))
      ensures r.Resolve? && ErrorText(r.result).Some? ==>
        alert == Some(Alert(ErrorHeader, ErrorText(r.result).value))
      ensures r.Reject? || ErrorText(r.result).Some? ==>
        && resultados == [] && resultadosAgregados.None?
        && imagemProcessada == old(imagemProcessada)
        && historico == old(historico) && unchanged(store)
      ensures r.Resolve? && ErrorText(r.result).None? ==>
        && alert.None?
        && resultados == r.result.leaves
        && resultadosAgregados == Some(r.result.aggregatedMetrics)
        && imagemProcessada == r.result.processedImage
        && historico == Prepend(old(historico), Snapshot(now))
        && store.items == old(store.items)[HomeKey := Entries(historico)]
    {
      isAnalyzing := true;
      resultados := [];
      resultadosAgregados := None;
      r := LoadAndProcess(imageLoads, cvLoaded, imagemSelecionada.value, contours, areaEscala, sqrt, uid);
      alert := Settle(r, now);
      label settled:
      isAnalyzing := false;
      assert Snapshot(now) == old@settled(Snapshot(now));
    }

    /** calcular. `imageLoads` says whether the selected image loads,
        `cvLoaded` whether the OpenCV runtime is present, `contours` what
        OpenCV traces on the image, `uid` the identifiers it draws and
        `now` the clock when the analysis is recorded. Without an image,
        or with a scale that is not positive, it alerts and changes
        nothing; otherwise it clears the results and settles the run. */
    method Calcular(imageLoads: bool, cvLoaded: bool, contours: seq<Contour>,
                    sqrt: real -> real, uid: nat -> string, now: int)
        returns (alert: Option<Alert>, ran: Option<Outcome>)
      requires IsSqrt(sqrt)
      requires forall i :: 0 <= i < |contours| ==> Traced(contours[i])
      modifies `isAnalyzing, `resultados, `resultadosAgregados, `imagemProcessada, `historico, store
      ensures !old(hasImage && ImageSelected()) ==>
        alert == Some(Alert(AttentionHeader, SelectImageMessage)) && ran.None?
        && unchanged(this) && unchanged(store)
      ensures old(hasImage && ImageSelected()) && !(areaEscala > 0.0) ==>
        alert == Some(Alert(AttentionHeader, ScaleMessage)) && ran.None?
        && unchanged(this) && unchanged(store)
      ensures old(hasImage && ImageSelected()) && areaEscala > 0.0 ==>
        && ran == Some(Run(imageLoads, cvLoaded, old(imagemSelecionada).value, contours, old(areaEscala), sqrt, uid))
        && !isAnalyzing
        && (ran.value.Reject? ==> alert == Some(Alert(ErrorHeader, ran.value.message)))
        && (ran.value.Resolve? && ErrorText(ran.value.result).Some? ==>
              alert == Some(Alert(ErrorHeader, ErrorText(ran.value.result).value)))
        && (ran.value.Reject? || ErrorText(ran.value.result).Some? ==>
              && resultados == [] && resultadosAgregados.None?
              && imagemProcessada == old(imagemProcessada)
              && historico == old(historico) && unchanged(store))
        && (ran.value.Resolve? && ErrorText(ran.value.result).None? ==>
              && alert.None?
              && resultados == ran.value.result.leaves
              && resultadosAgregados == Some(ran.value.result.aggregatedMetrics)
              && imagemProcessada == ran.value.result.processedImage
              && historico == Prepend(old(historico), Snapshot(now))
              && store.items == old(store.items)[HomeKey := Entries(historico)])
    {
      if !hasImage || !ImageSelected() {
        return Some(Alert(AttentionHeader, SelectImageMessage)), None;
      }
      if !(areaEscala > 0.0) {
        return Some(Alert(AttentionHeader, ScaleMessage)), None;
      }
      var r;
      alert, r := AnalyzeSelected(imageLoads, cvLoaded, contours, sqrt, uid, now);
      ran := Some(r);
    }
  }
}
