# LIMA leaf measurement — a verified model

LIMA measures leaves in a photograph that also shows a reference square of
known area. OpenCV traces the dark shapes of the thresholded image. The
application keeps the shapes whose area lies strictly between 1000 and 1e10
pixels. A kept shape is a reference square when its polygon approximation
has four vertices, is convex and has near-right corners. Every other kept
shape is a leaf. The square calibrates a linear scale, sqrt(A) / (P / 4),
and an areal scale, A / pixel area. Every leaf is then measured:

- area;
- perimeter;
- width, the shorter rotated-rectangle side;
- length, the longer side;
- the width-to-length ratio.

The leaves are numbered 1..n. The run reports the total leaf area, the
mean and population standard deviation of area, perimeter, width and
length, and the mean width-to-length ratio.

The model covers:

- **The browser service** (`ImageAnalysis`, `Classifier`, `Metrics`,
  `Drawing`, `Geometry`). These model `processImageDirect` and
  `cosineAngle`. They also cover which marks the two redraw helpers draw,
  and with which labels.
- **The Python copies of the algorithm.** `PythonService` is the current
  service, which calibrates from the first square found; its `find_objects`
  is identical in `codigo_python/MainWindow.py`. `LegacyService` is the
  oldest service, which never calibrates. `FinalScript` is the desktop test
  script, which measures only the largest leaf.
  - `Classifier` writes out the four nestings of the square/leaf test and
    the three copies of the cosine formula.
  - It proves that the nestings agree, and how the oldest formula relates
    to the others.
- **The home page** (`Home.HomePage`):
  - running an analysis;
  - deleting leaves, with renumbering, recomputing the statistics and
    redrawing;
  - toggling the leaf details;
  - recording analyses in a history capped at 50 entries, newest first.
- **The history page** (`History.HistoryPage`):
  - loading, newest first;
  - a case-insensitive search;
  - deleting one analysis, or all of them;
  - editing an analysis in place.
- **The registration page** (`Register`): the ordered form checks, the
  e-mail pattern and the password-strength meter.
- **The mock authentication service** (`Auth.AuthService`). It is a state
  machine over the current user, the authenticated flag and the
  `localStorage` entries.

Arithmetic is on `real`. The square root is a parameter `sqrt` with
`Numeric.IsSqrt(sqrt)`: its value is non-negative and squares back to its
argument. OpenCV results are fields of `Geometry.Contour`:

- area;
- arc length;
- approximation vertices;
- convexity;
- rotated-rectangle, bounding-box and PCA sizes;
- centroid;
- points.

`Geometry.Traced` states the facts OpenCV guarantees about them. Browser
storage is the class `Storage.LocalStorage`, a map from keys to values.
Promise outcomes, dialog answers and clock readings are parameters.

The storage keys of the two pages differ. The home page writes its history
under `historico`. The history page reads `historico_analises` first and
saves only there. So once the history page has saved, the analyses the home
page records later never show on it. The model keeps this behaviour as the
source has it, and `History.HomeWritesIgnored` states it.

## Model

| member | source | states |
|---|---|---|
| Classifier.MaxCosine | src/app/services/image-analysis.service.ts:101-110 | the loop over j = 2, 3, 4 returns the largest of 0 and the three checked corner cosines (vertex 0 is never checked) |
| Classifier.MaxCornerBelow | src/app/services/image-analysis.service.ts:107-111 | the maximum is below a positive limit iff each of the three checked corners is |
| Classifier.MaxCornerIsMax | src/assets/python/python_service.py:45-48 | the running maximum equals max(0, c2, c3, c4) |
| Classifier.FindObjects | src/app/services/image-analysis.service.ts:91-123 | the classification loop returns exactly the square list and the leaf list of the rule, in extraction order |
| Classifier.PartitionStep | codigo_python/teste_final.py:37-53 | scanning one more contour appends it to the square list, to the leaf list or to neither, as its kind says |
| Classifier.Partition | src/assets/python/python_service.py:36-56 | squares and leaves are order-preserving subsequences of the contours; together, as a multiset, they are exactly the kept contours; each has the kind of its list |
| Classifier.DroppedIffOutOfRange | codigo_python/MainWindow.py:39-49 | under every nesting, a traced contour is in neither list iff its area is not strictly inside (1000, 1e10) |
| Classifier.SquareIff | src/app/services/image-analysis.service.ts:91-118 | a traced contour is a square iff it is in range, has 4 approximation vertices, is convex and its corners pass the cosine test |
| Classifier.SquareHasPositiveSize | src/app/services/image-analysis.service.ts:133-136 | a square has area above 1000, a positive perimeter and points, so the scale divisions are defined |
| Classifier.CauchySchwarz | src/app/services/image-analysis.service.ts:392 | (d1·d2)² is at most \|d1\|²\|d2\|² on integer points |
| Classifier.DotBelowRoot | src/app/services/image-analysis.service.ts:392-394 | \|d1·d2\| is at most the square root of \|d1\|²\|d2\|² |
| Classifier.CosineBounded | src/app/services/image-analysis.service.ts:387-395 | the denominator is at least 1e-10, so the `return 1.0` guard never fires; the TypeScript and NumPy formulas agree; \|cosine\| < 1 |
| Classifier.CosineZeroSide | codigo_python/MainWindow.py:9-18 | a zero-length side gives cosine 0 in every copy of the formula |
| Classifier.LegacyDenominatorPositive | python_service.py:19 | the unguarded division of the oldest formula has a positive divisor |
| Classifier.LegacyCosineBounded | python_service.py:14-19 | with 1e-10 inside the root, \|cosine\| is still < 1 |
| Classifier.LegacyDominatesNumPy | python_service.py:14-18 | the oldest formula's \|cosine\| is never smaller than the current Python one's |
| Classifier.ShiftedRootDominates | python_service.py:19 | for a radicand ≥ 1, sqrt(P + eps) is positive and at most sqrt(P) + eps, so dividing by it gives the larger magnitude |
| Classifier.TypeScriptNumPyAgree | src/assets/python/python_service.py:14-23 | the browser and NumPy corner maxima are equal on every quadrilateral |
| Classifier.LegacyCornersPassNumPy | python_service.py:31-39 | a quadrilateral that passes the oldest corner test passes the current one |
| Classifier.PythonMatchesScript | codigo_python/teste_final.py:29-54 | testing the range first classifies every contour as the Python services' nesting does |
| Classifier.ServiceMatchesScript | src/app/services/image-analysis.service.ts:87-122 | on a traced contour, the browser service (range on `contourArea` without the orientation flag, which is never negative) classifies as the desktop script (range on \|area\|) |
| Classifier.LegacyRefinesPython | python_service.py:21-42 | the oldest service drops the same contours; its squares are squares of the current service, and the current service's leaves are leaves for it |
| Metrics.SumBounds | src/app/services/image-analysis.service.ts:193 | the sum of n values lies between n·lo and n·hi |
| Metrics.MeanBetween | src/app/services/image-analysis.service.ts:189 | the mean lies between any bounds of the values |
| Metrics.SquaredDeviationBounds | src/app/services/image-analysis.service.ts:190 | the sum of squared deviations is non-negative, and zero when every value equals the centre |
| Metrics.StdDevBounds | src/app/services/image-analysis.service.ts:190 | the population standard deviation is non-negative, and zero (with mean = the value) when all values are equal |
| Metrics.SumConstant | src/app/services/image-analysis.service.ts:189 | n equal values sum to n times the value |
| Metrics.Aggregate | src/app/services/image-analysis.service.ts:185-211 | `{}` iff there are no leaves; otherwise total = Σarea, each of the five averages is Σ/n of its column and each of the four standard deviations is sqrt(Σ(x − average)²/n) around its own average, hence ≥ 0; with one leaf every mean is that leaf's value and every deviation 0 |
| Metrics.MeanAndDeviation | src/app/services/image-analysis.service.ts:189-190 | getMean is Σ/n of its column and getStdDev the population deviation around it |
| Metrics.SummaryStats | src/app/services/image-analysis.service.ts:186-211 | the aggregate of a non-empty result list gives every column's Σ/n average and population deviation |
| Metrics.SummaryFacts | src/app/services/image-analysis.service.ts:188-211 | for each of the five columns mean·n = sum, and for area, perimeter, width and length the deviation is the population deviation around the mean, ≥ 0; a single value gives mean = value and deviation 0 |
| Metrics.NumPyAggregate | src/assets/python/python_service.py:152-163 | every aggregate is 0 without leaves; otherwise total = Σarea, each average is Σ/n of its column and each deviation is np.std's population deviation sqrt(Σ(x − average)²/n), ≥ 0 and 0 for one leaf |
| Geometry.Flatten | src/app/services/image-analysis.service.ts:162-166 | the snapshot has 2n integers, x then y of each point |
| Geometry.UnflattenFlatten | src/app/services/image-analysis.service.ts:345-350 | rebuilding from a stored snapshot gives back the traced points |
| Drawing.LeafMarks | src/app/services/image-analysis.service.ts:222-244 | two marks per leaf: its outline and its number |
| Drawing.LeafMarksAt | src/app/services/image-analysis.service.ts:222-244 | leaf i's blue outline of thickness 4 sits at position 2i and the red number i + 1, placed 25 left of and 25 below its rounded centroid, at 2i + 1 |
| Drawing.DrawAnalysis | src/app/services/image-analysis.service.ts:213-244 | the processed picture keeps the source image; square k's green outline is mark k; after the squares, each leaf contributes its outline and then its number i + 1 at its rounded centroid |
| Drawing.RedrawMarks | src/app/services/image-analysis.service.ts:345-370 | at most two marks per entry |
| Drawing.DrawContoursAndLabels | src/app/services/image-analysis.service.ts:329-385 | an empty base resolves to nothing; an image that does not load rejects with its message; otherwise the redraw marks |
| Drawing.RedrawCount | src/app/services/image-analysis.service.ts:347 | exactly the entries with a non-empty contour are redrawn, two marks each |
| Drawing.RedrawAt | src/app/services/image-analysis.service.ts:344-368 | for any list, entry i with a non-empty contour contributes, right after the marks of the earlier entries with one, its own blue outline and the red number i + 1 at its stored centroid (0 when absent), whatever id it stores |
| Drawing.LabelMarks | src/app/services/image-analysis.service.ts:298-313 | at most one badge per entry |
| Drawing.DrawLabels | src/app/services/image-analysis.service.ts:275-323 | an empty base resolves to nothing; an image that does not load rejects; otherwise the label badges |
| Drawing.LabelsAreFilteredIds | src/app/services/image-analysis.service.ts:298-312 | one badge per entry with a centroid, in list order, labelled with the entry's own id |
| ImageAnalysis.Measured | src/app/services/image-analysis.service.ts:140-183 | one metric per leaf |
| ImageAnalysis.MeasureLeaves | src/app/services/image-analysis.service.ts:139-183 | the measurement loop's list is the measured list of the leaves |
| ImageAnalysis.MeasuredStep | src/app/services/image-analysis.service.ts:171-182 | measuring one more leaf appends its metric |
| ImageAnalysis.MeasuredPrefix | src/app/services/image-analysis.service.ts:140 | measuring a prefix gives the prefix of the measurements |
| ImageAnalysis.Analysis | src/app/services/image-analysis.service.ts:125-255 | an error iff no square was found, and then no leaves, `{}` and no image; numberOfLeaves is the leaf count; ids 1..n; on success the leaves are the found leaves measured with the factors of the largest square (which has positive area and perimeter), and the aggregate block is Aggregate of those leaves |
| ImageAnalysis.KeptAreTraced | src/app/services/image-analysis.service.ts:91-136 | every square and leaf is traced and in range, and the reference square has positive area and perimeter |
| ImageAnalysis.ProcessImageDirect | src/app/services/image-analysis.service.ts:57-262 | rejects with "OpenCV.js is not loaded." without the runtime; otherwise resolves with the analysis |
| ImageAnalysis.ReferenceIsLargest | src/app/services/image-analysis.service.ts:129-130 | the reference is one of the squares, and no square has a larger area |
| ImageAnalysis.Calibration | src/app/services/image-analysis.service.ts:133-136 | the reference's pixel area times areal is A; its perimeter times linear is 4·sqrt(A); both factors are ≥ 0; doubling A doubles areal and scales linear by sqrt(2) |
| ImageAnalysis.MeasuredLeafShape | src/app/services/image-analysis.service.ts:150-177 | leaf i gets id i + 1; 0 ≤ width ≤ length; the ratio is in [0, 1] and 0 when the length is 0 |
| ImageAnalysis.RedrawMatchesFirstDrawing | src/app/services/image-analysis.service.ts:357-366 | redrawing the stored results draws exactly the leaf marks of the first drawing |
| ImageAnalysis.AnalysisLeaves | src/app/services/image-analysis.service.ts:171-182 | in a successful analysis every leaf is well shaped, and a redraw reproduces the leaf marks |
| PythonService.CalibrationFacts | src/assets/python/python_service.py:71-85 | without a square both factors stay 1.0; otherwise perimeter·linear = 4·sqrt(A), and area·areal = A only when the pixel area is positive (areal stays 1.0 otherwise) |
| PythonService.CalibrationStep | src/assets/python/python_service.py:70-87 | the calibration block computes those factors |
| PythonService.FirstSquareTraced | src/assets/python/python_service.py:73-80 | every square and leaf is traced, and the first square has a positive perimeter |
| PythonService.PyMeasured | src/assets/python/python_service.py:100-150 | one metric per leaf |
| PythonService.MeasureLeaves | src/assets/python/python_service.py:89-150 | the loop's metric list and its five columns are the measured list and its columns |
| PythonService.MeasuredStep | src/assets/python/python_service.py:143-150 | measuring one more leaf appends its metric |
| PythonService.PyLeafShape | src/assets/python/python_service.py:129-144 | id i + 1; 0 ≤ width ≤ length; ratio in [0, 1], 0 when the length is 0, width/length otherwise |
| PythonService.Analyze | src/assets/python/python_service.py:152-181 | numberOfLeaves is the leaf count; ids 1..n; the leaves are the found leaves measured with the first square's calibration; the aggregates are NumPyAggregate of their columns (Σ/n means, population deviations), total = Σarea, all zero without leaves |
| PythonService.AnalyzeFacts | src/assets/python/python_service.py:70-134 | without a square the leaves keep their pixel area and perimeter; every leaf is well shaped |
| PythonService.AnalyzeImage | src/assets/python/python_service.py:58-68 | an undecodable image returns the decode error; otherwise the analysis |
| LegacyService.LegacyMeasured | python_service.py:64-86 | one metric per leaf |
| LegacyService.MeasureLeaves | python_service.py:57-86 | the loop's metric list and columns are the measured list and its columns |
| LegacyService.MeasuredStep | python_service.py:80-86 | measuring one more leaf appends its metric |
| LegacyService.LegacyLeafShape | python_service.py:65-72 | area = contourArea × scale_area; the perimeter stays in pixels; width = min ≤ length = max; ratio 0 when the length is 0 |
| LegacyService.Analyze | python_service.py:88-116 | numberOfLeaves is the leaf count; the leaves are the found leaves measured with scale_area; the aggregates are NumPyAggregate of their columns, total = Σarea, all zero without leaves |
| LegacyService.SquaresUnused | python_service.py:54-116 | the squares play no part: the same leaves give the same analysis |
| LegacyService.AnalyzeImage | python_service.py:47-54 | an undecodable image returns the decode error; otherwise the analysis |
| FinalScript.Measure | codigo_python/teste_final.py:69-106 | stops ("incomplete") iff there is no square or no leaf |
| FinalScript.Outcome | codigo_python/teste_final.py:64-73 | on the traced contours, incomplete iff the script's rule finds no square or no leaf |
| FinalScript.Run | codigo_python/teste_final.py:59-64 | a missing image stops the script; otherwise the outcome of its contours |
| FinalScript.SquaresCalibrate | codigo_python/teste_final.py:76-80 | the first square has positive perimeter and area, so both divisions are defined |
| FinalScript.MeasureFacts | codigo_python/teste_final.py:76-106 | perimeter·linear = 4 and area·areal = 1 for the 1 cm² square; width ≤ length; the measured leaf is a leaf of largest area, and its area is scaled by areal |
| FinalScript.OutcomeFacts | codigo_python/teste_final.py:67-103 | when the script measures, its leaf is one of largest area and its width is at most its length |
| FinalScript.LargestFirst | codigo_python/teste_final.py:67 | after the descending sort the first leaf is a leaf and no leaf is larger |
| FinalScript.LeavesTraced | codigo_python/teste_final.py:29-54 | every leaf found is a traced contour |
| FinalScript.MeasuredLeaf | codigo_python/teste_final.py:72-106 | with a positive reference square the script measures: the square comes out at 4 cm of perimeter and 1 cm² of area, width ≤ length, and the leaf's area is scaled by the area factor |
| FinalScript.UnitSquareScales | codigo_python/teste_final.py:76-80 | a square of real area 1 cm² gets a linear factor ≥ 0 that maps its perimeter to 4 and an area factor that maps its area to 1 |
| FinalScript.LargestMeasured | codigo_python/teste_final.py:67-106 | when both lists are non-empty the measured leaf is the largest one and the reference square is calibrated |
| FinalScript.OutcomeIsMeasure | codigo_python/teste_final.py:64-73 | the outcome is the measurement block on the squares and the area-sorted leaves, whose first square is positive |
| Text.LowerChar | src/app/history/history.page.ts:159 | A–Z map into a–z; a character that is neither an ASCII nor a Latin-1 capital is unchanged |
| Text.LowerCharIdempotent | src/app/history/history.page.ts:161 | lower-casing a lower-cased character changes nothing |
| Text.ToLowerIdempotent | src/app/history/history.page.ts:163 | lower-casing a lower-cased string changes nothing |
| Text.IncludesTrivial | src/app/history/history.page.ts:165 | every string includes the empty string and itself |
| History.SearchFindsOwnFields | src/app/history/history.page.ts:153-166 | searching for an entry's own species, treatment or image name shows that entry |
| History.FilteredFacts | src/app/history/history.page.ts:153-167 | the filtered list is an order-preserving subsequence; a blank term keeps everything; otherwise an entry is shown iff it matches the lower-cased term |
| History.LowerCharKeepsSpace | src/app/history/history.page.ts:154 | lower-casing neither makes nor removes white space |
| History.SearchIgnoresCase | src/app/history/history.page.ts:159 | a term and its lower case show the same entries |
| History.WithoutIdFacts | src/app/history/history.page.ts:189 | deleting keeps, in order and with their multiplicity, exactly the entries with another id |
| History.Saved | src/app/history/history.page.ts:131 | the history page's key when it holds a truthy value, otherwise the home page's key |
| History.LoadedFacts | src/app/history/history.page.ts:131-145 | nothing truthy stored keeps the list as it was; anything truthy stored loads sorted newest first; stored entries are a permutation of the loaded list; unparsable text gives [] |
| History.HomeWritesIgnored | src/app/history/history.page.ts:131 | once the history page has saved, what the home page saves is never loaded |
| History.Applied | src/app/history/history.page.ts:362-370 | copies the four text fields, areaEscala only when set, and keeps id, date and results |
| History.EditRoundTrip | src/app/history/history.page.ts:344-370 | saving the form as it was opened leaves the entry as it was |
| History.FirstIndex | src/app/history/history.page.ts:373 | -1 iff no entry has the id; otherwise the first entry with it |
| History.EditTouchesOneEntry | src/app/history/history.page.ts:373-377 | saving an edit replaces only the first entry with that id and keeps the length |
| History.HistoryPage.constructor | src/app/history/history.page.ts:92-99 | empty lists, no detail view, empty search, not editing |
| History.HistoryPage.CarregarHistorico | src/app/history/history.page.ts:127-146 | the history is the loaded list, and the filtered list equals it |
| History.HistoryPage.Filtrar | src/app/history/history.page.ts:153-167 | the filtered list is the filter of the history by the search term |
| History.HistoryPage.AtualizarStorage | src/app/history/history.page.ts:238-242 | saves the history under `historico_analises` and refilters |
| History.HistoryPage.FecharDetalhes | src/app/history/history.page.ts:232-236 | no detail view, not editing, no form |
| History.HistoryPage.ExpandirAnalise | src/app/history/history.page.ts:227-230 | shows that analysis, not editing |
| History.HistoryPage.OnDeleteAnalise | src/app/history/history.page.ts:179-201 | unconfirmed: nothing changes; confirmed: the id leaves the history, which is saved; the detail view closes iff it shows that id |
| History.HistoryPage.LimparHistorico | src/app/history/history.page.ts:203-225 | nothing on an empty history or without confirmation; otherwise both lists, both keys and the detail view are cleared |
| History.HistoryPage.ToggleEditDetalhe | src/app/history/history.page.ts:338-351 | without a shown analysis nothing changes; otherwise edit mode with the form filled from it |
| History.HistoryPage.SaveEditDetalhe | src/app/history/history.page.ts:358-381 | the shown analysis takes the form; only the first entry with its id is replaced and saved; edit mode ends |
| Home.Recalc | src/app/home/home.page.ts:239-259 | no leaves give the initial block; otherwise total = Σarea, average area = Σarea/n, area deviation = sqrt(Σ(a − average)²/n) ≥ 0 and average ratio = Σratio/n; perimeter, width and length statistics absent |
| Home.RecalcAgreesWithAnalysis | src/app/home/home.page.ts:247-258 | on leaves, the four recomputed statistics equal those of the analysis |
| Home.Renumber | src/app/home/home.page.ts:322 | ids 1..n by position; every other field unchanged |
| Home.DeletionKeepsTheRest | src/app/home/home.page.ts:319-322 | exactly the unselected leaves survive, in order and with multiplicity, and are numbered 1..n |
| Home.SurvivingMembership | src/app/home/home.page.ts:319-322 | a leaf survives deletion iff it was in the list and its id is not selected |
| Home.DeletingNothing | src/app/home/home.page.ts:319 | deleting no ids keeps every leaf |
| Home.Prepend | src/app/home/home.page.ts:371-372 | the new entry first, the old ones after it in order, cut to 50 |
| Home.PrependOrder | src/app/home/home.page.ts:360-373 | the history never exceeds 50; of two additions the later is first |
| Home.Toggle | src/app/home/home.page.ts:219 | flips the membership of that id only |
| Home.ToggleTwice | src/app/home/home.page.ts:218-220 | toggling twice restores the set |
| Home.Redrawn | src/app/home/home.page.ts:335-339 | a picture iff one redraw loads, on the selected base; the contour redraw draws two marks per entry with a contour |
| Home.NoSquareIsAnError | src/app/home/home.page.ts:198-202 | a completed run reports an error iff no square was found |
| Home.ErrorText | src/app/home/home.page.ts:201 | an error is reported iff the result carries a non-empty error string |
| Home.HomePage.constructor | src/app/home/home.page.ts:380-383 | empty form, scale 1, no image and results; the history is the stored list under `historico`, or empty |
| Home.HomePage.Snapshot | src/app/home/home.page.ts:361-370 | the record has the clock as id and date and copies the form and the results |
| Home.HomePage.AdicionarAoHistorico | src/app/home/home.page.ts:360-378 | the snapshot goes first, the list is capped at 50 and saved under `historico` |
| Home.HomePage.RecalcAggregated | src/app/home/home.page.ts:239-259 | the statistics become Recalc of the results alone, so a second call changes nothing |
| Home.HomePage.ToggleLeafDetails | src/app/home/home.page.ts:218-220 | the open set is toggled at the id |
| Home.HomePage.RemoveLeaves | src/app/home/home.page.ts:317-328 | survivors renumbered, details closed, statistics recomputed |
| Home.HomePage.RedrawProcessed | src/app/home/home.page.ts:332-343 | with a selected image, the processed image becomes the contour redraw or, failing that, the label redraw; otherwise it is kept |
| Home.HomePage.DeleteSelectedLeaves | src/app/home/home.page.ts:317-357 | renumbered survivors, closed details, recomputed statistics, redrawn image and the analysis recorded |
| Home.HomePage.Settle | src/app/home/home.page.ts:197-214 | a rejection or an error alerts with its message and keeps the results; otherwise the results, statistics and image are shown and recorded |
| Home.HomePage.Calcular | src/app/home/home.page.ts:184-215 | without an image, or with a scale that is not positive, it alerts and changes nothing; otherwise it runs the analysis with results cleared first; a rejection or reported error alerts with its own message and keeps the processed image, history and store; a success shows and records the results |
| Home.HomePage.AnalyzeSelected | src/app/home/home.page.ts:192-214 | the results are cleared, the outcome is that of loading and analysing the picture, a rejection or a reported error alerts with its own message, keeps the results empty and leaves the processed image, history and store as they were, a success shows the results and records them in the history; the busy flag ends false |
| Home.LoadAndProcess | src/app/home/home.page.ts:173-199 | a picture that does not load rejects with the load message; otherwise the outcome is processImageDirect's |
| Auth.Account | src/app/auth/auth.service.ts:66-104 | only admin@lima.com/admin123 and user@lima.com/user123 open an account, each its own |
| Auth.AccountRoles | src/app/auth/auth.service.ts:66-93 | the admin account has role admin, the user account role user, and each its e-mail |
| Auth.NewUser | src/app/auth/auth.service.ts:119-124 | a registered user has role user and the form's e-mail and name |
| Auth.Merge | src/app/auth/auth.service.ts:192 | each field from the changes when given, else the current one |
| Auth.MergeFacts | src/app/auth/auth.service.ts:186-197 | no changes keep the user; applying the same changes twice is applying them once |
| Auth.Restored | src/app/auth/auth.service.ts:40-48 | a user is restored only when both keys are present and the user data parses to it |
| Auth.SessionRoundTrip | src/app/auth/auth.service.ts:128-151 | a saved session restores its user; after logout nothing is restored |
| Auth.AuthService.ValidRestores | src/app/auth/auth.service.ts:44-48 | a consistent service restores from storage the user it holds |
| Auth.AuthService.constructor | src/app/auth/auth.service.ts:33-53 | consistent, holding exactly the user restored from storage; the storage loses both session keys when both are present but the user data does not parse, and is otherwise unchanged |
| Auth.AuthService.LoadStoredAuth | src/app/auth/auth.service.ts:40-54 | with both keys truthy, the parsed user signs in or, if unparsable, the session logs out; otherwise nothing changes |
| Auth.AuthService.Login | src/app/auth/auth.service.ts:60-107 | succeeds iff the credentials open an account, saving the session; otherwise "Credenciais inválidas" and nothing changes |
| Auth.AuthService.Register | src/app/auth/auth.service.ts:113-140 | succeeds iff name, e-mail and password are non-empty, signing in a new user with role user; otherwise "Dados inválidos" and nothing changes |
| Auth.AuthService.SaveSession | src/app/auth/auth.service.ts:128-132 | stores the token and user data and signs the user in |
| Auth.AuthService.Logout | src/app/auth/auth.service.ts:145-151 | both keys removed, no user, not authenticated |
| Auth.AuthService.HasRole | src/app/auth/auth.service.ts:177-180 | true iff there is a user whose role equals the argument |
| Auth.AuthService.UpdateProfile | src/app/auth/auth.service.ts:186-203 | without a user "Usuário não encontrado" and nothing changes; otherwise the merged user replaces the current one in memory and storage |
| Register.EmailShape | src/app/auth/register/register.page.ts:150-153 | the pattern accepts s iff s = L@D, L non-empty, L and D free of white space and '@', D with an inner '.' |
| Register.PatternGivesShape | src/app/auth/register/register.page.ts:151 | a matching address has that shape |
| Register.ShapeGivesPattern | src/app/auth/register/register.page.ts:152 | an address of that shape matches |
| Register.DomainFromPieces | src/app/auth/register/register.page.ts:151 | the part after the '@' of a matching address is a domain |
| Register.PiecesFromDomain | src/app/auth/register/register.page.ts:152 | splitting a clean domain at an inner dot yields a matching address |
| Register.OneAt | src/app/auth/register/register.page.ts:150-152 | a valid address has exactly one '@' |
| Register.PasswordStrength | src/app/auth/register/register.page.ts:164-170 | "" iff empty, weak iff 1–5, medium iff 6–9, strong iff ≥ 10 characters |
| Register.StrengthMonotone | src/app/auth/register/register.page.ts:166-169 | a longer password is never rated weaker |
| Register.PasswordStrengthText | src/app/auth/register/register.page.ts:172-180 | weak, medium and strong map to Fraca, Média and Forte, anything else to "" |
| Register.Validation | src/app/auth/register/register.page.ts:86-104 | each message exactly when its check is the first to fail, none when all pass |
| Register.PassingForm | src/app/auth/register/register.page.ts:96-118 | a passing form rates medium or strong and is accepted by the auth service |
| Register.RegisterPage.constructor | src/app/auth/register/register.page.ts:53-63 | empty form, not loading, no error message |
| Register.RegisterPage.OnRegister | src/app/auth/register/register.page.ts:84-136 | a failing check alerts with its message and changes nothing; a passing form signs in the new user, saves the token and the user under `auth_token` and `user_data` in the store, and alerts success |

## Left out

- IEEE-754 arithmetic is left out. So are Python's `round(x, 4)` and `np.int64`/float32 widths: the model computes on unbounded integers and reals. `Math.round` on centroids is modelled exactly (round half up).
- The 32-bit wrap-around of the oldest service's `cosine_angle` (python_service.py:14-19) is left out. It multiplies the int32 coordinates of `approxPolyDP` directly, so `(dx1*dx1 + dy1*dy1)*(dx2*dx2 + dy2*dy2)` wraps once a square's side exceeds about 215 pixels; the current service casts to int64 first (src/assets/python/python_service.py:15-19). The model computes that product on unbounded integers.
- Classifier.LegacyCosineBounded: holds for the oldest formula on unbounded integers, not for the oldest service on squares whose side exceeds about 215 pixels, where the int32 product wraps.
- Classifier.LegacyDominatesNumPy: compares the two formulas on unbounded integers; the int32 wrap of the oldest service is not modelled.
- Classifier.LegacyCornersPassNumPy: holds on unbounded integers; on large squares the oldest service's wrapped product can make it decide differently.
- Classifier.LegacyRefinesPython: holds on unbounded integers; on large squares the oldest service's wrapped product can make it decide differently.
- The square root is a parameter. Square roots of negative numbers, which the source can never take, are left unconstrained.
- OpenCV primitives are inputs, not modelled: thresholding, `findContours`, `approxPolyDP`, `isContourConvex`, `contourArea`, `arcLength`, `minAreaRect`, `boundingRect`, `PCACompute2` and `moments`.
- Pixels, fonts, canvas, `imshow`, `toDataURL`, `imencode` and base64 are left out. The drawing is modelled as a list of marks.
- Native memory release (`mats`, `delete()`) is left out, because it has no effect on results.
- The try/catch paths that turn an OpenCV exception into "Analysis failed: …" or "Erro no servidor Python: …" are left out. Those exceptions come from foreign calls.
- The Python services' stderr logging and command-line entry points are left out. So are `server.py`, the `MainWindow` PyQt window, and the debug scripts.
- The desktop script's `print` output is left out. Its outcome is a value instead.
- Promises, rxjs `delay`, alert dialogs and change detection are left out. Each asynchronous outcome and each dialog answer is a boolean parameter, and the pending state between them is not modelled.
- `ngDoCheck` is left out. It re-runs `filtrar` on every change-detection pass, and the model calls `Filtrar` where the state changes instead.
- JSON is modelled only for the values the app itself writes; any other stored text is one value that does not parse.
- Home.HomePage.constructor: requires the stored `historico` value to parse. The source's unguarded `JSON.parse` would throw otherwise.
- The `scalePatternArea` fallback of the edit form is left out. No record the app writes has that field.
- In-place sorting is modelled as a stable descending insertion sort on a sequence. So are the in-place assignment `historico[idx] = …` and the object aliasing in `saveEditDetalhe`, which are modelled on values: the detail view and the list entry are updated separately, to the same value.
- Clock readings (`Date.now`, `new Date`), `Math.random` uids and token stamps are parameters.
- Text.LowerChar: lower-cases ASCII and Latin-1 capitals only, not the whole of Unicode.
- Register.PasswordStrength: counts characters, not UTF-16 code units.
- Register.Validation: the six-character minimum counts characters, not UTF-16 code units, like Register.PasswordStrength.
- Drawing.DrawContoursAndLabels: a picture that loads always resolves. The source also rejects when an exception is thrown inside `onload` (`cv.imread` or a drawing call failing), image-analysis.service.ts:336-375; those exceptions come from foreign calls.
- Drawing.DrawLabels: a picture that loads always resolves; an exception thrown by the canvas calls inside `onload` (image-analysis.service.ts:281-318) is not modelled, for the same reason.
- ImageAnalysis.ProcessImageDirect: the default `realAreaSquare = 1.0` (image-analysis.service.ts:57) is not modelled; the scale is always passed, as the home page does.
- Metrics.StdDevBounds: proves only that equal values give deviation 0, not the converse.
- CSV export, the theme service, login page, routing and help page are left out, being UI and library formatting.
- The home page's `resetAnalise`, `selecionarImagem` and `limparHistorico` are left out. They are plain field resets and file-picker I/O.
- The home page's `presentDeleteSelectionAlert` is left out: its dialog is the `ids` parameter of `DeleteSelectedLeaves`.
- The register page's failure branch cannot be reached: every form that passes the page's checks is accepted by the service (`Register.PassingForm`). Its connection-error branch comes from a transport that the mock never uses.
