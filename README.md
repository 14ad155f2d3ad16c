# Yacht lightship GWP estimator — a verified model

The estimator is a small Streamlit application (`streamlit_app.py`). A user uploads a
lightship weight list: a spreadsheet with one row per component and at least a
`Description` and a `Weight (kg)` column. For every row, the application asks a chat model
which of seven standard materials the component is made of. It looks that material up in a
fixed table of global-warming-potential (GWP) factors, in kg CO2eq per kg. It then writes
three result columns into the sheet: `Identified Material`, `GWP per kg` and
`GWP (kg CO2eq)`. Finally it reports the total weight and the total GWP in tonnes, and their
ratio, the specific GWP of the yacht.

The model has five modules:

- `GwpTable` (`gwp_table.dfy`) holds the factor table `GWP_DB` and its total lookup
  `GWP_DB.get(x, 0)`.
- `Classifier` (`classifier.dfy`) models `identify_material`. The remote chat model is an
  oracle: a function from the description to the outcome of one call, which either raised
  or returned a response. Everything the function does with that outcome is modelled. This
  covers reading `response['choices'][0]['message']['content']`, where each failing lookup
  falls into the `except` branch. It also covers Python's `str.strip()` (over the
  characters for which `str.isspace()` holds), `str.lower()` and the membership test
  against the table.
- `Aggregation` (`aggregation.dfy`) models the column sums, the conversion to tonnes and the
  specific GWP, which is 0 when the total weight is 0.
- `Pipeline` (`pipeline.dfy`) models the whole analysis of a sheet as values. `Run` performs
  the column check, builds the three result columns and computes the summary.
- `Sheet` (`sheet.dfy`) models the in-place version. The dataframe is a class whose column
  list and cells its methods reassign. Each `apply` is a loop, and `Analyze` is proved to
  leave the frame exactly as `Run` describes it.

## Model

| member | source | states |
|---|---|---|
| GwpTable.TableKeys | streamlit_app.py:9-17 | the table `GwpDb` holds exactly the seven materials of the prompt's list, with "PVC" in capitals |
| GwpTable.FactorOf | streamlit_app.py:57 | the lookup gives the table's factor for a key and 0 for anything else, and 0 only off the table; every factor lies in [0, 20] |
| GwpTable.FactorsPositiveAndDistinct | streamlit_app.py:9-17 | every factor of the table is positive and at most 20 (carbon fiber), and only "PVC" has 2.9 |
| GwpTable.SentinelsHaveNoFactor | streamlit_app.py:39-41 | neither "unknown" nor "error" is a key, so both look up to 0 |
| GwpTable.PvcOnlyUpperCase | streamlit_app.py:15 | the table holds "PVC" but not "pvc" |
| Classifier.AnswerText | streamlit_app.py:33-41 | the content is read exactly when the call returned, choices are present and non-empty, and the first choice has a message with content; it is then that content, and every other outcome (the `except` path) reads nothing |
| Classifier.ReplyReadsBack | streamlit_app.py:38 | the content of a well-formed reply reads back as exactly its text |
| Classifier.IsSpace | streamlit_app.py:38 | the characters `str.strip()` removes: space, tab, newline and carriage return are among them, and no letter or digit is |
| Classifier.TrimStart | streamlit_app.py:38 | the leading half of `str.strip()`: the result is a suffix of the input that is empty or starts with a non-whitespace character |
| Classifier.TrimEnd | streamlit_app.py:38 | the trailing half of `str.strip()`: the result is a prefix of the input that is empty or ends with a non-whitespace character |
| Classifier.TrimStartDropsSpace | streamlit_app.py:38 | the leading part removed by strip is whitespace only |
| Classifier.TrimEndDropsSpace | streamlit_app.py:38 | the trailing part removed by strip is whitespace only |
| Classifier.Strip | streamlit_app.py:38 | the stripped answer neither starts nor ends with whitespace, is no longer than the answer, and is empty for an all-whitespace answer |
| Classifier.StripUnique | streamlit_app.py:38 | any whitespace around a trimmed core strips to exactly that core |
| Classifier.StripTrimmed | streamlit_app.py:38 | a string without surrounding whitespace is unchanged by strip |
| Classifier.StripIdempotent | streamlit_app.py:38 | stripping twice is stripping once |
| Classifier.LowerChar | streamlit_app.py:38 | a lower-cased character is never A-Z or the Kelvin sign, and other characters are kept |
| Classifier.Lower | streamlit_app.py:38 | `str.lower()`: the result has the input's length and lower-cases it character by character |
| Classifier.LowerCharKeepsSpace | streamlit_app.py:38 | lower-casing neither creates nor removes whitespace |
| Classifier.LowerProperties | streamlit_app.py:38 | the lower-cased string has no A-Z letter, is trimmed exactly when the original is, and lowering again changes nothing |
| Classifier.Normalize | streamlit_app.py:38 | the normal form of an answer is trimmed, no longer than the answer and holds no A-Z letter |
| Classifier.NormalizeIdempotent | streamlit_app.py:38 | normalising a normal form changes nothing |
| Classifier.IdentifyMaterial | streamlit_app.py:20-41 | the result is always a key, "unknown" or "error"; it is "error" exactly when the call or reading its content fails, a key exactly when the normal form of the answer is a key (and then equals it), and "unknown" exactly when an answer was read but its normal form is not a key |
| Classifier.FailuresBecomeError | streamlit_app.py:33-41 | a raised call, missing choices, an empty choice list, a missing message or missing content all give "error" |
| Classifier.ReplyIdentified | streamlit_app.py:38-39 | a reply whose normal form is a key is identified as that key |
| Classifier.PaddedAnswerAccepted | streamlit_app.py:38-39 | an answer equal to a key up to surrounding whitespace and letter case is identified as exactly that key |
| Classifier.PvcNeverIdentified | streamlit_app.py:15 | no outcome of the call is ever identified as "PVC", and no row ever gets the PVC factor 2.9 |
| Classifier.PvcAnswerIsUnknown | streamlit_app.py:38-39 | the answer "PVC", as spelled in the prompt's list, is identified as "unknown" |
| Classifier.LowerPvcAnswerIsUnknown | streamlit_app.py:38-39 | the answer "pvc" is identified as "unknown" |
| Classifier.TitaniumIsUnknown | streamlit_app.py:39 | an answer outside the table, "titanium", is identified as "unknown" |
| Classifier.StripAluminium | streamlit_app.py:38 | the answer "Aluminium" has no surrounding whitespace to strip |
| Classifier.LowerAluminium | streamlit_app.py:38 | "Aluminium" lower-cases to the key "aluminium" |
| Classifier.StripTeak | streamlit_app.py:38 | " teak\n" strips to "teak" |
| Classifier.LowerTeak | streamlit_app.py:38 | "teak" is unchanged by lower-casing |
| Aggregation.Sum | streamlit_app.py:60-61 | `Series.sum()`: an empty column sums to 0, a single row to its value, and a column with no negative value to a non-negative total |
| Aggregation.SumConcat | streamlit_app.py:60-61 | the sum of two blocks of rows is the sum of their sums |
| Aggregation.SumPermutation | streamlit_app.py:60-61 | a column sum does not depend on the order of the rows |
| Aggregation.Summarize | streamlit_app.py:60-62 | the totals are the column sums divided by 1000; the specific GWP times the total weight is the total GWP when the weight is not 0, and 0 when it is 0; an empty sheet gives 0, 0, 0 |
| Aggregation.SummarizeOrderIndependent | streamlit_app.py:60-62 | reordering the rows leaves the three totals unchanged |
| Aggregation.QuotientWithin | streamlit_app.py:62 | a non-negative total GWP at most `bound` times a positive weight gives a ratio in [0, bound] |
| Aggregation.SpecificGwpWithin | streamlit_app.py:60-62 | when the total GWP lies between 0 and `bound` times a non-negative total weight, the specific GWP lies in [0, bound] |
| Pipeline.Labels | streamlit_app.py:56 | the material column has one label per description, each the classifier's label for that row's own description |
| Pipeline.Factors | streamlit_app.py:57 | the factor column has one factor per label, each the lookup of that row's label |
| Pipeline.RowGwp | streamlit_app.py:58 | a row whose factor is 0 has GWP 0, whatever its weight |
| Pipeline.Products | streamlit_app.py:58 | the GWP column has one entry per row, each that row's weight times its factor |
| Pipeline.WithResults | streamlit_app.py:56-58 | after the three assignments the sheet has exactly its old columns plus the three result names; each result column holds exactly the values assigned, and every other column is unchanged |
| Pipeline.WithResultsKeeps | streamlit_app.py:56-58 | assigning three full-height result columns keeps every other column and the sheet's shape, and adds exactly those three names |
| Pipeline.Run | streamlit_app.py:52-62 | the analysis fails, with the one error message, exactly when the description or the weight column is missing; otherwise its totals are those of the weight column and of the new GWP column |
| Pipeline.RunComputes | streamlit_app.py:52-62 | with both columns present, the analysis is the sheet with the three result columns computed from its descriptions and weights, plus their totals |
| Pipeline.RunKeepsColumns | streamlit_app.py:56-58 | a completed analysis keeps every column other than the three result columns, adds or replaces those three, and keeps every column as long as the sheet |
| Pipeline.RunAnnotatesEveryRow | streamlit_app.py:56-58 | every row gets, in order, the label of its own description, that label's factor, and its weight times that factor |
| Pipeline.WithResultsTwice | streamlit_app.py:56-58 | assigning the same result columns twice is assigning them once |
| Pipeline.RerunIsStable | streamlit_app.py:52-62 | analysing the annotated sheet again with the same classifier reproduces the sheet and its totals exactly |
| Pipeline.ProductBounded | streamlit_app.py:58 | a non-negative weight times a table factor lies between 0 and 20 times the weight |
| Pipeline.SumOfProductsBounded | streamlit_app.py:58-61 | with non-negative weights, the GWP column sums to between 0 and 20 times the total weight |
| Pipeline.GwpColumnIsProduct | streamlit_app.py:56-58 | the GWP column of a completed analysis is the row-by-row product of the weights and the factors of the identified materials |
| Pipeline.GwpColumnBounded | streamlit_app.py:57-61 | with non-negative weights, the total GWP lies between 0 and 20 times the total weight |
| Pipeline.SummaryWithin | streamlit_app.py:60-62 | totals whose GWP lies between 0 and 20 times a non-negative weight give a specific GWP in [0, 20] |
| Pipeline.SpecificGwpBounded | streamlit_app.py:57-62 | with non-negative weights, the specific GWP of a completed analysis lies between 0 and 20 |
| Pipeline.EmptySheet | streamlit_app.py:60-62 | a sheet with both columns and no rows completes with totals 0, 0 and 0 |
| Pipeline.MissingDescriptionFails | streamlit_app.py:52-53 | a sheet without a description column fails with the message, and produces no result columns or totals |
| Pipeline.MastLabel | streamlit_app.py:38-39 | the reply "Aluminium" is identified as "aluminium" |
| Pipeline.DeckLabel | streamlit_app.py:38-39 | the reply " teak\n" is identified as "teak" |
| Pipeline.TwoLabels | streamlit_app.py:56 | the material column of two descriptions is their two labels, in order |
| Pipeline.MastAndDeckLabels | streamlit_app.py:56 | the descriptions "aluminium mast" and "teak deck" are labelled aluminium and teak |
| Pipeline.MastAndDeckProducts | streamlit_app.py:57-58 | aluminium and teak look up to 9.16 and 0.21, and 100 kg and 50 kg of them give 916 and 10.5 kg CO2eq |
| Pipeline.MastAndDeckSummary | streamlit_app.py:60-62 | those rows total 0.15 t and 0.9265 t CO2eq, with specific GWP 0.9265 / 0.15 |
| Pipeline.MastAndDeck | streamlit_app.py:52-62 | the whole analysis of that two-row sheet: its material and GWP columns and its totals |
| Pipeline.UnrecognisedAnswerRow | streamlit_app.py:56-58 | a row whose answer normalises to no key (so `identify_material` returns "unknown" at line 39) keeps its place, labelled "unknown", with factor 0 and GWP 0 |
| Pipeline.FailedCallRow | streamlit_app.py:56-58 | a row whose call raises (so `identify_material` returns "error" at lines 40-41) keeps its place, labelled "error", with factor 0 and GWP 0, and the analysis still completes |
| Sheet.Appended | streamlit_app.py:56-58 | assigning a column keeps an existing column in place and adds a new one at the end, and no other name appears or disappears |
| Sheet.AppendedDistinct | streamlit_app.py:56-58 | assigning a column never duplicates a column name |
| Sheet.ApplyIdentify | streamlit_app.py:56 | the loop calls the classifier once per description, in row order, and yields exactly `Labels` |
| Sheet.ApplyLookup | streamlit_app.py:57 | the loop looks up every label, in row order, and yields exactly `Factors` |
| Sheet.MultiplyColumns | streamlit_app.py:58 | the loop multiplies the two columns row by row and yields exactly `Products` |
| Sheet.DataFrame.constructor | streamlit_app.py:49 | the frame holds the sheet as read |
| Sheet.DataFrame.SetColumn | streamlit_app.py:56-58 | assigning a column replaces or adds exactly that column, places its name as `Appended` says, and keeps the frame well formed |
| Sheet.DataFrame.Analyze | streamlit_app.py:52-62 | a failed column check leaves the frame untouched and reports the message; otherwise the frame ends with exactly the cells `Run` computes, the three result columns in assignment order, and the totals `Run` computes |

## Left out

- The chat-completion call itself (lines 34-37): the prompt text, the model name and the transport are not modelled. The call is an oracle from the description to its outcome. Because the oracle is a function, two rows with the same description get the same answer; a real model may answer them differently.
- The API key read from the Streamlit secrets (line 6): configuration with no effect on the analysis.
- The Streamlit user interface (lines 44-50 and 64-73): the title, the upload widget, the preview, the spinner, the messages, the results table and the download button are I/O. The model starts from the sheet as read and ends with the frame and the totals that are shown.
- Reading and writing Excel (lines 49 and 73): the sheet arrives as named columns of equal height, in the form `pd.read_excel` would give.
- Floating point: weights, factors, products and totals are exact reals. Rounding of the float arithmetic and the `:.2f` formatting of the report (lines 68-70) are not modelled.
- Classifier.LowerChar: only A-Z and the Kelvin sign are lower-cased. Every other character is kept, whereas Python also lower-cases other letters. The identified label is unaffected, because every table key is plain ASCII and no other character lower-cases to ASCII.
- Pipeline.WellFormed: the description column is assumed to hold text and the weight column numbers. Cells of other types, and empty cells (NaN), are not modelled. With them, the source would pass non-text to the prompt; a blank weight cell would give a NaN row GWP at line 58, and `Series.sum()` skips NaN by default, so that row would drop out of both totals at lines 60-61.
- Sheet.DataFrame: the row count is fixed when the frame is built, since no step of the analysis adds or removes rows. The pandas index is not modelled.
- Concurrency and the order of the remote calls in time are not modelled; `apply` calls the classifier once per row, in row order.
