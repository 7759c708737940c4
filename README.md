# fauldier, modelled in Dafny

fauldier turns life-cycle inventory (LCI) workbooks into Brightway input
sheets. Each inventory sheet lists flows: a FLOW NAME, a marker column
(PRODUCTS, INPUTS, EMISSIONS, ...), ORIGIN, UNIT, QUANTITY and DESCRIPTION.
The pipeline does the following:

- `process_dataframe` turns by-products into negative inputs and collects
  the product names.
- The per-sheet loop of `x2bw.py` maps every sheet by one of two routes.
  - The rule route renames flows by fixed name rules (and by the ecoinvent
    3.10 names when that version is set) and converts units by substance.
  - The language-model route sends every row that is not an internal
    activity to a language model as a numbered list. It reads the numbered
    answer back into one mapping per row, splits each mapping into name,
    ORIGIN, UNIT and QUANTITY, and recombines the result with the product
    row and the internal activities.
  - Both routes then set amount, unit, categories, location, type and
    database.
- `description_to_bw_input_sheet` and `merge_sheets` lay the sheets out in
  the Brightway template.
- `helper.py` reads the `key=value` configuration file. It saves an entered
  value back into that file. It compares the rows before and after the
  language-model mapping.

The model has one Dafny module per source file, plus two support modules:

- `Wrappers` holds `Option`, `Result` and the Python exceptions the code can
  raise.
- `Text` models the Python string operations the code relies on:
  - `strip`, `lower` (ASCII) and `splitlines`;
  - `split`, `replace` and `in`;
  - `int` and `float` on plain decimal text.
- `CanonicalNames` holds the canonical flow names split into short pieces,
  with the facts the name rules need about their characters.

In-place work on a DataFrame is modelled on arrays of `Entry` rows, with one
method per pass. Each pass is specified row by row, through a function of
the old row. The loops of `read_config`, `compare_results`, the answer
parser of `prompt_LLM`, `combine_filtered_entries`, `process_dataframe`,
`merge_sheets` and the configuration save step are methods with loop
invariants. Each is proved equal to a specification function, and the
properties are proved about those functions.

Behaviour of the source that the model reproduces as written:

- The methanol milliliter branch multiplies by a density that
  `check_and_convert_methanol` never binds. That row raises `NameError`.
- The figure that `compare_results` prints as the "Simplified mapping rate"
  is the share of rows that are *not* 'Equal'.
- On the language-model route, the rows the model returns have no marker
  and no DESCRIPTION.

## Model

| member | source | states |
|---|---|---|
| BasicMapping.SelectIsFirstMatch | fauldier/basic_mapping.py:20-50 | `np.select` over the seven name conditions gives the choice of the first condition that matches, and the name itself when none does |
| BasicMapping.CommonNameIdempotent | fauldier/basic_mapping.py:20-50 | mapping common names twice is mapping them once: no canonical name matches any rule |
| BasicMapping.CommonNameEarlierRuleWins | fauldier/basic_mapping.py:21-24 | a name matching both the '#electricity' and the heat condition gets the electricity name |
| BasicMapping.MapCommonNames | fauldier/basic_mapping.py:9-52 | every row's name becomes its common name, and nothing else changes |
| BasicMapping.Ecoinvent310Names | fauldier/basic_mapping.py:55-80 | every row's name gets the four ecoinvent 3.10 replacements, in order, and nothing else changes |
| BasicMapping.Ecoinvent310Unchanged | fauldier/basic_mapping.py:66-78 | a name holding none of the four patterns is left as it is |
| BasicMapping.Ecoinvent310AceticAcid | fauldier/basic_mapping.py:76-78 | the acetic acid market name gains the ", without water, in 98% solution state" suffix |
| BasicMapping.Ecoinvent310NotIdempotent | fauldier/basic_mapping.py:76-78 | applying the 3.10 names twice appends that suffix twice |
| BasicMapping.MapUnit | fauldier/basic_mapping.py:116-145 | the nine abbreviations map to their full names; every other unit is returned unchanged |
| BasicMapping.MapUnitIdempotent | fauldier/basic_mapping.py:116-145 | mapping a unit twice is mapping it once |
| BasicMapping.ConvertHeat | fauldier/basic_mapping.py:148-158 | a heat, heating or cooling row in kilowatt hours becomes megajoules times 3.6; any other row is unchanged |
| BasicMapping.ConvertNaturalGas | fauldier/basic_mapping.py:161-168 | a natural gas row in kilograms becomes cubic meters divided by 0.735; any other row is unchanged |
| BasicMapping.ConvertWasteWater | fauldier/basic_mapping.py:171-178 | a waste water row in kilograms becomes cubic meters divided by 998; any other row is unchanged |
| BasicMapping.ConvertWater | fauldier/basic_mapping.py:181-197 | an ultrapure water row in liters, milliliters or mmol becomes kilograms by the matching factor; any other row is unchanged |
| BasicMapping.ConvertMethanol | fauldier/basic_mapping.py:216-229 | a methanol row in milliliters raises NameError; one in liters becomes kilograms by the density; any other row is unchanged |
| BasicMapping.ConvertSolvent | fauldier/basic_mapping.py:200-310 | each of the six solvent converters turns milliliters or liters of its solvent into kilograms by its density, and leaves other rows unchanged |
| BasicMapping.Convert | fauldier/basic_mapping.py:95-105 | one converter on one row raises exactly in the methanol milliliter case, and then NameError |
| BasicMapping.ConvertNoOp | fauldier/basic_mapping.py:148-310 | a converter whose condition does not hold leaves the row as it is |
| BasicMapping.ConvertFires | fauldier/basic_mapping.py:148-310 | a converter whose condition holds sets the target unit and multiplies the amount by its factor |
| BasicMapping.ChainOutputsNotReconverted | fauldier/basic_mapping.py:95-105 | no converter's output unit is an input unit of a later converter |
| BasicMapping.ChainIsFirstFiring | fauldier/basic_mapping.py:95-105 | the eleven passes together change a row by at most one converter, the first whose condition holds |
| BasicMapping.FirstFiringKeepsName | fauldier/basic_mapping.py:95-105 | the conversion never changes the name, and a row it changes gets a new unit |
| BasicMapping.HeatInKilowattHours | fauldier/basic_mapping.py:148-158 | heat in kilowatt hours leaves the chain as megajoules times 3.6 |
| BasicMapping.NaturalGasInKilograms | fauldier/basic_mapping.py:161-168 | natural gas in kilograms leaves the chain as cubic meters divided by 0.735 |
| BasicMapping.MethanolMilliliterRaises | fauldier/basic_mapping.py:219-224 | a methanol row in milliliters that no earlier converter changes makes `unit_conversion` raise NameError |
| BasicMapping.MethanolIsNotEthanol | fauldier/basic_mapping.py:200-203 | the whole-word ethanol pattern does not fire on "methanol" |
| BasicMapping.UnitConversion | fauldier/basic_mapping.py:83-113 | the table fails exactly when some row's conversion raises, and then with NameError; otherwise every row is converted, and a 'chemical factory, organics' row then gets the unit "unit" |
| BasicMapping.SetCategoryToAir | fauldier/basic_mapping.py:312-326 | rows whose name contains either CO2 name, in any case, get categories 'air'; other rows are unchanged |
| BasicMapping.SetCategoryFromLocation | fauldier/basic_mapping.py:329-347 | rows whose ORIGIN holds a compartment word as a whole word take ORIGIN as categories; other rows are unchanged |
| BasicMapping.ResolvedLocationRules | fauldier/basic_mapping.py:350-381 | the resolved location is never empty; natural gas and wastewater get 'Europe without Switzerland'; cooling and chemical factory get 'GLO'; otherwise EU, EUR and blanks become RER and any other location is kept |
| BasicMapping.SetLocation | fauldier/basic_mapping.py:350-381 | every row's location becomes its resolved location, and nothing else changes |
| BasicMapping.EntryType | fauldier/basic_mapping.py:394-409 | the type is 'production' exactly for PRODUCTS rows, else 'biosphere' exactly for water, air, natural or soil categories, else 'technosphere' |
| BasicMapping.NonEnvironmentalCategoryIsTechnosphere | fauldier/basic_mapping.py:394-409 | a non-product row with no categories, or with 'inventory' or 'economic', is technosphere |
| BasicMapping.SetType | fauldier/basic_mapping.py:384-411 | every row's type becomes its `EntryType`, and nothing else changes |
| BasicMapping.DetermineDatabase | fauldier/basic_mapping.py:414-433 | biosphere rows go to 'biosphere3', technosphere rows to the background database, production rows to the activity database, and any other type to None |
| BasicMapping.DatabaseOfEveryType | fauldier/basic_mapping.py:394-433 | every type `set_type` assigns has a database |
| Processing.AnnexIndex | fauldier/processing.py:18-21 | the position of the first "ANNEX" entry, or the length when there is none |
| Processing.FilteredEntriesMembers | fauldier/processing.py:17-25 | an entry is kept exactly when it occurs before the first "ANNEX" and is not excluded; "ANNEX" itself never is |
| Processing.CombineFilteredEntries | fauldier/processing.py:6-25 | the loop returns the entries before "ANNEX", as strings, in order, without the excluded ones |
| Processing.SetAtNeedsKey | fauldier/processing.py:94-95 | writing a cell by label fails exactly when reading that label fails |
| Processing.ProcessDataframe | fauldier/processing.py:76-101 | the loop over the rows gives the specified frame and product list, or the specified error |
| Processing.ProcessWithoutMarker | fauldier/processing.py:88-101 | with no 'no avoided burden' row (or at most one PRODUCTS row), every row stays, each PRODUCTS row after the first becomes an INPUTS row with negated quantity, and every product's FLOW NAME is appended in order |
| Processing.ProcessWithMarker | fauldier/processing.py:88-101 | with a 'no avoided burden' row, reading any row's key gives KeyError for a marker row, the negated row for a PRODUCTS row after the second one, and the unchanged row for every other row (INPUTS, EMISSIONS, the first and second PRODUCTS rows); no marker row is left and the product names are collected in order |
| Processing.ByProductWithMarkerRaises | fauldier/processing.py:93-99 | a second PRODUCTS row that itself carries the marker is dropped before its FLOW NAME is read, which raises KeyError |
| Processing.SetCell | fauldier/processing.py:177-196 | one positional write changes exactly that cell |
| Processing.FillHeader | fauldier/processing.py:177-196 | column 1 of rows 0, 1, 4-9 and 12 takes the database, process name, description, location and unit; every other cell is the template's |
| Processing.DescriptionToBwInputSheet | fauldier/processing.py:155-207 | it succeeds exactly when both sheets exist, the inventory sheet has a row, the description has a value column and both labels, and the template has 13 rows and 2 columns; a missing sheet or label raises KeyError, an empty sheet, a description without a value column or a template too small raises IndexError, in statement order; on success the filled template, cut to 15 rows, is stored under the sheet name and no other entry changes |
| Processing.OutputRow | fauldier/processing.py:229-230 | a transformed row from 'name' onward has the thirteen output columns |
| Processing.OutputRows | fauldier/processing.py:229-230 | one output row per entry |
| Processing.NoMergeError | fauldier/processing.py:226-238 | when no sheet is missing, every named sheet has its entries and its template |
| Processing.MergeSheets | fauldier/processing.py:210-257 | a missing sheet raises KeyError and a template of another width raises ValueError; otherwise the result is the first whole template, then each later template without its first three rows, each followed by its sheet's entries; no sheet gives None |
| Processing.MergeErrorPersists | fauldier/processing.py:226-238 | an error met at some sheet is the error of the whole merge |
| Processing.MergedShape | fauldier/processing.py:240-255 | the merged grid has as many rows as the parts together, every row has the output width, and it starts with the first template and its entries |
| Processing.MergedHasFirst | fauldier/processing.py:240-245 | the merged grid is at least as long as the first template plus its entries |
| LlmMapping.FirstProductIndex | fauldier/llm_mapping.py:26-29 | the first row whose marker contains PRODUCTS in any case, or none |
| LlmMapping.KeepPartitions | fauldier/llm_mapping.py:34-40 | the internal activities and the other rows together are the sheet, as a multiset |
| LlmMapping.KeepMembers | fauldier/llm_mapping.py:34-40 | a row is selected exactly when it is in the sheet and on the selected side of `isin(product_list)` |
| LlmMapping.TransformDataForLlm | fauldier/llm_mapping.py:26-48 | one input line per row sent to the model, formatted as `name \| ORIGIN  \| UNIT \| QUANTITY` |
| LlmMapping.TransformPartitions | fauldier/llm_mapping.py:26-48 | internal activities and remaining rows split the sheet; the product row is the first PRODUCTS row, and it is sent to the model unless its name is a product |
| LlmMapping.Bullets | fauldier/llm_mapping.py:64-65 | one "- " line per activity or biosphere flow |
| LlmMapping.NumberedLines | fauldier/llm_mapping.py:66 | one numbered line per input |
| LlmMapping.BulletedLines | fauldier/llm_mapping.py:64-65 | each bulleted list reads back, line by line, as its bullets |
| LlmMapping.NumberedLinesRead | fauldier/llm_mapping.py:66 | the numbered input text splits back into its numbered lines |
| LlmMapping.ParseLine | fauldier/llm_mapping.py:167-174 | a line without a '.' gives nothing; otherwise the line is cut at its first '.', and it gives an entry exactly when the stripped text before the cut reads as an integer, the entry being that integer minus one and the stripped text after the cut |
| LlmMapping.RecordLine | fauldier/llm_mapping.py:167-174 | one iteration assigns the line's entry into the dictionary, and a line without a '.' leaves it as it was |
| LlmMapping.LineEntryReads | fauldier/llm_mapping.py:167-174 | every line's entry is what its first '.' cut gives, as stated for `ParseLine` |
| LlmMapping.LineEntryCut | fauldier/llm_mapping.py:167-174 | the entry of a line is that of its text before and after the first '.', and nothing when there is no '.' |
| LlmMapping.NumberedLineEntry | fauldier/llm_mapping.py:167-174 | a line "n.rest" gives index n - 1 and the stripped rest |
| LlmMapping.ParseResponse | fauldier/llm_mapping.py:165-176 | the loop records every line's entry and returns, per input, the recorded text unless it is missing or "unknown" |
| LlmMapping.LineEntryStripped | fauldier/llm_mapping.py:172 | every recorded text is stripped |
| LlmMapping.FoldKeys | fauldier/llm_mapping.py:166-174 | an index has a result exactly when some line numbers it |
| LlmMapping.LastEntryWins | fauldier/llm_mapping.py:166-174 | the result for an index is the text of the last line that numbers it |
| LlmMapping.ResolvedNeverUnknown | fauldier/llm_mapping.py:175-176 | no returned mapping reads "unknown" unless the input it stands for does |
| LlmMapping.OutOfRangeIgnored | fauldier/llm_mapping.py:175-176 | lines numbered outside 1..n change nothing in the returned list |
| LlmMapping.NumberedResults | fauldier/llm_mapping.py:165-174 | the numbered input lines, read as an answer, give each input stripped, at its own index |
| LlmMapping.EchoedInputsRoundTrip | fauldier/llm_mapping.py:165-176 | an answer that repeats the numbered inputs maps each input to itself stripped, except that an input reading "unknown" is returned as it was |
| LlmMapping.EmptyMappingKept | fauldier/llm_mapping.py:167-176 | an answer line "n." with only blanks after it maps the n-th input to the empty text, which is kept |
| LlmMapping.Fields | fauldier/llm_mapping.py:193-197 | a mapping always gives four text fields |
| LlmMapping.Padded4 | fauldier/llm_mapping.py:196 | the first four parts, with missing ones filled with "" |
| LlmMapping.SplitLlmResults | fauldier/llm_mapping.py:193-208 | the table succeeds exactly when every quantity parses, and then has one row per mapping; otherwise ValueError |
| LlmMapping.UnknownResultRaises | fauldier/llm_mapping.py:193-208 | a mapping reading "unknown" makes the split raise ValueError |
| LlmMapping.SingleFieldPadded | fauldier/llm_mapping.py:193-208 | a mapping without " \| " becomes the name alone, with empty ORIGIN and UNIT and quantity 0.0 |
| LlmMapping.FourFieldsSplit | fauldier/llm_mapping.py:196 | four fields joined by " \| " read back as the same four when none holds '\|' |
| LlmMapping.FallbackLineSplitsBack | fauldier/llm_mapping.py:193-208 | an input line that comes back unmapped splits into its own name, unit and quantity, but its ORIGIN gains a trailing blank |
| Helper.ReadConfig | fauldier/helper.py:19-28 | the loop over the lines gives the specified dictionary, or the ValueError of a line without '=' |
| Helper.ConfigErrIff | fauldier/helper.py:23-27 | reading fails exactly when some line is neither blank, a comment, nor holds '=' |
| Helper.ConfigKeys | fauldier/helper.py:23-27 | a key is in the dictionary exactly when some line sets it |
| Helper.ConfigLastWins | fauldier/helper.py:23-27 | a key holds the value of the last line that sets it |
| Helper.IsMissingIff | fauldier/helper.py:114-115 | a value is missing exactly when it is None or all white space |
| Helper.FirstStarting | fauldier/helper.py:146-147 | the first line that starts with `key=`, or none |
| Helper.UpsertConfigLine | fauldier/helper.py:145-152 | the loop replaces the first `key=` line by `key=value` and a newline, or appends that line when there is none |
| Helper.SaveConfigValue | fauldier/helper.py:130-152 | an empty entered value raises RuntimeError before anything is written; otherwise its stripped text is saved |
| Helper.ConfigLineRead | fauldier/helper.py:148 | a saved line reads back as its key and value when the key is plain |
| Helper.ConfigLineStarts | fauldier/helper.py:147-148 | a saved line starts with `key=` |
| Helper.UpsertIdempotent | fauldier/helper.py:145-152 | saving the same value twice leaves the file as saving it once |
| Helper.SavedValueAppended | fauldier/helper.py:151-152 | when no line starts with `key=`, the file reads back as before with the key set to the value |
| Helper.SavedValueReplaced | fauldier/helper.py:146-150 | when the first `key=` line is replaced and no later line sets the key, the key reads back as the value |
| Helper.Normalized | fauldier/helper.py:52-53 | one stripped, lower-cased name per column |
| Helper.Coerced | fauldier/helper.py:42-43 | the QUANTITY cells are coerced and no other cell changes shape |
| Helper.IndexOfDistinct | fauldier/helper.py:56-57 | in distinct column names, a column is found at its own position |
| Helper.Verdicts | fauldier/helper.py:90-99 | one verdict per row |
| Helper.CountEqual | fauldier/helper.py:102 | the number of 'Equal' rows is at most the number of rows |
| Helper.CountEqualAll | fauldier/helper.py:102-103 | every row is counted exactly when every verdict is 'Equal' |
| Helper.Percentage | fauldier/helper.py:104 | the rate lies between 0 and 100, and is 0 exactly when the counted part is empty |
| Helper.StatisticsFigures | fauldier/helper.py:102-110 | equal and unequal rows add up to all rows; the rate is missing exactly with no rows and is 0 exactly when every row is 'Equal' |
| Helper.CompareRows | fauldier/helper.py:90-99 | the column-by-column loop gives each row 'Equal' exactly when every column agrees |
| Helper.CompareResults | fauldier/helper.py:31-111 | without QUANTITY it raises KeyError; otherwise both tables have QUANTITY coerced and their columns normalised in place, and the result is the comparison of the new tables |
| Helper.IdenticalTablesEqual | fauldier/helper.py:60-110 | a non-empty table compared with itself, under a reflexive cell equality, is all 'Equal' with rate 0 |
| Helper.RowMatchesConverse | fauldier/helper.py:91-98 | under a symmetric cell equality, a row matches the other exactly when the other matches it |
| Helper.CompareSymmetric | fauldier/helper.py:56-104 | under a symmetric cell equality, comparing the tables either way round gives the same result |
| X2bw.Assign | fauldier/x2bw.py:133 | a whole-column assignment changes every row by the same function and nothing else |
| X2bw.Finish | fauldier/x2bw.py:150-181 | the passes from clearing the database to the uncertainty columns give every row its finished form |
| X2bw.FinishedColumns | fauldier/x2bw.py:150-181 | a finished row has a type, a non-empty location and the database of its type; it is production exactly when it is a PRODUCTS row; only categories, location, type, database and uncertainty change |
| X2bw.FinishedCategories | fauldier/x2bw.py:153-161 | a compartment-naming ORIGIN sets the categories over the CO2 rule, which applies only on the rule route; otherwise there are none |
| X2bw.Rename | fauldier/x2bw.py:132-144 | amount from QUANTITY, then the common names, the 3.10 names when that version is set, and the unit mapping |
| X2bw.RuleRoute | fauldier/x2bw.py:132-181 | the rule route fails exactly when some row has no FLOW NAME, with AttributeError from the heat pass's `lower()`, or when some row's unit conversion raises, with NameError; otherwise it maps every row by the rule-route row function |
| X2bw.ConversionKeepsRow | fauldier/basic_mapping.py:83-113 | the unit conversion changes at most the unit and the amount of a row |
| X2bw.RuleRowColumns | fauldier/x2bw.py:132-181 | on the rule route a row keeps its sheet columns and its renamed name; its categories come from a compartment ORIGIN first and the CO2 rule second; its database is that of its type |
| X2bw.KeepFirstSound | fauldier/x2bw.py:124-126 | every kept row is the first row of its key |
| X2bw.KeepFirstComplete | fauldier/x2bw.py:124-126 | the first row of every key is kept |
| X2bw.KeepFirstUnseen | fauldier/x2bw.py:124-126 | no kept row repeats a key already seen |
| X2bw.KeepFirstDistinct | fauldier/x2bw.py:124-126 | no two kept rows share a key |
| X2bw.DropDuplicatesKeepsFirst | fauldier/x2bw.py:124-126 | `drop_duplicates()` keeps exactly the first row of every key, and no two kept rows share one |
| X2bw.FirstWithKey | fauldier/x2bw.py:124-126 | the first row with the key of a given row |
| X2bw.RecombinedRows | fauldier/x2bw.py:124-126 | the recombined table has a row for every product, mapped and internal row's key, only rows from those three parts, and no key twice |
| X2bw.Measure | fauldier/x2bw.py:133-144 | amount from QUANTITY and unit from UNIT on every row |
| X2bw.LlmRows | fauldier/x2bw.py:132-181 | one finished row per recombined row |
| X2bw.LlmRoute | fauldier/x2bw.py:103-181 | the language-model route: the ValueError of a quantity that does not parse, or the recombined rows, finished |
| X2bw.LlmRowColumns | fauldier/x2bw.py:132-181 | on the language-model route no rule renames a row, the CO2 rule does not apply, and the database is that of the type |
| X2bw.TransformSheet | fauldier/x2bw.py:95-184 | the name is taken from FLOW NAME; then the sheet follows the language-model route or the rule route, as the settings say; on the rule route a missing FLOW NAME raises AttributeError ahead of any NameError of the conversion |
| Text.FindSpec | fauldier/llm_mapping.py:168-169 | the first occurrence of a pattern, or none when it does not occur |
| Text.StripEmptyIff | fauldier/helper.py:115 | a text strips to "" exactly when it is all white space |
| Text.StripIdempotent | fauldier/helper.py:24 | stripping twice is stripping once |
| Text.JoinSplitOn | fauldier/llm_mapping.py:196 | splitting at a separator and joining with it gives back the text |
| Text.ReplaceIsJoinOfSplit | fauldier/basic_mapping.py:67-78 | `s.replace(a, b)` is `b.join(s.split(a))` |
| Text.LinesOfJoin | fauldier/llm_mapping.py:165 | lines joined by newlines split back into the same lines |
| Text.ParseIntOfNat | fauldier/llm_mapping.py:171 | `int(str(n))` is `n` |
| Text.ParseDecimalLetter | fauldier/llm_mapping.py:205-208 | a text that starts with a letter is not a number |

## Left out

- I/O is left out of every core file: the workbook, configuration and output files, `display` and `print`, and the interactive prompts (`input`, `getpass`, and the yes/no answer to saving). File contents are passed as lines, and entered text as a parameter.
- The request to the language model in `prompt_LLM` is not modelled. Its stripped answer text is a parameter (`X2bw.Route.answer`), and the prompt text built around the three lists is not part of this model.
- The `thermo` densities and the water molar mass are foreign calls. They are a `Thermo` parameter of the conversions.
- Floating point is modelled by exact reals. The rounding to 5 decimals and the `np.isclose` tolerance in `compare_results` are not modelled.
- Python's text of a float (`str(quantity)` inside the input lines) is a parameter `fmt`. `float` is modelled on plain decimal text only, without exponents, `inf` or `nan`.
- `lower` and the case-insensitive matches fold ASCII letters only. There is no Unicode case folding and no NFKC normalisation.
- The whole-word tests (`\b` at basic_mapping.py lines 203 and 343) take word characters to be ASCII letters, digits and `_`. Python's `\w` also counts non-ASCII letters and digits, so a name with one of those next to a keyword can match in the model and not in the source.
- `Helper.CompareResults`:
  - Cell equality and numeric detection are abstracted as one per-column predicate `same`, and numeric coercion as `toNumeric`.
  - Both tables must be distinct objects, because the source mutates both and aliasing is not modelled.
  - Duplicate column names are out of scope: the source's behaviour there (a TypeError for a duplicate QUANTITY) is not modelled.
  - The missing-value loop at lines 46-49 has no effect on the tables and is omitted.
  - The rate is a real; its printing with `:.0f` is I/O.
- `X2bw.TransformSheet` does not model the `compare_results` call on the language-model route. It only displays and prints. It compares the same four columns and as many rows on both sides.
- `X2bw.Named`: a missing FLOW NAME is the text "nan", as f-strings render it. On the rule route this text is never used, because such a sheet raises AttributeError (modelled). On the language-model route pandas keeps NaN in the product row and the internal activities, and `isin` treats NaN as equal to NaN. A product list entry that is None therefore does not match a "nan" name in the model.
- `X2bw.KeyOf`: `drop_duplicates` compares the sheet columns the model has. Extra spreadsheet columns that no core code reads are not modelled.
- `Processing.ProcessDataframe`: when the marker row drops rows and `df.at` then writes a label that no longer exists, pandas enlarges the frame with a new row. The model returns `EnlargedFrame` there instead of modelling the enlarged frame.
- `LlmMapping.Columns`: the "unknown" branch of `split_LLM_results` is modelled, but a mapping can only read "unknown" when the input line did. Input lines always hold " | ", so that branch is unreachable from `prompt_LLM`.
- `Helper.IsMissing`: values are strings or None, as `read_config` produces. Other Python types are not modelled.
- `Helper.SavedValueReplaced`: the read-back holds only when no later line sets the same key. A later duplicate line still shadows the saved value, as in the source.
- `Helper.SavedValueAppended`: the read-back assumes the file's last line ends with a newline, as `readlines` gives. A last line without one would be joined with the appended line in the file; the model keeps the lines separate.
