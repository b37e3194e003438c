# A verified model of the CSV-to-DuckDB preparation pipeline

The repository prepares a delimited CSV export for loading into DuckDB in
three steps. This project models each step in Dafny and proves what it does.

1. **Column names** (`uprava_nazvu.py`, module `NameCleanup`).
   - Every header token is lower-cased and its Czech letters are transliterated.
   - Spaces, dots, dashes, brackets, slashes and the unit suffixes `(kc)` and `(h)` are deleted.
   - The two colliding names `index` and `key2` are renamed to `ix` and `neco`.
2. **Schema builder** (`tvurce_sql.py`, class `SqlCreator.TvurceSQL`).
   - At most 1001 rows are sampled.
   - Every cell is classified as null, date, timestamp, decimal, integer or varchar (`ValueTypes`).
   - Dates are tried against fourteen `strptime` layouts in order (`DateParse`).
   - Each column's type is the most frequent tag, with the decimal and null-mode rules on top (`ColumnTypes`).
   - The schema is rendered as a `create or replace table` statement.
3. **Data fixer** (`opravar_dat.py`, class `DataFixer.OpravarDat`).
   - The statement is parsed back into `[name, type, …]` entries.
   - The decimal columns and the date/timestamp columns are selected by type prefix.
   - Decimal cells are rewritten in place from `,` to `.`.
   - Date cells are rewritten in place from `dd.mm.yyyy[ HH:MM:SS]` to `yyyy-mm-dd HH:MM:SS`.
   - The normalised header is put back in front of the rows.

`CreateRoundTrip` proves the contract between the two scripts. Parse the statement the schema builder writes and select by prefix: exactly the columns it declared decimal are found, and likewise exactly the columns it declared date or timestamp.

How the model is shaped:
- The steps that change the scripts' objects are methods of the classes `TvurceSQL` and `OpravarDat`, whose fields are the scripts' lists. The loops are `for`/`while` loops with invariants. Each method is proved against a specification function.
- Classification, resolution, name cleanup, `strptime` and `oprav_datum` are functions. Lemmas state their rules.
- Python exceptions (`IndexError`, `ValueError`) become `None`, `Err` or `ok == false`.
- I/O becomes parameters: the rows the csv reader yields, and the content of the statement file.
- Python's `str` operations used by the source are modelled in `Text`: `strip`, `split` on one character, `replace`, `startswith` and `count`.

## Model

| member | source | states |
|---|---|---|
| NameCleanup.ZjistiNazvySloupcu | uprava_nazvu.py:8-37 | one output name per header token, index-aligned: output i is the normalised form of token i |
| NameCleanup.UpravNazevRules | uprava_nazvu.py:11-35 | "index" becomes "ix", "key2" becomes "neco", every other name is the cleaned token unchanged |
| NameCleanup.UpravNazev | uprava_nazvu.py:11-35 | the name is never "index" or "key2": the two colliding names never survive |
| NameCleanup.LowerChar | uprava_nazvu.py:13 | the result is never a capital; a character changes exactly when it is a capital; accented small letters are kept |
| NameCleanup.Lower | uprava_nazvu.py:13 | lower-casing works character by character and keeps the length |
| NameCleanup.PlainChar | uprava_nazvu.py:14-20 | the result is never accented; a character changes exactly when it is one of the twelve accented letters |
| NameCleanup.Transliterate | uprava_nazvu.py:14-20 | transliteration works position by position and keeps the length |
| NameCleanup.DropSubset | uprava_nazvu.py:21-33 | the deletion stages never introduce a character |
| NameCleanup.SeparatorsGone | uprava_nazvu.py:22-24 | after the first three deletions no space, dot or dash is left |
| NameCleanup.BracketsGone | uprava_nazvu.py:27-32 | after the bracket deletions none of ( ) / \ [ ] is left |
| NameCleanup.CleanedIsClean | uprava_nazvu.py:13-33 | the cleaned name holds no forbidden character, no capital and no accented letter |
| NameCleanup.UpravNazevIsClean | uprava_nazvu.py:13-35 | no output name holds a space, one of . - ( ) / \ [ ], a capital or an accented letter |
| NameCleanup.UpravNazevNoNewline | uprava_nazvu.py:13-35 | a token without a line break gives a name without one |
| NameCleanup.ReplacementsClean | uprava_nazvu.py:11 | the replacements "ix" and "neco" are clean names |
| NameCleanup.CleanIsFixed | uprava_nazvu.py:13-33 | every step of the chain leaves a clean name unchanged |
| NameCleanup.UpravNazevIdempotent | uprava_nazvu.py:13-35 | normalising a normalised name gives the same name |
| NameCleanup.IxFixed | uprava_nazvu.py:34-35 | "ix" is not a key of the collision table, so it stays |
| NameCleanup.IndexRenamed | uprava_nazvu.py:11-35 | "Index" becomes "ix" |
| NameCleanup.NoDeduplication | uprava_nazvu.py:10-37 | two different tokens can give the same name; nothing deduplicates them |
| NameCleanup.DeleteUnit | uprava_nazvu.py:21-28 | a word followed by " (kc)" or " (h)" loses the suffix with its contents |
| NameCleanup.DeleteBracketed | uprava_nazvu.py:21-32 | any other bracketed part only loses its brackets: "w (u)" becomes "wu" |
| NameCleanup.CenaKc | uprava_nazvu.py:13-35 | "Cena (Kč)" becomes "cena" |
| NameCleanup.DobaH | uprava_nazvu.py:13-35 | "Doba (h)" becomes "doba" |
| NameCleanup.CenaEur | uprava_nazvu.py:13-35 | "Cena (EUR)" becomes "cenaeur" |
| DateParse.DaysInMonth | tvurce_sql.py:90 | every month has 28 to 31 days (leap years give February 29) |
| DateParse.Candidates | tvurce_sql.py:90 | each way a directive can match takes at most the rest of the input |
| DateParse.Strptime | tvurce_sql.py:90 | strptime succeeds only with a calendar-valid datetime |
| DateParse.FirstParse | tvurce_sql.py:88-94 | None exactly when no layout parses; otherwise the result of the first layout that parses, all earlier ones failing |
| DateParse.PretypujDatum | tvurce_sql.py:68-94 | success yields a valid datetime |
| DateParse.PretypujDatumAccepts | tvurce_sql.py:88-92 | a token with nothing to strip is accepted once any of the fourteen layouts parses it |
| DateParse.Pad2 | opravar_dat.py:116 | two digits that read back as the number |
| DateParse.Pad4 | opravar_dat.py:116 | four digits that read back as the year |
| DateFacts.StrptimeDayFirstDateTime | opravar_dat.py:115 | "%d.%m.%Y %H:%M:%S" parses the day-first text of every valid datetime back to that datetime |
| DateFacts.StrptimeDayFirstDate | opravar_dat.py:119 | "%d.%m.%Y" parses the day-first date of every valid datetime back to that day at midnight |
| DateFacts.StrptimeIsoDate | tvurce_sql.py:81 | "%Y-%m-%d" parses the ISO date of every valid datetime back to that day at midnight |
| DateFacts.StrptimeShortDate | opravar_dat.py:119 | a one-digit day and month are accepted by "%d.%m.%Y" |
| DateFacts.DayFirstRejectsYearFirst | tvurce_sql.py:72-78 | a day-first layout rejects every text that starts with four digits |
| DateFacts.IsoNotDayFirst | opravar_dat.py:115-116 | "%d.%m.%Y %H:%M:%S" rejects every text in the form "%Y-%m-%d %H:%M:%S" |
| DateFacts.StrptimeCountsSeparators | tvurce_sql.py:72-81 | a numeric layout that parses a text has as many of each separator as the text |
| DateFacts.TimestampSeparators | opravar_dat.py:115 | a text "%d.%m.%Y %H:%M:%S" accepts has two dots and two colons |
| DateFacts.DateSeparators | opravar_dat.py:119 | a text "%d.%m.%Y" accepts has two dots |
| ValueTypes.ZjistiTypHodnotyRules | tvurce_sql.py:96-131 | the condition for each tag: null exactly for "" and "0"; a colon-free token with two dots is date if it parses, never decimal; a token with a colon is timestamp if it parses; otherwise a dot or comma gives decimal if it parses; otherwise integer if int() accepts it; anything else varchar |
| ValueTypes.ZjistiTypHodnoty | tvurce_sql.py:96-131 | the tag of one cell, the first of the five rules that applies deciding; its contract is ZjistiTypHodnotyRules and the rule lemmas below |
| ValueTypes.IsIntText | tvurce_sql.py:125-130 | every text int() accepts is also accepted by Decimal() |
| ValueTypes.IsDecimalText | tvurce_sql.py:119-124 | Decimal() rejects blank text and a sign with nothing after it |
| ValueTypes.IntegerRule | tvurce_sql.py:125-128 | a token other than "0" with no dot, comma or colon that int() accepts is integer |
| ValueTypes.DecimalRule | tvurce_sql.py:119-122 | a token with a comma and neither a dot nor a colon is decimal when Decimal() accepts it with the comma read as the point |
| ValueTypes.VarcharRule | tvurce_sql.py:125-130 | a token other than "" and "0" with no dot, comma or colon that int() rejects is varchar |
| ValueTypes.IntegerExample | tvurce_sql.py:125-128 | "15" is integer |
| ValueTypes.VarcharExample | tvurce_sql.py:125-130 | "abc" is varchar |
| ValueTypes.DecimalTextExample | tvurce_sql.py:121 | Decimal("12.5") succeeds |
| ValueTypes.DecimalCommaExample | tvurce_sql.py:119-122 | "12,5" is decimal |
| ValueTypes.DayFirstDateIsDate | tvurce_sql.py:105-109 | every date strftime("%d.%m.%Y") writes is typed date |
| ValueTypes.DayFirstDateTimeIsTimestamp | tvurce_sql.py:112-116 | every datetime strftime("%d.%m.%Y %H:%M:%S") writes is typed timestamp |
| ValueTypes.IsoDateIsVarchar | tvurce_sql.py:101-130 | every ISO date "%Y-%m-%d" is accepted by pretypuj_datum, yet typed varchar: it has no dot and no colon, so the date rules never see it, and int() rejects it |
| ColumnTypes.ModeIndex | tvurce_sql.py:161 | the index of a most frequent tag, and every earlier tag is strictly less frequent |
| ColumnTypes.MostCommon | tvurce_sql.py:161 | most_common(1)[0][0] is a tag that occurs in the column |
| ColumnTypes.MostCommonRules | tvurce_sql.py:161 | most_common(1) gives a tag of the column of the highest count, the one seen first among equally frequent tags |
| ColumnTypes.TagPrefixes | tvurce_sql.py:165-169 | only "decimal(18, 3)" starts with "decimal", only "varchar" with "varchar", only "date" with "date", only "timestamp" with "timestamp" |
| ColumnTypes.ResolveRules | tvurce_sql.py:158-177 | decimal exactly when a cell is decimal; a null-mode column is varchar exactly when a cell is varchar, else integer; otherwise the mode; never null |
| ColumnTypes.Resolve | tvurce_sql.py:161-177 | the declared type of a column is never null |
| SqlCreator.MinWidth | tvurce_sql.py:155 | the length of the shortest row |
| SqlCreator.Columns | tvurce_sql.py:155 | zip(*typy) gives one tuple per column of the shortest row, each as long as the number of rows |
| SqlCreator.ColumnsTranspose | tvurce_sql.py:155 | tuple j holds the j-th tag of row i at position i |
| SqlCreator.Declarations | tvurce_sql.py:155-177 | one declared type per tuple |
| SqlCreator.DeclarationsRules | tvurce_sql.py:158-177 | no column is declared null; a column is declared decimal exactly when one of its cells is decimal |
| SqlCreator.OneDeclarationPerColumn | tvurce_sql.py:141-177 | with rows as wide as the first, deklarace gets exactly one entry per column |
| SqlCreator.ColumnLines | tvurce_sql.py:184-186 | one "    name type" line per pair of zip(data_nazvy, deklarace); the shorter list bounds them |
| SqlCreator.BodyStep | tvurce_sql.py:185-190 | the body is each line followed by ",\n", the last one by "\n" |
| SqlCreator.EmptyCreateText | tvurce_sql.py:183-191 | with no columns the statement is "create or replace table T (\n);" |
| SqlCreator.CreateText | tvurce_sql.py:183-191 | the statement starts with "create or replace table T (" and a line break, and ends with ");" |
| SqlCreator.Sample | tvurce_sql.py:54-58 | the data rows of the sample are rows 1 to min(n − 1, 1000) of the n rows read, in order |
| SqlCreator.TvurceSQL.constructor | tvurce_sql.py:32-43 | the table name from the configuration; every list empty |
| SqlCreator.TvurceSQL.NactiData | tvurce_sql.py:45-62 | the rows read are appended, at most 1001 of them (the header and 1000 data rows) |
| SqlCreator.TvurceSQL.RozdelData | tvurce_sql.py:64-66 | the first row becomes the header and is removed from the data; an empty list raises IndexError (ok false) |
| SqlCreator.TvurceSQL.ZjistiTypySloupcu | tvurce_sql.py:133-148 | nothing is done for empty data or an empty first row; otherwise typy becomes a radky × sloupce matrix, sloupce the width of the first row, with typy[i][j] the tag of data[i][j]; a narrower row raises IndexError (ok false) |
| SqlCreator.TvurceSQL.VytvorStatistikuDatovychTypu | tvurce_sql.py:150-177 | deklarace gains the declared type of every column, in order |
| SqlCreator.TvurceSQL.UlozData | tvurce_sql.py:179-191 | the text written is the CREATE statement of the table, the names and the declarations |
| SqlCreator.TvurceSQL.Run | tvurce_sql.py:197-210 | from a fresh object: nothing is written exactly when no row is read or a sampled row is narrower than the first data row; otherwise the header is the first row, the data the sample, typy the tag of every sampled cell, deklarace the declarations of typy, and the statement uses the table name and the normalised header names |
| DataFixer.OpravDatum | opravar_dat.py:106-121 | None exactly for ""; an error exactly when the layout the colon chooses does not parse the value |
| DataFixer.OpravDatumWrites | opravar_dat.py:114-121 | every text written is "%Y-%m-%d %H:%M:%S" of a valid datetime |
| DataFixer.OpravDatumDateTime | opravar_dat.py:114-116 | "d.m.Y H:M:S" becomes "Y-m-d H:M:S" of the same moment |
| DataFixer.OpravDatumDate | opravar_dat.py:117-120 | "d.m.Y" becomes "Y-m-d 00:00:00" of the same day |
| DataFixer.OpravDatumShortDate | opravar_dat.py:117-120 | one-digit days and months are accepted and padded |
| DataFixer.OpravDatumShortExample | opravar_dat.py:117-120 | "1.1.2024" becomes "2024-01-01 00:00:00" |
| DataFixer.OpravDatumRejectsIso | opravar_dat.py:114-116 | the form written is rejected on input |
| DataFixer.OpravDatumNotIdempotent | opravar_dat.py:114-121 | oprav_datum of its own output is an error, so the rewrite can run only once per cell |
| DataFixer.OpravDatumSeparators | opravar_dat.py:114-121 | an accepted value has two dots and either no colon or two |
| DataFixer.OpravDatumRejectsColons | opravar_dat.py:114-121 | a value whose colon count is neither 0 nor 2 is an error |
| DataFixer.OpravDatumRejectsMinutes | opravar_dat.py:114-116 | "31.12.2024 10:00" is an error |
| DataFixer.ParseLine | opravar_dat.py:84-85 | the line without its four-space indents, split at single spaces; ParseColumnLine states what it gives for a column line |
| DataFixer.InnerLines | opravar_dat.py:82-83 | one line fewer than the line breaks (none without any), none holding a line break |
| DataFixer.ParseCreate | opravar_dat.py:79-86 | one entry per line strictly between the first and the last |
| DataFixer.ZjistiSloupcePodleTypu | opravar_dat.py:92-98 | strictly increasing indices below the number of entries; i is included exactly when entry i's second part starts with a given prefix; IndexError exactly when there is a prefix and some entry has fewer than two parts |
| DataFixer.RewriteColumn | opravar_dat.py:102-104 | succeeds exactly when every row has the cell and it can be rewritten; row r becomes row r with cell i rewritten |
| DataFixer.RewriteColumnsCellwise | opravar_dat.py:100-104 | on distinct columns: success exactly when every listed cell can be rewritten; each listed cell is rewritten from its old value, every other cell and the row count stay |
| DataFixer.SeparatorPass | opravar_dat.py:100-104 | each decimal cell becomes its text with "," turned into ".", of the same length and without a comma; every other cell stays |
| DataFixer.SeparatorPassIdempotent | opravar_dat.py:100-104 | a second vymen_oddelovace succeeds and changes nothing |
| DataFixer.DatePass | opravar_dat.py:123-127 | succeeds exactly when every date cell is accepted by oprav_datum; each becomes oprav_datum of its old text, None for ""; every other cell stays |
| DataFixer.RewriteColumns | opravar_dat.py:100-127 | a successful rewrite keeps the number of rows |
| DataFixer.DecimalNotDate | opravar_dat.py:97 | a type that starts with "decimal" starts neither with "date" nor with "timestamp" |
| DataFixer.SelectionsDisjoint | opravar_dat.py:177-178 | no column is selected both by ["decimal"] and by ["date", "timestamp"] |
| DataFixer.PassesCells | opravar_dat.py:177-180 | after both passes each cell of a decimal column is its old text with "," turned into ".", each cell of a date column what oprav_datum writes for its old text, and every other cell is as it was; rows keep their number and lengths |
| DataFixer.ZkontrolujData | opravar_dat.py:61-67 | the set of distinct row lengths; IndexError exactly for no rows |
| DataFixer.UniformIff | opravar_dat.py:66 | all rows have the same length exactly when the set has one element |
| DataFixer.OpravarDat.constructor | opravar_dat.py:29-46 | every list and the statement text start empty |
| DataFixer.OpravarDat.NactiData | opravar_dat.py:48-59 | every row read is appended in order |
| DataFixer.OpravarDat.NactiPrikazCreate | opravar_dat.py:69-77 | the statement is the file's content; a missing file leaves it as it was |
| DataFixer.OpravarDat.ZpracujPrikazCreate | opravar_dat.py:79-86 | sloupce_a_typy is the parse of the statement |
| DataFixer.OpravarDat.RozdelData | opravar_dat.py:88-90 | the first row becomes the header and is removed; an empty list raises IndexError (ok false) |
| DataFixer.OpravarDat.RewriteColumnInPlace | opravar_dat.py:103-127 | the in-place loop over the rows gives RewriteColumn of the old data |
| DataFixer.OpravarDat.RewriteInPlace | opravar_dat.py:100-127 | the nested in-place loops give RewriteColumns of the old data |
| DataFixer.OpravarDat.VymenOddelovace | opravar_dat.py:100-104 | the data becomes the separator rewrite of the meritka columns; nothing else changes |
| DataFixer.OpravarDat.VymenOraveneDatum | opravar_dat.py:123-127 | the data becomes the date rewrite of the datumy columns; nothing else changes |
| DataFixer.OpravarDat.SjednotDataAHlavicku | opravar_dat.py:129-131 | the normalised header goes in front of the rows, whose order is kept |
| DataFixer.OpravarDat.Run | opravar_dat.py:163-181 | from empty data: nothing is returned exactly when no row is read or a selection or a rewrite raises; otherwise the statement is the file's content (or the old text when the file is missing), sloupce_a_typy its parse, meritka and datumy the column selections, and the result the normalised header followed by both passes over the data rows read; one row per row read |
| CreateRoundTrip.CreateLines | tvurce_sql.py:183-191 | the inner lines of the statement are the column lines, each but the last with its comma |
| CreateRoundTrip.ParseColumnLine | opravar_dat.py:84-85 | a column line parses to the name followed by the type split at its spaces |
| CreateRoundTrip.TypeWordPrefixes | opravar_dat.py:97 | the second part starts with "decimal", "date" or "timestamp" exactly when the column is declared so |
| CreateRoundTrip.ParsedColumns | opravar_dat.py:79-86 | the statement parses to one entry per column, name first |
| CreateRoundTrip.DecimalColumnsFound | opravar_dat.py:177 | zjisti_sloupce_podle_typu(["decimal"]) on the statement finds exactly the columns declared decimal(18, 3) |
| CreateRoundTrip.DateColumnsFound | opravar_dat.py:178 | zjisti_sloupce_podle_typu(["date", "timestamp"]) finds exactly the columns declared date or timestamp |
| CreateRoundTrip.SchemaRoundTrip | tvurce_sql.py:207 | with the normalised header as names, every column of the statement is read back, name and type |

## Left out

- File I/O, `csv.reader`/`csv.writer`, `logging`, `print` and the `importlib` configuration. Rows, the statement file's content and the table name are parameters.
- `uloz_data` of opravar_dat.py (it writes rows through `csv.writer`). The fields `cesta`, `vstup`, `vystup`, `oddelovac`, `uvozovky`, `con`, `cur`, `retezec` and `hodnoty` are not read by any modelled step.
- importer_dat.py and vyberci_dat.py: DuckDB, pandas and openpyxl calls with no logic of their own.
- DataFixer.OpravarDat.RewriteInPlace: after a failing cell, the rows already rewritten in place are not described. The source raises there and the script stops.
- DataFixer.OpravarDat.RewriteColumnInPlace: same as RewriteInPlace.
- DataFixer.OpravarDat.Run: it starts from an empty `data` list, as the fresh object in main() does.
- SqlCreator.TvurceSQL.Run: it starts from empty `data`, `typy` and `deklarace` lists, as the fresh object in main() does.
- SqlCreator.TvurceSQL.ZjistiTypySloupcu: when a row narrower than the first raises IndexError, only the shape of the matrix is stated, not which cells were filled before the raise. The "" placeholder the matrix starts with is modelled as the tag Null.
- DateParse.Pad4: `%Y` is written zero-padded to four digits. Some C libraries do not pad years below 1000.
- `%b`/`%B` are matched against the English month names of the C locale, ASCII case-insensitively. Other locales are not modelled.
- `_strptime` matches the digits of `%d`, `%m`, `%y`, `%Y`, `%H`, `%M` and `%S` with `\d`, which takes any Unicode decimal digit. The model takes ASCII digits only, so "30.06.٢٠٢٥" parses in Python and not in the model.
- `int()` on Python 3.11 and later raises for a text of more than 4300 digits, so such a token is varchar there; the model has no length limit and types it integer.
- `int()` and `Decimal()` are modelled on a grammar: surrounding whitespace, an optional sign, ASCII digits, one dot, an exponent, and Infinity/NaN. Underscores between digits and non-ASCII digits are not accepted by the model.
- `str.lower()` covers ASCII and the twelve Czech capitals only. `str.isspace()` covers the characters Python treats as whitespace; no other Unicode property is modelled.
- oprav_datum is sometimes described as a repair that may be repeated. In the code it cannot be: it rejects its own output, so each date-column cell can be rewritten only once. The model follows the code; OpravDatumNotIdempotent states it.
- ValueTypes.ZjistiTypHodnotyRules has no lemmas for the single-token examples "1.2.3", "10:00", "31.12.2024 10:00:00" and "10.05.2024". Their classification follows from the rules together with what `PretypujDatum` says about those tokens. "12,5", "15", "abc", day-first dates and datetimes, and ISO dates have their own lemmas.
- ValueTypes.ZjistiTypHodnoty and DataFixer.ParseLine carry no contract of their own; the lemmas beside them state what they compute. Keeping those facts in lemmas keeps the proofs that use the two functions small.
