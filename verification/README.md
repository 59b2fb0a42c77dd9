# Trusted-layer cleaning rules of the dealership ETL

This project models the five "trusted" scripts of the dealership ETL
(`src/etl/scripts/1-trusted/*.py`). Each script reads one raw table and
cleans it with polars expressions before writing it out. The model states
every cleaning step as a pure function over a table, and proves what the
steps promise.

A table is a sequence of rows. A row maps column names to cells, and a cell
is either a value (text, number, boolean or date) or missing, which is
polars' null. A column that a row does not carry reads as missing.

The model follows the polars semantics that the scripts rely on:

- A comparison with a missing cell is never true, so
  `when(...).then(...).otherwise(...)` sends a missing input to `otherwise`.
- `replace` leaves unmapped values and missing cells as they are.
- `is_duplicated` and `unique` treat missing cells as equal to each other.
- `min_horizontal` skips missing dates.
- All the expressions of one `with_columns` call read the table as it was
  before that call.
- A strict `strptime` or `cast` either converts every cell of its column or
  fails the whole script. This is modelled as a `Result` whose failure
  names the column.

Each script is modelled as `Trusted(Names, t)`, where `Names` holds the
script's column names. The composition proofs are stated for any `Columns`
record satisfying `Separate`, which says that no column the script writes
is one it later reads. `NamesSeparate` proves that the script's own names
satisfy it.

Files:

- `wrappers.dfy`: `Option` and `Result`.
- `text.dfy`: decimal digits, the strict integer cast, substring search,
  ASCII lower-casing and string order.
- `dates.dfy`: calendar dates; the `%Y-%m-%d`, `%d/%m/%Y` and `%Y` layouts
  with their printers; the earliest of three dates.
- `frame.dfy`: cells, rows and tables, plus `with_columns`, `rename`,
  `drop` and strict column conversion.
- `strptime.dfy`: one strict date column conversion per layout.
- `lookup.dfy`: `replace` with a dictionary, and idempotence and
  injectivity of a dictionary.
- `rules.dfy`: the branch-code fix, zeroing when the quantity is 0, and
  the sign fix.
- `grouping.dfy`: the per-order sum joined back onto every row.
- `duplicates.dfy`: the duplicate flags, and `unique(subset=...)`.
- `naming.dfy`: the `_Ajustado` column names.
- `tempo_no_estoque.dfy`: the time-in-stock classification table.
- One module per script: `estoque_pecas.dfy`, `estoque_veiculos.dfy`,
  `historico_servicos.dfy`, `historico_venda_pecas.dfy` and
  `historico_venda_veiculos.dfy`.

## Model

| member | source | states |
|---|---|---|
| EstoquePecas.PadronizarCategoriasIsIdentity | src/etl/scripts/1-trusted/estoque-pecas-trusted.py:31-33 | The category table is empty, so standardising a column with it returns every category unchanged, on every row. |
| EstoquePecas.ObsoleteFlag | src/etl/scripts/1-trusted/estoque-pecas-trusted.py:60-66 | The obsolete flag is true exactly when the raw text is "True". Any other present text ("true", "False", "") gives false, and a missing cell stays missing. |
| EstoquePecas.ParseDates | src/etl/scripts/1-trusted/estoque-pecas-trusted.py:43-56 | Parsing both date columns fails exactly when some present cell is not a `%Y-%m-%d` date. Otherwise each cell holds the date its text prints as, and every other column is unchanged. |
| EstoquePecas.Trusted | src/etl/scripts/1-trusted/estoque-pecas-trusted.py:43-77 | Among the modelled conversions, the script fails exactly when a date does not parse. Otherwise it keeps the row count, and on every row it parses both dates and sets the obsolete flag. The revised value is 0 when the quantity is 0 and equals the stock value otherwise. Every column it does not parse or compute, the stock value and quantity included, keeps its raw cells. |
| Dates.ParseIso | src/etl/scripts/1-trusted/estoque-pecas-trusted.py:43-49 | A string accepted as `%Y-%m-%d` is exactly the printed form of the valid date returned (year, month and day as written). |
| Dates.IsoExact | src/etl/scripts/1-trusted/estoque-pecas-trusted.py:50-56 | `%Y-%m-%d` accepts a string and returns `d` if and only if `d` is a valid four-digit-year date that prints as that string. |
| Dates.IsoRoundTrip | src/etl/scripts/1-trusted/historico-venda-pecas-trusted.py:75-77 | Every valid date with a four-digit year, printed as `%Y-%m-%d`, parses back to itself. |
| Dates.ParseDayFirst | src/etl/scripts/1-trusted/estoque-veiculos-trusted.py:90-94 | A string accepted as `%d/%m/%Y` is exactly the printed form of the valid date returned. |
| Dates.DayFirstRoundTrip | src/etl/scripts/1-trusted/estoque-veiculos-trusted.py:96-106 | Every printable date, printed as `%d/%m/%Y`, parses back to itself. |
| Dates.ParseYear | src/etl/scripts/1-trusted/estoque-veiculos-trusted.py:75-79 | `%Y` accepts only four digits, giving the first of January of the year they print. |
| Dates.YearRoundTrip | src/etl/scripts/1-trusted/estoque-veiculos-trusted.py:84-88 | A printed four-digit year parses back to the first of January of that year. |
| Dates.Earliest | src/etl/scripts/1-trusted/estoque-veiculos-trusted.py:121-127 | The minimum of three optional dates is one of them, is on or before every present one, and is missing only when all three are missing. |
| Strptime.ParseIsoColumn | src/etl/scripts/1-trusted/historico-servicos-trusted.py:83-85 | A strict `%Y-%m-%d` column conversion fails exactly when some present cell is not such a date. Otherwise a missing cell stays missing, a text becomes the date it spells, and other columns are unchanged. |
| Strptime.ParseDayFirstColumn | src/etl/scripts/1-trusted/historico-venda-veiculos-trusted.py:151 | The same as `ParseIsoColumn`, for `%d/%m/%Y`. |
| Frame.WithColumn | src/etl/scripts/1-trusted/estoque-pecas-trusted.py:70-77 | `with_columns` keeps the row count, writes the computed cell into its column, and leaves every other column of every row unchanged. |
| Frame.ParseColumn | src/etl/scripts/1-trusted/estoque-veiculos-trusted.py:102-106 | A strict conversion fails, naming the column, exactly when some cell cannot be converted. Otherwise every cell is replaced by its conversion and nothing else changes. |
| Frame.RenameColumn | src/etl/scripts/1-trusted/historico-venda-veiculos-trusted.py:106 | After a rename, the new column holds the old column's cells, the old name is gone, and every other column is unchanged. |
| Frame.DropColumn | src/etl/scripts/1-trusted/historico-venda-veiculos-trusted.py:182 | After a drop, the column is gone from every row and every other column is unchanged. |
| Text.OccursIff | src/etl/scripts/1-trusted/historico-venda-veiculos-trusted.py:97 | The substring scan finds the pattern if and only if the pattern appears at some position of the text. |
| Text.ParseFormatInt | src/etl/scripts/1-trusted/historico-venda-veiculos-trusted.py:176-178 | Every integer that fits in the given number of digits, printed with a minus sign when negative, is read back by the strict integer cast as itself. |
| Text.ParseIntAccepts | src/etl/scripts/1-trusted/historico-venda-veiculos-trusted.py:177 | The integer cast accepts only a digit string, optionally after a minus sign, and those digits print the magnitude of the value read. |
| Lookup.ReplaceTwiceIff | src/etl/scripts/1-trusted/historico-venda-pecas-trusted.py:111-115 | Replacing twice equals replacing once on every cell if and only if every label that is also a key maps to itself. |
| Lookup.ReplaceColumn | src/etl/scripts/1-trusted/historico-servicos-trusted.py:102-106 | The aliased column holds the replaced source cell on every row, and every other column, the source included, is unchanged. |
| Rules.RemapBranchCleans | src/etl/scripts/1-trusted/historico-venda-pecas-trusted.py:118-124 | After the fix no bad code survives, fixing again changes nothing, and the fix changes a cell exactly when it held a bad code. |
| Rules.Absolute | src/etl/scripts/1-trusted/historico-servicos-trusted.py:138-143 | The result is never negative, is missing exactly when the input is, is the number or its negation, and equals the input when that is not negative. |
| Rules.AbsoluteTwice | src/etl/scripts/1-trusted/historico-venda-veiculos-trusted.py:186-191 | The sign fix is idempotent. |
| TempoNoEstoque.ClassTempoKeys | src/etl/scripts/1-trusted/estoque-veiculos-trusted.py:33-45 | The classification table has exactly eight keys, the eight time-in-stock buckets. |
| TempoNoEstoque.ClassTempoLabels | src/etl/scripts/1-trusted/estoque-veiculos-trusted.py:34-43 | Bucket number k, counting from 1 in duration order, is labelled "k - bucket". |
| TempoNoEstoque.ClassTempoInjective | src/etl/scripts/1-trusted/estoque-veiculos-trusted.py:35-42 | No two buckets share a label. |
| TempoNoEstoque.LabelsSortByDuration | src/etl/scripts/1-trusted/estoque-veiculos-trusted.py:33-43 | One label sorts before another as a string exactly when its bucket is the shorter duration. |
| TempoNoEstoque.ClassTempoIdempotent | src/etl/scripts/1-trusted/estoque-veiculos-trusted.py:111-114 | No label is itself a key, so the table is idempotent. |
| TempoNoEstoque.ClassifyTwice | src/etl/scripts/1-trusted/estoque-veiculos-trusted.py:112-116 | Classifying a cell twice equals classifying it once, and unmapped values pass through. |
| EstoqueVeiculos.ParseYearColumn | src/etl/scripts/1-trusted/estoque-veiculos-trusted.py:72-79 | The year parse fails exactly when some cell other than "0" and missing is not four digits. Otherwise "0" and missing become missing, each other year becomes the first of January of that year, and other columns are unchanged. |
| EstoqueVeiculos.ParseAll | src/etl/scripts/1-trusted/estoque-veiculos-trusted.py:72-106 | The five strict parses fail exactly when some row has a bad year or entry date. Otherwise every row has both years and all three entry dates parsed, and the time in stock is unchanged. |
| EstoqueVeiculos.EarliestEntry | src/etl/scripts/1-trusted/estoque-veiculos-trusted.py:119-127 | The updated entry date is one of the three entry dates and on or before each present one. It is missing only when all three are missing. |
| EstoqueVeiculos.Derive | src/etl/scripts/1-trusted/estoque-veiculos-trusted.py:111-127 | On every row the classification is the classified time in stock, and the updated entry is the earliest entry date. No other column changes. |
| EstoqueVeiculos.Trusted | src/etl/scripts/1-trusted/estoque-veiculos-trusted.py:72-127 | Among the modelled conversions, the script fails exactly when some row has a bad year or entry date. Otherwise it keeps the row count, and every row is parsed, classified and given its earliest entry date. Every column it does not parse or compute keeps its raw cells. |
| EstoqueVeiculos.ColumnsInSchema | src/etl/scripts/1-trusted/estoque-veiculos-trusted.py:129-130 | Once lower-cased, both derived column names, and every column the script parses, are keys of the trusted schema. |
| Grouping.GroupSums | src/etl/scripts/1-trusted/historico-servicos-trusted.py:110-112 | The group-by has an entry for every key present, holding the sum of the amounts over the rows with that key. |
| Grouping.WithGroupTotal | src/etl/scripts/1-trusted/historico-servicos-trusted.py:110-113 | The left join keeps the row count. A row with a present order number gets that order's sum, and rows sharing an order number share the total. A row with a missing order number gets a missing total, and no other column changes. |
| HistoricoServicos.CategoriaServicoCanonical | src/etl/scripts/1-trusted/historico-servicos-trusted.py:46-71 | Every key of the service-category table maps to one of the thirteen canonical names. |
| HistoricoServicos.CategoriaServicoIdempotent | src/etl/scripts/1-trusted/historico-servicos-trusted.py:47-69 | Each canonical name is either not a key or a key that maps to itself, so the table is idempotent. |
| HistoricoServicos.StandardiseTwice | src/etl/scripts/1-trusted/historico-servicos-trusted.py:102-106 | Standardising a category twice equals standardising it once. |
| HistoricoServicos.FreeRevisionCategories | src/etl/scripts/1-trusted/historico-servicos-trusted.py:58 | The standardised category is "REVISÃO GRATUITA" exactly when the raw one is "REVISAO GRATUITA" or already "REVISÃO GRATUITA". |
| HistoricoServicos.FreeRevision | src/etl/scripts/1-trusted/historico-servicos-trusted.py:126-134 | A free revision with a positive amount gets 0, and every other row keeps its amount. A free revision's adjusted amount is never positive. |
| HistoricoServicos.RawFreeRevisionZeroed | src/etl/scripts/1-trusted/historico-servicos-trusted.py:127-131 | The rule reads the standardised category, so a raw "REVISAO GRATUITA" row with a positive amount is zeroed too. |
| HistoricoServicos.Standardise | src/etl/scripts/1-trusted/historico-servicos-trusted.py:102-113 | Each row gets its standardised category, and the total of its service order over the input table, or a missing total when its order number is missing. No other column changes. |
| HistoricoServicos.Fix | src/etl/scripts/1-trusted/historico-servicos-trusted.py:117-143 | Each row gets its fixed branch code, its free-revision amount and its absolute hours. No other column changes. |
| HistoricoServicos.Trusted | src/etl/scripts/1-trusted/historico-servicos-trusted.py:83-143 | Among the modelled conversions, the script fails exactly when a service date does not parse. Otherwise it keeps the row count, and every row has its date parsed and all five derived columns computed from the raw table. Every column it does not parse or write keeps its raw cells. |
| Duplicates.FlagDuplicatedRows | src/etl/scripts/1-trusted/historico-venda-veiculos-trusted.py:76-78 | The full-duplicate flag of a row is true exactly when another row holds the same cell in every column, with missing equal to missing. No other column changes. |
| Duplicates.DuplicatedRowIff | src/etl/scripts/1-trusted/historico-venda-veiculos-trusted.py:76-78 | Comparing the columns the two rows carry is the same as comparing every column, so a full duplicate is a row with another row that reads alike everywhere. |
| Duplicates.AbsentIsMissing | src/etl/scripts/1-trusted/historico-venda-veiculos-trusted.py:76-78 | A row that lacks a column and a row that holds it as missing are full duplicates of each other. |
| Duplicates.FlagDuplicatedOn | src/etl/scripts/1-trusted/historico-venda-veiculos-trusted.py:80-82 | The partial-duplicate flag of a row is true exactly when another row agrees with it on every listed column, with missing equal to missing. |
| Duplicates.FullImpliesPartial | src/etl/scripts/1-trusted/historico-venda-veiculos-trusted.py:76-82 | A full duplicate is a duplicate on any column list. |
| Duplicates.Unique | src/etl/scripts/1-trusted/historico-venda-pecas-trusted.py:107 | The output is no longer than the input, and each output row is an input row. Every input row agrees with some output row on the subset, and no two output rows agree there. |
| Duplicates.UniqueOfDistinct | src/etl/scripts/1-trusted/historico-venda-pecas-trusted.py:87-106 | A table whose rows already differ on the subset is left exactly as it is. |
| Duplicates.UniqueTwice | src/etl/scripts/1-trusted/historico-venda-pecas-trusted.py:86-107 | De-duplicating the output again removes nothing. |
| Naming.AjustadoInjective | src/etl/scripts/1-trusted/historico-venda-pecas-trusted.py:140 | Two columns have the same `_Ajustado` name exactly when they are the same column. |
| Naming.AdjustedNamesDistinct | src/etl/scripts/1-trusted/historico-venda-pecas-trusted.py:128-133 | Distinct columns have distinct adjusted names, so the expressions of one `with_columns` never write the same column. |
| HistoricoVendaPecas.CategoriasPadraoCanonical | src/etl/scripts/1-trusted/historico-venda-pecas-trusted.py:31-63 | Every key of the parts-category table maps to one of the seven canonical names. |
| HistoricoVendaPecas.CategoriasPadraoIdempotent | src/etl/scripts/1-trusted/historico-venda-pecas-trusted.py:32-61 | Each canonical name is either not a key or maps to itself, so the table is idempotent. |
| HistoricoVendaPecas.StandardiseTwice | src/etl/scripts/1-trusted/historico-venda-pecas-trusted.py:110-115 | Standardising a part category twice equals standardising it once. |
| HistoricoVendaPecas.TrailingSpaceMatters | src/etl/scripts/1-trusted/historico-venda-pecas-trusted.py:50 | The lookup matches the exact text: "GM-PECAS ORIG. " with its trailing space is mapped, and the same code without the space is left unchanged. |
| HistoricoVendaPecas.ZeroUpdates | src/etl/scripts/1-trusted/historico-venda-pecas-trusted.py:135-143 | On one row, each adjusted amount is 0 when the quantity is 0 and its own amount otherwise, read from the row as it was. No other column changes. |
| HistoricoVendaPecas.ZeroColumns | src/etl/scripts/1-trusted/historico-venda-pecas-trusted.py:127-143 | On every row, each of the four adjusted amounts is 0 when the quantity is 0 and equals its source amount otherwise. Every column that is not an adjusted name, the four source amounts included, is unchanged. |
| HistoricoVendaPecas.Finish | src/etl/scripts/1-trusted/historico-venda-pecas-trusted.py:110-143 | Each row gets its standardised category, its fixed branch code and the four adjusted amounts, and the source amounts are unchanged. |
| HistoricoVendaPecas.Trusted | src/etl/scripts/1-trusted/historico-venda-pecas-trusted.py:75-143 | Among the modelled conversions, the script fails exactly when a sale date does not parse. Otherwise the output is no longer than the input and no two output rows agree on the 18 subset columns. Every output row is made, by every rule, from one input row, whose every unwritten column it carries, compared or not. Every input row is matched by an output row. |
| HistoricoVendaVeiculos.DateLikeBranchesOnly | src/etl/scripts/1-trusted/historico-venda-veiculos-trusted.py:34-42 | The branch becomes "0-1-1" exactly when it is "01/01/2002", "01/01/2003" (or already "0-1-1"), and is kept otherwise. "1-1-3" is kept. |
| HistoricoVendaVeiculos.StatusOf | src/etl/scripts/1-trusted/historico-venda-veiculos-trusted.py:84-91 | Exactly one status applies: DUPLICADO for a full duplicate, DUPLICADO PARCIALMENTE for a partial but not full duplicate, OK otherwise. |
| HistoricoVendaVeiculos.StatusOfTable | src/etl/scripts/1-trusted/historico-venda-veiculos-trusted.py:76-91 | On the flagged table a row is OK exactly when no other row agrees with it on the subset. It is a partial duplicate exactly when one does but none is equal in full. |
| HistoricoVendaVeiculos.ShiftFlagIff | src/etl/scripts/1-trusted/historico-venda-veiculos-trusted.py:95-102 | A row is flagged as shifted exactly when the chassis number occurs at some position of its stock-days text. Otherwise it is OK. |
| HistoricoVendaVeiculos.AdjustedDaysValue | src/etl/scripts/1-trusted/historico-venda-veiculos-trusted.py:140-191 | When the integer cast succeeds, a shifted row ends with 0 days. A present count ends as its absolute value and a missing one stays missing, so no count is negative. |
| HistoricoVendaVeiculos.Difference | src/etl/scripts/1-trusted/historico-venda-veiculos-trusted.py:195-199 | The recalculated profit plus the cost is the sale value. It is missing exactly when either operand is. |
| HistoricoVendaVeiculos.Reliability | src/etl/scripts/1-trusted/historico-venda-veiculos-trusted.py:208-217 | The label is one of the two texts, and it is CONFIÁVEL exactly when the status and the shift flag are both OK. |
| HistoricoVendaVeiculos.ReliableIff | src/etl/scripts/1-trusted/historico-venda-veiculos-trusted.py:84-102 | A row is reliable exactly when no other row agrees with it on the subset and its stock days do not hold the chassis number. Every full or partial duplicate is therefore unreliable. |
| HistoricoVendaVeiculos.ShiftColumns | src/etl/scripts/1-trusted/historico-venda-veiculos-trusted.py:121-138 | When the extra column holds a value, each adjusted column takes the next column's value and the last becomes missing. Otherwise each takes its own column. No other column changes. |
| HistoricoVendaVeiculos.ShiftColumnsRepair | src/etl/scripts/1-trusted/historico-venda-veiculos-trusted.py:111-138 | Read on the realigned table itself, each adjusted column holds the shifted value of its neighbours, and `coluna_extra_Ajustado` is always missing. |
| HistoricoVendaVeiculos.MarkSpec | src/etl/scripts/1-trusted/historico-venda-veiculos-trusted.py:34-102 | Each row gets its fixed branch code, and both duplicate flags as read off the branch-fixed table. It also gets the status of those flags and the shift flag of its stock days, and no other column changes. |
| HistoricoVendaVeiculos.RealignSpec | src/etl/scripts/1-trusted/historico-venda-veiculos-trusted.py:106-147 | The unnamed column becomes `coluna_extra` and the shifted columns are repaired. The zeroed stock-days text is written, and nothing else changes. |
| HistoricoVendaVeiculos.ConvertSpec | src/etl/scripts/1-trusted/historico-venda-veiculos-trusted.py:151-178 | When both strict conversions succeed, the sale date is the date its text spells, and the adjusted days are the integer cast of the zeroed text. |
| HistoricoVendaVeiculos.FinishSpec | src/etl/scripts/1-trusted/historico-venda-veiculos-trusted.py:182-217 | The extra adjusted column is dropped and the days made non-negative. The profit is recalculated and the reliability is read off the status and the shift flag. Nothing else changes. |
| HistoricoVendaVeiculos.CleanRowSpec | src/etl/scripts/1-trusted/historico-venda-veiculos-trusted.py:34-217 | Composed, the stages turn a raw row into a row that is flagged, repaired and computed as the rules say, stated on the raw row's values. |
| HistoricoVendaVeiculos.Trusted | src/etl/scripts/1-trusted/historico-venda-veiculos-trusted.py:31-217 | Among the modelled conversions, the script fails exactly when some sale date does not parse or some zeroed stock-days text is not an integer. Otherwise it keeps every row, in order, flagged, repaired and computed from its raw values. Every column no stage writes, renames, converts or drops keeps its raw cells. |

## Left out

- Reading and writing files is left out: file discovery, parquet, Excel and CSV input and output, `mkdir`, `print`, and file names from the current time. The model starts from the table read and ends with the table written.
- `salvar_parquet`, the raw-layer scripts and the Streamlit app are left out. They only copy data or display it.
- The `Float64`, `Int64` and `String` casts of amount, quantity, mileage and hour columns are left out. Numbers arrive as exact `real` cells, and floating-point rounding is not modelled. The raw layer reads every column as text (`src/etl/scripts/0-raw/historico-servicos-raw.py:20`), so each of these casts can also fail the script on text that is not a number. The five `Trusted` members below say which failures that leaves out.
- EstoquePecas.Trusted: fails only on a date. The script also raises when the stock value or quantity text is not a number (`estoque-pecas-trusted.py:41-42`).
- EstoqueVeiculos.Trusted: fails only on a year or an entry date. The script also raises when the cost or mileage text is not a number (`estoque-veiculos-trusted.py:70` and `108`).
- HistoricoServicos.Trusted: fails only on a service date. The script also raises when a quantity, amount, profit or hours text is not a number (`historico-servicos-trusted.py:87-98`).
- HistoricoVendaPecas.Trusted: fails only on a sale date. The script also raises when the quantity or one of the four amounts is not a number (`historico-venda-pecas-trusted.py:79-83`).
- HistoricoVendaVeiculos.Trusted: fails only on a sale date or the stock-days cast. The script also raises on the year chain and the amount casts (`historico-venda-veiculos-trusted.py:153-174`). Its duplicate flags (lines 76-82) run before those casts and so compare raw number spellings: polars tells "100.0" from "100.00", while the model, whose amounts are numbers, does not.
- The year coercion chain of the vehicle sales script (`historico-venda-veiculos-trusted.py:153-166`) is left out because it runs through floating point.
- The margin division at `historico-venda-veiculos-trusted.py:201-205` is left out. It is floating point and can divide by zero.
- Schema coercion through `pl.DataFrame(data, schema=...)` is left out. The schema files only declare column types.
- The lower-casing rename of the service script (`historico-servicos-trusted.py:146`) is not modelled. The vehicle inventory's lower-casing is modelled only on the column names its schema needs.
- Frame.Get: a column a row does not carry reads as missing. polars raises on a column missing from the frame, for example when renaming `""` in a file without that column; the model does not tell an absent column from an all-missing one.
- Dates.ParseIso: accepts only the zero-padded fixed-width spelling of each layout; other spellings polars' strptime may accept, such as unpadded fields, are not modelled, and a parsed year is limited to four digits.
- Text.ParseInt: a leading `+` and 64-bit overflow are not modelled; the cast accepts an optional minus sign followed by digits.
- Duplicates.Unique: polars may keep any row of each group, in any order; the model keeps the first row of each group in input order. The four properties of `Trusted` in the parts sales script hold for any such choice, while `UniqueOfDistinct` and `UniqueTwice` are stated for this one.
- HistoricoVendaVeiculos.HasChassi: `str.contains` reads its pattern as a regular expression; the chassis number has no metacharacters, so the model uses a substring test.
- TempoNoEstoque.LabelsSortByDuration: the dashboard page that sorts the labels is not part of this model; the sort is stated as code-point string order.

## Where the code and its description differ

The model follows the code in each of these cases:

- `map_elements` skips missing cells, so a missing obsolete flag stays missing in the parts inventory. It does not become false (`estoque-pecas-trusted.py:60-66`).
- `padronizar_categorias` is defined in the parts inventory script but never applied. `PadronizarCategoriasIsIdentity` shows that applying it would change nothing.
- The vehicle sales script's comment names "1-1-3", but its code fixes only "01/01/2002" and "01/01/2003" (`historico-venda-veiculos-trusted.py:34-42`).
- A polars join never matches a missing key, so a service row without an order number gets a missing `Total_OS`.
- `then(0)` over the stock-days text column writes the text "0". The strict integer cast then reads it as 0.
