# Gestão de Leitos — a Dafny model of the bed grid, admissions, discharges and the stay report

This project models the logic of `api.php`, the single PHP endpoint of a ward
bed-management application. The endpoint keeps two SQLite tables:

- `pacientes` holds one row per occupied bed.
- `auditoria` is an append-only log of admissions ('entrada') and discharges ('saida').

The model covers four things:

- **The bed grid** ('list'; module `BedGrid`). The five fixed sectors (5, 5, 5, 1 and 1 beds) are laid out bed by bed. Every bed shows the first patient row that sits in it, with its status set to 'ocupado', or a free slot with status 'livre'. The nested loop and its first-match search are imperative methods. They are proved equal to a recursive specification of the grid, and the grid's layout is proved as lemmas.
- **Admission and discharge** ('add' and 'delete'; module `Requests`):
  - the guards that turn a request away with HTTP 400;
  - the patient row and the audit row an accepted request writes;
  - the rows that remain after a delete.

  The PHP semantics these rely on live in module `Php`: `??`, truthiness, `trim`, `intval`, integer printing, `round` to one decimal, and float printing.
- **The report's pairing fold** ('relatorio'; module `Report`). The filtered log is folded into stays, one per key, held in a PHP array that remembers insertion order. The loop is a method proved equal to the fold. The fold is proved equal to an independent, row-by-row description of the stay each key ends up holding, and it is proved to list its keys in first-appearance order.
- **The summary** (module `Report`). Each stay gets a duration, and the report counts admissions and discharges and takes the rounded mean duration. The loop is a method proved against specification functions, and the counts are proved equal to set cardinalities.

Durations are held exactly, as integer tenths of an hour. `round` is modelled as rounding half away from zero, and a float is printed as PHP prints one decimal: "12h", not "12.0h". Parsing a timestamp (`DateTime::createFromFormat` in either accepted format, then `getTimestamp`) is the function parameter `parse`. An empty text parses in neither format. A null column reaches `createFromFormat` as "", so a stay with a null timestamp gets no duration. The clock reading written by 'add' and 'delete' is a parameter, and so is the id SQLite assigns.

Where the behaviour described for the system and the code differ, the model follows the code, with one exception: the report's stay key. api.php:226 files stays under `nome . '-' . leito`, which `Report.ConcatKey` models as written. That key lets two patients collide (see "## Findings"), so `Report.Relatorio` uses the (name, bed) pair `Report.PairKey` that it stands for. The fold itself takes the key as a parameter and is proved for any key. The other differences:

- A twelve-hour stay prints as "12h". `round(…, 1)` yields the float 12.0, and PHP prints that float as "12", so a description that says "12.0h" does not match the code.
- A stay whose admission column is null still counts as an admission. The test at api.php:259 is the strict `!== '-'`.

## Model

| member | source | states |
|---|---|---|
| Php.Coalesce | api.php:99-101 | `$x[$k] ?? $d` gives the stored value when the key is present and not null, and otherwise the default, which is never null unless the default is |
| Php.TruthyText | api.php:103 | a value that passes `!$x` prints as neither "" nor "0" |
| Php.Trim | api.php:99 | the trimmed name is a slice of the input with only blanks cut from either end; it starts and ends with a non-blank character, and it is empty exactly when the input is all blanks |
| Php.TrimUntouched | api.php:99 | `trim` leaves alone a string with no blank at either end |
| Php.IntValOfIntToString | api.php:100 | `intval` reads back every integer PHP prints, negative ones included |
| Php.RoundHalfAwayDiv | api.php:267 | the rounded quotient is within half a unit of the exact one; an exact half rounds away from zero; the sign is kept |
| Php.RoundHalfAwayDivBounds | api.php:279 | rounding a quotient that lies between two integers stays between them |
| Php.RenderTenthsFraction | api.php:268 | a printed duration shows a decimal point exactly when its tenths digit is not zero, and then it ends with that point and that digit |
| Php.IntValOfRenderTenths | api.php:268 | the text printed for a rounded duration reads back under `intval` as its whole number of hours, truncated toward zero |
| Requests.Add | api.php:98-152 | rejected with 'Preencha nome, leito e local' exactly when the trimmed name is blank or "0", the bed reads as 0, or the sector is falsy; an accepted request writes an 'ocupado' row with the trimmed name, the bed, the sector as given, every optional column as given or '', the given id and the clock reading, and an 'entrada' audit row for the same patient |
| Requests.AddAccepts | api.php:103-148 | every request that passes the three checks is admitted under the bed number it asked for |
| Requests.EmptyNameRejected | api.php:103-107 | a blank name is rejected and nothing is written |
| Requests.ZeroNameRejected | api.php:99-107 | the name " 0 " trims to "0", which PHP treats as false, so it is rejected |
| Requests.NegativeBedAdmitted | api.php:100-103 | a bed of "-1" reads as -1, which is truthy, so the guard admits it |
| Requests.FindById | api.php:163-165 | the lookup finds a row exactly when some row has the id, and the row it returns has that id |
| Requests.Without | api.php:186-187 | the delete removes exactly the rows with the id and keeps every other row |
| Requests.Delete | api.php:155-191 | rejected with 'ID inválido' exactly when the id reads as 0 or less; otherwise that id is deleted; a 'saida' audit row for the stored patient is written exactly when a row with the id existed; the remaining rows are the others |
| BedGrid.FirstMatch | api.php:71-76 | the position found holds a row in that sector and bed, and no earlier row does; when none is found, no row does |
| BedGrid.SlotFor | api.php:70-89 | a bed's slot names that sector and that bed number, occupied or free |
| BedGrid.SlotForMeaning | api.php:70-89 | a bed is occupied exactly when some row sits in it, and then it shows the first such row marked 'ocupado'; a free bed has no id, an empty name and status 'livre' |
| BedGrid.SectorSlots | api.php:69 | a sector contributes exactly as many slots as it has beds |
| BedGrid.SectorSlotsAt | api.php:69-90 | slot k of a sector is the slot of bed k + 1 |
| BedGrid.Grid | api.php:66-91 | the grid has one slot per bed of the ward |
| BedGrid.GridAt | api.php:66-91 | bed i of sector s sits at the position counting all beds of the earlier sectors plus i - 1, and shows that bed's slot |
| BedGrid.GridPosition | api.php:66-91 | every position of the grid is some bed of some sector |
| BedGrid.GridPositionUnique | api.php:66-91 | two different (sector, bed) pairs never share a position |
| BedGrid.GridSlotsDistinct | api.php:55-91 | since sector names are distinct array keys, no two slots of the grid show the same sector and bed |
| BedGrid.OffsetsGrow | api.php:68 | a later sector starts no earlier in the grid |
| BedGrid.SetoresShape | api.php:55-61 | the configured ward has five distinct sectors and 17 beds, the isolation rooms starting at position 15 |
| BedGrid.EmptyWardIsolation | api.php:55-91 | with no patients the grid has 17 slots, and slot 15 is the free bed 1 of 'Isolamento Adulto' |
| BedGrid.FirstMatchAt | api.php:71-76 | a row in the bed with no such row before it is the one the search stops at |
| BedGrid.RowShownInGrid | api.php:66-89 | a row shows, marked 'ocupado', at its own sector and bed of the grid, unless an earlier row sits in that bed |
| BedGrid.AdmissionShownInGrid | api.php:98-134 | a patient admitted by 'add' shows at the sector and bed the request named, unless an earlier row sits in that bed |
| BedGrid.FindOccupant | api.php:70-76 | the search returns a row exactly when one sits in the bed, and it returns the first one |
| BedGrid.BedSlot | api.php:70-89 | one iteration appends exactly the specified slot of the bed |
| BedGrid.BuildGrid | api.php:66-91 | the nested loop builds exactly the grid |
| Report.Put | api.php:229-248 | `$dados[$k] = $v` stores v under k; an existing key keeps its place and a new key goes last; the keys stay distinct and match the map |
| Report.Step | api.php:228-250 | one row keeps the array well formed |
| Report.Pairing | api.php:223-251 | the fold leaves a well-formed ordered array |
| Report.Reconstruct | api.php:223-251 | the loop builds exactly the fold's key order and map |
| Report.PairingMatchesReference | api.php:225-251 | the stay under each key is the one read straight off the log: the last admission, closed by a later discharge if there is one; or, with no admission, the first discharge carrying the last discharge time; or nothing |
| Report.PairingKeys | api.php:225-251 | a key holds a stay exactly when some 'entrada' or 'saida' row is filed under it |
| Report.PairingOrder | api.php:225-251 | stays are listed in the order their keys first appear in the log |
| Report.FirstSeenExtends | api.php:225-251 | appending a row moves no key's first appearance, and a key new to the log first appears at the appended row |
| Report.EntradaOverwrites | api.php:228-236 | an 'entrada' row replaces the stay under its key with an open stay and keeps the key's place |
| Report.SaidaCloses | api.php:237-249 | a 'saida' row sets the discharge of the stay under its key, or, with none, adds a stay with the placeholder admission at the end |
| Report.OtherActionIgnored | api.php:228-250 | a row whose action is neither 'entrada' nor 'saida' changes nothing |
| Report.Timestamp | api.php:263-264 | an empty text, which is what a null column is passed as, parses in neither format |
| Report.NullTimestampNoDuration | api.php:262-275 | a stay with a null admission or discharge column has no duration and shows "-" |
| Report.DurationSeconds | api.php:262-266 | a stay has a duration exactly when both timestamps are present and both parse |
| Report.HoursTenths | api.php:267 | the rounded hours are within a twentieth of an hour of the exact duration |
| Report.TempoDefined | api.php:262-276 | `tempo_ocupacao` is "-" exactly when the stay has no duration |
| Report.TwelveHours | api.php:267-268 | twelve hours between admission and discharge print as "12h" |
| Report.Lines | api.php:258-276 | the report has one line per stay |
| Report.LinesAt | api.php:258-283 | line i shows stay i with its own `tempo_ocupacao` |
| Report.ReportLines | api.php:258-283 | the report has one line per key, and line i shows the stay the log describes for the i-th key, in first-appearance order, with that stay's own `tempo_ocupacao` |
| Report.Tempo | api.php:262-276 | the loop's duration branch computes the stay's `tempo_ocupacao` and adds its rounded hours exactly when it has a duration |
| Report.Summarize | api.php:253-279 | the loop yields exactly the specified lines, counts and mean |
| Report.Relatorio | api.php:223-289 | the report is the summary of the fold's stays in first-appearance order |
| Report.CountEntradasCounts | api.php:259 | `entradas` is the number of stays whose admission is not '-' |
| Report.CountSaidasCounts | api.php:260 | `saidas` is the number of stays whose discharge is not '-' |
| Report.DurationsCounts | api.php:266-270 | `cont` is the number of stays with a duration |
| Report.CountsBounded | api.php:259-270 | neither count exceeds the number of stays, and `cont` exceeds neither count |
| Report.MediaWithoutDurations | api.php:279 | with no durations the mean is "0h" |
| Report.SumBounds | api.php:269 | the total of the durations lies between their number times the lower and the upper bound |
| Report.MeanWithin | api.php:279 | the rounded mean lies within any bounds on the durations it averages |
| Report.AdmitThenDischarge | api.php:225-249 | the audit rows written by an admission and by the discharge of that patient make one stay, from the admission time to the discharge time |
| Report.StayMatchesItsKey | api.php:226 | under the (name, bed) pair key, every stay carries the name and bed it is filed under |
| Report.ConcatKeyCollides | api.php:226 | `nome . '-' . leito` gives the same key to ("x", -1) and ("x-", 1) |
| Report.ConcatKeyMergesStays | api.php:226-239 | under that key, the discharge of "x-" from bed 1 closes the stay of "x" in bed -1, leaving one stay where the pair key keeps two |

## Left out

- The HTTP dispatch on method and action, `json_decode` of the body, the `$_POST` and `$_GET` fallbacks, `json_encode` of the answers and the HTTP status codes: the model returns the answer as a datatype.
- The SQLite storage itself (opening the database, creating the tables, executing the statements): the tables are sequences passed in, and the rows a request writes are returned.
- The 'auditoria' listing (api.php:194-199): it returns the table as stored, sorted by `timestamp`, and has no logic of its own.
- The report's SQL filters and its `ORDER BY nome, leito, timestamp` (api.php:204-221): the fold takes the already filtered and sorted rows. String interpolation into that query is not modelled.
- Report.Relatorio: files stays under the (name, bed) pair, not under the concatenated key api.php:226 builds. The concatenated key merges the stays of different patients (see "## Findings"). The fold under that key is modelled as written, as `Report.Pairing(rows, Report.ConcatKey)`.
- Report.Timestamp: only the empty text is known to fail. Which other texts parse, and to what, is left to the parameter `parse`.
- The clock and the time zone (`new DateTime()` in 'America/Sao_Paulo'): the timestamps written are parameters.
- `DateTime::createFromFormat` in its two formats and `getTimestamp`: replaced by the function parameter `parse`.
- SQLite's assignment of the new row's id: a parameter.
- Report.HoursTenths: floating point is not modelled. Durations and their total are exact tenths of an hour. So PHP's binary rounding error when it adds `$totalHoras`, and in `round`, is not captured.
- Php.IntVal: models decimal digits after optional white space and sign. It leaves out `intval`'s overflow saturation at 64 bits and numeric strings with an exponent.
- JSON booleans, floats, arrays and objects in the request body: a decoded value is null, an integer or a string.
- PHP's conversion of integer-like string keys of `$dados` to integers: it does not change the order or the contents, only the key's type.

## Findings

| source | as written | input that shows it | evidently intended | confidence | as-written member | corrected member |
|---|---|---|---|---|---|---|
| api.php:226 | the stay key is `$r['nome'] . '-' . $r['leito']` | an 'entrada' row for name "x", bed -1, then a 'saida' row for name "x-", bed 1: both give the key "x--1". 'add' admits the bed -1 because `intval("-1")` is truthy (`Requests.NegativeBedAdmitted`) | one stay per (name, bed) pair | not executed | Report.ConcatKeyMergesStays | Report.StayMatchesItsKey |
