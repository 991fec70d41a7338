# string-table in Dafny

A model of `stringTable.create` from the JavaScript library string-table.
It turns a list of records (plain objects) into a plain-text table:

- the keys of the first record, in `Object.keys` order, are the headers and form the first row;
- every record gives one row holding its value for each header, with `undefined` for a missing field;
- every column is as wide as the longest `String(value)` in it, header included;
- strings are padded with spaces on the right and every other value on the left;
- each row is printed as `' ' + cells.join(' | ') + ' '` and the rows are joined with `'\n'`.

No records gives the empty string.

The project has two modules:

- `JsBuiltins` (`JsBuiltins.dfy`) states the JavaScript built-ins the code uses on sequences:
  - `Array.prototype.join` as `Join`;
  - `String.prototype.split` with a one-character separator as `Split`;
  - the `new Array(n)` length rule (a `RangeError` unless `0 <= n <= 2^32 - 1`) as `IsArrayLength` and `Holes`.

  It also gives `Times`, an independent definition of "a string concatenated `n` times", and proves facts about joins:
  - their length;
  - where each part and separator sits;
  - that splitting undoes joining.
- `StringTable` (`StringTable.dfy`) models the five functions of `stringTable.js`:
  - pure specification functions: `TableRows`, `MaxWidth`, `Widths`, `Repeat`, `Pad`, `Render`;
  - the source's loops as methods proved to compute them: `CreateRow`, `GetMaxWidth`, `CreateTable`, plus `FormatRows` and `FormatRow`, which are `createTable`'s last loop and its inner loop;
  - lemmas stating what the rendered text looks like.

A cell value is `Value(text, isString)`:

- `text` is `String(value)`;
- `isString` is `typeof value === 'string'`.

A record is `Record(keys, fields)`, with `keys` in `Object.keys` order.

`repeat` can throw: `new Array(count + 1)` throws a `RangeError` when `count < -1` or `count + 1 > 2^32 - 1`. So `Repeat`, `Pad`, `Render` and `CreateTable` return a `Result`. The lemmas show when this happens:

- it never happens for negative padding inside `createTable`, because every column covers its cells (`WidthsCoverCells`);
- it happens only for texts of 2^32 - 1 characters or more (`RenderSucceeds`).

A missing field renders as the text `undefined`, aligned right, because `typeof undefined` is not `'string'`.

## Model

| member | source | states |
|---|---|---|
| StringTable.CreateRow | stringTable.js:33-39 | the row has one cell per header, and cell `i` is the record's value for header `i` (`undefined` when absent) |
| StringTable.GetMaxWidth | stringTable.js:41-47 | the result is the column's width: at least every cell's text length, 0 for no rows, and equal to the length of some cell otherwise |
| StringTable.MaxWidthIsMaximum | stringTable.js:41-47 | the fold `Math.max` over the rows bounds every cell of the column and is attained by one of them |
| StringTable.CreateTable | stringTable.js:3-31 | the loops build the header row, the record rows, the widths and the lines, and return exactly `Render(records)`: `""` for no records, a `RangeError` exactly when some `pad` throws |
| StringTable.FormatRows | stringTable.js:20-28 | formats every row in order; succeeds exactly when no `pad` on any row throws, yielding one line per row, and otherwise yields a `RangeError` |
| StringTable.FormatRow | stringTable.js:23-27 | pads each cell to its column's width and prints `' ' + cells.join(' \| ') + ' '`; succeeds exactly when no cell's `pad` throws |
| StringTable.RepeatIsTimes | stringTable.js:59-61 | `repeat(s, n)` throws exactly when `n + 1` is not an array length; otherwise it is `s` concatenated `n` times (empty for `n = -1`), of length `n * \|s\|` |
| StringTable.RepeatSpaces | stringTable.js:59-61 | `repeat(' ', n)` is `n` spaces for every non-negative `n` below 2^32 - 1 |
| StringTable.PadThrowsExactly | stringTable.js:49-61 | `pad` throws exactly when `width - \|text\| + 1` is not an array length, and then a `RangeError` |
| StringTable.PadLayout | stringTable.js:49-61 | when the width covers the text and the padding `width - \|text\|` is below 2^32 - 1 (beyond it `new Array(count + 1)` throws a `RangeError`), `pad` yields exactly `width` characters: a string followed by spaces, or spaces followed by any other value |
| StringTable.PadNeverTruncates | stringTable.js:49-61 | `pad` never cuts its text: a result is as long as the larger of text and width and holds the text on its alignment side; a width two or more below the text's length throws |
| StringTable.WidthsCoverCells | stringTable.js:15-18 | every row fits the computed widths, so no padding is negative, and each width is the length of some cell of its column |
| StringTable.ColumnWidth | stringTable.js:8-18 | column `j` is at least as wide as its header and as every record's value for that header, and its width is the length of one of them |
| StringTable.RenderSucceeds | stringTable.js:3-31 | `createTable` does not throw when every header and cell text is shorter than 2^32 - 1 characters |
| StringTable.RenderedLineCount | stringTable.js:20-30 | the output splits on `'\n'` into one line per record plus the header line, with one column per header |
| StringTable.RenderedLine | stringTable.js:20-30 | output line `k` lays out row `k`: outer spaces, each cell aligned at its column's offset, and `' \| '` between columns |
| StringTable.RenderedLines | stringTable.js:20-30 | splitting the output on `'\n'` gives back exactly the formatted rows, each laying out its table row |
| StringTable.RenderedLineWidths | stringTable.js:20-30 | every output line has the same length: two outer spaces, the column widths, and three characters between neighbouring columns |
| StringTable.RenderedCell | stringTable.js:22-27 | column `j` of output line `k` is cell `j` of row `k`, padded to the column's width and aligned by its type |
| StringTable.RenderedHeaderLine | stringTable.js:8-9 | the first output line shows header `j` in column `j`, left-aligned |
| StringTable.RenderedRecordLine | stringTable.js:11-13 | output line `i + 1` shows record `i`'s value for header `j` in column `j`, aligned by its type |
| StringTable.FormatLineShows | stringTable.js:23-27 | a formatted line has the line width, and the padded cells and separators at their offsets |
| StringTable.FormatLineLength | stringTable.js:27 | a formatted line's length is two outer spaces, the cells' widths, and three characters per separator |
| StringTable.FormatLineCellAt | stringTable.js:27 | cell `j` of a formatted line sits at the offset fixed by the widths before it |
| StringTable.FormatLineSeparatorAt | stringTable.js:27 | the separator `' \| '` follows cell `j` of a formatted line |
| StringTable.FormatLineHasNoNewline | stringTable.js:23-27 | a formatted row contains no newline when its cell texts contain none |
| StringTable.PadCellsAligned | stringTable.js:24-26 | padding a row whose cells fit their widths gives each cell its aligned layout |
| StringTable.OtherKeysIgnored | stringTable.js:8-13 | only the first record's keys matter: record lists that agree on those keys' values render the same, whatever other fields they hold |
| StringTable.FirstRecordColumns | stringTable.js:8-12 | for a well-formed first record there is one column per field, and the first record's row holds its own values |
| StringTable.TableRows | stringTable.js:8-13 | the table has one row per record plus the header row, and every row has one cell per header |
| JsBuiltins.JoinOfHoles | stringTable.js:60 | joining `n + 1` empty array slots with `s` is `s` concatenated `n` times |
| JsBuiltins.SplitJoin | stringTable.js:30 | splitting the rows joined with `'\n'` gives the rows back when none contains a newline |
| JsBuiltins.JoinLength | stringTable.js:27 | a join's length is the parts' lengths plus one separator between each pair |
| JsBuiltins.JoinPartAt | stringTable.js:27 | part `j` of a join sits at the offset fixed by the earlier parts and separators |
| JsBuiltins.JoinSeparatorAt | stringTable.js:27 | the separator after part `j` of a join sits right after that part |
| JsBuiltins.JoinChars | stringTable.js:27-30 | every character of a join comes from a part or from the separator |
| JsBuiltins.TimesLength | stringTable.js:60 | `s` concatenated `n` times has `n * \|s\|` characters |
| JsBuiltins.TimesOfChar | stringTable.js:60 | a one-character string concatenated `n` times is `n` copies of that character |

## Left out

- The UMD wrapper and the export as `module.exports`/`this.stringTable` (lines 1, 63-69) are not modelled. They only publish `createTable` as `create`.
- `records` that is `null`, `undefined` or not an array is not modelled. The model takes a sequence, so the `!records` half of the guard on line 4 is not represented. An empty sequence returns `""` as in the code.
- Record elements that are `null` or `undefined` are not modelled, because a `Record` is always an object. The code's error paths for them are therefore dropped. `Object.keys` throws a `TypeError` at line 8 when the first record is `null`. `data[headers[i]]` throws at line 36 when a later record is `null` and there is at least one header. When there are no headers, such a record renders as an empty row without throwing.
- `Object.keys` order and own-versus-inherited properties are not modelled. A record's `keys` are taken as given, and `data[name]` reads only the record's own fields.
- `String(value)` is not modelled. It is a parameter: a `Value` carries its text. This leaves out JavaScript's number formatting and `toString` calls.
- A Symbol value is not modelled. `String(symbol)` succeeds at line 44, but `repeat(' ', padding) + value` at line 56 then throws a `TypeError`. The model cannot express this, because every `Value` carries a text and concatenates without error.
- Line 56 formats a non-string with `repeat(...) + value`. The model assumes this gives the same text as `String(value)`. Objects whose `valueOf` and `toString` disagree would break that.
- String lengths are counted in characters of `seq<char>`, not UTF-16 code units. JavaScript's own maximum string length, which could make a concatenation throw, is not modelled.
- The output-shape lemmas (`RenderedLines`, `RenderedLine`, `RenderedLineCount`, `RenderedLineWidths`, `RenderedCell`, `RenderedHeaderLine`, `RenderedRecordLine`) require that no header or cell text contains a newline. A text that does breaks the output into extra lines, and the code does not handle that.
- The library's description mentions several features this version of `stringTable.js` does not have: explicit `headers` options, cell formatters, borders, custom separators and multi-line cells. They are not modelled.
- A missing field is modelled as the code renders it: the text `undefined`, aligned right.
