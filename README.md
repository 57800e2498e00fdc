# Random expression calculator — verified model of its core

The calculator is a small browser widget. It draws two whole numbers in
[1, maxNumber] and one of five arithmetic operations, shows the result, and
keeps the last ten calculations in a history that can be exported as
semicolon-separated text. This project models the sequential logic behind
that widget in Dafny:

- `Types` (`types.dfy`): the records of `src/types.ts`: `Result` (a number or
  a text, TypeScript's `number | string`), `Operation`, `HistoryEntry`, and an
  `Icon` enumeration standing for the icon components.
- `Options` (`options.dfy`): the fixed table of five operations (Som,
  Vermenigvuldiging, Aftrekking, Deling, Macht) with their functions. Deling is
  zero-guarded: it returns the text `"∞"` for a zero divisor and the quotient
  printed with two decimals otherwise.
- `Operations` (`operations.dfy`): `getOperationInfo`, the symbol-to-style
  lookup with its gray fallback.
- `Helpers` (`helpers.dfy`): the arithmetic on random draws
  (`generateRandomValue`, `generateRandomNumber`, `generateRandomOperation`,
  `initializeAppValues`) and `convertHistoryToCSV`. Each `Math.random()` call
  becomes a parameter of type `Draw`, a real in [0, 1).
- `HistoryStore` (`history.dfy`): the bounded insertion
  `[newEntry, ...prev.slice(0, 9)]` as a value, the effect of repeated
  insertions, and the start-up load policy of `src/hooks/useHistory.ts`.
- `App` (`app.dfy`): the component state of `src/App.tsx` as a class
  `AppState` with fields `random`, `getal1`, `getal2`, `maxNumber` and
  `history`. `GenerateNew` is the generation step, and `CurrentOp` is the
  operation derived from `random`.
- `Strings` (`strings.dfy`): decimal printing and parsing of integers, join,
  split and single-character replacement. The export and the quotient text
  are built from these.

The clock (`generateTimestamp`, `generateId`) is not modelled. Its values are
inputs: `GenerateNew` takes the identifier and the timestamp as parameters.

Three behaviours of the code are easy to miss, and the model follows the code
in each:

- A history loaded from storage is taken as it is. It is neither checked nor
  cut to ten entries, so `|history| <= 10` holds only after a generation step
  and is not an invariant of the state.
- `generateRandomOperation` does not guard its input. An index outside the
  list gives JavaScript's `undefined`, modelled as `None`. This happens
  exactly when the list is empty or the draw lies outside [0, 1). It is not
  a contract failure.
- The random value of a generation step is the raw `Math.random()` draw, so it
  may be 0. Only the start-up value is raised to at least 0.0001.

## Model

| member | source | states |
|---|---|---|
| `Helpers.GenerateRandomValue` | src/utils/helpers.ts:62-64 | the result is at least 0.0001 and below 1; it equals the draw whenever the draw is at least 0.0001, and is 0.0001 otherwise |
| `Helpers.GenerateRandomNumber` | src/utils/helpers.ts:78-80 | for maxNumber >= 1 the result lies in [1, maxNumber] inclusive |
| `Helpers.NumberDrawInterval` | src/utils/helpers.ts:78-80 | for maxNumber >= 1, the result is k exactly when the draw lies in [(k-1)/maxNumber, k/maxNumber); every number in range comes from an interval of the same width |
| `Helpers.GenerateRandomOperation` | src/utils/helpers.ts:95-101 | the result is defined exactly when the list is non-empty and 0 <= r < 1; then floor(r * n) is a valid index and the result is the entry at that index |
| `Helpers.IndexInRange` | src/utils/helpers.ts:99-100 | floor(r * n) lies in [0, n) exactly when n > 0 and 0 <= r < 1, so the array access is in bounds for every draw |
| `Helpers.OperationIndexMonotone` | src/utils/helpers.ts:99 | a draw of 0 selects index 0 (the first operation), and a larger draw never selects a smaller index |
| `Helpers.OperationDrawInterval` | src/utils/helpers.ts:99 | index i is selected exactly for draws in [i/n, (i+1)/n), so each entry gets an interval of equal width |
| `Helpers.InitializeAppValues` | src/utils/helpers.ts:165-172 | random is at least 0.0001 and below 1; for maxNumber >= 1 both numbers lie in [1, maxNumber]; maxNumber defaults to 10 |
| `Helpers.ConvertHistoryToCSV` | src/utils/helpers.ts:115-125 | the output starts with the unquoted header `Tijdstip;Getal1;Operatie;Getal2;Resultaat` and a line break; for an empty history it is exactly that text |
| `Helpers.CsvLines` | src/utils/helpers.ts:116-124 | when no timestamp, symbol or result text contains a line break, splitting the output on line breaks gives the header followed by the rows of the entries, one per entry in history order (one empty line for an empty history) |
| `Helpers.CsvLineCount` | src/utils/helpers.ts:116-124 | for a non-empty single-line history of n entries the output has n + 1 lines, and line i + 1 is the row of entry i |
| `Helpers.RowIsQuotedFields` | src/utils/helpers.ts:119-121 | a row is the five fields timestamp, getal1, symbol, getal2 and result, each in double quotes, joined by semicolons |
| `Helpers.RowFields` | src/utils/helpers.ts:119-121 | when the timestamp, symbol and result text contain no semicolon, splitting a row on `;` gives back exactly the five quoted fields in column order |
| `Helpers.TimestampHasNoColon` | src/utils/helpers.ts:119 | no colon of the timestamp survives into its field, and the field has the timestamp's length |
| `Helpers.RowCharacters` | src/utils/helpers.ts:119-121 | any character that is not a quote, semicolon, hyphen or digit appears in a row only if it appears in the timestamp, the symbol or the result text |
| `Strings.ReplaceAll` | src/utils/helpers.ts:119 | the global replace keeps the length and changes exactly the occurrences of the searched character |
| `Strings.IntToStringRoundTrip` | src/utils/helpers.ts:119-121 | the decimal text interpolated for a number reads back as that number |
| `Strings.SplitJoin` | src/utils/helpers.ts:123 | splitting a join on its separator gives back the pieces when no piece contains the separator |
| `Options.TableShape` | src/options.ts:29-81 | the table has exactly five entries; their symbols are pairwise distinct, and so are their names |
| `Options.TableSemantics` | src/options.ts:30-80 | Som gives a + b, Vermenigvuldiging a * b, Aftrekking a - b, all as numbers; Deling gives the guarded quotient; Macht gives a to the power b |
| `Options.GuardedDivide` | src/options.ts:64 | Deling always yields a text, never a fault; it is the marker `"∞"` exactly when the divisor is 0 |
| `Options.ToFixed2` | src/options.ts:64 | the quotient text is a whole part, a point and exactly two decimal digits |
| `Options.ToFixed2Denotes` | src/options.ts:64 | the quotient text reads back as the hundredth nearest to a / b, with halves rounded up |
| `Options.RoundedHundredths` | src/options.ts:64 | the printed value h hundredths satisfies -b <= 200a - 2bh < b, so h/100 is within 1/200 of a/b |
| `Options.GeneratedOperandsAreFinite` | src/options.ts:64 | on operands of at least 1, as the generator draws them, no operation yields `"∞"`, and Macht yields at least 1 |
| `Options.PowPositive` | src/options.ts:78 | a base of at least 1 to any exponent gives at least 1; a base of at least 2 gives more than the exponent |
| `Options.PowAdd` | src/options.ts:78 | the power follows the exponent law a^(m+n) = a^m * a^n |
| `Operations.GetOperationInfo` | src/utils/operations.ts:50-95 | total lookup; for every symbol, the text class is `text-X-500` and the background classes are `bg-X-100 dark:bg-X-900/30` for one and the same colour X |
| `Operations.InfoAgreesWithTable` | src/utils/operations.ts:51-86 | for every entry of the operation table, the lookup by its symbol gives the entry's icon, `text-<color>-500` and the background classes of the entry's colour |
| `Operations.GrayIffUnknown` | src/utils/operations.ts:87-93 | a symbol gets the gray fallback, and the gray text class, exactly when it is not the symbol of a table entry |
| `Operations.TextClassInjective` | src/utils/operations.ts:52-93 | two text classes are equal exactly when their colours are equal |
| `HistoryStore.Push` | src/App.tsx:92 | the new history is `[e] + prev` cut to ten entries: at most ten entries; nothing is dropped when prev has fewer than ten; from ten on, prev[9..] is dropped |
| `HistoryStore.PushAllTakes` | src/App.tsx:92 | after one or more insertions, the history is the inserted entries newest first, followed by the old history, cut to ten |
| `HistoryStore.RecentFirst` | src/App.tsx:72-93 | from an empty history, N insertions leave min(N, 10) entries, the most recent ones, newest first |
| `App.ZeroDrawExample` | src/App.tsx:73-77 | with every draw 0 and maximum 10 both numbers are 1, Som is selected, and its result is 2 |
| `App.AppState.constructor` | src/App.tsx:29-34 | the start values are those of initializeAppValues(10), the maximum is 10, and the history is the loaded one |
| `App.AppState.CurrentOp` | src/App.tsx:39 | the shown operation is the table entry at index floor(random * 5), which is always a valid index |
| `App.AppState.SetMaxNumber` | src/components/Controls.tsx:33-39 | the slider sets the maximum to a value in [5, 100] and changes nothing else |
| `App.AppState.ExportHistory` | src/App.tsx:58-61 | the exported text is the export of the current history |
| `App.AppState.GenerateNew` | src/App.tsx:72-93 | random, getal1 and getal2 become the new draws and the numbers lie in [1, maxNumber]; the head entry records them with the current operation's name and symbol and its result on the two numbers, which is never `"∞"`; the history becomes the head entry followed by the first min(9, old length) old entries in order, so it never exceeds ten entries and grows by one below ten |

## Left out

- Persistence in `src/hooks/useHistory.ts` is not modelled: reading and writing browser storage, JSON encoding and decoding, error logging and effect scheduling are I/O and library calls. Only the load policy is modelled: `HistoryStore.LoadHistory` defines it (empty unless the slot parsed, the parsed entries unchecked and not truncated otherwise), and the constructor's contract uses it. So the persist-then-load round trip is not stated.
- Parsed storage content that is not a list of history entries is not modelled. The source would pass it on unchecked.
- `downloadFile` (Blob, object URL and anchor plumbing) is not modelled. `ExportHistory` stops at the text it would hand over.
- `generateTimestamp` and `generateId` read the clock and the locale. Their values are inputs of `GenerateNew`.
- `Math.random` is replaced by explicit `Draw` parameters. Uniformity is stated as equal-width draw intervals, not as probabilities.
- Options.TableSemantics: operands are natural numbers, not arbitrary JavaScript numbers. Both callers (`generateNew` at src/App.tsx:77 and the operation display at src/components/OperationDisplay.tsx:37) pass state values of at least 1, because the slider keeps the maximum in [5, 100]. A negative exponent would make `Math.pow` return a fraction or Infinity, and `Num(int)` cannot hold either.
- Options.ToFixed2: the quotient is rounded exactly, with halves rounded up. JavaScript first rounds a / b to a binary double, so an exact tie whose double falls just below the half prints one hundredth lower in JavaScript: 3/40 is the double 0.07499999999999999722, which JavaScript prints as "0.07" and the model as "0.08". Values of 1e21 and above, which `toFixed` prints in exponent notation, are not modelled.
- Options.PowAdd: `Math.pow` is modelled as exact integer exponentiation. Floating-point overflow to Infinity and precision loss above 2^53 are not modelled.
- Numbers in the export are printed exactly in decimal. JavaScript switches to exponent notation from 1e21 upwards, which only a large power can reach.
- The rendering components are not modelled: the `.tsx` components other than `App`'s state and `generateNew`, and `src/main.tsx`. The display value of `RandomDisplay`, floor(random * 1000) + 1, follows the same bound as `Helpers.GenerateRandomNumber` with a maximum of 1000.
- `createTheme` in `src/ui.ts` and `toggleDarkMode` are styling constants and DOM class toggling.
