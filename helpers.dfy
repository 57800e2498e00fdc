/** The generator's arithmetic on random draws, and the export of the history
    as semicolon-separated text. Every call to Math.random is a draw passed in
    as a parameter. */
module Helpers {
  import opened Types
  import opened Strings

  datatype Option<T> = None | Some(value: T)

  /** A value Math.random can return: at least 0 and below 1. */
  type Draw = u: real | 0.0 <= u < 1.0

  /** The smallest random value the application starts from. */
  const MinRandomValue: real := 0.0001

  // ---------------------------------------------------------------------------
  // Random draws
  // ---------------------------------------------------------------------------

  /** generateRandomValue: the draw, raised to 0.0001 if it is smaller. */
  function GenerateRandomValue(u: Draw): (r: real)
    ensures MinRandomValue <= r < 1.0
    ensures u >= MinRandomValue ==> r == u
    ensures u < MinRandomValue ==> r == MinRandomValue
  {
    if u > MinRandomValue then u else MinRandomValue
  }

  /** generateRandomNumber: floor(u * maxNumber) + 1, a whole number from 1 up
      to maxNumber inclusive whenever maxNumber is at least one. */
  function GenerateRandomNumber(u: Draw, maxNumber: int): (r: int)
    ensures maxNumber >= 1 ==> 1 <= r <= maxNumber
  {
    BelowOneScales(u, maxNumber);
    (u * maxNumber as real).Floor + 1
  }

  /** For 0 <= u < 1 and m >= 1: 0 <= u * m < m. */
  lemma BelowOneScales(u: Draw, m: int)
    ensures m >= 1 ==> 0.0 <= u * m as real < m as real
  {
    if m >= 1 {
      assert u * m as real < 1.0 * m as real;
    }
  }

  /** Each k in [1, maxNumber] is drawn exactly for the draws in the interval
      [(k-1)/maxNumber, k/maxNumber): maxNumber intervals of equal width, so a
      uniform draw gives every number the same chance. */
  lemma NumberDrawInterval(u: Draw, maxNumber: int, k: int)
    requires maxNumber >= 1
    ensures GenerateRandomNumber(u, maxNumber) == k <==>
      (k - 1) as real / maxNumber as real <= u < k as real / maxNumber as real
  {
    var m := maxNumber as real;
    var f := (u * m).Floor;
    assert GenerateRandomNumber(u, maxNumber) == f + 1;
    assert (k - 1) as real / m <= u <==> (k - 1) as real <= u * m by {
      DivLeq((k - 1) as real, u, m);
    }
    assert u < k as real / m <==> u * m < k as real by {
      DivLeq(k as real, u, m);
    }
  }

  /** x / m <= u exactly when x <= u * m, and u < x / m exactly when u * m < x,
      for a positive m. */
  lemma DivLeq(x: real, u: real, m: real)
    requires m > 0.0
    ensures x / m <= u <==> x <= u * m
    ensures u < x / m <==> u * m < x
  {
    assert x == (x / m) * m;
    if x / m <= u {
      assert (x / m) * m <= u * m;
    }
    if u < x / m {
      assert u * m < (x / m) * m;
    }
  }

  /** The index generateRandomOperation reads: floor(r * n). */
  function OperationIndex(n: nat, r: real): int
  {
    (r * n as real).Floor
  }

  /** generateRandomOperation: the entry at index floor(r * |ops|), or None
      (JavaScript's undefined) when that index falls outside the list, which
      happens exactly when the list is empty or r lies outside [0, 1). */
  function GenerateRandomOperation<T>(ops: seq<T>, r: real): (o: Option<T>)
    ensures o.Some? <==> |ops| > 0 && 0.0 <= r < 1.0
    ensures o.Some? ==> 0 <= OperationIndex(|ops|, r) < |ops| && o.value == ops[OperationIndex(|ops|, r)]
  {
    var i := OperationIndex(|ops|, r);
    IndexInRange(|ops|, r);
    if 0 <= i < |ops| then Some(ops[i]) else None
  }

  /** The index floor(r * n) is a valid index into a list of length n exactly
      when the list is non-empty and 0 <= r < 1. */
  lemma IndexInRange(n: nat, r: real)
    ensures 0 <= OperationIndex(n, r) < n <==> n > 0 && 0.0 <= r < 1.0
  {
    if n > 0 {
      if r < 0.0 {
        assert r * n as real < 0.0;
      } else if r >= 1.0 {
        assert r * n as real >= 1.0 * n as real;
      } else {
        BelowOneScales(r, n);
      }
    }
  }

  /** A draw of 0 picks the first operation, and a larger draw never picks an
      earlier one. */
  lemma OperationIndexMonotone(n: nat, r1: real, r2: real)
    requires 0.0 <= r1 <= r2
    ensures OperationIndex(n, 0.0) == 0
    ensures OperationIndex(n, r1) <= OperationIndex(n, r2)
  {
    assert r1 * n as real <= r2 * n as real;
  }

  /** Index i of a non-empty list is picked exactly for the draws in
      [i/n, (i+1)/n), so each operation is equally likely. */
  lemma OperationDrawInterval(n: nat, r: Draw, i: int)
    requires n > 0
    ensures OperationIndex(n, r) == i <==>
      i as real / n as real <= r < (i + 1) as real / n as real
  {
    NumberDrawInterval(r, n, i + 1);
    assert GenerateRandomNumber(r, n) == OperationIndex(n, r) + 1;
  }

  /** The three starting values of the application. */
  datatype InitialAppValues = InitialAppValues(random: real, getal1: int, getal2: int)

  /** initializeAppValues: a clamped random value and two numbers drawn from
      [1, maxNumber], maxNumber being 10 unless given. */
  function InitializeAppValues(u1: Draw, u2: Draw, u3: Draw, maxNumber: int := 10): (v: InitialAppValues)
    ensures MinRandomValue <= v.random < 1.0
    ensures maxNumber >= 1 ==> 1 <= v.getal1 <= maxNumber && 1 <= v.getal2 <= maxNumber
  {
    InitialAppValues(GenerateRandomValue(u1), GenerateRandomNumber(u2, maxNumber), GenerateRandomNumber(u3, maxNumber))
  }

  // ---------------------------------------------------------------------------
  // Export as text
  // ---------------------------------------------------------------------------

  /** The header line of the export (unquoted). */
  const Header: string := "Tijdstip;Getal1;Operatie;Getal2;Resultaat"

  /** How a result is interpolated into text: the number's decimal form, or
      the text itself. */
  function ResultText(r: Result): string
  {
    match r
    case Num(n) => IntToString(n)
    case Str(s) => s
  }

  function Quote(x: string): string { "\"" + x + "\"" }

  /** The five values one row exports, before quoting, in column order. */
  function Fields(h: HistoryEntry): (f: seq<string>)
    ensures |f| == 5
  {
    [ReplaceAll(h.timestamp, ':', '-'), IntToString(h.getal1), h.symbol, IntToString(h.getal2), ResultText(h.result)]
  }

  /** One exported row: the five fields, each in double quotes, separated by
      semicolons; the timestamp has its colons turned into hyphens. */
  function Row(h: HistoryEntry): string
  {
    var f := Fields(h);
    Quote(f[0]) + ";" + Quote(f[1]) + ";" + Quote(f[2]) + ";" + Quote(f[3]) + ";" + Quote(f[4])
  }

  function Rows(history: seq<HistoryEntry>): (rows: seq<string>)
    ensures |rows| == |history|
    ensures forall i :: 0 <= i < |history| ==> rows[i] == Row(history[i])
  {
    seq(|history|, i requires 0 <= i < |history| => Row(history[i]))
  }

  /** convertHistoryToCSV: the header, a line break, then one row per entry,
      in history order, joined by line breaks. */
  function ConvertHistoryToCSV(history: seq<HistoryEntry>): (csv: string)
    ensures |csv| > |Header| && csv[..|Header| + 1] == Header + "\n"
    ensures history == [] ==> csv == Header + "\n"
  {
    var csv := Header + "\n" + Join(Rows(history), '\n');
    assert csv[..|Header| + 1] == Header + "\n";
    csv
  }

  /** No colon of the timestamp survives into its exported field, and every
      other character stays where it was. */
  lemma TimestampHasNoColon(h: HistoryEntry)
    ensures ':' !in Fields(h)[0]
    ensures |Fields(h)[0]| == |h.timestamp|
  {
    var t := Fields(h)[0];
    forall i | 0 <= i < |t| ensures t[i] != ':' {
    }
  }

  /** A row is the quoted fields joined by semicolons. */
  lemma RowIsQuotedFields(h: HistoryEntry)
    ensures Row(h) == Join([Quote(Fields(h)[0]), Quote(Fields(h)[1]), Quote(Fields(h)[2]),
                            Quote(Fields(h)[3]), Quote(Fields(h)[4])], ';')
  {
    var f := Fields(h);
    var q := [Quote(f[0]), Quote(f[1]), Quote(f[2]), Quote(f[3]), Quote(f[4])];
    assert Join(q[4..], ';') == q[4];
    assert Join(q[3..], ';') == q[3] + ";" + q[4] by { assert q[3..][1..] == q[4..]; }
    assert Join(q[2..], ';') == q[2] + ";" + q[3] + ";" + q[4] by { assert q[2..][1..] == q[3..]; }
    assert Join(q[1..], ';') == q[1] + ";" + q[2] + ";" + q[3] + ";" + q[4] by { assert q[1..][1..] == q[2..]; }
    assert Join(q, ';') == q[0] + ";" + q[1] + ";" + q[2] + ";" + q[3] + ";" + q[4];
  }

  /** A character that is neither a quote, a semicolon, a hyphen nor a digit
      occurs in a row only if it occurs in the timestamp, the symbol or the
      result text. */
  lemma RowCharacters(h: HistoryEntry, c: char)
    requires c != '"' && c != ';' && c != '-' && !IsDigit(c)
    requires c !in h.timestamp && c !in h.symbol && c !in ResultText(h.result)
    ensures c !in Row(h)
  {
    var t := ReplaceAll(h.timestamp, ':', '-');
    forall i | 0 <= i < |t| ensures t[i] != c {
    }
    assert c !in IntToString(h.getal1);
    assert c !in IntToString(h.getal2);
  }

  /** Splitting a row on ';' gives back the five quoted fields, as long as the
      symbol and the result text hold no semicolon and the timestamp none. */
  lemma RowFields(h: HistoryEntry)
    requires ';' !in h.timestamp && ';' !in h.symbol && ';' !in ResultText(h.result)
    ensures Split(Row(h), ';') == [Quote(Fields(h)[0]), Quote(Fields(h)[1]), Quote(Fields(h)[2]),
                                   Quote(Fields(h)[3]), Quote(Fields(h)[4])]
  {
    var f := Fields(h);
    var q := [Quote(f[0]), Quote(f[1]), Quote(f[2]), Quote(f[3]), Quote(f[4])];
    assert ';' !in f[0];
    assert ';' !in f[1] && ';' !in f[3];
    forall i | 0 <= i < 5 ensures ';' !in q[i] {
      assert q[i] == "\"" + f[i] + "\"";
    }
    RowIsQuotedFields(h);
    SplitJoin(q, ';');
  }

  /** Entries whose timestamp, symbol and result text hold no line break. */
  predicate SingleLine(history: seq<HistoryEntry>)
  {
    forall i :: 0 <= i < |history| ==>
      '\n' !in history[i].timestamp && '\n' !in history[i].symbol && '\n' !in ResultText(history[i].result)
  }

  /** The export read line by line: the header, then exactly one line per
      entry, each the row of that entry, in history order; an empty history
      leaves one empty line after the header's line break. */
  lemma CsvLines(history: seq<HistoryEntry>)
    requires SingleLine(history)
    ensures Split(ConvertHistoryToCSV(history), '\n') ==
      [Header] + (if history == [] then [""] else Rows(history))
  {
    var rows := Rows(history);
    forall i | 0 <= i < |rows| ensures '\n' !in rows[i] {
      RowCharacters(history[i], '\n');
    }
    assert '\n' !in Header;
    SplitAfterPiece(Header, '\n', Join(rows, '\n'));
    if history != [] {
      SplitJoin(rows, '\n');
    }
  }

  /** On single-line entries the export has exactly one more line than the
      history has entries, and line i + 1 is entry i's row. */
  lemma CsvLineCount(history: seq<HistoryEntry>)
    requires SingleLine(history) && history != []
    ensures |Split(ConvertHistoryToCSV(history), '\n')| == |history| + 1
    ensures forall i :: 0 <= i < |history| ==> Split(ConvertHistoryToCSV(history), '\n')[i + 1] == Row(history[i])
  {
    CsvLines(history);
  }
}
