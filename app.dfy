/** The calculator's state and its one state-changing step: draw two numbers
    and an operation, show them, and record the calculation at the head of a
    history of at most ten. */
module App {
  import opened Types
  import Options
  import opened Helpers
  import opened HistoryStore

  /** With every draw 0 and maximum 10, both numbers are 1, the first
      operation (Som) is selected, and the result is 2. */
  lemma ZeroDrawExample()
    ensures GenerateRandomNumber(0.0, 10) == 1
    ensures GenerateRandomOperation(Options.Table, 0.0) == Some(Options.Table[0])
    ensures Options.Table[0].name == "Som" && Options.Table[0].func(1, 1) == Num(2)
  {
    OperationIndexMonotone(|Options.Table|, 0.0, 0.0);
  }

  class AppState {
    var random: real
    var getal1: int
    var getal2: int
    var maxNumber: int
    var history: seq<HistoryEntry>

    /** The random value is a draw, so it always selects an operation; the
        maximum and the shown numbers are at least one. */
    ghost predicate Valid()
      reads this
    {
      0.0 <= random < 1.0 && maxNumber >= 1 && getal1 >= 1 && getal2 >= 1
    }

    /** Start-up: the initial values drawn with maximum 10, the slider at 10,
        and the history the persisted slot yields. */
    constructor (u1: Draw, u2: Draw, u3: Draw, stored: Stored<HistoryEntry>)
      ensures Valid()
      ensures random == InitializeAppValues(u1, u2, u3).random && random >= MinRandomValue
      ensures getal1 == InitializeAppValues(u1, u2, u3).getal1 && getal1 <= 10
      ensures getal2 == InitializeAppValues(u1, u2, u3).getal2 && getal2 <= 10
      ensures maxNumber == 10
      ensures history == LoadHistory(stored)
    {
      var initialValues := InitializeAppValues(u1, u2, u3, 10);
      random := initialValues.random;
      getal1 := initialValues.getal1;
      getal2 := initialValues.getal2;
      maxNumber := 10;
      history := LoadHistory(stored);
    }

    /** The operation shown for the current random value. */
    function CurrentOp(): (op: Operation)
      reads this
      requires Valid()
      ensures 0 <= OperationIndex(|Options.Table|, random) < |Options.Table|
      ensures op == Options.Table[OperationIndex(|Options.Table|, random)]
    {
      GenerateRandomOperation(Options.Table, random).value
    }

    /** The slider sets the maximum to a whole number from 5 to 100. */
    method SetMaxNumber(value: int)
      requires Valid()
      requires 5 <= value <= 100
      modifies this
      ensures Valid()
      ensures maxNumber == value
      ensures random == old(random) && getal1 == old(getal1) && getal2 == old(getal2)
      ensures history == old(history)
    {
      maxNumber := value;
    }

    /** The text the export button hands to the download. */
    method ExportHistory() returns (csv: string)
      ensures csv == ConvertHistoryToCSV(history)
    {
      csv := ConvertHistoryToCSV(history);
    }

    /** One generation step with draws u1 (the new random value), u2 and u3
        (the two numbers), identifier id and timestamp ts. */
    method GenerateNew(u1: Draw, u2: Draw, u3: Draw, id: int, ts: string)
      requires Valid()
      modifies this
      ensures Valid()
      ensures maxNumber == old(maxNumber)
      // the shown values are the new draws, the numbers within [1, maxNumber]
      ensures random == u1
      ensures getal1 == GenerateRandomNumber(u2, maxNumber) && 1 <= getal1 <= maxNumber
      ensures getal2 == GenerateRandomNumber(u3, maxNumber) && 1 <= getal2 <= maxNumber
      // the new entry records exactly what is shown, with the result of the
      // shown operation, which is never the "∞" marker
      ensures history != []
      ensures history[0] == HistoryEntry(id, getal1, getal2, CurrentOp().name, CurrentOp().symbol,
                                         CurrentOp().func(getal1, getal2), ts)
      ensures history[0].result != Str(Options.Infinity)
      // the entry goes to the head of a history of at most ten
      ensures history == Push(old(history), history[0])
      ensures |history| <= Capacity
      ensures history[1..] == old(history)[..Min(Capacity - 1, |old(history)|)]
      ensures |old(history)| < Capacity ==> |history| == |old(history)| + 1
    {
      var newRandom := u1;
      var newGetal1 := GenerateRandomNumber(u2, maxNumber);
      var newGetal2 := GenerateRandomNumber(u3, maxNumber);
      var op := GenerateRandomOperation(Options.Table, newRandom).value;
      var result := op.func(newGetal1, newGetal2);
      Options.GeneratedOperandsAreFinite(newGetal1, newGetal2);

      random := newRandom;
      getal1 := newGetal1;
      getal2 := newGetal2;

      var newEntry := HistoryEntry(id, newGetal1, newGetal2, op.name, op.symbol, result, ts);
      history := Push(history, newEntry);
    }
  }
}
