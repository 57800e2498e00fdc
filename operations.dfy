/** The styling the history list draws next to an operation, looked up by the
    operation's symbol. */
module Operations {
  import opened Types
  import Options

  /** Icon, text colour classes and background colour classes for a symbol. */
  datatype OperationInfo = OperationInfo(icon: Icon, colorClasses: string, bgClasses: string)

  /** The text colour class of colour x. */
  function TextClass(x: string): string { "text-" + x + "-500" }

  /** The light and dark background classes of colour x. */
  function BgClass(x: string): string { "bg-" + x + "-100 dark:bg-" + x + "-900/30" }

  /** The fallback for any symbol that is not one of the five. */
  const Fallback: OperationInfo :=
    OperationInfo(Plus, "text-gray-500", "bg-gray-100 dark:bg-gray-900/30")

  /** The literal class strings of each colour are the ones TextClass and
      BgClass build. */
  lemma GreenClasses() ensures "text-green-500" == TextClass("green") && "bg-green-100 dark:bg-green-900/30" == BgClass("green") {}
  lemma RedClasses() ensures "text-red-500" == TextClass("red") && "bg-red-100 dark:bg-red-900/30" == BgClass("red") {}
  lemma BlueClasses() ensures "text-blue-500" == TextClass("blue") && "bg-blue-100 dark:bg-blue-900/30" == BgClass("blue") {}
  lemma PurpleClasses() ensures "text-purple-500" == TextClass("purple") && "bg-purple-100 dark:bg-purple-900/30" == BgClass("purple") {}
  lemma OrangeClasses() ensures "text-orange-500" == TextClass("orange") && "bg-orange-100 dark:bg-orange-900/30" == BgClass("orange") {}
  lemma GrayClasses() ensures "text-gray-500" == TextClass("gray") && "bg-gray-100 dark:bg-gray-900/30" == BgClass("gray") {}

  /** Different colours give different text classes. */
  lemma TextClassInjective(x: string, y: string)
    ensures TextClass(x) == TextClass(y) <==> x == y
  {
    assert x == TextClass(x)[5..|TextClass(x)| - 4];
    assert y == TextClass(y)[5..|TextClass(y)| - 4];
  }

  /** The symbol lookup: one case per known symbol, a gray fallback for the
      rest. Whatever the symbol, the text and background classes are built on
      one and the same colour. */
  function GetOperationInfo(symbol: string): (info: OperationInfo)
    ensures exists x :: info.colorClasses == TextClass(x) && info.bgClasses == BgClass(x)
  {
    if symbol == "+" then
      GreenClasses();
      OperationInfo(Plus, "text-green-500", "bg-green-100 dark:bg-green-900/30")
    else if symbol == "×" then
      RedClasses();
      OperationInfo(Times, "text-red-500", "bg-red-100 dark:bg-red-900/30")
    else if symbol == "-" then
      BlueClasses();
      OperationInfo(Minus, "text-blue-500", "bg-blue-100 dark:bg-blue-900/30")
    else if symbol == "÷" then
      PurpleClasses();
      OperationInfo(Divide, "text-purple-500", "bg-purple-100 dark:bg-purple-900/30")
    else if symbol == "^" then
      OrangeClasses();
      OperationInfo(Superscript, "text-orange-500", "bg-orange-100 dark:bg-orange-900/30")
    else
      GrayClasses();
      Fallback
  }

  /** Is symbol the symbol of some entry of the operation table? */
  predicate IsTableSymbol(symbol: string)
  {
    exists i :: 0 <= i < |Options.Table| && Options.Table[i].symbol == symbol
  }

  /** For every entry of the operation table, the lookup by its symbol gives
      that entry's icon and the text and background classes of its colour. */
  lemma InfoAgreesWithTable(i: nat)
    requires i < |Options.Table|
    ensures var op := Options.Table[i];
      GetOperationInfo(op.symbol) == OperationInfo(op.icon, TextClass(op.color), BgClass(op.color))
  {
    match i
    case 0 => GreenClasses();
    case 1 => RedClasses();
    case 2 => BlueClasses();
    case 3 => PurpleClasses();
    case 4 => OrangeClasses();
  }

  /** A symbol gets the gray fallback exactly when it is not in the table; the
      lookup never fails. */
  lemma GrayIffUnknown(symbol: string)
    ensures GetOperationInfo(symbol) == Fallback <==> !IsTableSymbol(symbol)
    ensures GetOperationInfo(symbol).colorClasses == TextClass("gray") <==> !IsTableSymbol(symbol)
  {
    GrayClasses();
    if IsTableSymbol(symbol) {
      var i :| 0 <= i < |Options.Table| && Options.Table[i].symbol == symbol;
      InfoAgreesWithTable(i);
      TextClassInjective(Options.Table[i].color, "gray");
    } else {
      var t := Options.Table;
      assert symbol != t[0].symbol && symbol != t[1].symbol && symbol != t[2].symbol;
      assert symbol != t[3].symbol && symbol != t[4].symbol;
    }
  }
}
