/** The shared record types of the calculator: what an operation is, what it
    yields, and what one line of the calculation history holds. */
module Types {

  /** What an operation yields: a number, or a text such as the "∞" marker or
      a quotient printed with two decimals (TypeScript's `number | string`). */
  datatype Result = Num(n: int) | Str(s: string)

  /** The icon component drawn next to an operation. */
  datatype Icon = Plus | Times | Minus | Divide | Superscript

  /** One of the arithmetic operations the generator can draw. Operands are the
      positive whole numbers the generator produces, so `nat` covers every call. */
  datatype Operation = Operation(
    name: string,
    symbol: string,
    icon: Icon,
    func: (nat, nat) -> Result,
    color: string)

  /** One past calculation, newest first in the history. */
  datatype HistoryEntry = HistoryEntry(
    id: int,
    getal1: int,
    getal2: int,
    operation: string,
    symbol: string,
    result: Result,
    timestamp: string)
}
