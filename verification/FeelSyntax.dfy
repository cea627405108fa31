/** FEEL values, tokens and parsed expressions. */
module FeelSyntax {

  import opened FeelNumbers

  /** A FEEL value. Dates and times are instants with a display zone; durations are in nanoseconds
      (days and time) or months (years and months). */
  datatype Value =
    | Null
    | Boolean(b: bool)
    | Text(s: string)
    | Numeric(n: Num)
    | List(items: seq<Value>)
    | Context(entries: map<string, Value>)
    | Date(instant: int, zone: int)
    | DateTime(instant: int, zone: int)
    | DayTime(nanos: int)
    | YearMonth(months: int)
    | Range(lo: Value, hi: Value, loClosed: bool, hiClosed: bool)

  // ----- tokens -----

  /** A name token: the words the parser tests for, and any other name. */
  datatype Word =
    | If | Then | Else | For | Return | SomeOf | Every | Satisfies | In | And | Or | Between | Not
    | True | False | NullWord
    | Plain(text: string)

  datatype Mark =
    | DotDot | Power | NotEqual | AtMost | AtLeast | OpenParen | CloseParen | OpenBracket | CloseBracket
    | OpenBrace | CloseBrace | Comma | Colon | Dot | Plus | Minus | Star | Slash | Equal | Less | Greater

  datatype Token = Eof | NumberToken(text: string) | StringToken(text: string) | Name(word: Word) | Temporal(text: string) | Punct(mark: Mark)

  function TextOf(w: Word): string {
    match w
    case If => "if" case Then => "then" case Else => "else" case For => "for" case Return => "return"
    case SomeOf => "some" case Every => "every" case Satisfies => "satisfies" case In => "in" case And => "and"
    case Or => "or" case Between => "between" case Not => "not"
    case True => "true" case False => "false" case NullWord => "null"
    case Plain(text) => text
  }

  /** The word a name is lexed as. */
  function WordOf(s: string): (w: Word)
    ensures TextOf(w) == s
  {
    if s == "if" then If else if s == "then" then Then else if s == "else" then Else
    else if s == "for" then For else if s == "return" then Return else if s == "some" then SomeOf
    else if s == "every" then Every else if s == "satisfies" then Satisfies else if s == "in" then In
    else if s == "and" then And else if s == "or" then Or else if s == "between" then Between
    else if s == "not" then Not else if s == "true" then True else if s == "false" then False
    else if s == "null" then NullWord else Plain(s)
  }

  // ----- expressions -----

  datatype BinaryOp =
    | OrOp | AndOp | EqOp | NeOp | LtOp | LeOp | GtOp | GeOp | AddOp | SubOp | MulOp | DivOp | PowOp

  datatype Iterator = Iterator(name: string, source: Node)

  datatype Entry = Entry(key: string, value: Node)

  /** A parsed expression. Function and argument names are the words they are made of. */
  datatype Node =
    | Literal(v: Value)
    | Variable(name: string)
    | Negation(x: Node)
    | Binary(op: BinaryOp, l: Node, r: Node)
    | BetweenNode(x: Node, lo: Node, hi: Node)
    | InNode(x: Node, tests: seq<Node>)
    | IfNode(cond: Node, yes: Node, no: Node)
    | ForNode(iters: seq<Iterator>, body: Node)
    | QuantNode(every: bool, iters: seq<Iterator>, cond: Node)
    | ListNode(elements: seq<Node>)
    | ContextNode(fields: seq<Entry>)
    | RangeNode(lo: Node, hi: Node, loClosed: bool, hiClosed: bool)
    | PathNode(x: Node, name: string)
    | FilterNode(x: Node, cond: Node)
    | CallNode(fn: seq<Word>, args: seq<Node>, named: map<seq<Word>, Node>)
    | CompareTest(op: BinaryOp, x: Node)
    | AnyTest
    | NotTest(tests: seq<Node>)

  predicate IsComparison(op: BinaryOp) {
    op.EqOp? || op.NeOp? || op.LtOp? || op.LeOp? || op.GtOp? || op.GeOp?
  }
}
