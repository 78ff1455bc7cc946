/**
  `parseError`: turns whatever a route handler caught into the message and HTTP
  status it answers with.
 */
module Errors {

  /** A thrown `Error`: its `name` and its `message`. */
  datatype Thrown = Thrown(name: string, message: string)

  /** The message sent back: plain text, or the value `JSON.parse` makes of `source`. */
  datatype Message = Text(text: string) | ParsedJson(source: string)

  /** `{ ...error, message, status }`, reduced to the two fields the handlers read. */
  datatype StatusError = StatusError(message: Message, status: int)

  const PrismaValidationName: string := "PrismaClientValidationError"
  const ZodName: string := "ZodError"

  /** The error name decides the status: a database validation error, a request-validation error, anything else. */
  function ParseError(e: Thrown): (r: StatusError)
    ensures e.name == PrismaValidationName ==> r == StatusError(Text("error database!"), 500)
    ensures e.name == ZodName ==> r == StatusError(ParsedJson(e.message), 400)
    ensures e.name != PrismaValidationName && e.name != ZodName ==> r == StatusError(Text(e.message), 404)
  {
    if e.name == PrismaValidationName then StatusError(Text("error database!"), 500)
    else if e.name == ZodName then StatusError(ParsedJson(e.message), 400)
    else StatusError(Text(e.message), 404)
  }

  /** Every answer is a 400, a 404 or a 500. */
  lemma StatusInRange(e: Thrown)
    ensures ParseError(e).status in {400, 404, 500}
  {
  }

  /** The status depends on the error's name alone, never on its message. */
  lemma StatusDependsOnName(e: Thrown, f: Thrown)
    requires e.name == f.name
    ensures ParseError(e).status == ParseError(f).status
  {
  }

  /** Read back, the status tells which kind of error was caught. */
  lemma StatusIdentifiesKind(e: Thrown)
    ensures ParseError(e).status == 500 <==> e.name == PrismaValidationName
    ensures ParseError(e).status == 400 <==> e.name == ZodName
    ensures ParseError(e).status == 404 <==> e.name != PrismaValidationName && e.name != ZodName
  {
  }

  /** Only a database validation error loses its message; every other error's message can be recovered from the answer. */
  lemma MessageKept(e: Thrown)
    requires e.name != PrismaValidationName
    ensures match ParseError(e).message
      case Text(t) => t == e.message
      case ParsedJson(source) => source == e.message
  {
  }

  /** Two different messages on the same non-database error give two different answers. */
  lemma ParseErrorInjective(e: Thrown, f: Thrown)
    requires e.name == f.name && e.name != PrismaValidationName
    requires ParseError(e) == ParseError(f)
    ensures e == f
  {
    MessageKept(e);
    MessageKept(f);
  }
}
