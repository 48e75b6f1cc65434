/** Tokens as the lexer yields them: `(kind, text, start, end, line)`.
    Kind numbers follow the `token` and `tokenize` modules of Python 2.7
    (the parser glue imports `StringIO` and calls `.next`, so the system runs
    on Python 2); the three Mython kinds are allocated just past
    `tokenize.N_TOKENS`. */
module Tokens {

  datatype Pos = Pos(line: int, col: int)

  datatype Token = Token(kind: int, text: string, start: Pos, end: Pos, source: string)

  const ENDMARKER: int := 0
  const NAME: int := 1
  const NUMBER: int := 2
  const STRING: int := 3
  const NEWLINE: int := 4
  const INDENT: int := 5
  const DEDENT: int := 6
  const OP: int := 51
  const ERRORTOKEN: int := 52
  /** `tokenize` adds COMMENT and NL after the `token` module's kinds. */
  const COMMENT: int := 53
  const NL: int := 54
  /** `tokenize.N_TOKENS`. */
  const N_TOKENS: int := 55
  const NT_OFFSET: int := 256

  const BANG: int := N_TOKENS
  const MYEXPR: int := N_TOKENS + 1
  const MYSUITE: int := N_TOKENS + 2

  /** `MythonTokenStream.make_token`: shift both columns by the stream's
      column offset, keep everything else. */
  function MakeToken(columnOffset: int, kind: int, text: string, start: Pos, end: Pos, source: string): (t: Token)
    ensures t.kind == kind && t.text == text && t.source == source
    ensures t.start.line == start.line && t.end.line == end.line
    ensures t.start.col - start.col == columnOffset && t.end.col - end.col == columnOffset
  {
    Token(kind, text, Pos(start.line, start.col + columnOffset), Pos(end.line, end.col + columnOffset), source)
  }
}
