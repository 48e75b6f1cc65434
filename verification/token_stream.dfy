/** `trampoline.TokenStream`: a one-token lookahead buffer in front of a token
    generator.  The generator is any source state `S` with a `pull` step, so
    the same buffering serves the list-backed `ExclusiveTokenStream` and the
    Mython lexer. */
module TokenStream {
  import opened Errors
  import opened Tokens
  import Text

  /** One `next(self.tokenizer)`: a token and the advanced source, or the exception raised. */
  datatype Pulled<S> = Pulled(tok: Token, rest: S) | PullFailed(err: Error)

  /** The stream: the generator's state and the buffered `next_token`. */
  datatype Stream<S> = Stream(src: S, next: Option<Token>)

  function Fresh<S>(src: S): Stream<S> {
    Stream(src, None)
  }

  /** `get_token`: hand out the buffered token, or pull a fresh one. */
  function GetToken<S>(pull: S -> Pulled<S>, s: Stream<S>): Result<(Token, Stream<S>)> {
    match s.next
    case Some(t) => Ok((t, Stream(s.src, None)))
    case None =>
      match pull(s.src)
      case Pulled(t, rest) => Ok((t, Stream(rest, None)))
      case PullFailed(e) => Err(e)
  }

  /** `get_lookahead`: pull into the buffer only when it is empty. */
  function GetLookahead<S>(pull: S -> Pulled<S>, s: Stream<S>): Result<(Token, Stream<S>)> {
    match s.next
    case Some(t) => Ok((t, s))
    case None =>
      match pull(s.src)
      case Pulled(t, rest) => Ok((t, Stream(rest, Some(t))))
      case PullFailed(e) => Err(e)
  }

  /** An element of the `*tokens` argument of `test_lookahead` and `expect`:
      a token kind or a literal text. */
  datatype Want = KindIs(k: int) | TextIs(t: string)

  predicate Matches(t: Token, wants: set<Want>) {
    KindIs(t.kind) in wants || TextIs(t.text) in wants
  }

  function TestLookahead<S>(pull: S -> Pulled<S>, s: Stream<S>, wants: set<Want>): Result<(bool, Stream<S>)> {
    var l :- GetLookahead(pull, s);
    Ok((Matches(l.0, wants), l.1))
  }

  /** A rendering of `str(token_tuple)`; only its prefix "Got " matters to callers. */
  function ShowToken(t: Token): string {
    "(" + Text.IntToDec(t.kind) + ", '" + t.text + "', (" + Text.IntToDec(t.start.line) + ", "
    + Text.IntToDec(t.start.col) + "), (" + Text.IntToDec(t.end.line) + ", "
    + Text.IntToDec(t.end.col) + "), '" + t.source + "')"
  }

  /** The source formats the `token` module, not the expected set, into the message. */
  function ExpectMessage(t: Token): string {
    "Got " + ShowToken(t) + ", expected <module 'token'>."
  }

  function Expect<S>(pull: S -> Pulled<S>, s: Stream<S>, wants: set<Want>): Result<(Token, Stream<S>)> {
    var g :- GetToken(pull, s);
    if Matches(g.0, wants) then Ok(g) else Err(SyntaxErr(ExpectMessage(g.0)))
  }

  // ---------------------------------------------------------------- properties

  /** A second `get_lookahead` returns the same token and pulls nothing. */
  lemma LookaheadIdempotent<S>(pull: S -> Pulled<S>, s: Stream<S>)
    ensures var r := GetLookahead(pull, s);
            r.Ok? ==> GetLookahead(pull, r.value.1) == r
    ensures var r := GetLookahead(pull, s);
            r.Ok? ==> r.value.1.next == Some(r.value.0)
  {
  }

  /** `get_token` after `get_lookahead` returns the buffered token without
      pulling, and leaves the buffer empty so the next `get_token` pulls. */
  lemma TokenAfterLookahead<S>(pull: S -> Pulled<S>, s: Stream<S>)
    ensures var r := GetLookahead(pull, s);
            r.Ok? ==>
              var g := GetToken(pull, r.value.1);
              && g.Ok?
              && g.value.0 == r.value.0
              && g.value.1.next.None?
              && g.value.1.src == r.value.1.src
              && GetToken(pull, g.value.1) == (match pull(r.value.1.src)
                                               case Pulled(t, rest) => Ok((t, Stream(rest, None)))
                                               case PullFailed(e) => Err(e))
  {
  }

  /** `test_lookahead` holds iff the lookahead's kind or text is wanted, and
      consumes nothing: it leaves the stream exactly as `get_lookahead` does. */
  lemma TestLookaheadSpec<S>(pull: S -> Pulled<S>, s: Stream<S>, wants: set<Want>)
    ensures var r := TestLookahead(pull, s, wants);
            var l := GetLookahead(pull, s);
            && (r.Ok? <==> l.Ok?)
            && (r.Ok? ==> r.value.1 == l.value.1 && r.value.1.next == Some(l.value.0))
            && (r.Ok? ==> (r.value.0 <==> (KindIs(l.value.0.kind) in wants || TextIs(l.value.0.text) in wants)))
  {
  }

  /** `expect` consumes exactly one token: the stream afterwards is the one
      `get_token` leaves; it returns that token iff its kind or text is wanted,
      and raises a SyntaxError otherwise. */
  lemma ExpectSpec<S>(pull: S -> Pulled<S>, s: Stream<S>, wants: set<Want>)
    ensures var r := Expect(pull, s, wants);
            var g := GetToken(pull, s);
            && (g.Err? ==> r == Err(g.error))
            && (g.Ok? && Matches(g.value.0, wants) ==> r == g)
            && (g.Ok? && !Matches(g.value.0, wants) ==> r.Err? && r.error.SyntaxErr?)
  {
  }

  // ------------------------------------------------- ExclusiveTokenStream

  /** `ExclusiveTokenStream.tokenize` over a finite token list: skip every
      token whose kind is excluded. */
  function ExclusivePull(excludes: set<int>, src: seq<Token>): (r: Pulled<seq<Token>>)
    ensures r.Pulled? ==> r.tok.kind !in excludes
    ensures r.Pulled? ==> exists k :: 0 <= k < |src| && src[k] == r.tok && r.rest == src[k + 1..]
                                      && forall j :: 0 <= j < k ==> src[j].kind in excludes
    ensures r.PullFailed? ==> r.err == StopIter && forall j :: 0 <= j < |src| ==> src[j].kind in excludes
  {
    if src == [] then PullFailed(StopIter)
    else if src[0].kind in excludes then
      var r := ExclusivePull(excludes, src[1..]);
      if r.Pulled? then
        ghost var k :| 0 <= k < |src[1..]| && src[1..][k] == r.tok && r.rest == src[1..][k + 1..]
                       && forall j :: 0 <= j < k ==> src[1..][j].kind in excludes;
        assert src[k + 1] == r.tok && r.rest == src[k + 2..];
        r
      else r
    else Pulled(src[0], src[1..])
  }

  /** The lookahead of an exclusive stream is never an excluded kind. */
  lemma ExclusiveLookahead(excludes: set<int>, s: Stream<seq<Token>>)
    requires s.next.Some? ==> s.next.value.kind !in excludes
    ensures var r := GetLookahead(src => ExclusivePull(excludes, src), s);
            r.Ok? ==> r.value.0.kind !in excludes && r.value.1.next.value.kind !in excludes
  {
  }
}
