/** The command language of user/src/sh/main.c: what its recursive parser computes from a text, as
    functions of the text and a position.  Words are kept as positions in the text, as argv and
    eargv, file and efile keep them. */
module Shell {

  const MAXARGS: nat := 10

  /** The characters from q up to eq. */
  datatype Span = Span(q: nat, eq: nat)

  /** output: O_WRONLY | O_CREAT on descriptor 1; otherwise O_RDONLY on descriptor 0. */
  datatype Redirection<W> = Redirection(file: W, output: bool)

  datatype Cmd<W> =
    | Exec(argv: seq<W>)
    | Redir(cmd: Cmd<W>, redirection: Redirection<W>)
    | Pipe(left: Cmd<W>, right: Cmd<W>)
    | List(left: Cmd<W>, right: Cmd<W>)
    | Back(cmd: Cmd<W>)

  datatype Error = MissingFile | MissingParen | Syntax | TooManyArgs | Leftovers

  datatype Parsed = Ok(cmd: Cmd<Span>, pos: nat) | Fail(error: Error)
  datatype Redirects = Redirects(redirs: seq<Redirection<Span>>, pos: nat) | NoFile
  datatype Arguments = Arguments(argv: seq<Span>, redirs: seq<Redirection<Span>>, pos: nat) | Bad(error: Error)

  // Characters and tokens

  predicate IsSpace(c: char) { c == ' ' || c == '\t' || c == '\r' || c == '\n' || c == '\U{000B}' }

  predicate IsSymbol(c: char) { c == '<' || c == '|' || c == '>' || c == '&' || c == ';' || c == '(' || c == ')' }

  predicate IsWord(c: char) { !IsSpace(c) && !IsSymbol(c) && c != '\0' }

  /** The character at a position; NUL at the end of the text. */
  function At(t: string, p: nat): char { if p < |t| then t[p] else '\0' }

  function SkipSpace(t: string, p: nat): (r: nat)
    requires p <= |t|
    ensures p <= r <= |t| && !IsSpace(At(t, r))
    decreases |t| - p
  {
    if p < |t| && IsSpace(t[p]) then SkipSpace(t, p + 1) else p
  }

  function WordEnd(t: string, p: nat): (r: nat)
    requires p <= |t|
    ensures p <= r <= |t| && (r == |t| || !IsWord(t[r])) && forall i | p <= i < r :: IsWord(t[i])
    decreases |t| - p
  {
    if p < |t| && IsWord(t[p]) then WordEnd(t, p + 1) else p
  }

  /** What gettoken returns: the token, where it starts and ends, and where to go on. */
  datatype Token = Token(kind: char, span: Span, next: nat)

  function TokenAt(t: string, p: nat): (k: Token)
    requires p <= |t|
    ensures p <= k.next <= |t| && (k.kind != '\0' ==> p < k.next)
    ensures k.kind == 'a' ==> GoodSpan(t, k.span)
  {
    var q := SkipSpace(t, p);
    var c := At(t, q);
    var kind, eq :=
      if c == '\0' then '\0' else if c == '>' then (if At(t, q + 1) == '>' then '+' else '>') else if IsSymbol(c) then c else 'a',
      if c == '\0' then q else if c == '>' && At(t, q + 1) == '>' then q + 2 else if IsSymbol(c) then q + 1 else WordEnd(t, q);
    Token(kind, Span(q, eq), SkipSpace(t, eq))
  }

  /** A whole word: it can not be made longer at its end. */
  predicate GoodSpan(t: string, w: Span) {
    w.q < w.eq <= |t| && (w.eq == |t| || !IsWord(t[w.eq])) && forall i | w.q <= i < w.eq :: IsWord(t[i])
  }

  ghost predicate GoodRedirs(t: string, rs: seq<Redirection<Span>>) {
    forall i | 0 <= i < |rs| :: GoodSpan(t, rs[i].file)
  }

  /** Every word of a tree is a whole word of the text, and no command has more than nine. */
  ghost predicate Good(t: string, c: Cmd<Span>) {
    match c
    case Exec(argv) => |argv| < MAXARGS && forall i | 0 <= i < |argv| :: GoodSpan(t, argv[i])
    case Redir(d, r) => Good(t, d) && GoodSpan(t, r.file)
    case Pipe(l, r) => Good(t, l) && Good(t, r)
    case List(l, r) => Good(t, l) && Good(t, r)
    case Back(d) => Good(t, d)
  }

  /** Redirections around a command, the last one outermost. */
  function Wrapped<W>(c: Cmd<W>, rs: seq<Redirection<W>>): Cmd<W>
    decreases |rs|
  {
    if rs == [] then c else Wrapped(Redir(c, rs[0]), rs[1..])
  }

  lemma {:induction false} WrappedGood(t: string, c: Cmd<Span>, rs: seq<Redirection<Span>>)
    requires Good(t, c) && GoodRedirs(t, rs)
    ensures Good(t, Wrapped(c, rs))
    decreases |rs|
  {
    if rs != [] {
      WrappedGood(t, Redir(c, rs[0]), rs[1..]);
    }
  }

  // The grammar

  function Redirected(ghost t: string, c: Cmd<Span>, rs: seq<Redirection<Span>>, p: nat): (r: Parsed)
    requires Good(t, c) && GoodRedirs(t, rs)
    ensures r == Ok(Wrapped(c, rs), p) && Good(t, r.cmd)
  {
    WrappedGood(t, c, rs);
    Ok(Wrapped(c, rs), p)
  }

  function RedirsFrom(t: string, p: nat): (r: Redirects)
    requires p <= |t|
    ensures r.Redirects? ==> p <= r.pos <= |t| && GoodRedirs(t, r.redirs)
    ensures r.Redirects? && r.redirs != [] ==> At(t, SkipSpace(t, p)) == if r.redirs[0].output then '>' else '<'
    decreases |t| - p
  {
    var p1 := SkipSpace(t, p);
    if At(t, p1) == '<' || At(t, p1) == '>' then
      var k := TokenAt(t, p1);
      var f := TokenAt(t, k.next);
      if f.kind != 'a' then NoFile
      else match RedirsFrom(t, f.next)
           case NoFile => NoFile
           case Redirects(rs, pos) => Redirects([Redirection(f.span, k.kind != '<')] + rs, pos)
    else Redirects([], p1)
  }

  function WordsFrom(t: string, argv: seq<Span>, redirs: seq<Redirection<Span>>, p: nat): (r: Arguments)
    requires p <= |t| && |argv| < MAXARGS && GoodRedirs(t, redirs) && forall i | 0 <= i < |argv| :: GoodSpan(t, argv[i])
    ensures r.Arguments? ==> p <= r.pos <= |t| && Good(t, Exec(r.argv)) && GoodRedirs(t, r.redirs)
    decreases |t| - p
  {
    var p1 := SkipSpace(t, p);
    var c := At(t, p1);
    if c == '|' || c == ')' || c == '&' || c == ';' then Arguments(argv, redirs, p1)
    else
      var k := TokenAt(t, p1);
      if k.kind == '\0' then Arguments(argv, redirs, k.next)
      else if k.kind != 'a' then Bad(Syntax)
      else if |argv| + 1 >= MAXARGS then Bad(TooManyArgs)
      else match RedirsFrom(t, k.next)
           case NoFile => Bad(MissingFile)
           case Redirects(rs, pos) => WordsFrom(t, argv + [k.span], redirs + rs, pos)
  }

  function ExecFrom(t: string, p: nat): (r: Parsed)
    requires p <= |t|
    ensures r.Ok? ==> p <= r.pos <= |t| && Good(t, r.cmd)
    decreases |t| - p, 1
  {
    var p1 := SkipSpace(t, p);
    if At(t, p1) == '(' then BlockFrom(t, p1)
    else match RedirsFrom(t, p1)
         case NoFile => Fail(MissingFile)
         case Redirects(rs, p2) =>
           match WordsFrom(t, [], rs, p2)
           case Bad(e) => Fail(e)
           case Arguments(argv, redirs, p3) => Redirected(t, Exec(argv), redirs, p3)
  }

  function BlockFrom(t: string, p: nat): (r: Parsed)
    requires p <= |t| && At(t, p) == '('
    ensures r.Ok? ==> p <= r.pos <= |t| && Good(t, r.cmd)
    decreases |t| - p, 0
  {
    match LineFrom(t, TokenAt(t, p).next)
    case Fail(e) => Fail(e)
    case Ok(c, p1) =>
      var p2 := SkipSpace(t, p1);
      if At(t, p2) != ')' then Fail(MissingParen)
      else match RedirsFrom(t, TokenAt(t, p2).next)
           case NoFile => Fail(MissingFile)
           case Redirects(rs, p3) => Redirected(t, c, rs, p3)
  }

  function PipeFrom(t: string, p: nat): (r: Parsed)
    requires p <= |t|
    ensures r.Ok? ==> p <= r.pos <= |t| && Good(t, r.cmd)
    decreases |t| - p, 2
  {
    match ExecFrom(t, p)
    case Fail(e) => Fail(e)
    case Ok(c, p1) =>
      var p2 := SkipSpace(t, p1);
      if At(t, p2) != '|' then Ok(c, p2)
      else match PipeFrom(t, TokenAt(t, p2).next)
           case Fail(e) => Fail(e)
           case Ok(d, p3) => Ok(Pipe(c, d), p3)
  }

  function BacksFrom(t: string, c: Cmd<Span>, p: nat): (r: Parsed)
    requires p <= |t| && Good(t, c)
    ensures r.Ok? && p <= r.pos <= |t| && Good(t, r.cmd)
    decreases |t| - p
  {
    var p1 := SkipSpace(t, p);
    if At(t, p1) == '&' then BacksFrom(t, Back(c), TokenAt(t, p1).next) else Ok(c, p1)
  }

  /** A pipeline and the ampersands behind it. */
  function HeadFrom(t: string, p: nat): (r: Parsed)
    requires p <= |t|
    ensures r.Ok? ==> p <= r.pos <= |t| && Good(t, r.cmd)
    decreases |t| - p, 3
  {
    match PipeFrom(t, p)
    case Fail(e) => Fail(e)
    case Ok(c, p1) => BacksFrom(t, c, p1)
  }

  function LineFrom(t: string, p: nat): (r: Parsed)
    requires p <= |t|
    ensures r.Ok? ==> p <= r.pos <= |t| && Good(t, r.cmd)
    decreases |t| - p, 4
  {
    match HeadFrom(t, p)
    case Fail(e) => Fail(e)
    case Ok(c, p1) =>
      if At(t, p1) != ';' then Ok(c, p1)
      else match LineFrom(t, TokenAt(t, p1).next)
           case Fail(e) => Fail(e)
           case Ok(d, p2) => Ok(List(c, d), p2)
  }

  function Parse(t: string): (r: Parsed)
    ensures r.Ok? ==> r.pos == |t| && Good(t, r.cmd)
  {
    match LineFrom(t, 0)
    case Fail(e) => Fail(e)
    case Ok(c, p) => if SkipSpace(t, p) != |t| then Fail(Leftovers) else Ok(c, |t|)
  }
}
