/** The parser of user/src/sh/main.c at work on a buffer: it moves a position over the text, and at
    the end writes a NUL behind every word. */
module ShellParser {
  import opened Shell
  import opened ShellGrammar
  import opened ShellText

  class Parser {
    const buf: array<char>
    const es: nat
    var s: nat

    constructor (buf: array<char>, es: nat)
      ensures this.buf == buf && this.es == es && s == 0
    {
      this.buf, this.es, this.s := buf, es, 0;
    }

    ghost function Text(): string
      reads buf
      requires es <= buf.Length
    {
      buf[..es]
    }

    ghost predicate Valid()
      reads this, buf
    {
      s <= es < buf.Length && buf[es] == '\0' && forall i | 0 <= i < es :: buf[i] != '\0'
    }

    method SkipSpaces(p: nat) returns (r: nat)
      requires Valid() && p <= es
      ensures r == SkipSpace(Text(), p)
    {
      r := p;
      while r < es && IsSpace(buf[r])
        invariant p <= r <= es && SkipSpace(Text(), p) == SkipSpace(Text(), r)
      {
        r := r + 1;
      }
    }

    method GetToken() returns (ret: char, w: Span)
      requires Valid()
      modifies this`s
      ensures Valid() && TokenAt(Text(), old(s)) == Token(ret, w, s)
      ensures Lexeme(Text(), old(s), Token(ret, w, s))
      ensures At(Text(), SkipSpace(Text(), old(s))) != '\0' ==> s > old(s)
    {
      hide Lexeme;
      var p := SkipSpaces(s);
      var q := p;
      ret := buf[p];
      if buf[p] == '\0' {
      } else if buf[p] == '>' {
        p := p + 1;
        if buf[p] == '>' {
          ret := '+';
          p := p + 1;
        }
      } else if IsSymbol(buf[p]) {
        p := p + 1;
      } else {
        ret := 'a';
        while p < es && !IsSpace(buf[p]) && !IsSymbol(buf[p])
          invariant q <= p <= es && WordEnd(Text(), q) == WordEnd(Text(), p)
        {
          p := p + 1;
        }
      }
      w := Span(q, p);
      s := SkipSpaces(p);
      TokenLaw(Text(), old(s), Token(ret, w, s));
    }

    method Peek(toks: string) returns (r: bool)
      requires Valid()
      modifies this`s
      ensures Valid() && s == SkipSpace(Text(), old(s)) == SkipSpace(Text(), s) && (r <==> At(Text(), s) != '\0' && At(Text(), s) in toks)
    {
      s := SkipSpaces(s);
      SkipTwice(Text(), old(s));
      return buf[s] != '\0' && buf[s] in toks;
    }

    /** The redirections found; the caller puts them around its command. */
    method ParseRedirs() returns (r: Redirects)
      requires Valid()
      modifies this`s
      ensures Valid() && r == RedirsFrom(Text(), old(s)) && (r.Redirects? ==> s == r.pos)
    {
      hide TokenAt, Lexeme, SkipSpace, RedirsFrom, At, GoodSpan;
      ghost var t, p0 := Text(), s;
      SkipTwice(t, s);
      var rs: seq<Redirection<Span>> := [];
      var more := Peek("<>");
      while more
        invariant Valid() && Text() == t && SkipSpace(t, s) == s
        invariant more <==> At(t, s) == '<' || At(t, s) == '>'
        invariant RedirsFrom(t, p0) == Behind(rs, RedirsFrom(t, s))
        decreases es - s
      {
        RedirsStep(t, s, rs);
        var tok, _ := GetToken();
        var a, file := GetToken();
        if a != 'a' {
          return NoFile;
        }
        rs := rs + [Redirection(file, tok != '<')];
        SkipTwice(t, s);
        more := Peek("<>");
      }
      RedirsEnd(t, s, rs);
      return Redirects(rs, s);
    }

    method ParseExec() returns (r: Parsed)
      requires Valid()
      modifies this`s
      ensures Valid() && r == ExecFrom(Text(), old(s)) && (r.Ok? ==> s == r.pos)
      decreases es - s, 1
    {
      hide TokenAt, Lexeme, SkipSpace, RedirsFrom, WordsFrom, BlockFrom, At, GoodSpan;
      ghost var t := Text();
      SkipTwice(t, s);
      var block := Peek("(");
      if block {
        r := ParseBlock();
        return;
      }
      var argv := new Span[MAXARGS];
      var argc := 0;
      var rs := ParseRedirs();
      if rs.NoFile? {
        return Fail(MissingFile);
      }
      var redirs := rs.redirs;
      ghost var p0 := s;
      while true
        invariant Valid() && argc < MAXARGS && fresh(argv) && argv.Length == MAXARGS && Text() == t
        invariant Good(t, Exec(argv[..argc])) && GoodRedirs(t, redirs)
        invariant WordsFrom(t, [], rs.redirs, p0) == WordsFrom(t, argv[..argc], redirs, s)
        decreases es - s
      {
        WordsCases(t, argv[..argc], redirs, s);
        var stop := Peek("|)&;");
        if stop {
          break;
        }
        var tok, w := GetToken();
        if tok == '\0' {
          break;
        }
        if tok != 'a' {
          return Fail(Syntax);
        }
        ghost var before := argv[..argc];
        argv[argc] := w;
        argc := argc + 1;
        assert argv[..argc] == before + [w];
        if argc >= MAXARGS {
          return Fail(TooManyArgs);
        }
        var more := ParseRedirs();
        if more.NoFile? {
          return Fail(MissingFile);
        }
        redirs := redirs + more.redirs;
      }
      return Ok(Wrapped(Exec(argv[..argc]), redirs), s);
    }

    method ParseBlock() returns (r: Parsed)
      requires Valid() && At(Text(), s) == '('
      modifies this`s
      ensures Valid() && r == BlockFrom(Text(), old(s)) && (r.Ok? ==> s == r.pos)
      decreases es - s, 0
    {
      hide TokenAt, Lexeme, RedirsFrom, LineFrom, GoodSpan;
      var isOpen := Peek("(");
      var openTok, _ := GetToken();
      r := ParseLine();
      if r.Fail? {
        return;
      }
      var isClosed := Peek(")");
      if !isClosed {
        return Fail(MissingParen);
      }
      var closeTok, _ := GetToken();
      var rs := ParseRedirs();
      if rs.NoFile? {
        return Fail(MissingFile);
      }
      return Ok(Wrapped(r.cmd, rs.redirs), s);
    }

    method ParsePipe() returns (r: Parsed)
      requires Valid()
      modifies this`s
      ensures Valid() && r == PipeFrom(Text(), old(s)) && (r.Ok? ==> s == r.pos)
      decreases es - s, 2
    {
      hide TokenAt, Lexeme, ExecFrom, GoodSpan;
      r := ParseExec();
      if r.Fail? {
        return;
      }
      var bar := Peek("|");
      if bar {
        var barTok, _ := GetToken();
        var right := ParsePipe();
        if right.Fail? {
          return right;
        }
        return Ok(Pipe(r.cmd, right.cmd), s);
      }
      return Ok(r.cmd, s);
    }

    method ParseLine() returns (r: Parsed)
      requires Valid()
      modifies this`s
      ensures Valid() && r == LineFrom(Text(), old(s)) && (r.Ok? ==> s == r.pos)
      decreases es - s, 4
    {
      hide TokenAt, Lexeme, PipeFrom, GoodSpan, SkipSpace, BacksFrom, Good, At;
      ghost var t := Text();
      r := ParsePipe();
      if r.Fail? {
        return;
      }
      var cmd := r.cmd;
      ghost var p1 := s;
      BacksCases(t, cmd, s);
      var amp := Peek("&");
      BacksCases(t, cmd, s);
      while amp
        invariant Valid() && Text() == t && Good(t, cmd) && Good(t, Back(cmd)) && SkipSpace(t, s) == s && old(s) <= s
        invariant (amp <==> At(t, s) == '&') && (!amp ==> BacksFrom(t, cmd, s) == Ok(cmd, s))
        invariant amp ==> BacksFrom(t, cmd, s) == BacksFrom(t, Back(cmd), TokenAt(t, s).next)
        invariant BacksFrom(t, r.cmd, p1) == BacksFrom(t, cmd, s)
        decreases es - s
      {
        var ampTok, _ := GetToken();
        cmd := Back(cmd);
        BacksCases(t, cmd, s);
        amp := Peek("&");
        BacksCases(t, cmd, s);
      }
      var semi := Peek(";");
      if semi {
        var semiTok, _ := GetToken();
        var right := ParseLine();
        if right.Fail? {
          return right;
        }
        return Ok(List(cmd, right.cmd), s);
      }
      return Ok(cmd, s);
    }
  }

  // NUL termination

  /** The places where nulterminate writes. */
  function Ends(c: Cmd<Span>): set<nat> {
    match c
    case Exec(argv) => set i | 0 <= i < |argv| :: argv[i].eq
    case Redir(d, r) => Ends(d) + {r.file.eq}
    case Pipe(l, r) => Ends(l) + Ends(r)
    case List(l, r) => Ends(l) + Ends(r)
    case Back(d) => Ends(d)
  }

  method NulTerminate(buf: array<char>, c: Cmd<Span>)
    requires forall e | e in Ends(c) :: e < buf.Length
    modifies buf
    ensures forall i | 0 <= i < buf.Length :: buf[i] == if i in Ends(c) then '\0' else old(buf[i])
  {
    match c
    case Exec(argv) =>
      for i := 0 to |argv|
        invariant forall j | 0 <= j < buf.Length ::
                    buf[j] == if exists k :: 0 <= k < i && argv[k].eq == j then '\0' else old(buf[j])
      {
        assert argv[i].eq in Ends(c);
        buf[argv[i].eq] := '\0';
      }
    case Redir(d, r) =>
      assert Ends(d) <= Ends(c) && r.file.eq in Ends(c);
      NulTerminate(buf, d);
      buf[r.file.eq] := '\0';
    case Pipe(l, r) =>
      assert Ends(l) <= Ends(c) && Ends(r) <= Ends(c);
      NulTerminate(buf, l);
      NulTerminate(buf, r);
    case List(l, r) =>
      assert Ends(l) <= Ends(c) && Ends(r) <= Ends(c);
      NulTerminate(buf, l);
      NulTerminate(buf, r);
    case Back(d) =>
      assert Ends(d) <= Ends(c);
      NulTerminate(buf, d);
  }

  /** The C string at a position: up to the first NUL. */
  function CString(b: seq<char>, q: nat): string
    decreases |b| - q
  {
    if q < |b| && b[q] != '\0' then [b[q]] + CString(b, q + 1) else ""
  }

  function CStrings(b: seq<char>, ws: seq<Span>): (r: seq<string>)
    ensures |r| == |ws| && forall i | 0 <= i < |ws| :: r[i] == CString(b, ws[i].q)
  {
    if ws == [] then [] else [CString(b, ws[0].q)] + CStrings(b, ws[1..])
  }

  /** A command as runcmd reads it: its words are the C strings where they start. */
  function Read(b: seq<char>, c: Cmd<Span>): Cmd<string> {
    match c
    case Exec(argv) => Exec(CStrings(b, argv))
    case Redir(d, r) => Redir(Read(b, d), Redirection(CString(b, r.file.q), r.output))
    case Pipe(l, r) => Pipe(Read(b, l), Read(b, r))
    case List(l, r) => List(Read(b, l), Read(b, r))
    case Back(d) => Back(Read(b, d))
  }

  /** b is the text and its NUL, with NULs written at some places of E. */
  ghost predicate Terminated(t: string, b: seq<char>, E: set<nat>) {
    |b| > |t| && b[|t|] == '\0' && forall i | 0 <= i < |t| :: b[i] == if i in E then '\0' else t[i]
  }

  lemma {:induction false} EndsOutsideWords(t: string, c: Cmd<Span>, e: nat)
    requires Good(t, c) && e in Ends(c)
    ensures e == |t| || (e < |t| && !IsWord(t[e]))
    decreases c
  {
    match c
    case Exec(argv) =>
      var i :| 0 <= i < |argv| && argv[i].eq == e;
      assert GoodSpan(t, argv[i]);
    case Redir(d, r) =>
      if e in Ends(d) {
        EndsOutsideWords(t, d, e);
      }
    case Pipe(l, r) =>
      if e in Ends(l) {
        EndsOutsideWords(t, l, e);
      } else {
        EndsOutsideWords(t, r, e);
      }
    case List(l, r) =>
      if e in Ends(l) {
        EndsOutsideWords(t, l, e);
      } else {
        EndsOutsideWords(t, r, e);
      }
    case Back(d) => EndsOutsideWords(t, d, e);
  }

  /** A word whose end got its NUL reads as before, wherever else NULs were written. */
  lemma {:induction false} WordSurvives(t: string, b: seq<char>, E: set<nat>, q: nat, eq: nat)
    requires Terminated(t, b, E) && q <= eq <= |t| && (forall i | q <= i < eq :: IsWord(t[i])) && (eq in E || eq == |t|)
    requires forall e | e in E :: e == |t| || (e < |t| && !IsWord(t[e]))
    ensures CString(b, q) == t[q..eq]
    decreases eq - q
  {
    if q < eq {
      WordSurvives(t, b, E, q + 1, eq);
      assert t[q..eq] == [t[q]] + t[q + 1..eq];
    }
  }

  lemma {:induction false} ReadIsMeaning(t: string, b: seq<char>, E: set<nat>, c: Cmd<Span>)
    requires Terminated(t, b, E) && Good(t, c) && Ends(c) <= E
    requires forall e | e in E :: e == |t| || (e < |t| && !IsWord(t[e]))
    ensures Read(b, c) == Meaning(t, c)
    decreases c
  {
    match c
    case Exec(argv) =>
      forall i | 0 <= i < |argv| ensures CString(b, argv[i].q) == Slice(t, argv[i]) {
        assert GoodSpan(t, argv[i]) && argv[i].eq in Ends(c);
        WordSurvives(t, b, E, argv[i].q, argv[i].eq);
      }
      assert CStrings(b, argv) == Slices(t, argv);
    case Redir(d, r) =>
      ReadIsMeaning(t, b, E, d);
      WordSurvives(t, b, E, r.file.q, r.file.eq);
    case Pipe(l, r) =>
      ReadIsMeaning(t, b, E, l);
      ReadIsMeaning(t, b, E, r);
    case List(l, r) =>
      ReadIsMeaning(t, b, E, l);
      ReadIsMeaning(t, b, E, r);
    case Back(d) => ReadIsMeaning(t, b, E, d);
  }

  lemma {:induction false} CStringIs(b: seq<char>, q: nat, e: nat)
    requires q <= e < |b| && b[e] == '\0' && forall i | q <= i < e :: b[i] != '\0'
    ensures CString(b, q) == b[q..e]
    decreases e - q
  {
    if q < e {
      CStringIs(b, q + 1, e);
      assert b[q..e] == [b[q]] + b[q + 1..e];
    }
  }

  /** Parses the C string in the buffer.  It succeeds if and only if the string spells a sentence of the
      grammar, and then the command that runcmd will read from the buffer is the one that the sentence says. */
  method ParseCmd(buf: array<char>) returns (r: Parsed)
    requires '\0' in buf[..]
    modifies buf
    ensures r == Parse(CString(old(buf[..]), 0))
    ensures r.Ok? ==> Read(buf[..], r.cmd) == Meaning(CString(old(buf[..]), 0), r.cmd)
    ensures r.Ok? ==> forall c :: Says(CString(old(buf[..]), 0), c) <==> c == Read(buf[..], r.cmd)
    ensures r.Fail? ==> forall c :: !Says(CString(old(buf[..]), 0), c)
    ensures r.Fail? ==> buf[..] == old(buf[..])
  {
    var n := 0;
    while buf[n] != '\0'
      invariant n < buf.Length && forall i | 0 <= i < n :: buf[i] != '\0'
      decreases buf.Length - n
    {
      n := n + 1;
    }
    ghost var t := buf[..n];
    CStringIs(buf[..], 0, n);
    Decides(t);
    var p := new Parser(buf, n);
    r := p.ParseLine();
    if r.Fail? {
      return;
    }
    var c := r.cmd;
    var _ := p.Peek("");
    if p.s != n {
      return Fail(Leftovers);
    }
    forall e | e in Ends(c) ensures e == n || (e < n && !IsWord(t[e])) {
      EndsOutsideWords(t, c, e);
    }
    NulTerminate(buf, c);
    ReadIsMeaning(t, buf[..], Ends(c), c);
    r := Ok(c, n);
  }

  /** Some redirections, and then those of another result. */
  function Behind(rs: seq<Redirection<Span>>, r: Redirects): Redirects {
    match r
    case NoFile => NoFile
    case Redirects(rest, pos) => Redirects(rs + rest, pos)
  }

  lemma SkipTwice(t: string, p: nat)
    requires p <= |t|
    ensures p <= SkipSpace(t, p) <= |t| && SkipSpace(t, SkipSpace(t, p)) == SkipSpace(t, p)
    ensures RedirsFrom(t, SkipSpace(t, p)) == RedirsFrom(t, p) && Behind([], RedirsFrom(t, p)) == RedirsFrom(t, p)
  {
  }

  lemma RedirsStep(t: string, p: nat, rs: seq<Redirection<Span>>)
    requires p <= |t| && SkipSpace(t, p) == p && (At(t, p) == '<' || At(t, p) == '>')
    ensures
      var k := TokenAt(t, p);
      var f := TokenAt(t, k.next);
      p < k.next <= |t| && f.next <= |t| &&
      Behind(rs, RedirsFrom(t, p)) ==
      if f.kind != 'a' then NoFile else Behind(rs + [Redirection(f.span, k.kind != '<')], RedirsFrom(t, f.next))
  {
    hide TokenAt, SkipSpace;
    var k := TokenAt(t, p);
    var f := TokenAt(t, k.next);
    FirstToken(t, p);
    match RedirsFrom(t, f.next)
    case NoFile =>
    case Redirects(rest, pos) =>
      var x := Redirection(f.span, k.kind != '<');
      assert rs + ([x] + rest) == rs + [x] + rest;
  }

  lemma FirstToken(t: string, p: nat)
    requires p <= |t| && SkipSpace(t, p) == p && At(t, p) != '\0'
    ensures TokenAt(t, p).next > p
  {
  }

  lemma RedirsEnd(t: string, p: nat, rs: seq<Redirection<Span>>)
    requires p <= |t| && SkipSpace(t, p) == p && At(t, p) != '<' && At(t, p) != '>'
    ensures Behind(rs, RedirsFrom(t, p)) == Redirects(rs, p)
  {
  }

  /** One turn of the loop over words. */
  lemma WordsCases(t: string, argv: seq<Span>, redirs: seq<Redirection<Span>>, p: nat)
    requires p <= |t| && Good(t, Exec(argv)) && GoodRedirs(t, redirs)
    ensures
      var p1 := SkipSpace(t, p);
      var k := TokenAt(t, p1);
      p <= p1 <= |t| && p1 <= k.next <= |t| && (k.kind != '\0' ==> p1 < k.next) && (k.kind == 'a' ==> GoodSpan(t, k.span))
    ensures
      var p1 := SkipSpace(t, p);
      var c, k := At(t, p1), TokenAt(t, p1);
      var r, a := WordsFrom(t, argv, redirs, p), RedirsFrom(t, k.next);
      && (c == '|' || c == ')' || c == '&' || c == ';' ==> r == Arguments(argv, redirs, p1))
      && (!(c == '|' || c == ')' || c == '&' || c == ';') ==>
            && (k.kind == '\0' ==> r == Arguments(argv, redirs, k.next))
            && (k.kind != '\0' && k.kind != 'a' ==> r == Bad(Syntax))
            && (k.kind == 'a' && |argv| + 1 >= MAXARGS ==> r == Bad(TooManyArgs))
            && (k.kind == 'a' && |argv| + 1 < MAXARGS && a.NoFile? ==> r == Bad(MissingFile))
            && (k.kind == 'a' && |argv| + 1 < MAXARGS && a.Redirects? ==>
                  r == WordsFrom(t, argv + [k.span], redirs + a.redirs, a.pos)))
  {
    hide TokenAt, SkipSpace, RedirsFrom, At;
  }

  lemma BacksCases(t: string, c: Cmd<Span>, p: nat)
    requires p <= |t| && Good(t, c)
    ensures Good(t, Back(c)) && BacksFrom(t, c, p) == BacksFrom(t, c, SkipSpace(t, p))
    ensures SkipSpace(t, p) == p && At(t, p) == '&' ==> BacksFrom(t, c, p) == BacksFrom(t, Back(c), TokenAt(t, p).next)
    ensures SkipSpace(t, p) == p && At(t, p) != '&' ==> BacksFrom(t, c, p) == Ok(c, p)
  {
    SkipTwice(t, p);
  }
}
