/** Printing commands for the shell of user/src/sh/main.c: whatever white space is put around the tokens,
    none where a symbol keeps them apart, and whether an output redirection is written > or >>, the text
    parses to the command. */
module ShellPrint {
  import opened Shell
  import opened ShellGrammar
  import opened ShellText

  /** A token as it is written, and the white space behind it. */
  datatype Piece = Piece(spelling: string, gap: string)

  function Text(ps: seq<Piece>): string {
    if ps == [] then "" else ps[0].spelling + (ps[0].gap + Text(ps[1..]))
  }

  ghost predicate Blank(s: string) { forall i | 0 <= i < |s| :: s[i] in " \t\r\n\U{000B}" }

  ghost predicate Writes(x: Tok, s: string) {
    match x
    case Name(w) => s == w && Word(w)
    case Sign(c) => c in "<|>&;()" && (s == [c] || (c == '>' && s == ">>"))
  }

  /** With nothing between them, two words would be one, and so would two > signs. */
  ghost predicate MayTouch(x: Tok, y: Tok) { !(x.Name? && y.Name?) && !(x == Sign('>') && y == Sign('>')) }

  ghost predicate Fits(xs: seq<Tok>, ps: seq<Piece>) {
    && |xs| == |ps| && (forall i | 0 <= i < |xs| :: Writes(xs[i], ps[i].spelling) && Blank(ps[i].gap))
    && forall i | 0 <= i < |xs| - 1 :: ps[i].gap == "" ==> MayTouch(xs[i], xs[i + 1])
  }

  lemma WrittenFirst(x: Tok, s: string)
    requires Writes(x, s)
    ensures s != "" && s[0] !in " \t\r\n\U{000B}" && s[0] != '\0'
    ensures !x.Name? ==> s[0] in "<|>&;()"
    ensures s[0] == '>' <==> x == Sign('>')
  {
  }

  lemma Places(t: string, q: nat, a: string, g: string, s: string)
    requires q <= |t| && t[q..] == a + (g + s)
    ensures
      var eq := q + |a|;
      var next := eq + |g|;
      next <= |t| && t[q..eq] == a && t[eq..next] == g && t[next..] == s
  {
    assert t[q..][..|a|] == a && t[q..][|a|..] == g + s;
    assert (g + s)[..|g|] == g && (g + s)[|g|..] == s;
  }

  lemma GapIsWhite(t: string, eq: nat, g: string)
    requires eq + |g| <= |t| && t[eq..eq + |g|] == g && Blank(g)
    ensures White(t, eq, eq + |g|)
  {
    forall i | eq <= i < eq + |g| ensures t[i] in " \t\r\n\U{000B}" {
      assert t[i] == t[eq..eq + |g|][i - eq] == g[i - eq];
    }
  }

  /** Text that starts at q with this piece and goes on with s. */
  lemma PieceIsLexeme(t: string, q: nat, x: Tok, piece: Piece, s: string)
    requires q <= |t| && t[q..] == piece.spelling + (piece.gap + s) && Writes(x, piece.spelling) && Blank(piece.gap)
    requires s == "" || s[0] !in " \t\r\n\U{000B}"
    requires piece.gap == "" && s != "" ==> (x.Name? ==> s[0] in "<|>&;()") && (x == Sign('>') ==> s[0] != '>')
    ensures
      var eq := q + |piece.spelling|;
      var kind := if x.Name? then 'a' else if |piece.spelling| == 2 then '+' else x.symbol;
      var k := Token(kind, Span(q, eq), eq + |piece.gap|);
      Lexeme(t, q, k) && Spelling(x, t, k) && k.next <= |t| && t[k.next..] == s
  {
    hide Blank, White, Word;
    var eq := q + |piece.spelling|;
    var next := eq + |piece.gap|;
    Places(t, q, piece.spelling, piece.gap, s);
    GapIsWhite(t, eq, piece.gap);
    if eq < next {
      BlankFirst(piece.gap);
      assert t[eq] == t[eq..next][0];
    }
    if next < |t| {
      assert t[next] == t[next..][0];
    }
    assert White(t, q, q) by { Nowhere(t, q); }
  }

  lemma BlankFirst(g: string)
    requires Blank(g) && g != ""
    ensures g[0] in " \t\r\n\U{000B}" && g[0] in " \t\r\n\U{000B}<|>&;()\0" && g[0] != '>'
  {
  }

  lemma Nowhere(t: string, q: nat)
    requires q <= |t|
    ensures White(t, q, q)
  {
  }

  lemma {:induction false} PiecesSpell(t: string, q: nat, xs: seq<Tok>, ps: seq<Piece>)
    requires q <= |t| && t[q..] == Text(ps) && Fits(xs, ps)
    ensures Spells(xs, t, q)
    ensures q < |t| ==> t[q] !in " \t\r\n\U{000B}"
    decreases |xs|
  {
    hide Lexeme, Spelling, White, Writes, Blank, Word;
    if xs == [] {
      Nothing(t, q);
    } else {
      var s := Text(ps[1..]);
      assert Writes(xs[0], ps[0].spelling) && Blank(ps[0].gap);
      WrittenFirst(xs[0], ps[0].spelling);
      assert t[q] == t[q..][0];
      if |xs| > 1 {
        assert Writes(xs[1], ps[1].spelling);
        WrittenFirst(xs[1], ps[1].spelling);
        assert ps[0].gap == "" ==> MayTouch(xs[0], xs[0 + 1]);
      }
      PieceIsLexeme(t, q, xs[0], ps[0], s);
      PiecesSpell(t, q + |ps[0].spelling| + |ps[0].gap|, xs[1..], ps[1..]);
    }
  }

  lemma Nothing(t: string, q: nat)
    requires q <= |t| && t[q..] == ""
    ensures Spells([], t, q) && q == |t|
  {
  }

  /** A proper sentence, written with any gaps that its tokens allow, is read as its command. */
  lemma WrittenRead(x: Sentence, lead: string, ps: seq<Piece>)
    requires Proper(x) && Blank(lead) && Fits(Toks(x), ps)
    ensures var t := lead + Text(ps); Parse(t).Ok? && Meaning(t, Parse(t).cmd) == Command(x)
  {
    hide Proper, Toks, Fits, Spells, Parse, Meaning, Command;
    var t := lead + Text(ps);
    assert t[|lead|..] == Text(ps);
    PiecesSpell(t, |lead|, Toks(x), ps);
    assert White(t, 0, |lead|);
    SkipsWhite(t, 0, |lead|);
    Later(t, 0, Toks(x));
    SentenceRead(t, x);
  }

  // A sentence for every command

  ghost predicate WellFormed(c: Cmd<string>) {
    match c
    case Exec(argv) => |argv| < MAXARGS && forall i | 0 <= i < |argv| :: Word(argv[i])
    case Redir(d, r) => WellFormed(d) && Word(r.file)
    case Pipe(l, r) => WellFormed(l) && WellFormed(r)
    case List(l, r) => WellFormed(l) && WellFormed(r)
    case Back(d) => WellFormed(d)
  }

  function ArgItems(ws: seq<string>): (items: seq<Item>)
    ensures |items| == |ws| && Args(items) == ws && Redirs(items) == []
  {
    if ws == [] then [] else [Arg(ws[0])] + ArgItems(ws[1..])
  }

  function WithRedir(x: Sentence, r: Redirection<string>): Sentence {
    match x
    case Simple(items) => Simple(items + [Into(r)])
    case Paren(line, rs) => Paren(line, rs + [r])
    case _ => x
  }

  /** The sentence for a command where one of some level is expected. */
  function Put(level: nat, c: Cmd<string>): Sentence
    decreases c, 1
  {
    var x := SentenceOf(c);
    if level <= Level(x) then x else Paren(x, [])
  }

  function SentenceOf(c: Cmd<string>): Sentence
    decreases c, 0
  {
    match c
    case Exec(argv) => Simple(ArgItems(argv))
    case Redir(d, r) => WithRedir(Put(3, d), r)
    case Pipe(l, r) => Piped(Put(3, l), Put(2, r))
    case List(l, r) => Semi(Put(1, l), Put(0, r))
    case Back(d) => Amp(Put(1, d))
  }

  ghost predicate Writable(xs: seq<Tok>) {
    forall i | 0 <= i < |xs| :: if xs[i].Name? then Word(xs[i].word) else xs[i].symbol in "<|>&;()"
  }

  lemma {:induction false} WrappedLast<W>(c: Cmd<W>, rs: seq<Redirection<W>>, r: Redirection<W>)
    ensures Wrapped(c, rs + [r]) == Redir(Wrapped(c, rs), r)
    decreases |rs|
  {
    if rs != [] {
      WrappedLast(Redir(c, rs[0]), rs[1..], r);
      assert (rs + [r])[1..] == rs[1..] + [r];
    }
  }

  lemma {:induction false} ItemLast(items: seq<Item>, r: Redirection<string>)
    ensures Args(items + [Into(r)]) == Args(items) && Redirs(items + [Into(r)]) == Redirs(items) + [r]
    ensures ItemToks(items + [Into(r)]) == ItemToks(items) + RedirToks([r])
    decreases |items|
  {
    hide RedirToks, ItemToks, Args, Redirs;
    var more := items + [Into(r)];
    NoItems([]);
    if items == [] {
      assert more == [Into(r)] + [];
      IntoFirst(r, []);
      assert RedirToks([r]) + [] == [] + RedirToks([r]);
    } else {
      ItemLast(items[1..], r);
      assert more[0] == items[0] && more[1..] == items[1..] + [Into(r)];
      assert items == [items[0]] + items[1..] && more == [items[0]] + more[1..];
      match items[0]
      case Arg(w) =>
        ArgFirst(w, items[1..]);
        ArgFirst(w, more[1..]);
      case Into(x) =>
        IntoFirst(x, items[1..]);
        IntoFirst(x, more[1..]);
    }
  }

  lemma {:induction false} RedirLast(rs: seq<Redirection<string>>, r: Redirection<string>)
    ensures RedirToks(rs + [r]) == RedirToks(rs) + RedirToks([r])
    decreases |rs|
  {
    if rs == [] {
      assert rs + [r] == [r];
    } else {
      RedirLast(rs[1..], r);
      assert (rs + [r])[1..] == rs[1..] + [r];
    }
  }

  lemma {:induction false} ArgsWritable(ws: seq<string>)
    requires forall i | 0 <= i < |ws| :: Word(ws[i])
    ensures Writable(ItemToks(ArgItems(ws)))
  {
    if ws != [] {
      ArgsWritable(ws[1..]);
      assert ItemToks(ArgItems(ws)) == [Name(ws[0])] + ItemToks(ArgItems(ws[1..]));
    }
  }

  lemma {:induction false} WithRedirSays(x: Sentence, r: Redirection<string>)
    requires Level(x) == 3 && Proper(x) && Word(r.file) && Writable(Toks(x))
    ensures var y := WithRedir(x, r); Level(y) == 3 && Proper(y) && Command(y) == Redir(Command(x), r) && Writable(Toks(y))
  {
    hide Word, Args, Redirs, Wrapped, ItemToks;
    match x
    case Simple(items) =>
      ItemLast(items, r);
      WrappedLast(Exec(Args(items)), Redirs(items), r);
    case Paren(line, rs) =>
      RedirLast(rs, r);
      WrappedLast(Command(line), rs, r);
      assert Toks(WithRedir(x, r)) == Toks(x) + RedirToks([r]);
  }

  lemma {:induction false} PutSays(level: nat, c: Cmd<string>)
    requires WellFormed(c) && level <= 3
    ensures var x := Put(level, c); Level(x) >= level && Proper(x) && Command(x) == c && Writable(Toks(x))
    decreases c, 1
  {
    hide SentenceOf, Args, Redirs, ItemToks, RedirToks, Word;
    SentenceSays(c);
    ParenSays(SentenceOf(c));
  }

  lemma {:induction false} ParenSays(x: Sentence)
    requires Proper(x) && Writable(Toks(x))
    ensures var y := Paren(x, []); Level(y) == 3 && Proper(y) && Command(y) == Command(x) && Writable(Toks(y))
  {
    hide Word, Args, Redirs, ItemToks;
    assert RedirToks([]) == [];
  }

  lemma {:induction false} SentenceSays(c: Cmd<string>)
    requires WellFormed(c)
    ensures var x := SentenceOf(c); Proper(x) && Command(x) == c && Writable(Toks(x))
    decreases c, 0
  {
    hide Put, Word;
    match c
    case Exec(argv) => ArgsWritable(argv);
    case Redir(d, r) =>
      PutSays(3, d);
      WithRedirSays(Put(3, d), r);
    case Pipe(l, r) =>
      PutSays(3, l);
      PutSays(2, r);
    case List(l, r) =>
      PutSays(1, l);
      PutSays(0, r);
    case Back(d) => PutSays(1, d);
  }

  // Round trip

  /** Every well-formed command, printed with any gaps that its tokens allow, parses to that command. */
  lemma RoundTrip(c: Cmd<string>, lead: string, ps: seq<Piece>)
    requires WellFormed(c) && Blank(lead) && Fits(Toks(SentenceOf(c)), ps)
    ensures var t := lead + Text(ps); Parse(t).Ok? && Meaning(t, Parse(t).cmd) == c
  {
    hide WellFormed, Proper, Toks, Fits, Parse, Meaning, Command, SentenceOf, Text;
    SentenceSays(c);
    WrittenRead(SentenceOf(c), lead, ps);
  }

  /** Tokens with a blank behind each. */
  function Plain(xs: seq<Tok>): (ps: seq<Piece>)
    ensures |ps| == |xs| && forall i | 0 <= i < |xs| :: ps[i] == Piece(if xs[i].Name? then xs[i].word else [xs[i].symbol], " ")
  {
    if xs == [] then [] else [Piece(if xs[0].Name? then xs[0].word else [xs[0].symbol], " ")] + Plain(xs[1..])
  }

  function Print(c: Cmd<string>): string { Text(Plain(Toks(SentenceOf(c)))) }

  lemma {:induction false} PlainFits(xs: seq<Tok>)
    requires Writable(xs)
    ensures Fits(xs, Plain(xs))
  {
    hide Word;
  }

  lemma {:induction false} GoodIsWellFormed(t: string, c: Cmd<Span>)
    requires Good(t, c)
    ensures WellFormed(Meaning(t, c))
    decreases c
  {
    hide GoodSpan, Word;
    match c
    case Exec(argv) =>
      forall i | 0 <= i < |argv| ensures Word(Slice(t, argv[i])) {
        GoodIsWord(t, argv[i]);
      }
    case Redir(d, r) =>
      GoodIsWellFormed(t, d);
      GoodIsWord(t, r.file);
    case Pipe(l, r) =>
      GoodIsWellFormed(t, l);
      GoodIsWellFormed(t, r);
    case List(l, r) =>
      GoodIsWellFormed(t, l);
      GoodIsWellFormed(t, r);
    case Back(d) => GoodIsWellFormed(t, d);
  }

  lemma GoodIsWord(t: string, w: Span)
    requires GoodSpan(t, w)
    ensures Word(Slice(t, w))
  {
    WordChars(t, w.q, w.eq);
  }

  /** Printing a parsed command loses nothing: it is well-formed, and printing and parsing again gives the
      same command. */
  lemma ParsePrintParse(t: string)
    requires Parse(t).Ok?
    ensures
      var c := Meaning(t, Parse(t).cmd);
      && WellFormed(c)
      && var u := Print(c);
      Parse(u).Ok? && Meaning(u, Parse(u).cmd) == c
  {
    hide Parse, Text, WellFormed, Meaning, SentenceOf, Toks, Proper, Fits, Writable;
    var c := Meaning(t, Parse(t).cmd);
    GoodIsWellFormed(t, Parse(t).cmd);
    SentenceSays(c);
    PlainFits(Toks(SentenceOf(c)));
    assert "" + Print(c) == Print(c);
    RoundTrip(c, "", Plain(Toks(SentenceOf(c))));
  }
}
