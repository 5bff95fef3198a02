/** The parser of user/src/sh/main.c accepts exactly the sentences of the grammar, and reads each as
    its command; and every well-formed command can be printed and read back. */
module ShellText {
  import opened Shell
  import opened ShellGrammar

  // What a parsed command says

  function Slices(t: string, ws: seq<Span>): (r: seq<string>)
    ensures |r| == |ws| && forall i | 0 <= i < |ws| :: r[i] == Slice(t, ws[i])
  {
    if ws == [] then [] else [Slice(t, ws[0])] + Slices(t, ws[1..])
  }

  function RedirTexts(t: string, rs: seq<Redirection<Span>>): (r: seq<Redirection<string>>)
    ensures |r| == |rs| && forall i | 0 <= i < |rs| :: r[i] == Redirection(Slice(t, rs[i].file), rs[i].output)
  {
    if rs == [] then [] else [Redirection(Slice(t, rs[0].file), rs[0].output)] + RedirTexts(t, rs[1..])
  }

  /** A command with the words themselves in place of their positions. */
  function Meaning(t: string, c: Cmd<Span>): Cmd<string> {
    match c
    case Exec(argv) => Exec(Slices(t, argv))
    case Redir(d, r) => Redir(Meaning(t, d), Redirection(Slice(t, r.file), r.output))
    case Pipe(l, r) => Pipe(Meaning(t, l), Meaning(t, r))
    case List(l, r) => List(Meaning(t, l), Meaning(t, r))
    case Back(d) => Back(Meaning(t, d))
  }

  lemma {:induction false} WrappedMeaning(t: string, c: Cmd<Span>, rs: seq<Redirection<Span>>)
    ensures Meaning(t, Wrapped(c, rs)) == Wrapped(Meaning(t, c), RedirTexts(t, rs))
    decreases |rs|
  {
    if rs != [] {
      assert RedirTexts(t, rs)[1..] == RedirTexts(t, rs[1..]);
      WrappedMeaning(t, Redir(c, rs[0]), rs[1..]);
    }
  }

  lemma TextsMore(t: string, argv: seq<Span>, w: Span, redirs: seq<Redirection<Span>>, more: seq<Redirection<Span>>)
    ensures Slices(t, argv + [w]) == Slices(t, argv) + [Slice(t, w)]
    ensures RedirTexts(t, redirs + more) == RedirTexts(t, redirs) + RedirTexts(t, more)
  {
  }

  // Every sentence is read

  /** What may follow a simple command, a pipeline, a line. */
  ghost predicate Follow(level: nat, s: seq<Tok>) {
    s == [] || s[0] == Sign(')') || (level >= 1 && (s[0] == Sign(';') || s[0] == Sign('&'))) || (level >= 3 && s[0] == Sign('|'))
  }

  ghost predicate NoArrow(s: seq<Tok>) { s == [] || (s[0] != Sign('<') && s[0] != Sign('>')) }

  /** r is the command c, and parsing went on up to where the tokens s begin. */
  ghost predicate Yields(t: string, r: Parsed, c: Cmd<string>, s: seq<Tok>) {
    r.Ok? && Meaning(t, r.cmd) == c && Spells(s, t, r.pos)
  }

  lemma {:induction false} RedirsRead(t: string, p: nat, rs: seq<Redirection<string>>, s: seq<Tok>)
    requires Spells(RedirToks(rs) + s, t, p) && NoArrow(s)
    ensures p <= |t|
    ensures var r := RedirsFrom(t, p); r.Redirects? && Spells(s, t, r.pos) && RedirTexts(t, r.redirs) == rs
    decreases |rs|
  {
    hide TokenAt, SkipSpace, At, Spells, GoodSpan, IsWord, Lexeme;
    var xs := RedirToks(rs) + s;
    TokenHere(t, p, xs);
    Later(t, p, xs);
    SkipAgain(t, p);
    if rs == [] {
      assert xs == s;
      NoArrowHere(s, At(t, SkipSpace(t, p)));
    } else {
      var k := TokenAt(t, p);
      assert xs[1..] == [Name(rs[0].file)] + (RedirToks(rs[1..]) + s);
      TokenHere(t, k.next, xs[1..]);
      assert xs[1..][1..] == RedirToks(rs[1..]) + s;
      RedirsRead(t, TokenAt(t, k.next).next, rs[1..], s);
    }
  }

  lemma NoArrowHere(s: seq<Tok>, c: char)
    requires First(s, c) && NoArrow(s)
    ensures c != '<' && c != '>'
  {
  }

  lemma {:induction false} IntoFirst(r: Redirection<string>, items: seq<Item>)
    ensures ItemToks([Into(r)] + items) == RedirToks([r]) + ItemToks(items)
    ensures Args([Into(r)] + items) == Args(items) && Redirs([Into(r)] + items) == [r] + Redirs(items)
  {
    hide RedirToks;
    assert ([Into(r)] + items)[1..] == items;
  }

  lemma {:induction false} ArgFirst(w: string, items: seq<Item>)
    ensures ItemToks([Arg(w)] + items) == [Name(w)] + ItemToks(items)
    ensures Args([Arg(w)] + items) == [w] + Args(items) && Redirs([Arg(w)] + items) == Redirs(items)
  {
    assert ([Arg(w)] + items)[1..] == items;
  }

  lemma {:induction false} RedirFirst(rs: seq<Redirection<string>>)
    requires rs != []
    ensures RedirToks(rs) == RedirToks([rs[0]]) + RedirToks(rs[1..])
  {
    assert [rs[0]][1..] == [];
  }

  /** The redirections in front, and the items behind them. */
  function Leading(items: seq<Item>): (r: (seq<Redirection<string>>, seq<Item>))
    ensures |r.1| <= |items| && (r.1 == [] || r.1[0].Arg?)
  {
    if items == [] || items[0].Arg? then ([], items)
    else var (rs, rest) := Leading(items[1..]); ([items[0].redirection] + rs, rest)
  }

  lemma {:induction false} LeadingFirst(items: seq<Item>)
    ensures
      var (rs, rest) := Leading(items);
      ItemToks(items) == RedirToks(rs) + ItemToks(rest) && Args(items) == Args(rest) && Redirs(items) == rs + Redirs(rest)
  {
    hide RedirToks, ItemToks, Args, Redirs;
    if items != [] && items[0].Into? {
      LeadingFirst(items[1..]);
      var r := items[0].redirection;
      var (rs, rest) := Leading(items[1..]);
      assert items == [Into(r)] + items[1..] && ([r] + rs)[1..] == rs;
      IntoFirst(r, items[1..]);
      RedirFirst([r] + rs);
    } else {
      NoRedirs(items);
    }
  }

  lemma {:induction false} NoRedirs(items: seq<Item>)
    ensures RedirToks([]) + ItemToks(items) == ItemToks(items) && [] + Redirs(items) == Redirs(items)
  {
  }

  lemma {:induction false} ItemsNoArrow(items: seq<Item>, s: seq<Tok>)
    requires (items == [] || items[0].Arg?) && Follow(3, s)
    ensures NoArrow(ItemToks(items) + s)
    ensures items != [] ==> var xs := ItemToks(items) + s; xs != [] && xs[0] == Name(items[0].word) && xs[1..] == ItemToks(items[1..]) + s
  {
    if items != [] {
      assert ItemToks(items) == [Name(items[0].word)] + ItemToks(items[1..]);
    }
  }

  /** Where no word begins a simple command ends. */
  lemma WordsStop(t: string, p: nat, argv: seq<Span>, redirs: seq<Redirection<Span>>, s: seq<Tok>)
    requires Spells(s, t, p) && Follow(3, s) && |argv| < MAXARGS && GoodRedirs(t, redirs) && forall i | 0 <= i < |argv| :: GoodSpan(t, argv[i])
    ensures var r := WordsFrom(t, argv, redirs, p); r.Arguments? && r.argv == argv && r.redirs == redirs && Spells(s, t, r.pos)
  {
    hide SkipSpace, Spells, GoodSpan, WordEnd;
    TokenHere(t, p, s);
    Later(t, p, s);
    SkipAgain(t, p);
    if s == [] {
      SkipAgain(t, |t|);
    }
  }

  lemma WordsStep(t: string, argv: seq<Span>, redirs: seq<Redirection<Span>>, p: nat)
    requires p <= |t| && |argv| + 1 < MAXARGS && GoodRedirs(t, redirs) && forall i | 0 <= i < |argv| :: GoodSpan(t, argv[i])
    requires IsWord(At(t, SkipSpace(t, p))) && TokenAt(t, p).kind == 'a' && RedirsFrom(t, TokenAt(t, p).next).Redirects?
    ensures
      var k := TokenAt(t, p);
      var r := RedirsFrom(t, k.next);
      WordsFrom(t, argv, redirs, p) == WordsFrom(t, argv + [k.span], redirs + r.redirs, r.pos)
  {
    hide TokenAt, SkipSpace, At, RedirsFrom;
    SkipAgain(t, p);
  }

  /** One turn of the loop over words: a word, and the redirections behind it. */
  lemma WordRead(t: string, p: nat, items: seq<Item>, s: seq<Tok>) returns (k: Token, r: Redirects, rest: seq<Item>)
    requires Spells(ItemToks(items) + s, t, p) && Follow(3, s) && items != [] && items[0].Arg?
    ensures p <= |t| && k == TokenAt(t, p) && IsWord(At(t, SkipSpace(t, p))) && k.kind == 'a' && Slice(t, k.span) == items[0].word
    ensures r == RedirsFrom(t, k.next) && r.Redirects? && Spells(ItemToks(rest) + s, t, r.pos)
    ensures |rest| < |items| && (rest == [] || rest[0].Arg?)
    ensures Args(items) == [items[0].word] + Args(rest) && Redirs(items) == RedirTexts(t, r.redirs) + Redirs(rest)
  {
    hide TokenAt, SkipSpace, At, Spells, GoodSpan, IsWord, RedirsFrom, ItemToks, Slices, RedirTexts, Follow, Leading, NoArrow, WordEnd,
      RedirToks, Args, Redirs;
    ItemsNoArrow(items, s);
    TokenHere(t, p, ItemToks(items) + s);
    k := TokenAt(t, p);
    var (rs, behind) := Leading(items[1..]);
    rest := behind;
    LeadingFirst(items[1..]);
    assert items == [Arg(items[0].word)] + items[1..];
    ArgFirst(items[0].word, items[1..]);
    ItemsNoArrow(rest, s);
    assert RedirToks(rs) + ItemToks(rest) + s == RedirToks(rs) + (ItemToks(rest) + s);
    RedirsRead(t, k.next, rs, ItemToks(rest) + s);
    r := RedirsFrom(t, k.next);
  }

  lemma {:induction false} WordsRead(t: string, p: nat, argv: seq<Span>, redirs: seq<Redirection<Span>>, items: seq<Item>, s: seq<Tok>)
    requires Spells(ItemToks(items) + s, t, p) && Follow(3, s) && (items == [] || items[0].Arg?)
    requires |argv| + |Args(items)| < MAXARGS && GoodRedirs(t, redirs) && forall i | 0 <= i < |argv| :: GoodSpan(t, argv[i])
    ensures p <= |t|
    ensures
      var r := WordsFrom(t, argv, redirs, p);
      && r.Arguments? && Spells(s, t, r.pos)
      && Slices(t, r.argv) == Slices(t, argv) + Args(items) && RedirTexts(t, r.redirs) == RedirTexts(t, redirs) + Redirs(items)
    decreases |items|
  {
    hide TokenAt, SkipSpace, At, Spells, GoodSpan, IsWord, WordsFrom, RedirsFrom, ItemToks, Slices, RedirTexts, Follow, Leading, Redirs,
      First, WordEnd, NoArrow;
    if items == [] {
      NoItems(s);
      TokenHere(t, p, s);
      WordsStop(t, p, argv, redirs, s);
    } else {
      var k, r, rest := WordRead(t, p, items, s);
      WordsStep(t, argv, redirs, p);
      TextsMore(t, argv, k.span, redirs, r.redirs);
      WordsRead(t, r.pos, argv + [k.span], redirs + r.redirs, rest, s);
    }
  }

  lemma {:induction false} NoItems(s: seq<Tok>)
    ensures ItemToks([]) + s == s && Args([]) == [] && Redirs([]) == []
  {
  }

  lemma SimpleRead(t: string, p: nat, items: seq<Item>, s: seq<Tok>)
    requires Spells(ItemToks(items) + s, t, p) && Follow(3, s) && |Args(items)| < MAXARGS
    ensures p <= |t| && Yields(t, ExecFrom(t, p), Wrapped(Exec(Args(items)), Redirs(items)), s)
  {
    hide TokenAt, SkipSpace, At, Spells, GoodSpan, IsWord, WordsFrom, RedirsFrom, ItemToks, Slices, RedirTexts, Follow, Leading, Redirs, Args;
    var xs := ItemToks(items) + s;
    TokenHere(t, p, xs);
    Later(t, p, xs);
    var p1 := SkipSpace(t, p);
    NotOpen(items, s, At(t, p1));
    var (rs, rest) := Leading(items);
    LeadingFirst(items);
    ItemsNoArrow(rest, s);
    assert xs == RedirToks(rs) + (ItemToks(rest) + s);
    RedirsRead(t, p1, rs, ItemToks(rest) + s);
    var r := RedirsFrom(t, p1);
    WordsRead(t, r.pos, [], r.redirs, rest, s);
    NoTexts(t, Args(rest));
    var a := WordsFrom(t, [], r.redirs, r.pos);
    WrappedMeaning(t, Exec(a.argv), a.redirs);
  }

  lemma {:induction false} NotOpen(items: seq<Item>, s: seq<Tok>, c: char)
    requires Follow(3, s) && First(ItemToks(items) + s, c)
    ensures c != '('
  {
    if items != [] {
      assert (ItemToks(items) + s)[0] == (if items[0].Arg? then Name(items[0].word) else RedirToks([items[0].redirection])[0]);
    } else {
      assert ItemToks(items) + s == s;
    }
  }

  lemma NoTexts(t: string, ws: seq<string>)
    ensures Slices(t, []) + ws == ws
  {
  }

  lemma {:induction false} ExecRead(t: string, p: nat, x: Sentence, s: seq<Tok>)
    requires Spells(Toks(x) + s, t, p) && Proper(x) && Level(x) == 3 && Follow(3, s)
    ensures p <= |t| && Yields(t, ExecFrom(t, p), Command(x), s)
    decreases x, 0
  {
    hide TokenAt, SkipSpace, At, Spells, GoodSpan, IsWord, RedirsFrom, LineFrom, RedirToks, RedirTexts;
    match x
    case Simple(items) =>
      SimpleRead(t, p, items, s);
    case Paren(line, rs) =>
      var after := RedirToks(rs) + s;
      var xs := Toks(x) + s;
      assert xs[1..] == Toks(line) + ([Sign(')')] + after);
      TokenHere(t, p, xs);
      Later(t, p, xs);
      SkipAgain(t, p);
      var p1 := TokenAt(t, p).next;
      LineRead(t, p1, line, [Sign(')')] + after);
      BlockEnd(t, SkipSpace(t, p), LineFrom(t, p1), Command(line), rs, s);
  }

  /** The closing parenthesis, and redirections behind it. */
  lemma BlockEnd(t: string, p: nat, r: Parsed, c: Cmd<string>, rs: seq<Redirection<string>>, s: seq<Tok>)
    requires p <= |t| && At(t, p) == '(' && SkipSpace(t, p) == p && r == LineFrom(t, TokenAt(t, p).next)
    requires Yields(t, r, c, [Sign(')')] + (RedirToks(rs) + s)) && Follow(3, s)
    ensures Yields(t, ExecFrom(t, p), Wrapped(c, rs), s)
  {
    hide TokenAt, SkipSpace, At, Spells, GoodSpan, RedirsFrom, LineFrom, RedirToks, RedirTexts;
    var xs := [Sign(')')] + (RedirToks(rs) + s);
    assert xs[1..] == RedirToks(rs) + s;
    TokenHere(t, r.pos, xs);
    SkipAgain(t, r.pos);
    var p3 := TokenAt(t, r.pos).next;
    RedirsRead(t, p3, rs, s);
    WrappedMeaning(t, r.cmd, RedirsFrom(t, p3).redirs);
  }

  lemma {:induction false} PipeRead(t: string, p: nat, x: Sentence, s: seq<Tok>)
    requires Spells(Toks(x) + s, t, p) && Proper(x) && Level(x) >= 2 && Follow(1, s)
    ensures p <= |t| && Yields(t, PipeFrom(t, p), Command(x), s)
    decreases x, 1
  {
    hide TokenAt, SkipSpace, At, Spells, GoodSpan, IsWord, ExecFrom, PipeFrom, Good;
    if x.Piped? {
      var rest := Toks(x.right) + s;
      assert Toks(x) + s == Toks(x.left) + ([Sign('|')] + rest);
      var bar := [Sign('|')] + rest;
      assert bar[1..] == rest;
      ExecRead(t, p, x.left, bar);
      var p1 := ExecFrom(t, p).pos;
      TokenHere(t, p1, bar);
      PipeRead(t, TokenAt(t, p1).next, x.right, s);
      PipeMore(t, p, bar);
    } else {
      ExecRead(t, p, x, s);
      PipeEnds(t, p, s);
    }
  }

  lemma PipeMore(t: string, p: nat, bar: seq<Tok>)
    requires p <= |t| && ExecFrom(t, p).Ok? && bar != [] && bar[0] == Sign('|') && Spells(bar, t, ExecFrom(t, p).pos)
    ensures
      var r := ExecFrom(t, p);
      var q := PipeFrom(t, TokenAt(t, r.pos).next);
      q.Ok? ==> PipeFrom(t, p) == Ok(Pipe(r.cmd, q.cmd), q.pos)
  {
    hide TokenAt, SkipSpace, At, Spells, GoodSpan, IsWord, ExecFrom;
    TokenHere(t, ExecFrom(t, p).pos, bar);
    SkipAgain(t, ExecFrom(t, p).pos);
  }

  lemma PipeEnds(t: string, p: nat, s: seq<Tok>)
    requires p <= |t| && ExecFrom(t, p).Ok? && Spells(s, t, ExecFrom(t, p).pos) && Follow(1, s)
    ensures var r := PipeFrom(t, p); r.Ok? && r.cmd == ExecFrom(t, p).cmd && Spells(s, t, r.pos)
  {
    hide TokenAt, SkipSpace, At, Spells, GoodSpan, ExecFrom;
    TokenHere(t, ExecFrom(t, p).pos, s);
    Later(t, ExecFrom(t, p).pos, s);
  }

  /** After a sentence that stands before ampersands or a semicolon has been read, its ampersands
      are counted on from there. */
  lemma {:induction false} HeadRead(t: string, p: nat, x: Sentence, s: seq<Tok>) returns (c: Cmd<Span>, q: nat)
    requires Spells(Toks(x) + s, t, p) && Proper(x) && Level(x) >= 1 && Follow(1, s)
    ensures p <= |t| && q <= |t| && Good(t, c) && Meaning(t, c) == Command(x) && Spells(s, t, q) && HeadFrom(t, p) == BacksFrom(t, c, q)
    decreases x, 2
  {
    hide TokenAt, SkipSpace, At, Spells, GoodSpan, PipeFrom;
    if x.Amp? {
      var amp := [Sign('&')] + s;
      assert Toks(x) + s == Toks(x.head) + amp && amp[1..] == s;
      var d, p1 := HeadRead(t, p, x.head, amp);
      TokenHere(t, p1, amp);
      SkipAgain(t, p1);
      c, q := Back(d), TokenAt(t, p1).next;
      TokenHere(t, q, s);
    } else {
      PipeRead(t, p, x, s);
      c, q := PipeFrom(t, p).cmd, PipeFrom(t, p).pos;
      TokenHere(t, q, s);
    }
  }

  lemma SemiToks(x: Sentence, s: seq<Tok>)
    requires x.Semi?
    ensures Toks(x) + s == Toks(x.head) + ([Sign(';')] + (Toks(x.rest) + s))
  {
  }

  lemma {:induction false} LineRead(t: string, p: nat, x: Sentence, s: seq<Tok>)
    requires Spells(Toks(x) + s, t, p) && Proper(x) && Follow(0, s)
    ensures p <= |t| && Yields(t, LineFrom(t, p), Command(x), s)
    decreases x, 4
  {
    hide TokenAt, SkipSpace, At, Spells, GoodSpan, IsWord, HeadFrom, BacksFrom, LineFrom, Good, Toks;
    if x.Semi? {
      var rest := Toks(x.rest) + s;
      var semi := [Sign(';')] + rest;
      SemiToks(x, s);
      assert semi[1..] == rest;
      var c, q := HeadRead(t, p, x.head, semi);
      TokenHere(t, q, semi);
      LineRead(t, TokenAt(t, q).next, x.rest, s);
      LineMore(t, p, c, q, semi);
    } else {
      var c, q := HeadRead(t, p, x, s);
      LineEnds(t, p, c, q, s);
    }
  }

  lemma LineMore(t: string, p: nat, c: Cmd<Span>, q: nat, semi: seq<Tok>)
    requires p <= |t| && Good(t, c) && semi != [] && semi[0] == Sign(';') && Spells(semi, t, q)
    requires q <= |t| && HeadFrom(t, p) == BacksFrom(t, c, q)
    ensures var r := LineFrom(t, TokenAt(t, q).next); r.Ok? ==> LineFrom(t, p) == Ok(List(c, r.cmd), r.pos)
  {
    hide TokenAt, SkipSpace, At, Spells, Good, IsWord, HeadFrom;
    TokenHere(t, q, semi);
    SkipAgain(t, q);
  }

  lemma LineEnds(t: string, p: nat, c: Cmd<Span>, q: nat, s: seq<Tok>)
    requires p <= |t| && Good(t, c) && Spells(s, t, q) && Follow(0, s)
    requires q <= |t| && HeadFrom(t, p) == BacksFrom(t, c, q)
    ensures var r := LineFrom(t, p); r.Ok? && r.cmd == c && Spells(s, t, r.pos)
  {
    hide TokenAt, SkipSpace, At, Spells, Good, HeadFrom;
    TokenHere(t, q, s);
    Later(t, q, s);
  }

  // Nothing but sentences is read

  lemma {:induction false} RedirSplit(rs: seq<Redirection<string>>, s: seq<Tok>)
    requires rs != []
    ensures RedirToks(rs) + s == [Sign(if rs[0].output then '>' else '<')] + ([Name(rs[0].file)] + (RedirToks(rs[1..]) + s))
  {
  }

  /** One redirection in front of others. */
  lemma RedirSaid(t: string, p: nat, rs: seq<Redirection<string>>, s: seq<Tok>)
    requires p <= |t| && (At(t, SkipSpace(t, p)) == '<' || At(t, SkipSpace(t, p)) == '>') && rs != []
    requires
      var k := TokenAt(t, SkipSpace(t, p));
      var f := TokenAt(t, k.next);
      && f.kind == 'a' && rs[0] == Redirection(Slice(t, f.span), k.kind != '<') && Spells(RedirToks(rs[1..]) + s, t, f.next)
    ensures Spells(RedirToks(rs) + s, t, p)
  {
    hide TokenAt, SkipSpace, Spells, At, RedirToks, Slice;
    var k := TokenAt(t, SkipSpace(t, p));
    var more := RedirToks(rs[1..]) + s;
    var sign := Sign(if rs[0].output then '>' else '<');
    SkipAgain(t, p);
    ArrowKind(t, SkipSpace(t, p));
    TokenSpells(t, k.next, Name(rs[0].file), more);
    TokenSpells(t, SkipSpace(t, p), sign, [Name(rs[0].file)] + more);
    RedirSplit(rs, s);
    Later(t, p, RedirToks(rs) + s);
  }

  lemma {:induction false} RedirsSaid(t: string, p: nat, s: seq<Tok>)
    requires p <= |t| && RedirsFrom(t, p).Redirects? && Spells(s, t, RedirsFrom(t, p).pos)
    ensures Spells(RedirToks(RedirTexts(t, RedirsFrom(t, p).redirs)) + s, t, p)
    decreases |t| - p
  {
    hide TokenAt, SkipSpace, Spells, GoodSpan, At, Slice, RedirToks, RedirTexts;
    var r := RedirsFrom(t, p);
    var rs := RedirTexts(t, r.redirs);
    if rs == [] {
      NoToks(s);
      Later(t, p, s);
    } else {
      var k := TokenAt(t, SkipSpace(t, p));
      var f := TokenAt(t, k.next);
      SkipAgain(t, p);
      ArrowKind(t, SkipSpace(t, p));
      RedirsSaid(t, f.next, s);
      assert r.redirs[1..] == RedirsFrom(t, f.next).redirs;
      assert rs[1..] == RedirTexts(t, r.redirs[1..]);
      RedirSaid(t, p, rs, s);
    }
  }

  lemma NoToks(s: seq<Tok>)
    ensures RedirToks([]) + s == s
  {
  }

  lemma ArrowKind(t: string, p: nat)
    requires p <= |t| && SkipSpace(t, p) == p && (At(t, p) == '<' || At(t, p) == '>')
    ensures var k := TokenAt(t, p); Spelling(Sign(if k.kind != '<' then '>' else '<'), t, k) && p < k.next <= |t|
  {
  }

  lemma SignKind(t: string, p: nat, c: char)
    requires p <= |t| && At(t, SkipSpace(t, p)) == c && c in "|&;()"
    ensures Spelling(Sign(c), t, TokenAt(t, SkipSpace(t, p))) && TokenAt(t, SkipSpace(t, p)).kind == c
  {
  }

  /** A symbol and the tokens behind it. */
  lemma SignSaid(t: string, p: nat, c: char, s: seq<Tok>)
    requires p <= |t| && At(t, SkipSpace(t, p)) == c && c in "|&;()" && Spells(s, t, TokenAt(t, SkipSpace(t, p)).next)
    ensures Spells([Sign(c)] + s, t, p)
  {
    hide TokenAt, SkipSpace, Spells, At;
    SignKind(t, p, c);
    TokenSpells(t, SkipSpace(t, p), Sign(c), s);
    Later(t, p, [Sign(c)] + s);
  }

  function Intos(rs: seq<Redirection<string>>): seq<Item> {
    if rs == [] then [] else [Into(rs[0])] + Intos(rs[1..])
  }

  lemma {:induction false} IntosFirst(rs: seq<Redirection<string>>, items: seq<Item>)
    ensures ItemToks(Intos(rs) + items) == RedirToks(rs) + ItemToks(items)
    ensures Args(Intos(rs) + items) == Args(items) && Redirs(Intos(rs) + items) == rs + Redirs(items)
    decreases |rs|
  {
    hide ItemToks, RedirToks, Args, Redirs;
    if rs == [] {
      assert Intos(rs) + items == items;
      NoToks(ItemToks(items));
    } else {
      IntosFirst(rs[1..], items);
      assert Intos(rs) + items == [Into(rs[0])] + (Intos(rs[1..]) + items);
      IntoFirst(rs[0], Intos(rs[1..]) + items);
      RedirFirst(rs);
    }
  }

  lemma NoWord(t: string, p: nat)
    requires p <= |t| && TokenAt(t, SkipSpace(t, p)).kind == '\0'
    ensures TokenAt(t, SkipSpace(t, p)).next == SkipSpace(t, p)
  {
    hide SkipSpace, WordEnd;
    SkipAgain(t, p);
  }

  lemma {:induction false} WordsSaid(t: string, argv: seq<Span>, redirs: seq<Redirection<Span>>, p: nat, s: seq<Tok>) returns (items: seq<Item>)
    requires p <= |t| && |argv| < MAXARGS && GoodRedirs(t, redirs) && forall i | 0 <= i < |argv| :: GoodSpan(t, argv[i])
    requires WordsFrom(t, argv, redirs, p).Arguments? && Spells(s, t, WordsFrom(t, argv, redirs, p).pos)
    ensures Spells(ItemToks(items) + s, t, p)
    ensures
      var r := WordsFrom(t, argv, redirs, p);
      Slices(t, r.argv) == Slices(t, argv) + Args(items) && RedirTexts(t, r.redirs) == RedirTexts(t, redirs) + Redirs(items)
    decreases |t| - p
  {
    hide TokenAt, SkipSpace, Spells, GoodSpan, RedirsFrom, ItemToks, Args, Redirs, Slices, RedirTexts;
    var p1 := SkipSpace(t, p);
    var c, k := At(t, p1), TokenAt(t, p1);
    if c == '|' || c == ')' || c == '&' || c == ';' || k.kind == '\0' {
      if k.kind == '\0' {
        NoWord(t, p);
      }
      Later(t, p, s);
      items := [];
      NoItems(s);
    } else {
      var r := RedirsFrom(t, k.next);
      var more := WordsSaid(t, argv + [k.span], redirs + r.redirs, r.pos, s);
      items := WordSaid(t, p, r, more, s);
      TextsMore(t, argv, k.span, redirs, r.redirs);
    }
  }

  lemma WordSaid(t: string, p: nat, r: Redirects, more: seq<Item>, s: seq<Tok>) returns (items: seq<Item>)
    requires p <= |t|
    requires var k := TokenAt(t, SkipSpace(t, p)); k.kind == 'a' && r == RedirsFrom(t, k.next) && r.Redirects?
    requires Spells(ItemToks(more) + s, t, r.pos)
    ensures Spells(ItemToks(items) + s, t, p)
    ensures Args(items) == [Slice(t, TokenAt(t, SkipSpace(t, p)).span)] + Args(more) && Redirs(items) == RedirTexts(t, r.redirs) + Redirs(more)
  {
    hide TokenAt, SkipSpace, Spells, GoodSpan, RedirsFrom, RedirTexts, ItemToks, Args, Redirs, RedirToks, Lexeme;
    var k := TokenAt(t, SkipSpace(t, p));
    var rs, w := RedirTexts(t, r.redirs), Slice(t, k.span);
    RedirsSaid(t, k.next, ItemToks(more) + s);
    IntosFirst(rs, more);
    var rest := Intos(rs) + more;
    assert RedirToks(rs) + (ItemToks(more) + s) == ItemToks(rest) + s;
    TokenSpells(t, SkipSpace(t, p), Name(w), ItemToks(rest) + s);
    items := [Arg(w)] + rest;
    ArgFirst(w, rest);
    assert ItemToks(items) + s == [Name(w)] + (ItemToks(rest) + s);
    Later(t, p, ItemToks(items) + s);
  }

  /** What a sentence x says of a parse from p on. */
  ghost predicate Covers(x: Sentence, level: nat, t: string, p: nat, c: Cmd<Span>, s: seq<Tok>) {
    Proper(x) && Level(x) >= level && Command(x) == Meaning(t, c) && Spells(Toks(x) + s, t, p)
  }

  lemma SimpleSaid(t: string, p: nat, s: seq<Tok>) returns (x: Sentence)
    requires p <= |t| && At(t, SkipSpace(t, p)) != '(' && ExecFrom(t, p).Ok? && Spells(s, t, ExecFrom(t, p).pos)
    ensures Covers(x, 3, t, p, ExecFrom(t, p).cmd, s)
  {
    hide TokenAt, SkipSpace, Spells, GoodSpan, RedirsFrom, WordsFrom, ItemToks, Args, Redirs, Slices, RedirTexts, At;
    var p1 := SkipSpace(t, p);
    var r := RedirsFrom(t, p1);
    var a := WordsFrom(t, [], r.redirs, r.pos);
    var more := WordsSaid(t, [], r.redirs, r.pos, s);
    RedirsSaid(t, p1, ItemToks(more) + s);
    var rs := RedirTexts(t, r.redirs);
    IntosFirst(rs, more);
    x := Simple(Intos(rs) + more);
    assert RedirToks(rs) + (ItemToks(more) + s) == Toks(x) + s;
    Later(t, p, Toks(x) + s);
    NoTexts(t, Args(more));
    WrappedMeaning(t, Exec(a.argv), a.redirs);
  }

  lemma {:induction false} ExecSaid(t: string, p: nat, s: seq<Tok>) returns (x: Sentence)
    requires p <= |t| && ExecFrom(t, p).Ok? && Spells(s, t, ExecFrom(t, p).pos)
    ensures Covers(x, 3, t, p, ExecFrom(t, p).cmd, s)
    decreases |t| - p, 1
  {
    hide SkipSpace, Spells, GoodSpan, RedirsFrom, LineFrom, At, RedirTexts, RedirToks;
    var p1 := SkipSpace(t, p);
    if At(t, p1) != '(' {
      x := SimpleSaid(t, p, s);
    } else {
      var r := LineFrom(t, TokenAt(t, p1).next);
      var q := TokenAt(t, SkipSpace(t, r.pos)).next;
      var rs := RedirTexts(t, RedirsFrom(t, q).redirs);
      RedirsSaid(t, q, s);
      var after := RedirToks(rs) + s;
      SignSaid(t, r.pos, ')', after);
      OpenAdvances(t, p);
      var line := LineSaid(t, TokenAt(t, p1).next, [Sign(')')] + after);
      SignSaid(t, p, '(', Toks(line) + ([Sign(')')] + after));
      x := Paren(line, rs);
      assert Toks(x) + s == [Sign('(')] + (Toks(line) + ([Sign(')')] + after));
      WrappedMeaning(t, r.cmd, RedirsFrom(t, q).redirs);
    }
  }

  lemma OpenAdvances(t: string, p: nat)
    requires p <= |t| && At(t, SkipSpace(t, p)) != '\0'
    ensures p < TokenAt(t, SkipSpace(t, p)).next
  {
  }

  lemma {:induction false} PipeSaid(t: string, p: nat, s: seq<Tok>) returns (x: Sentence)
    requires p <= |t| && PipeFrom(t, p).Ok? && Spells(s, t, PipeFrom(t, p).pos)
    ensures Covers(x, 2, t, p, PipeFrom(t, p).cmd, s)
    decreases |t| - p, 2
  {
    hide SkipSpace, Spells, GoodSpan, ExecFrom, At, TokenAt;
    var r := ExecFrom(t, p);
    Later(t, r.pos, s);
    if At(t, SkipSpace(t, r.pos)) == '|' {
      var q := TokenAt(t, SkipSpace(t, r.pos)).next;
      OpenAdvances(t, r.pos);
      var y := PipeSaid(t, q, s);
      SignSaid(t, r.pos, '|', Toks(y) + s);
      var l := ExecSaid(t, p, [Sign('|')] + (Toks(y) + s));
      x := Piped(l, y);
      assert Toks(x) + s == Toks(l) + ([Sign('|')] + (Toks(y) + s));
    } else {
      x := ExecSaid(t, p, s);
    }
  }

  function Amps(n: nat): seq<Tok> { if n == 0 then [] else [Sign('&')] + Amps(n - 1) }

  function Amped(x: Sentence, n: nat): Sentence
    decreases n
  {
    if n == 0 then x else Amped(Amp(x), n - 1)
  }

  function Backs(c: Cmd<string>, n: nat): Cmd<string>
    decreases n
  {
    if n == 0 then c else Backs(Back(c), n - 1)
  }

  lemma {:induction false} AmpedSays(x: Sentence, n: nat)
    requires Proper(x) && Level(x) >= 1
    ensures var y := Amped(x, n); Proper(y) && Level(y) >= 1 && Command(y) == Backs(Command(x), n) && Toks(y) == Toks(x) + Amps(n)
    decreases n
  {
    hide Args, Redirs, ItemToks, RedirToks;
    if n == 0 {
      assert Toks(x) + [] == Toks(x);
    } else {
      AmpedSays(Amp(x), n - 1);
      assert Amps(n) == [Sign('&')] + Amps(n - 1);
    }
  }

  /** The ampersands behind a pipeline. */
  lemma {:induction false} BacksSaid(t: string, c: Cmd<Span>, p: nat, s: seq<Tok>) returns (n: nat)
    requires p <= |t| && Good(t, c) && Spells(s, t, BacksFrom(t, c, p).pos)
    ensures Spells(Amps(n) + s, t, p) && Meaning(t, BacksFrom(t, c, p).cmd) == Backs(Meaning(t, c), n)
    decreases |t| - p
  {
    hide SkipSpace, Spells, GoodSpan, At, TokenAt;
    Later(t, p, s);
    if At(t, SkipSpace(t, p)) == '&' {
      OpenAdvances(t, p);
      var m := BacksSaid(t, Back(c), TokenAt(t, SkipSpace(t, p)).next, s);
      SignSaid(t, p, '&', Amps(m) + s);
      n := m + 1;
      assert Amps(n) + s == [Sign('&')] + (Amps(m) + s);
    } else {
      n := 0;
      assert Amps(n) + s == s;
    }
  }

  lemma {:induction false} HeadSaid(t: string, p: nat, s: seq<Tok>) returns (x: Sentence)
    requires p <= |t| && HeadFrom(t, p).Ok? && Spells(s, t, HeadFrom(t, p).pos)
    ensures Covers(x, 1, t, p, HeadFrom(t, p).cmd, s)
    decreases |t| - p, 3
  {
    hide Spells, PipeFrom, BacksFrom, Good;
    var r := PipeFrom(t, p);
    var n := BacksSaid(t, r.cmd, r.pos, s);
    var y := PipeSaid(t, p, Amps(n) + s);
    AmpedSays(y, n);
    x := Amped(y, n);
    assert Toks(x) + s == Toks(y) + (Amps(n) + s);
  }

  lemma {:induction false} LineSaid(t: string, p: nat, s: seq<Tok>) returns (x: Sentence)
    requires p <= |t| && LineFrom(t, p).Ok? && Spells(s, t, LineFrom(t, p).pos)
    ensures Covers(x, 0, t, p, LineFrom(t, p).cmd, s)
    decreases |t| - p, 4
  {
    hide SkipSpace, Spells, GoodSpan, HeadFrom, At, TokenAt, Toks, Good;
    var r := HeadFrom(t, p);
    if At(t, r.pos) == ';' {
      HeadSkips(t, p);
      OpenAdvances(t, r.pos);
      var y := LineSaid(t, TokenAt(t, r.pos).next, s);
      SignSaid(t, r.pos, ';', Toks(y) + s);
      var h := HeadSaid(t, p, [Sign(';')] + (Toks(y) + s));
      x := Semi(h, y);
      SemiToks(x, s);
    } else {
      x := HeadSaid(t, p, s);
    }
  }

  lemma {:induction false} BacksSkips(t: string, c: Cmd<Span>, p: nat)
    requires p <= |t| && Good(t, c)
    ensures var q := BacksFrom(t, c, p).pos; SkipSpace(t, q) == q
    decreases |t| - p
  {
    hide TokenAt, At, GoodSpan;
    SkipAgain(t, p);
    if At(t, SkipSpace(t, p)) == '&' {
      OpenAdvances(t, p);
      BacksSkips(t, Back(c), TokenAt(t, SkipSpace(t, p)).next);
    }
  }

  lemma HeadSkips(t: string, p: nat)
    requires p <= |t| && HeadFrom(t, p).Ok?
    ensures var q := HeadFrom(t, p).pos; q <= |t| && SkipSpace(t, q) == q
  {
    hide PipeFrom, BacksFrom, SkipSpace;
    BacksSkips(t, PipeFrom(t, p).cmd, PipeFrom(t, p).pos);
  }

  // Main results

  /** The tokens of a sentence are read as its command, whatever white space is around them. */
  lemma SentenceRead(t: string, x: Sentence)
    requires Proper(x) && Spells(Toks(x), t, 0)
    ensures Parse(t).Ok? && Meaning(t, Parse(t).cmd) == Command(x)
  {
    hide LineFrom, SkipSpace, Proper, Toks;
    assert Toks(x) + [] == Toks(x);
    LineRead(t, 0, x, []);
    TokenHere(t, LineFrom(t, 0).pos, []);
  }

  /** Parsing a text succeeds with a command if and only if the text spells a sentence that says it. */
  lemma Grammar(t: string, c: Cmd<string>)
    ensures (Parse(t).Ok? && Meaning(t, Parse(t).cmd) == c) <==> Says(t, c)
  {
    hide Proper, Toks, Command, Meaning;
    if Parse(t).Ok? && Meaning(t, Parse(t).cmd) == c {
      var x := ParseSaid(t);
      assert Proper(x) && Spells(Toks(x), t, 0) && Command(x) == c;
    }
    if Says(t, c) {
      var x :| Proper(x) && Spells(Toks(x), t, 0) && Command(x) == c;
      SentenceRead(t, x);
    }
  }

  /** A text says one command or none. */
  lemma Decides(t: string)
    ensures if Parse(t).Ok? then forall c :: Says(t, c) <==> c == Meaning(t, Parse(t).cmd) else forall c :: !Says(t, c)
  {
    hide Says, Parse;
    forall c: Cmd<string> ensures (Parse(t).Ok? && Meaning(t, Parse(t).cmd) == c) <==> Says(t, c) {
      Grammar(t, c);
    }
  }

  lemma ParseSaid(t: string) returns (x: Sentence)
    requires Parse(t).Ok?
    ensures Proper(x) && Spells(Toks(x), t, 0) && Command(x) == Meaning(t, Parse(t).cmd)
  {
    hide LineFrom, SkipSpace, Proper, Toks;
    var p := LineFrom(t, 0).pos;
    Later(t, p, []);
    x := LineSaid(t, 0, []);
    assert Toks(x) + [] == Toks(x);
  }
}
