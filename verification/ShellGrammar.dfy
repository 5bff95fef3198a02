/** The language of user/src/sh/main.c written down apart from its parser: what a token is, how a text
    spells a list of tokens, and the sentences of the grammar with their commands. */
module ShellGrammar {
  import opened Shell

  // Tokens

  /** Only white space from p up to q. */
  ghost predicate White(t: string, p: nat, q: nat) {
    p <= q <= |t| && forall i | p <= i < q :: t[i] in " \t\r\n\U{000B}"
  }

  /** Not empty, and without white space, symbols and NUL. */
  ghost predicate Word(w: string) {
    w != "" && forall i | 0 <= i < |w| :: w[i] !in " \t\r\n\U{000B}<|>&;()\0"
  }

  /** k is the token behind p: white space in front of it and behind it belongs to no token, a word goes on
      as long as it can, >> is a token of its own kind, and every other symbol is its own kind. */
  ghost predicate Lexeme(t: string, p: nat, k: Token) {
    var Span(q, eq) := k.span;
    && q <= eq && White(t, p, q) && White(t, eq, k.next) && (k.next < |t| ==> t[k.next] !in " \t\r\n\U{000B}")
    && if k.kind == '\0' then q == eq && (q == |t| || t[q] == '\0')
       else if k.kind == 'a' then Word(t[q..eq]) && (eq == |t| || t[eq] in " \t\r\n\U{000B}<|>&;()\0")
       else if k.kind == '+' then t[q..eq] == ">>"
       else if k.kind == '>' then t[q..eq] == ">" && (eq == |t| || t[eq] != '>')
       else k.kind in "<|&;()" && t[q..eq] == [k.kind]
  }

  lemma Classes(c: char)
    ensures IsSpace(c) <==> c in " \t\r\n\U{000B}"
    ensures IsSymbol(c) <==> c in "<|>&;()"
    ensures IsWord(c) <==> c !in " \t\r\n\U{000B}<|>&;()\0"
  {
  }

  lemma {:induction false} SkipsWhite(t: string, p: nat, q: nat)
    requires White(t, p, q) && (q < |t| ==> t[q] !in " \t\r\n\U{000B}")
    ensures SkipSpace(t, p) == q
    decreases q - p
  {
    if p < q {
      Classes(t[p]);
      SkipsWhite(t, p + 1, q);
    } else if q < |t| {
      Classes(t[q]);
    }
  }

  lemma {:induction false} SkippedIsWhite(t: string, p: nat)
    requires p <= |t|
    ensures White(t, p, SkipSpace(t, p))
    ensures SkipSpace(t, p) < |t| ==> t[SkipSpace(t, p)] !in " \t\r\n\U{000B}"
    decreases |t| - p
  {
    if p < |t| {
      Classes(t[p]);
      if IsSpace(t[p]) {
        SkippedIsWhite(t, p + 1);
      }
    }
  }

  lemma WordChars(t: string, q: nat, e: nat)
    requires q <= e <= |t|
    ensures Word(t[q..e]) <==> q < e && forall i | q <= i < e :: IsWord(t[i])
  {
    forall i | q <= i < e ensures t[q..e][i - q] == t[i] && (IsWord(t[i]) <==> t[i] !in " \t\r\n\U{000B}<|>&;()\0") {
      Classes(t[i]);
    }
    if q < e && forall i | q <= i < e :: IsWord(t[i]) {
      forall i | 0 <= i < e - q ensures t[q..e][i] !in " \t\r\n\U{000B}<|>&;()\0" {
        assert IsWord(t[q + i]);
      }
    }
    if Word(t[q..e]) {
      forall i | q <= i < e ensures IsWord(t[i]) {
        assert t[q..e][i - q] !in " \t\r\n\U{000B}<|>&;()\0";
      }
    }
  }

  lemma {:induction false} WholeWord(t: string, p: nat, e: nat)
    requires p <= e <= |t| && (e == |t| || !IsWord(t[e])) && forall i | p <= i < e :: IsWord(t[i])
    ensures WordEnd(t, p) == e
    decreases e - p
  {
    if p < e {
      WholeWord(t, p + 1, e);
    }
  }

  lemma TokenIsLexeme(t: string, p: nat)
    requires p <= |t|
    ensures Lexeme(t, p, TokenAt(t, p))
  {
    var k := TokenAt(t, p);
    var Span(q, e) := k.span;
    SkippedIsWhite(t, p);
    SkippedIsWhite(t, e);
    if q < |t| {
      Classes(t[q]);
      WordChars(t, q, e);
      if e < |t| {
        Classes(t[e]);
      }
      if e == q + 1 {
        assert t[q..e] == [t[q]];
      } else if e == q + 2 {
        assert t[q..e] == [t[q], t[q + 1]];
      }
    }
  }

  lemma LexemeIsToken(t: string, p: nat, k: Token)
    requires p <= |t| && Lexeme(t, p, k)
    ensures k == TokenAt(t, p)
  {
    var Span(q, e) := k.span;
    if q < |t| {
      Classes(t[q]);
      WordChars(t, q, e);
      if e < |t| {
        Classes(t[e]);
      }
      if q < e {
        assert t[q..e][0] == t[q];
        if k.kind == 'a' {
          WholeWord(t, q, e);
        } else if k.kind == '+' {
          assert t[q..e][1] == t[q + 1];
        }
      }
    }
    SkipsWhite(t, p, q);
    SkipsWhite(t, e, k.next);
  }

  /** gettoken returns the token behind p, and there is only one. */
  lemma TokenLaw(t: string, p: nat, k: Token)
    requires p <= |t|
    ensures k == TokenAt(t, p) <==> Lexeme(t, p, k)
  {
    TokenIsLexeme(t, p);
    if Lexeme(t, p, k) {
      LexemeIsToken(t, p, k);
    }
  }

  // Spelling

  function Slice(t: string, w: Span): string {
    if w.q <= w.eq <= |t| then t[w.q..w.eq] else ""
  }

  /** What the grammar sees of a token. */
  datatype Tok = Name(word: string) | Sign(symbol: char)

  /** An output redirection may be written > or >>. */
  ghost predicate Spelling(x: Tok, t: string, k: Token) {
    match x
    case Name(w) => k.kind == 'a' && Slice(t, k.span) == w
    case Sign(c) => c in "<|>&;()" && (k.kind == c || (c == '>' && k.kind == '+'))
  }

  /** From p on the text consists of these tokens, with any white space in front, between and behind. */
  ghost predicate Spells(xs: seq<Tok>, t: string, p: nat) {
    if xs == [] then White(t, p, |t|)
    else exists k :: Lexeme(t, p, k) && Spelling(xs[0], t, k) && Spells(xs[1..], t, k.next)
  }

  /** The first character of a list of tokens. */
  ghost predicate First(xs: seq<Tok>, c: char) {
    if xs == [] then c == '\0' else if xs[0].Name? then IsWord(c) else c == xs[0].symbol
  }

  /** gettoken reads a text token by token. */
  lemma TokenHere(t: string, p: nat, xs: seq<Tok>)
    requires Spells(xs, t, p)
    ensures p <= |t| && First(xs, At(t, SkipSpace(t, p)))
    ensures xs == [] ==> SkipSpace(t, p) == |t|
    ensures xs != [] ==> Spelling(xs[0], t, TokenAt(t, p)) && Spells(xs[1..], t, TokenAt(t, p).next)
  {
    if xs == [] {
      SkipsWhite(t, p, |t|);
    } else {
      var k :| Lexeme(t, p, k) && Spelling(xs[0], t, k) && Spells(xs[1..], t, k.next);
      TokenLaw(t, p, k);
      FirstIs(xs, t, p);
    }
  }

  lemma FirstIs(xs: seq<Tok>, t: string, p: nat)
    requires p <= |t| && xs != [] && Spelling(xs[0], t, TokenAt(t, p))
    ensures First(xs, At(t, SkipSpace(t, p)))
  {
    hide SkipSpace, WordEnd;
    var q := SkipSpace(t, p);
    Classes(At(t, q));
  }

  lemma SkipAgain(t: string, p: nat)
    requires p <= |t|
    ensures SkipSpace(t, SkipSpace(t, p)) == SkipSpace(t, p) && TokenAt(t, SkipSpace(t, p)) == TokenAt(t, p)
  {
  }

  /** White space in front does not matter. */
  lemma Later(t: string, p: nat, xs: seq<Tok>)
    requires p <= |t|
    ensures Spells(xs, t, p) <==> Spells(xs, t, SkipSpace(t, p))
  {
    var q := SkipSpace(t, p);
    SkipAgain(t, p);
    if Spells(xs, t, p) {
      TokenHere(t, p, xs);
      TokenLaw(t, q, TokenAt(t, q));
    }
    if Spells(xs, t, q) {
      TokenHere(t, q, xs);
      SkippedIsWhite(t, p);
      TokenLaw(t, p, TokenAt(t, p));
    }
  }

  lemma TokenSpells(t: string, p: nat, x: Tok, xs: seq<Tok>)
    requires p <= |t| && Spelling(x, t, TokenAt(t, p)) && Spells(xs, t, TokenAt(t, p).next)
    ensures Spells([x] + xs, t, p)
  {
    TokenLaw(t, p, TokenAt(t, p));
    assert ([x] + xs)[1..] == xs;
  }

  // Sentences

  datatype Item = Arg(word: string) | Into(redirection: Redirection<string>)

  datatype Sentence =
    | Simple(items: seq<Item>)
    | Paren(line: Sentence, redirs: seq<Redirection<string>>)
    | Piped(left: Sentence, right: Sentence)
    | Amp(head: Sentence)
    | Semi(head: Sentence, rest: Sentence)

  /** How tightly a sentence binds: line, line without list, pipeline, simple command or block. */
  function Level(x: Sentence): nat {
    if x.Semi? then 0 else if x.Amp? then 1 else if x.Piped? then 2 else 3
  }

  predicate Proper(x: Sentence) {
    match x
    case Simple(items) => |Args(items)| < 10
    case Paren(line, _) => Proper(line)
    case Piped(l, r) => Level(l) == 3 && Level(r) >= 2 && Proper(l) && Proper(r)
    case Amp(h) => Level(h) >= 1 && Proper(h)
    case Semi(h, r) => Level(h) >= 1 && Proper(h) && Proper(r)
  }

  /** The words among the arguments and redirections of a simple command. */
  function Args(items: seq<Item>): seq<string> {
    if items == [] then [] else (if items[0].Arg? then [items[0].word] else []) + Args(items[1..])
  }

  function Redirs(items: seq<Item>): seq<Redirection<string>> {
    if items == [] then [] else (if items[0].Into? then [items[0].redirection] else []) + Redirs(items[1..])
  }

  /** The command that a sentence says. */
  function Command(x: Sentence): Cmd<string> {
    match x
    case Simple(items) => Wrapped(Exec(Args(items)), Redirs(items))
    case Paren(line, rs) => Wrapped(Command(line), rs)
    case Piped(l, r) => Pipe(Command(l), Command(r))
    case Amp(h) => Back(Command(h))
    case Semi(h, r) => List(Command(h), Command(r))
  }

  function RedirToks(rs: seq<Redirection<string>>): seq<Tok> {
    if rs == [] then [] else [Sign(if rs[0].output then '>' else '<'), Name(rs[0].file)] + RedirToks(rs[1..])
  }

  function ItemToks(items: seq<Item>): seq<Tok> {
    if items == [] then []
    else (match items[0] case Arg(w) => [Name(w)] case Into(r) => RedirToks([r])) + ItemToks(items[1..])
  }

  /** The tokens of a sentence. */
  function Toks(x: Sentence): seq<Tok> {
    match x
    case Simple(items) => ItemToks(items)
    case Paren(line, rs) => [Sign('(')] + Toks(line) + [Sign(')')] + RedirToks(rs)
    case Piped(l, r) => Toks(l) + [Sign('|')] + Toks(r)
    case Amp(h) => Toks(h) + [Sign('&')]
    case Semi(h, r) => Toks(h) + [Sign(';')] + Toks(r)
  }

  /** The text spells a sentence with this command. */
  ghost predicate Says(t: string, c: Cmd<string>) {
    exists x :: Proper(x) && Spells(Toks(x), t, 0) && Command(x) == c
  }
}
