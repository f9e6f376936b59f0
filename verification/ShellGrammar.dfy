/**
  * What the shell's parser accepts, and as what (user/sh.c:268-453): the tokens of a line, a grammar over
  * tokens, and the theorem that the parser accepts a line exactly when the grammar derives its tokens, with the
  * command that the derivation stands for.  White space matters only where it separates words.
  */
module ShellGrammar {
  import opened Shell

  /** The white space and the symbols of user/sh.c:268-269. */
  const BLANKS: string := [' ', '\t', '\r', '\n', 11 as char]
  const SYMBOLS: string := "<|>&;()"

  lemma SpacesAndSymbols(c: char)
    ensures IsSpace(c) <==> c in BLANKS
    ensures IsSymbol(c) <==> c in SYMBOLS
  {
  }

  // ---- the tokens of a line

  datatype Lexeme = Lexeme(kind: char, text: string)

  function Lex(s: string, p: nat): seq<Lexeme>
    requires p <= |s|
    decreases |s| - p
  {
    var t := TokenAt(s, p);
    if t.kind == NUL then [] else [Lexeme(t.kind, s[t.q..t.eq])] + Lex(s, t.next)
  }

  lemma LexFirst(s: string, p: nat)
    requires p <= |s|
    ensures var t := TokenAt(s, p);
            if t.kind == NUL then Lex(s, p) == []
            else p < t.next <= |s| && Lex(s, p) == [Lexeme(t.kind, s[t.q..t.eq])] + Lex(s, t.next)
  {
    hide TokenAt;
  }

  lemma LexSkip(s: string, p: nat)
    requires p <= |s|
    ensures Lex(s, Skip(s, p)) == Lex(s, p)
  {
    hide TokenAt, Skip;
    SkipTwice(s, p);
  }

  /** A line without its white space. */
  function Strip(s: string): string {
    if s == "" then "" else Kept(s[0]) + Strip(s[1..])
  }

  function Kept(c: char): string {
    if c in BLANKS then "" else [c]
  }

  function Spelling(ts: seq<Lexeme>): string {
    if ts == [] then "" else ts[0].text + Spelling(ts[1..])
  }

  lemma StripFirst(s: string)
    requires s != ""
    ensures Strip(s) == Kept(s[0]) + Strip(s[1..])
  {
  }

  lemma {:induction false} StripAppend(a: string, b: string)
    ensures Strip(a + b) == Strip(a) + Strip(b)
  {
    if a == "" {
      assert a + b == b;
    } else {
      hide Kept, Strip;
      StripFirst(a);
      StripFirst(a + b);
      StripAppend(a[1..], b);
      assert (a + b)[1..] == a[1..] + b && (a + b)[0] == a[0];
      assert Strip(a + b) == Kept(a[0]) + (Strip(a[1..]) + Strip(b));
    }
  }

  lemma {:induction false} StripPlain(a: string)
    requires forall k :: 0 <= k < |a| ==> a[k] !in BLANKS
    ensures Strip(a) == a
  {
    if a != "" {
      StripPlain(a[1..]);
    }
  }

  lemma {:induction false} StripSkip(s: string, p: nat)
    requires p <= |s|
    ensures Strip(s[p..]) == Strip(s[Skip(s, p)..])
    decreases |s| - p
  {
    if p < |s| && IsSpace(s[p]) {
      SpacesAndSymbols(s[p]);
      StripSkip(s, p + 1);
      assert s[p..][1..] == s[p + 1..];
    }
  }

  /** What a token is made of: a word has no white space and no symbol in it, and every other token is a symbol. */
  predicate Plain(x: Lexeme) {
    if x.kind == 'a' then x.text != "" && forall k ::
        0 <= k < |x.text| ==> x.text[k] !in BLANKS && x.text[k] !in SYMBOLS
    else x.text == OpText(x.kind) && (x.kind == '+' || x.kind in SYMBOLS)
  }

  lemma TokenPlain(s: string, p: nat)
    requires p <= |s| && NUL !in s
    ensures var t := TokenAt(s, p);
            if t.kind == NUL then t.q == t.eq == t.next == |s| else Plain(Lexeme(t.kind, s[t.q..t.eq]))
  {
    hide Skip, WordEnd;
    var t := TokenAt(s, p);
    SkipStops(s, p);
    forall k | 0 <= k < |s| ensures s[k] != NUL { assert s[k] in s; }
    if t.kind == 'a' {
      TokenWhole(s, p);
      forall k | 0 <= k < t.eq - t.q ensures s[t.q..t.eq][k] !in BLANKS && s[t.q..t.eq][k] !in SYMBOLS {
        SpacesAndSymbols(s[t.q + k]);
      }
    } else if t.kind == NUL {
      SkipAtEnd(s);
    }
  }

  lemma SkipAtEnd(s: string)
    ensures Skip(s, |s|) == |s|
  {
  }

  /** Nothing but white space is lost, and nothing changes its place: the tokens spell the line. */
  lemma {:induction false} TokensSpellTheLine(s: string, p: nat)
    requires p <= |s| && NUL !in s
    ensures Spelling(Lex(s, p)) == Strip(s[p..])
    ensures forall k :: 0 <= k < |Lex(s, p)| ==> Plain(Lex(s, p)[k])
    decreases |s| - p
  {
    hide TokenAt, Skip, Strip, Plain;
    LexFirst(s, p);
    TokenPlain(s, p);
    var t := TokenAt(s, p);
    StripSkip(s, p);
    TokenStarts(s, p);
    if t.kind != NUL {
      TokensSpellTheLine(s, t.next);
      var x := Lexeme(t.kind, s[t.q..t.eq]);
      assert s[t.q..] == x.text + s[t.eq..];
      StripAppend(x.text, s[t.eq..]);
      StripSkip(s, t.eq);
      PlainText(x);
      StripPlain(x.text);
      assert Lex(s, p)[1..] == Lex(s, t.next);
    } else {
      assert s[t.q..] == "";
      assert Strip("") == "" by { StripPlain(""); }
    }
  }

  lemma TokenStarts(s: string, p: nat)
    ensures TokenAt(s, p).q == Skip(s, p) && TokenAt(s, p).next == Skip(s, TokenAt(s, p).eq)
  {
    hide Skip, WordEnd;
  }

  lemma PlainText(x: Lexeme)
    requires Plain(x)
    ensures forall k :: 0 <= k < |x.text| ==> x.text[k] !in BLANKS
  {
  }

  /** peek looks at the kind of the first token. */
  lemma SeesFirst(s: string, p: nat, toks: string)
    requires p <= |s| && NUL !in s && forall k :: 0 <= k < |toks| ==> toks[k] in SYMBOLS
    ensures Sees(s, p, toks) <==> Lex(s, p) != [] && Mark(Lex(s, p)[0].kind) in toks
  {
    hide Skip, WordEnd;
    SkipStops(s, p);
    LexFirst(s, p);
  }

  /** The first character of a symbol. */
  function Mark(kind: char): char {
    if kind == '+' then '>' else kind
  }

  // ---- the grammar

  datatype Item = Arg(word: string) | To(redir: Redirection<string>)

  /** A simple command has words and redirections in any order; a block is followed by redirections. */
  datatype ExecTree = Simple(items: seq<Item>) | Block(line: LineTree, redirs: seq<Redirection<string>>)
  datatype PipeTree = Single(exec: ExecTree) | Piped(exec: ExecTree, rest: PipeTree)
  datatype LineTree = Last(pipe: PipeTree, backs: nat) | Then(pipe: PipeTree, backs: nat, rest: LineTree)

  function Symbol(c: char): seq<Lexeme> {
    [Lexeme(c, OpText(c))]
  }

  function RedirTokens(list: seq<Redirection<string>>): seq<Lexeme> {
    if list == [] then [] else Symbol(list[0].op) + [Lexeme('a', list[0].file)] + RedirTokens(list[1..])
  }

  function OneItem(x: Item): seq<Lexeme> {
    if x.Arg? then [Lexeme('a', x.word)] else RedirTokens([x.redir])
  }

  function ItemTokens(items: seq<Item>): seq<Lexeme> {
    if items == [] then [] else OneItem(items[0]) + ItemTokens(items[1..])
  }

  function OneArgs(x: Item): seq<string> {
    if x.Arg? then [x.word] else []
  }

  /** The words among the items, and the redirections. */
  function Args(items: seq<Item>): seq<string> {
    if items == [] then [] else OneArgs(items[0]) + Args(items[1..])
  }

  function OneTos(x: Item): seq<Redirection<string>> {
    if x.To? then [x.redir] else []
  }

  function Tos(items: seq<Item>): seq<Redirection<string>> {
    if items == [] then [] else OneTos(items[0]) + Tos(items[1..])
  }

  function Ands(n: nat): seq<Lexeme> {
    if n == 0 then [] else Symbol('&') + Ands(n - 1)
  }

  function ExecYield(x: ExecTree): seq<Lexeme> {
    match x
    case Simple(items) => ItemTokens(items)
    case Block(line, redirs) => Symbol('(') + LineYield(line) + Symbol(')') + RedirTokens(redirs)
  }

  function PipeYield(x: PipeTree): seq<Lexeme> {
    match x
    case Single(e) => ExecYield(e)
    case Piped(e, rest) => ExecYield(e) + Symbol('|') + PipeYield(rest)
  }

  function LineYield(x: LineTree): seq<Lexeme> {
    match x
    case Last(p, n) => PipeYield(p) + Ands(n)
    case Then(p, n, rest) => PipeYield(p) + Ands(n) + Symbol(';') + LineYield(rest)
  }

  function InBackground(c: Cmd<string>, n: nat): Cmd<string>
    decreases n
  {
    if n == 0 then c else InBackground(Back(c), n - 1)
  }

  /** The command that a tree stands for. */
  function ExecValue(x: ExecTree): Cmd<string> {
    match x
    case Simple(items) => Wrap(Exec(Args(items)), Tos(items))
    case Block(line, redirs) => Wrap(LineValue(line), redirs)
  }

  function PipeValue(x: PipeTree): Cmd<string> {
    match x
    case Single(e) => ExecValue(e)
    case Piped(e, rest) => Pipe(ExecValue(e), PipeValue(rest))
  }

  function LineValue(x: LineTree): Cmd<string> {
    match x
    case Last(p, n) => InBackground(PipeValue(p), n)
    case Then(p, n, rest) => List(InBackground(PipeValue(p), n), LineValue(rest))
  }

  predicate GoodRedirs(list: seq<Redirection<string>>) {
    forall k :: 0 <= k < |list| ==> IsRedirection(list[k].op)
  }

  /** The operators are operators, and no command has more words than fit. */
  predicate ExecGood(x: ExecTree) {
    match x
    case Simple(items) => |Args(items)| < MAXARGS && GoodRedirs(Tos(items))
    case Block(line, redirs) => LineGood(line) && GoodRedirs(redirs)
  }

  predicate PipeGood(x: PipeTree) {
    match x
    case Single(e) => ExecGood(e)
    case Piped(e, rest) => ExecGood(e) && PipeGood(rest)
  }

  predicate LineGood(x: LineTree) {
    match x
    case Last(p, n) => PipeGood(p)
    case Then(p, n, rest) => PipeGood(p) && LineGood(rest)
  }

  /** A derivation of the tokens ts as the command c. */
  predicate Derives(x: LineTree, ts: seq<Lexeme>, c: Cmd<string>) {
    LineGood(x) && LineYield(x) == ts && LineValue(x) == c
  }

  // ---- what the grammar derives, the parser reads

  /** The tokens end, or go on with one of these. */
  predicate Before(rest: seq<Lexeme>, marks: string) {
    rest == [] || Mark(rest[0].kind) in marks
  }

  /** The token at p is x. */
  lemma Next(s: string, p: nat, x: Lexeme, rest: seq<Lexeme>)
    requires p <= |s| && Lex(s, p) == [x] + rest
    ensures var t := TokenAt(s, p);
            t.kind == x.kind != NUL && p < t.next <= |s| && Lex(s, t.next) == rest && Text(s, Span(t.q, t.eq)) == x.text
  {
    hide TokenAt, Lex;
    LexFirst(s, p);
    var t := TokenAt(s, p);
    assert Lex(s, p)[0] == x && Lex(s, p)[1..] == rest;
    assert Lex(s, p)[1..] == Lex(s, t.next);
  }

  lemma RedirsUnfold(s: string, p: nat, acc: seq<Redirection<Span>>)
    requires p <= |s|
    ensures if !Sees(s, p, "<>") then ParseRedirs(s, p, acc) == Redirs(acc, Skip(s, p))
            else
              var op := TokenAt(s, p);
              op.next <= |s| &&
              var file := TokenAt(s, op.next);
              file.next <= |s| &&
              ParseRedirs(s, p, acc)
              == if file.kind != 'a' then NoFile
                 else ParseRedirs(s, file.next, acc + [Redirection(op.kind, Span(file.q, file.eq))])
  {
    hide TokenAt, Skip, Sees;
  }

  lemma {:induction false} RedirsRead(
    s: string, p: nat, list: seq<Redirection<string>>, rest: seq<Lexeme>, acc: seq<Redirection<Span>>)
    requires p <= |s| && NUL !in s && GoodRedirs(list) && Lex(s, p) == RedirTokens(list) + rest
    requires rest != [] ==> Mark(rest[0].kind) !in "<>"
    ensures var r := ParseRedirs(s, p, acc);
            r.Redirs? && Lex(s, r.pos) == rest && RedirTexts(s, r.list) == RedirTexts(s, acc) + list
    decreases |list|
  {
    hide TokenAt, Skip, Sees, Lex, RedirTexts, Text, ParseRedirs, RedirTokens, GoodRedirs, OpText, RedirText;
    SeesFirst(s, p, "<>");
    RedirsUnfold(s, p, acc);
    if list == [] {
      NoRedirTokens();
      assert [] + rest == rest;
      LexSkip(s, p);
    } else {
      var x := list[0];
      GoodFirst(list);
      RedirTokensFirst(list);
      var more := RedirTokens(list[1..]) + rest;
      assert RedirTokens(list) + rest == [Symbol(x.op)[0]] + ([Lexeme('a', x.file)] + more);
      Next(s, p, Symbol(x.op)[0], [Lexeme('a', x.file)] + more);
      var op := TokenAt(s, p);
      Next(s, op.next, Lexeme('a', x.file), more);
      var file := TokenAt(s, op.next);
      var y := Redirection(op.kind, Span(file.q, file.eq));
      RedirTextsMore(s, acc, y);
      RedirsRead(s, file.next, list[1..], rest, acc + [y]);
      assert RedirTexts(s, acc) + [x] + list[1..] == RedirTexts(s, acc) + list;
    }
  }

  lemma GoodFirst(list: seq<Redirection<string>>)
    requires GoodRedirs(list) && list != []
    ensures Mark(list[0].op) in "<>" && GoodRedirs(list[1..])
  {
  }

  lemma RedirTokensFirst(list: seq<Redirection<string>>)
    requires list != []
    ensures RedirTokens(list) == [Symbol(list[0].op)[0], Lexeme('a', list[0].file)] + RedirTokens(list[1..])
  {
  }

  /** The redirections that a list of items starts with. */
  function Lead(items: seq<Item>): nat
    ensures Lead(items) <= |items|
  {
    if items == [] || items[0].Arg? then 0 else 1 + Lead(items[1..])
  }

  lemma {:induction false} TokensConcat(a: seq<Item>, b: seq<Item>)
    ensures ItemTokens(a + b) == ItemTokens(a) + ItemTokens(b)
  {
    hide ItemTokens, OneItem;
    if a == [] {
      NoItems();
      assert a + b == b && [] + ItemTokens(b) == ItemTokens(b);
    } else {
      var rest := a[1..];
      TokensConcat(rest, b);
      assert a == [a[0]] + rest && a + b == [a[0]] + (rest + b);
      TokensCons(a[0], rest);
      TokensCons(a[0], rest + b);
      var head := OneItem(a[0]);
      assert head + (ItemTokens(rest) + ItemTokens(b)) == (head + ItemTokens(rest)) + ItemTokens(b);
    }
  }

  lemma TokensCons(x: Item, rest: seq<Item>)
    ensures ItemTokens([x] + rest) == OneItem(x) + ItemTokens(rest)
  {
    assert ([x] + rest)[1..] == rest;
  }

  lemma {:induction false} ArgsConcat(a: seq<Item>, b: seq<Item>)
    ensures Args(a + b) == Args(a) + Args(b)
  {
    hide Args, OneArgs;
    if a == [] {
      NoItems();
      assert a + b == b && [] + Args(b) == Args(b);
    } else {
      var rest := a[1..];
      ArgsConcat(rest, b);
      assert a == [a[0]] + rest && a + b == [a[0]] + (rest + b);
      ArgsCons(a[0], rest);
      ArgsCons(a[0], rest + b);
      var head := OneArgs(a[0]);
      assert head + (Args(rest) + Args(b)) == (head + Args(rest)) + Args(b);
    }
  }

  lemma ArgsCons(x: Item, rest: seq<Item>)
    ensures Args([x] + rest) == OneArgs(x) + Args(rest)
  {
    assert ([x] + rest)[1..] == rest;
  }

  lemma {:induction false} TosConcat(a: seq<Item>, b: seq<Item>)
    ensures Tos(a + b) == Tos(a) + Tos(b)
  {
    hide Tos, OneTos;
    if a == [] {
      NoItems();
      assert a + b == b && [] + Tos(b) == Tos(b);
    } else {
      var rest := a[1..];
      TosConcat(rest, b);
      assert a == [a[0]] + rest && a + b == [a[0]] + (rest + b);
      TosCons(a[0], rest);
      TosCons(a[0], rest + b);
      var head := OneTos(a[0]);
      assert head + (Tos(rest) + Tos(b)) == (head + Tos(rest)) + Tos(b);
    }
  }

  lemma TosCons(x: Item, rest: seq<Item>)
    ensures Tos([x] + rest) == OneTos(x) + Tos(rest)
  {
    assert ([x] + rest)[1..] == rest;
  }

  lemma ItemsConcat(a: seq<Item>, b: seq<Item>)
    ensures ItemTokens(a + b) == ItemTokens(a) + ItemTokens(b)
    ensures Args(a + b) == Args(a) + Args(b) && Tos(a + b) == Tos(a) + Tos(b)
  {
    hide ItemTokens, Args, Tos;
    TokensConcat(a, b);
    ArgsConcat(a, b);
    TosConcat(a, b);
  }

  lemma RedirCons(x: Redirection<string>, list: seq<Redirection<string>>)
    ensures RedirTokens([x] + list) == RedirTokens([x]) + RedirTokens(list)
  {
    assert ([x] + list)[1..] == list && ([x] + list)[0] == x;
    assert RedirTokens([x]) == Symbol(x.op) + [Lexeme('a', x.file)] + RedirTokens([]);
  }

  predicate AllTo(items: seq<Item>) {
    forall k :: 0 <= k < |items| ==> items[k].To?
  }

  lemma {:induction false} ToTokens(items: seq<Item>)
    requires AllTo(items)
    ensures ItemTokens(items) == RedirTokens(Tos(items)) && Args(items) == []
  {
    hide RedirTokens;
    if items == [] {
      assert RedirTokens([]) == [] by { NoRedirTokens(); }
    } else {
      ToTokens(items[1..]);
      RedirCons(items[0].redir, Tos(items[1..]));
    }
  }

  lemma NoRedirTokens()
    ensures RedirTokens([]) == []
  {
  }

  lemma {:induction false} LeadIs(items: seq<Item>)
    ensures AllTo(items[..Lead(items)]) && (Lead(items) < |items| ==> items[Lead(items)].Arg?)
  {
    var n := Lead(items);
    if n > 0 {
      LeadIs(items[1..]);
      forall k | 0 <= k < n ensures items[..n][k].To? {
        assert k > 0 ==> items[..n][k] == items[1..][..n - 1][k - 1];
      }
    }
  }

  lemma LeadSplit(items: seq<Item>)
    ensures var n := Lead(items);
            && ItemTokens(items) == RedirTokens(Tos(items[..n])) + ItemTokens(items[n..])
            && Args(items) == Args(items[n..]) && Tos(items) == Tos(items[..n]) + Tos(items[n..])
            && (n < |items| ==> items[n..][0].Arg?)
  {
    hide ItemTokens, Args, Tos, RedirTokens, AllTo, Lead;
    var n := Lead(items);
    var lead, later := items[..n], items[n..];
    LeadIs(items);
    ToTokens(lead);
    ItemsConcat(lead, later);
    assert lead + later == items;
    assert [] + Args(later) == Args(later);
  }

  lemma FirstArg(items: seq<Item>)
    requires items != [] && items[0].Arg?
    ensures ItemTokens(items) == [Lexeme('a', items[0].word)] + ItemTokens(items[1..])
    ensures Args(items) == [items[0].word] + Args(items[1..]) && Tos(items) == Tos(items[1..])
  {
    assert [] + Tos(items[1..]) == Tos(items[1..]);
  }

  lemma NoItems()
    ensures ItemTokens([]) == [] && Args([]) == [] && Tos([]) == []
  {
  }

  /** Arguments, each followed by redirections. */
  lemma {:induction false} ArgsRead(
    s: string, p: nat, items: seq<Item>, rest: seq<Lexeme>, argv: seq<Span>, list: seq<Redirection<Span>>)
    requires p <= |s| && NUL !in s && (items != [] ==> items[0].Arg?) && GoodRedirs(Tos(items))
    requires Lex(s, p) == ItemTokens(items) + rest && Before(rest, "|)&;") && |argv| + |Args(items)| < MAXARGS
    ensures var r := ParseArgs(s, p, argv, list);
            && r.Ok? && Lex(s, r.pos) == rest
            && Reads(s, r.cmd) == Wrap(Exec(Texts(s, argv) + Args(items)), RedirTexts(s, list) + Tos(items))
    decreases |items|
  {
    hide TokenAt, Skip, Sees, Lex, Text, Texts, RedirTexts, ParseRedirs, ParseArgs, Wrap, Reads, ItemTokens, Args, Tos,
         RedirTokens, GoodRedirs, Lead, Before;
    if items == [] {
      NoItems();
      assert [] + rest == rest;
      ArgsEnd(s, p, argv, list);
      assert Texts(s, argv) + [] == Texts(s, argv) && RedirTexts(s, list) + [] == RedirTexts(s, list);
    } else {
      FirstArg(items);
      var more := ItemTokens(items[1..]) + rest;
      assert ItemTokens(items) + rest == [Lexeme('a', items[0].word)] + more;
      var t := TokenAt(s, p);
      Next(s, p, Lexeme('a', items[0].word), more);
      ArgsStep(s, p, argv, list);
      LeadSplit(items[1..]);
      var n := Lead(items[1..]);
      var reds, later := Tos(items[1..][..n]), items[1..][n..];
      assert more == RedirTokens(reds) + (ItemTokens(later) + rest);
      TosGood(Tos(items[1..]), reds, Tos(later));
      NoRedirNext(later, rest);
      RedirsRead(s, t.next, reds, ItemTokens(later) + rest, list);
      var r := ParseRedirs(s, t.next, list);
      TextsMore(s, argv, Span(t.q, t.eq));
      ArgsRead(s, r.pos, later, rest, argv + [Span(t.q, t.eq)], r.list);
      assert Texts(s, argv) + [items[0].word] + Args(later) == Texts(s, argv) + Args(items);
      assert RedirTexts(s, list) + reds + Tos(later) == RedirTexts(s, list) + Tos(items);
    }
  }

  /** An argument, and what follows it. */
  lemma ArgsStep(s: string, p: nat, argv: seq<Span>, list: seq<Redirection<Span>>)
    requires p <= |s| && NUL !in s && TokenAt(s, p).kind == 'a' && |argv| + 1 < MAXARGS
    ensures p < TokenAt(s, p).next <= |s|
    ensures var t := TokenAt(s, p); var r := ParseRedirs(s, t.next, list);
            ParseArgs(s, p, argv, list) == if r.NoFile? then Panic("missing file for redirection")
                                           else ParseArgs(s, r.pos, argv + [Span(t.q, t.eq)], r.list)
  {
    hide TokenAt, Skip, Sees, Lex, ParseRedirs;
    SeesFirst(s, p, "|)&;");
    LexFirst(s, p);
  }

  lemma NoRedirNext(later: seq<Item>, rest: seq<Lexeme>)
    requires (later != [] ==> later[0].Arg?) && Before(rest, "|)&;")
    ensures var ts := ItemTokens(later) + rest; ts != [] ==> Mark(ts[0].kind) !in "<>"
    ensures var ts := ItemTokens(later) + rest; ts != [] ==> Mark(ts[0].kind) !in "("
  {
  }

  lemma TosGood(all: seq<Redirection<string>>, a: seq<Redirection<string>>, b: seq<Redirection<string>>)
    requires GoodRedirs(all) && all == a + b
    ensures GoodRedirs(a) && GoodRedirs(b)
  {
    assert forall k :: 0 <= k < |a| ==> a[k] == all[k];
    assert forall k :: 0 <= k < |b| ==> b[k] == all[|a| + k];
  }

  /** Where the arguments end. */
  lemma ArgsEnd(s: string, p: nat, argv: seq<Span>, list: seq<Redirection<Span>>)
    requires p <= |s| && NUL !in s && Before(Lex(s, p), "|)&;")
    ensures var r := ParseArgs(s, p, argv, list);
            r.Ok? && Lex(s, r.pos) == Lex(s, p) && Reads(s, r.cmd) == Wrap(Exec(Texts(s, argv)), RedirTexts(s, list))
  {
    hide TokenAt, Skip, Sees, Text, Texts, RedirTexts, Wrap;
    SeesFirst(s, p, "|)&;");
    LexFirst(s, p);
    LexSkip(s, p);
    ReadsWrap(s, Exec(argv), list);
    if Lex(s, p) == [] {
      TokenPlain(s, p);
      LexAtEnd(s);
    }
  }

  lemma LexAtEnd(s: string)
    ensures Lex(s, |s|) == []
  {
  }

  lemma SimpleRead(s: string, p: nat, items: seq<Item>, rest: seq<Lexeme>)
    requires p <= |s| && NUL !in s && |Args(items)| < MAXARGS && GoodRedirs(Tos(items))
    requires Lex(s, p) == ItemTokens(items) + rest && Before(rest, "|)&;")
    ensures var r := ParseExec(s, p);
            r.Ok? && Lex(s, r.pos) == rest && Reads(s, r.cmd) == Wrap(Exec(Args(items)), Tos(items))
  {
    hide TokenAt, Skip, Sees, Lex, Texts, RedirTexts, ParseRedirs, ParseArgs, ParseBlock, Wrap, Reads, ItemTokens, Args,
         Tos, RedirTokens, GoodRedirs, Lead, Before;
    SeesFirst(s, p, "(");
    LeadSplit(items);
    var n := Lead(items);
    var reds, later := Tos(items[..n]), items[n..];
    var more := ItemTokens(later) + rest;
    assert ItemTokens(items) + rest == RedirTokens(reds) + more;
    TosGood(Tos(items), reds, Tos(later));
    NoRedirNext(later, rest);
    FirstMark(reds, more);
    RedirsRead(s, p, reds, more, []);
    NoRedirTexts(s);
    NoTexts(s);
    var r := ParseRedirs(s, p, []);
    ArgsRead(s, r.pos, later, rest, [], r.list);
    assert [] + Args(later) == Args(items) && [] + reds + Tos(later) == Tos(items);
  }

  lemma FirstMark(reds: seq<Redirection<string>>, more: seq<Lexeme>)
    requires GoodRedirs(reds) && (more != [] ==> Mark(more[0].kind) !in "(")
    ensures var ts := RedirTokens(reds) + more; ts != [] ==> Mark(ts[0].kind) !in "("
  {
  }

  lemma {:induction false} ExecRead(s: string, p: nat, x: ExecTree, rest: seq<Lexeme>)
    requires p <= |s| && NUL !in s && ExecGood(x) && Lex(s, p) == ExecYield(x) + rest && Before(rest, "|)&;")
    ensures var r := ParseExec(s, p); r.Ok? && Lex(s, r.pos) == rest && Reads(s, r.cmd) == ExecValue(x)
    decreases x, 0
  {
    hide TokenAt, Skip, Sees, Lex, RedirTexts, ParseRedirs, ParseArgs, ParseLine, ParseExec, Wrap, Reads, LineYield,
         LineValue, LineGood, RedirTokens, GoodRedirs, ItemTokens, Args, Tos;
    match x
    case Simple(items) => SimpleRead(s, p, items, rest);
    case Block(line, redirs) =>
      var inside := Symbol(')') + (RedirTokens(redirs) + rest);
      assert ExecYield(x) + rest == Symbol('(') + (LineYield(line) + inside);
      Next(s, p, Symbol('(')[0], LineYield(line) + inside);
      var open := TokenAt(s, p);
      LineRead(s, open.next, line, inside);
      BlockRead(s, p, redirs, rest);
  }

  /** A block whose inside has been read. */
  lemma BlockRead(s: string, p: nat, redirs: seq<Redirection<string>>, rest: seq<Lexeme>)
    requires p <= |s| && NUL !in s && GoodRedirs(redirs) && Before(rest, "|)&;")
    requires Lex(s, p) != [] && Lex(s, p)[0].kind == '(' && p < TokenAt(s, p).next <= |s|
    requires var inner := ParseLine(s, TokenAt(s, p).next);
             inner.Ok? && Lex(s, inner.pos) == Symbol(')') + (RedirTokens(redirs) + rest)
    ensures var r := ParseExec(s, p); var inner := ParseLine(s, TokenAt(s, p).next);
            r.Ok? && Lex(s, r.pos) == rest && Reads(s, r.cmd) == Wrap(Reads(s, inner.cmd), redirs)
  {
    hide TokenAt, Skip, Sees, Lex, RedirTexts, ParseRedirs, ParseArgs, ParseLine, Wrap, Reads, RedirTokens, GoodRedirs;
    SeesFirst(s, p, "(");
    var inner := ParseLine(s, TokenAt(s, p).next);
    SeesFirst(s, inner.pos, ")");
    Next(s, inner.pos, Symbol(')')[0], RedirTokens(redirs) + rest);
    var close := TokenAt(s, inner.pos);
    RedirsRead(s, close.next, redirs, rest, []);
    NoRedirTexts(s);
    var r := ParseRedirs(s, close.next, []);
    ReadsWrap(s, inner.cmd, r.list);
    assert [] + redirs == redirs;
  }

  lemma {:induction false} PipeRead(s: string, p: nat, x: PipeTree, rest: seq<Lexeme>)
    requires p <= |s| && NUL !in s && PipeGood(x) && Lex(s, p) == PipeYield(x) + rest && Before(rest, ")&;")
    ensures var r := ParsePipe(s, p); r.Ok? && Lex(s, r.pos) == rest && Reads(s, r.cmd) == PipeValue(x)
    decreases x, 0
  {
    hide TokenAt, Skip, Sees, Lex, ParseExec, ExecYield, ExecValue, ExecGood;
    match x
    case Single(e) =>
      ExecRead(s, p, e, rest);
      var left := ParseExec(s, p);
      SeesFirst(s, left.pos, "|");
      LexSkip(s, left.pos);
    case Piped(e, more) =>
      var after := Symbol('|') + (PipeYield(more) + rest);
      assert PipeYield(x) + rest == ExecYield(e) + after;
      ExecRead(s, p, e, after);
      var left := ParseExec(s, p);
      SeesFirst(s, left.pos, "|");
      Next(s, left.pos, Symbol('|')[0], PipeYield(more) + rest);
      PipeRead(s, TokenAt(s, left.pos).next, more, rest);
  }

  lemma {:induction false} BacksRead(s: string, p: nat, n: nat, rest: seq<Lexeme>, cmd: Cmd<Span>)
    requires p <= |s| && NUL !in s && Lex(s, p) == Ands(n) + rest && Before(rest, ");")
    ensures var r := ParseBacks(s, p, cmd);
            r.Ok? && Lex(s, r.pos) == rest && Reads(s, r.cmd) == InBackground(Reads(s, cmd), n)
    decreases n
  {
    hide TokenAt, Skip, Sees, Lex;
    SeesFirst(s, p, "&");
    if n == 0 {
      assert Ands(n) + rest == rest;
      LexSkip(s, p);
    } else {
      assert Ands(n) + rest == Symbol('&') + (Ands(n - 1) + rest);
      Next(s, p, Symbol('&')[0], Ands(n - 1) + rest);
      BacksRead(s, TokenAt(s, p).next, n - 1, rest, Back(cmd));
    }
  }

  lemma {:induction false} LineRead(s: string, p: nat, x: LineTree, rest: seq<Lexeme>)
    requires p <= |s| && NUL !in s && LineGood(x) && Lex(s, p) == LineYield(x) + rest && Before(rest, ")")
    ensures var r := ParseLine(s, p); r.Ok? && Lex(s, r.pos) == rest && Reads(s, r.cmd) == LineValue(x)
    decreases x, 2
  {
    hide TokenAt, Skip, Sees, Lex, ParsePipe, ParseBacks, ParseLine, PipeYield, PipeValue, PipeGood, InBackground, Ands,
         Reads;
    match x
    case Last(pipe, n) =>
      assert LineYield(x) + rest == PipeYield(pipe) + (Ands(n) + rest);
      HeadRead(s, p, pipe, n, rest);
      SeesFirst(s, ParseHead(s, p).pos, ";");
      LineHead(s, p);
    case Then(pipe, n, more) =>
      var end := Symbol(';') + (LineYield(more) + rest);
      assert LineYield(x) + rest == PipeYield(pipe) + (Ands(n) + end);
      HeadRead(s, p, pipe, n, end);
      var left := ParseHead(s, p);
      SeesFirst(s, left.pos, ";");
      Next(s, left.pos, Symbol(';')[0], LineYield(more) + rest);
      LineRead(s, TokenAt(s, left.pos).next, more, rest);
      LineHead(s, p);
      ReadsList(s, left.cmd, ParseLine(s, TokenAt(s, left.pos).next).cmd);
  }

  lemma ReadsList(s: string, l: Cmd<Span>, r: Cmd<Span>)
    ensures Reads(s, List(l, r)) == List(Reads(s, l), Reads(s, r))
  {
  }

  lemma LineHead(s: string, p: nat)
    requires p <= |s| && ParseHead(s, p).Ok?
    ensures var left := ParseHead(s, p);
            if !Sees(s, left.pos, ";") then ParseLine(s, p) == left
            else var right := ParseLine(s, TokenAt(s, left.pos).next);
                 ParseLine(s, p) == if right.Panic? then right else Ok(List(left.cmd, right.cmd), right.pos)
  {
    hide TokenAt, Skip, Sees, ParsePipe, ParseBacks;
  }

  /** A pipeline and its background marks. */
  lemma {:induction false} HeadRead(s: string, p: nat, x: PipeTree, n: nat, end: seq<Lexeme>)
    requires p <= |s| && NUL !in s && PipeGood(x) && Lex(s, p) == PipeYield(x) + (Ands(n) + end) && EndsLine(end)
    ensures var r := ParseHead(s, p);
            r.Ok? && p <= r.pos <= |s| && Lex(s, r.pos) == end && Reads(s, r.cmd) == InBackground(PipeValue(x), n)
    decreases x, 1
  {
    hide TokenAt, Skip, Sees, Lex, ParsePipe, ParseBacks, PipeYield, PipeValue, PipeGood, InBackground, Ands, Reads;
    AndsFirst(n, end);
    PipeRead(s, p, x, Ands(n) + end);
    var first := ParsePipe(s, p);
    BacksRead(s, first.pos, n, end, first.cmd);
  }

  predicate EndsLine(end: seq<Lexeme>) {
    Before(end, ");")
  }

  lemma AndsFirst(n: nat, end: seq<Lexeme>)
    requires Before(end, ");")
    ensures Before(Ands(n) + end, ")&;")
  {
  }

  // ---- what the parser reads, the grammar derives

  lemma {:induction false} RedirsDerive(s: string, p: nat, acc: seq<Redirection<Span>>)
    returns (list: seq<Redirection<string>>)
    requires p <= |s| && NUL !in s && ParseRedirs(s, p, acc).Redirs?
    ensures var r := ParseRedirs(s, p, acc);
            GoodRedirs(list) && Lex(s, p) == RedirTokens(list) + Lex(s, r.pos) &&
            RedirTexts(s, r.list) == RedirTexts(s, acc) + list
    decreases |s| - p
  {
    hide TokenAt, Skip, Sees, Lex, RedirTexts, Text;
    SeesFirst(s, p, "<>");
    list := [];
    if Sees(s, p, "<>") {
      LexFirst(s, p);
      TokenPlain(s, p);
      RedirToken(s, p);
      var op := TokenAt(s, p);
      LexFirst(s, op.next);
      var file := TokenAt(s, op.next);
      WordText(s, op.next);
      var y := Redirection(op.kind, Span(file.q, file.eq));
      var more := RedirsDerive(s, file.next, acc + [y]);
      RedirTextsMore(s, acc, y);
      var x := Redirection(op.kind, Text(s, y.file));
      list := [x] + more;
      assert list[1..] == more;
      OneRedirTokens(s, p);
      assert RedirTexts(s, acc) + [x] + more == RedirTexts(s, acc) + list;
      assert RedirTokens(list) == Symbol(x.op) + [Lexeme('a', x.file)] + RedirTokens(more);
    } else {
      LexSkip(s, p);
      assert RedirTokens(list) + Lex(s, p) == Lex(s, p);
    }
  }

  lemma WordText(s: string, p: nat)
    requires p <= |s|
    ensures var t := TokenAt(s, p); Text(s, Span(t.q, t.eq)) == s[t.q..t.eq]
  {
    hide TokenAt;
  }

  /** A symbol's text is determined by its kind. */
  lemma OneRedirTokens(s: string, p: nat)
    requires p <= |s| && NUL !in s && IsRedirection(TokenAt(s, p).kind)
    ensures Lex(s, p) == Symbol(TokenAt(s, p).kind) + Lex(s, TokenAt(s, p).next)
  {
    hide TokenAt, Lex;
    LexFirst(s, p);
    TokenPlain(s, p);
  }

  lemma SymbolTokens(s: string, p: nat, c: char)
    requires p <= |s| && NUL !in s && c in "|();&" && Sees(s, p, [c])
    ensures var t := TokenAt(s, p); p < t.next <= |s| && Lex(s, p) == Symbol(c) + Lex(s, t.next)
  {
    hide Skip, WordEnd, Lex;
    SkipStops(s, p);
    LexFirst(s, p);
    TokenPlain(s, p);
  }

  lemma {:induction false} ArgsDerive(s: string, p: nat, argv: seq<Span>, list: seq<Redirection<Span>>)
    returns (items: seq<Item>)
    requires p <= |s| && NUL !in s && |argv| < MAXARGS && ParseArgs(s, p, argv, list).Ok?
    ensures var r := ParseArgs(s, p, argv, list);
            && |argv| + |Args(items)| < MAXARGS && GoodRedirs(Tos(items)) &&
                 Lex(s, p) == ItemTokens(items) + Lex(s, r.pos)
            && Reads(s, r.cmd) == Wrap(Exec(Texts(s, argv) + Args(items)), RedirTexts(s, list) + Tos(items))
    decreases |s| - p
  {
    hide TokenAt, Skip, Sees, Lex, Text, Texts, RedirTexts, ParseRedirs, ParseArgs, Wrap, Reads, ItemTokens, Args, Tos,
         RedirTokens, GoodRedirs, Redirected, Before;
    LexFirst(s, p);
    var t := TokenAt(s, p);
    items := [];
    NoItems();
    ArgsCases(s, p, argv, list);
    if Before(Lex(s, p), "|)&;") {
      ArgsEnd(s, p, argv, list);
      assert Texts(s, argv) + [] == Texts(s, argv) && RedirTexts(s, list) + [] == RedirTexts(s, list);
      assert [] + Lex(s, p) == Lex(s, p);
      GoodNone();
    } else {
      ArgsStep(s, p, argv, list);
      var reds := RedirsDerive(s, t.next, list);
      var r := ParseRedirs(s, t.next, list);
      var w := Text(s, Span(t.q, t.eq));
      WordText(s, p);
      var later := ArgsDerive(s, r.pos, argv + [Span(t.q, t.eq)], r.list);
      TextsMore(s, argv, Span(t.q, t.eq));
      items := [Arg(w)] + (Redirected(reds) + later);
      assert items[1..] == Redirected(reds) + later;
      FirstArg(items);
      ItemsAppend(reds, later);
      assert Texts(s, argv) + [w] + Args(later) == Texts(s, argv) + Args(items);
      assert RedirTexts(s, list) + reds + Tos(later) == RedirTexts(s, list) + Tos(items);
      GoodAppend(reds, Tos(later));
    }
  }

  lemma GoodNone()
    ensures GoodRedirs([])
  {
  }

  lemma ArgsCases(s: string, p: nat, argv: seq<Span>, list: seq<Redirection<Span>>)
    requires p <= |s| && NUL !in s && ParseArgs(s, p, argv, list).Ok?
    ensures Before(Lex(s, p), "|)&;") || (TokenAt(s, p).kind == 'a' && |argv| + 1 < MAXARGS)
  {
    hide TokenAt, Skip, Sees, ParseRedirs;
    SeesFirst(s, p, "|)&;");
    LexFirst(s, p);
  }

  function Redirected(list: seq<Redirection<string>>): seq<Item> {
    if list == [] then [] else [To(list[0])] + Redirected(list[1..])
  }

  lemma {:induction false} RedirectedIs(list: seq<Redirection<string>>)
    ensures AllTo(Redirected(list)) && Tos(Redirected(list)) == list
  {
    if list != [] {
      RedirectedIs(list[1..]);
      assert Redirected(list)[1..] == Redirected(list[1..]);
    }
  }

  lemma ItemsAppend(list: seq<Redirection<string>>, later: seq<Item>)
    ensures var items := Redirected(list) + later;
            ItemTokens(items) == RedirTokens(list) + ItemTokens(later) && Args(items) == Args(later) &&
            Tos(items) == list + Tos(later)
  {
    hide ItemTokens, Args, Tos, RedirTokens, Redirected, AllTo;
    RedirectedIs(list);
    ToTokens(Redirected(list));
    ItemsConcat(Redirected(list), later);
    assert [] + Args(later) == Args(later);
  }

  lemma GoodAppend(a: seq<Redirection<string>>, b: seq<Redirection<string>>)
    requires GoodRedirs(a) && GoodRedirs(b)
    ensures GoodRedirs(a + b)
  {
  }

  lemma SimpleDerive(s: string, p: nat) returns (x: ExecTree)
    requires p <= |s| && NUL !in s && ParseExec(s, p).Ok? && !Sees(s, p, "(")
    ensures var r := ParseExec(s, p);
            ExecGood(x) && Lex(s, p) == ExecYield(x) + Lex(s, r.pos) && Reads(s, r.cmd) == ExecValue(x)
  {
    hide TokenAt, Skip, Sees, Lex, Texts, RedirTexts, ParseRedirs, ParseArgs, Wrap, Reads, ItemTokens, Args, Tos,
         RedirTokens, GoodRedirs, Redirected;
    NoRedirTexts(s);
    NoTexts(s);
    var reds := RedirsDerive(s, p, []);
    var r := ParseRedirs(s, p, []);
    var later := ArgsDerive(s, r.pos, [], r.list);
    ItemsAppend(reds, later);
    var items := Redirected(reds) + later;
    x := Simple(items);
    assert [] + reds == reds && [] + Args(later) == Args(items);
    GoodAppend(reds, Tos(later));
    var end := Lex(s, ParseArgs(s, r.pos, [], r.list).pos);
    assert RedirTokens(reds) + (ItemTokens(later) + end) == ItemTokens(items) + end;
  }

  lemma {:induction false} ExecDerive(s: string, p: nat) returns (x: ExecTree)
    requires p <= |s| && NUL !in s && ParseExec(s, p).Ok?
    ensures var r := ParseExec(s, p);
            ExecGood(x) && Lex(s, p) == ExecYield(x) + Lex(s, r.pos) && Reads(s, r.cmd) == ExecValue(x)
    decreases |s| - p, 2
  {
    hide TokenAt, Skip, Sees, Lex, RedirTexts, ParseRedirs, ParseArgs, ParseLine, Wrap, Reads, LineYield, LineValue,
         LineGood, RedirTokens, GoodRedirs, ItemTokens, Args, Tos;
    if Sees(s, p, "(") {
      SymbolTokens(s, p, '(');
      var open := TokenAt(s, p);
      var line := LineDerive(s, open.next);
      var inner := ParseLine(s, open.next);
      SymbolTokens(s, inner.pos, ')');
      var close := TokenAt(s, inner.pos);
      var list := RedirsDerive(s, close.next, []);
      var r := ParseRedirs(s, close.next, []);
      NoRedirTexts(s);
      ReadsWrap(s, inner.cmd, r.list);
      assert [] + list == list;
      x := Block(line, list);
      var end := Lex(s, r.pos);
      assert Lex(s, p) == Symbol('(') + (LineYield(line) + (Symbol(')') + (RedirTokens(list) + end)));
      assert Lex(s, p) == ExecYield(x) + end;
    } else {
      x := SimpleDerive(s, p);
    }
  }

  lemma {:induction false} PipeDerive(s: string, p: nat) returns (x: PipeTree)
    requires p <= |s| && NUL !in s && ParsePipe(s, p).Ok?
    ensures var r := ParsePipe(s, p);
            PipeGood(x) && Lex(s, p) == PipeYield(x) + Lex(s, r.pos) && Reads(s, r.cmd) == PipeValue(x)
    decreases |s| - p, 3
  {
    hide TokenAt, Skip, Sees, Lex, ParseExec, ExecYield, ExecValue, ExecGood;
    var e := ExecDerive(s, p);
    var left := ParseExec(s, p);
    if Sees(s, left.pos, "|") {
      SymbolTokens(s, left.pos, '|');
      var more := PipeDerive(s, TokenAt(s, left.pos).next);
      x := Piped(e, more);
      assert Lex(s, p) == PipeYield(x) + Lex(s, ParsePipe(s, p).pos);
    } else {
      LexSkip(s, left.pos);
      x := Single(e);
    }
  }

  lemma {:induction false} BacksDerive(s: string, p: nat, cmd: Cmd<Span>) returns (n: nat)
    requires p <= |s| && NUL !in s
    ensures var r := ParseBacks(s, p, cmd);
            Lex(s, p) == Ands(n) + Lex(s, r.pos) && Reads(s, r.cmd) == InBackground(Reads(s, cmd), n)
    decreases |s| - p
  {
    hide TokenAt, Skip, Sees, Lex;
    n := 0;
    if Sees(s, p, "&") {
      SymbolTokens(s, p, '&');
      var m := BacksDerive(s, TokenAt(s, p).next, Back(cmd));
      n := m + 1;
      assert Lex(s, p) == Ands(n) + Lex(s, ParseBacks(s, p, cmd).pos);
    } else {
      LexSkip(s, p);
      assert Ands(0) + Lex(s, p) == Lex(s, p);
    }
  }

  lemma {:induction false} LineDerive(s: string, p: nat) returns (x: LineTree)
    requires p <= |s| && NUL !in s && ParseLine(s, p).Ok?
    ensures var r := ParseLine(s, p);
            LineGood(x) && Lex(s, p) == LineYield(x) + Lex(s, r.pos) && Reads(s, r.cmd) == LineValue(x)
    decreases |s| - p, 4
  {
    hide TokenAt, Skip, Sees, Lex, ParsePipe, ParseBacks, PipeYield, PipeValue, PipeGood, InBackground;
    var pipe := PipeDerive(s, p);
    var first := ParsePipe(s, p);
    var n := BacksDerive(s, first.pos, first.cmd);
    var left := ParseBacks(s, first.pos, first.cmd);
    if Sees(s, left.pos, ";") {
      SymbolTokens(s, left.pos, ';');
      var more := LineDerive(s, TokenAt(s, left.pos).next);
      x := Then(pipe, n, more);
      assert Lex(s, p) == LineYield(x) + Lex(s, ParseLine(s, p).pos);
    } else {
      x := Last(pipe, n);
      assert Lex(s, p) == LineYield(x) + Lex(s, left.pos);
    }
  }

  // ---- the parser and the grammar agree

  /** The command that the shell takes a line for. */
  predicate Means(s: string, c: Cmd<string>) {
    ParseCmd(s).Ok? && Reads(s, ParseCmd(s).cmd) == c
  }

  lemma AtEnd(s: string, p: nat)
    requires p <= |s| && NUL !in s
    ensures Lex(s, p) == [] <==> Skip(s, p) == |s|
  {
    hide Skip, WordEnd;
    SkipStops(s, p);
    TokenPlain(s, p);
    TokenStarts(s, p);
    LexFirst(s, p);
    LexSkip(s, p);
    LexAtEnd(s);
  }

  /** The parser takes a line for a command exactly if the grammar derives the line's tokens as that command. */
  lemma ParserIsGrammar(s: string, c: Cmd<string>)
    requires NUL !in s
    ensures Means(s, c) <==> exists x :: Derives(x, Lex(s, 0), c)
  {
    hide ParseLine, Skip, Lex, Reads, LineYield, LineGood, LineValue;
    if Means(s, c) {
      var x := LineDerive(s, 0);
      AtEnd(s, ParseLine(s, 0).pos);
      assert LineYield(x) + [] == LineYield(x);
      assert Derives(x, Lex(s, 0), c);
    }
    if x :| Derives(x, Lex(s, 0), c) {
      assert LineYield(x) + [] == LineYield(x);
      LineRead(s, 0, x, []);
      AtEnd(s, ParseLine(s, 0).pos);
    }
  }

  /** Only the tokens of a line count. */
  lemma TokensDecide(s: string, t: string, c: Cmd<string>)
    requires NUL !in s && NUL !in t && Lex(s, 0) == Lex(t, 0)
    ensures Means(s, c) <==> Means(t, c)
  {
    hide Lex, Means, Derives;
    ParserIsGrammar(s, c);
    ParserIsGrammar(t, c);
  }

  // ---- white space

  /** The same line, with some white space replaced by other white space. */
  predicate Respaced(s: string, t: string) {
    |s| == |t| && forall k :: 0 <= k < |s| ==> s[k] == t[k] || (s[k] in BLANKS && t[k] in BLANKS)
  }

  lemma {:induction false} SkipRespaced(s: string, t: string, p: nat)
    requires Respaced(s, t)
    ensures Skip(s, p) == Skip(t, p)
    decreases |s| - p
  {
    if p < |s| {
      SpacesAndSymbols(s[p]);
      SpacesAndSymbols(t[p]);
      SkipRespaced(s, t, p + 1);
    }
  }

  lemma {:induction false} WordEndRespaced(s: string, t: string, p: nat)
    requires Respaced(s, t)
    ensures WordEnd(s, p) == WordEnd(t, p)
    decreases |s| - p
  {
    if p < |s| {
      SpacesAndSymbols(s[p]);
      SpacesAndSymbols(t[p]);
      WordEndRespaced(s, t, p + 1);
    }
  }

  lemma TokenRespaced(s: string, t: string, p: nat)
    requires Respaced(s, t) && p <= |s| && NUL !in s
    ensures TokenAt(s, p) == TokenAt(t, p)
  {
    hide Skip, WordEnd;
    SkipRespaced(s, t, p);
    var q := Skip(s, p);
    WordEndRespaced(s, t, q);
    SkipStops(s, p);
    if q < |s| {
      SpacesAndSymbols(s[q]);
      SpacesAndSymbols(t[q]);
    }
    if q + 1 < |s| {
      SpacesAndSymbols(s[q + 1]);
      SpacesAndSymbols(t[q + 1]);
    }
    SkipRespaced(s, t, TokenAt(s, p).eq);
  }

  lemma TextRespaced(s: string, t: string, p: nat)
    requires Respaced(s, t) && p <= |s| && NUL !in s
    ensures var x := TokenAt(s, p); s[x.q..x.eq] == t[x.q..x.eq]
  {
    hide TokenAt, Plain;
    TokenPlain(s, p);
    var x := TokenAt(s, p);
    if x.kind != NUL {
      var text := s[x.q..x.eq];
      PlainText(Lexeme(x.kind, text));
      forall k | 0 <= k < x.eq - x.q ensures text[k] == t[x.q..x.eq][k] {
        assert Lexeme(x.kind, text).text[k] == s[x.q + k];
      }
    }
  }

  lemma {:induction false} LexRespaced(s: string, t: string, p: nat)
    requires Respaced(s, t) && p <= |s| && NUL !in s
    ensures Lex(s, p) == Lex(t, p)
    decreases |s| - p
  {
    hide TokenAt, Respaced;
    TokenRespaced(s, t, p);
    TextRespaced(s, t, p);
    LexFirst(s, p);
    if TokenAt(s, p).kind != NUL {
      assert |s| == |t| by { assert Respaced(s, t); RespacedLength(s, t); }
      LexRespaced(s, t, TokenAt(s, p).next);
    }
  }

  lemma RespacedLength(s: string, t: string)
    requires Respaced(s, t)
    ensures |s| == |t| && (NUL !in s ==> NUL !in t)
  {
    forall k | 0 <= k < |t| && NUL !in s ensures t[k] != NUL {
      assert s[k] in s;
    }
  }

  /** A space, a tab, a return, a newline and a vertical tab are as good as each other. */
  lemma WhiteSpaceIsOne(s: string, t: string, c: Cmd<string>)
    requires Respaced(s, t) && NUL !in s
    ensures Means(s, c) <==> Means(t, c)
  {
    hide Means, Lex;
    RespacedLength(s, t);
    LexRespaced(s, t, 0);
    TokensDecide(s, t, c);
  }

  predicate AllBlank(w: string) {
    forall k :: 0 <= k < |w| ==> w[k] in BLANKS
  }

  lemma BlankNoNul(w: string)
    requires AllBlank(w)
    ensures NUL !in w
  {
  }

  lemma {:induction false} SkipAppended(s: string, w: string, p: nat)
    requires AllBlank(w) && p <= |s|
    ensures Skip(s + w, p) == if Skip(s, p) == |s| then |s + w| else Skip(s, p)
    decreases |s| - p
  {
    if p < |s| {
      assert (s + w)[p] == s[p];
      SkipAppended(s, w, p + 1);
    } else {
      SkipBlank(s + w, p);
    }
  }

  lemma {:induction false} SkipBlank(s: string, p: nat)
    requires p <= |s| && forall k :: p <= k < |s| ==> s[k] in BLANKS
    ensures Skip(s, p) == |s|
    decreases |s| - p
  {
    if p < |s| {
      SpacesAndSymbols(s[p]);
      SkipBlank(s, p + 1);
    }
  }

  lemma {:induction false} WordEndAppended(s: string, w: string, p: nat)
    requires AllBlank(w) && p <= |s|
    ensures WordEnd(s + w, p) == WordEnd(s, p)
    decreases |s| - p
  {
    if p < |s| {
      assert (s + w)[p] == s[p];
      WordEndAppended(s, w, p + 1);
    } else if w != "" {
      assert (s + w)[p] == w[0];
      SpacesAndSymbols(w[0]);
    }
  }

  lemma TokenAppended(s: string, w: string, p: nat)
    requires AllBlank(w) && p <= |s| && NUL !in s
    ensures var x, y := TokenAt(s, p), TokenAt(s + w, p);
            && y.kind == x.kind
            && (x.kind != NUL ==>
                  y.q == x.q && y.eq == x.eq && (s + w)[x.q..x.eq] == s[x.q..x.eq] &&
                  y.next == if x.next == |s| then |s + w| else x.next)
  {
    hide Skip, WordEnd;
    SkipAppended(s, w, p);
    var q := Skip(s, p);
    SkipStops(s, p);
    BlankNoNul(w);
    if q < |s| {
      assert (s + w)[q] == s[q] && s[q] in s;
      WordEndAppended(s, w, q);
      if q + 1 == |s| && w != "" {
        assert (s + w)[q + 1] == w[0];
      }
      SkipAppended(s, w, TokenAt(s, p).eq);
    }
  }

  lemma {:induction false} LexAppended(s: string, w: string, p: nat)
    requires AllBlank(w) && p <= |s| && NUL !in s
    ensures Lex(s + w, p) == Lex(s, p)
    decreases |s| - p
  {
    hide TokenAt;
    TokenAppended(s, w, p);
    LexFirst(s, p);
    LexFirst(s + w, p);
    var x := TokenAt(s, p);
    if x.kind != NUL {
      LexAppended(s, w, x.next);
      if x.next == |s| {
        LexAtEnd(s);
        LexAtEnd(s + w);
      }
    }
  }

  /** White space at the end of a line, such as the newline that gets leaves there, changes nothing. */
  lemma TrailingWhiteSpace(s: string, w: string, c: Cmd<string>)
    requires AllBlank(w) && NUL !in s
    ensures Means(s + w, c) <==> Means(s, c)
  {
    hide Means, Lex;
    BlankNoNul(w);
    LexAppended(s, w, 0);
    TokensDecide(s, s + w, c);
  }

  lemma {:induction false} SkipShifted(w: string, s: string, p: nat)
    ensures Skip(w + s, |w| + p) == |w| + Skip(s, p)
    decreases |s| - p
  {
    if p < |s| {
      assert (w + s)[|w| + p] == s[p];
      SkipShifted(w, s, p + 1);
    }
  }

  lemma {:induction false} WordEndShifted(w: string, s: string, p: nat)
    ensures WordEnd(w + s, |w| + p) == |w| + WordEnd(s, p)
    decreases |s| - p
  {
    if p < |s| {
      assert (w + s)[|w| + p] == s[p];
      WordEndShifted(w, s, p + 1);
    }
  }

  lemma TokenShifted(w: string, s: string, p: nat)
    requires p <= |s|
    ensures var x := TokenAt(s, p);
            TokenAt(w + s, |w| + p) == Token(x.kind, |w| + x.q, |w| + x.eq, |w| + x.next)
  {
    hide Skip, WordEnd;
    SkipShifted(w, s, p);
    WordEndShifted(w, s, Skip(s, p));
    SkipShifted(w, s, TokenAt(s, p).eq);
  }

  lemma {:induction false} LexShifted(w: string, s: string, p: nat)
    requires p <= |s|
    ensures Lex(w + s, |w| + p) == Lex(s, p)
    decreases |s| - p
  {
    hide TokenAt;
    TokenShifted(w, s, p);
    LexFirst(s, p);
    LexFirst(w + s, |w| + p);
    var x := TokenAt(s, p);
    if x.kind != NUL {
      LexShifted(w, s, x.next);
      assert (w + s)[|w| + x.q..|w| + x.eq] == s[x.q..x.eq];
    }
  }

  /** White space at the start of a line changes nothing. */
  lemma LeadingWhiteSpace(w: string, s: string, c: Cmd<string>)
    requires AllBlank(w) && NUL !in s
    ensures Means(w + s, c) <==> Means(s, c)
  {
    hide Means, Lex;
    BlankNoNul(w);
    SkipOver(w, s, 0);
    LexSkip(w + s, 0);
    LexSkip(w + s, |w|);
    LexShifted(w, s, 0);
    TokensDecide(w + s, s, c);
  }

  lemma {:induction false} SkipOver(w: string, s: string, p: nat)
    requires AllBlank(w) && p <= |w|
    ensures Skip(w + s, p) == Skip(w + s, |w|)
    decreases |w| - p
  {
    if p < |w| {
      assert (w + s)[p] == w[p];
      SpacesAndSymbols(w[p]);
      SkipOver(w, s, p + 1);
    }
  }

  // ---- words

  predicate PlainWord(w: string) {
    w != "" && forall k :: 0 <= k < |w| ==> w[k] !in BLANKS && w[k] !in SYMBOLS
  }

  predicate PlainCmd(c: Cmd<string>) {
    match c
    case Exec(argv) => |argv| < 10 && forall k :: 0 <= k < |argv| ==> PlainWord(argv[k])
    case Redir(x, to) => PlainCmd(x) && PlainWord(to.file) && to.op in "<>+"
    case Pipe(l, r) => PlainCmd(l) && PlainCmd(r)
    case List(l, r) => PlainCmd(l) && PlainCmd(r)
    case Back(x) => PlainCmd(x)
  }

  lemma {:induction false} LegalIsPlain(c: Cmd<string>)
    requires Legal(c)
    ensures PlainCmd(c)
  {
    match c
    case Exec(argv) =>
      forall k | 0 <= k < |argv| ensures PlainWord(argv[k]) { LegalWordIsPlain(argv[k]); }
    case Redir(x, to) =>
      LegalIsPlain(x);
      LegalWordIsPlain(to.file);
    case Pipe(l, r) =>
      LegalIsPlain(l);
      LegalIsPlain(r);
    case List(l, r) =>
      LegalIsPlain(l);
      LegalIsPlain(r);
    case Back(x) => LegalIsPlain(x);
  }

  lemma LegalWordIsPlain(w: string)
    requires LegalWord(w)
    ensures PlainWord(w)
  {
    forall k | 0 <= k < |w| ensures w[k] !in BLANKS && w[k] !in SYMBOLS {
      SpacesAndSymbols(w[k]);
    }
  }

  /** No argument and no file name of an accepted line has white space or a symbol in it, none is empty, and no
      command has ten arguments. */
  lemma AcceptedIsPlain(s: string)
    requires NUL !in s && ParseCmd(s).Ok?
    ensures PlainCmd(Reads(s, ParseCmd(s).cmd))
  {
    hide ParseCmd, PrintLine, Reads, Legal;
    AcceptedRoundTrip(s);
    LegalIsPlain(Reads(s, ParseCmd(s).cmd));
  }
}
