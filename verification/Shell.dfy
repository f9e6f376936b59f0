/**
  * The shell's parser (user/sh.c:271-499).  The input is a string without its NUL; a position is
  * an index into it, and the end of the string stands for the NUL.
  */
module Shell {
  const NUL: char := '\0'
  const MAXARGS: nat := 10

  predicate IsSpace(c: char) {
    c == ' ' || c == '\t' || c == '\r' || c == '\n' || c == 11 as char
  }

  predicate IsSymbol(c: char) {
    c == '<' || c == '|' || c == '>' || c == '&' || c == ';' || c == '(' || c == ')'
  }

  predicate IsWordChar(c: char) {
    !IsSpace(c) && !IsSymbol(c) && c != NUL
  }

  function At(s: string, p: nat): char {
    if p < |s| then s[p] else NUL
  }

  // ---- tokens

  /** The first position from p on that holds no white space. */
  function Skip(s: string, p: nat): (r: nat)
    ensures p <= r && (p <= |s| ==> r <= |s|)
    decreases |s| - p
  {
    if p < |s| && IsSpace(s[p]) then Skip(s, p + 1) else p
  }

  /** The end of the word at p. */
  function WordEnd(s: string, p: nat): (r: nat)
    ensures p <= r && (p <= |s| ==> r <= |s|)
    decreases |s| - p
  {
    if p < |s| && !IsSpace(s[p]) && !IsSymbol(s[p]) then WordEnd(s, p + 1) else p
  }

  /** A token: its kind, its extent, and where the next one starts. */
  datatype Token = Token(kind: char, q: nat, eq: nat, next: nat)

  function TokenAt(s: string, p: nat): (t: Token)
    ensures p <= t.q <= t.eq <= t.next
    ensures p <= |s| ==> t.next <= |s|
    ensures t.kind != NUL ==> t.eq > p
  {
    var q := Skip(s, p);
    var c := At(s, q);
    var (kind, eq) :=
      if c == NUL then (NUL, q)
      else if c == '|' || c == '(' || c == ')' || c == ';' || c == '&' || c == '<' then (c, q + 1)
      else if c == '>' then (if At(s, q + 1) == '>' then ('+', q + 2) else ('>', q + 1))
      else ('a', WordEnd(s, q));
    Token(kind, q, eq, Skip(s, eq))
  }

  /** The next token starts with one of toks. */
  predicate Sees(s: string, p: nat, toks: string) {
    At(s, Skip(s, p)) != NUL && At(s, Skip(s, p)) in toks
  }

  // ---- commands

  datatype Redirection<T> = Redirection(op: char, file: T)

  datatype Cmd<T> = Exec(argv: seq<T>) | Redir(cmd: Cmd<T>, to: Redirection<T>) | Pipe(left: Cmd<T>, right: Cmd<T>)
                  | List(left: Cmd<T>, right: Cmd<T>) | Back(cmd: Cmd<T>)

  datatype Span = Span(q: nat, eq: nat)

  datatype Result = Ok(cmd: Cmd<Span>, pos: nat) | Panic(why: string)

  datatype RedirResult = Redirs(list: seq<Redirection<Span>>, pos: nat) | NoFile

  /** The redirections around a command, innermost first. */
  function Wrap<T>(cmd: Cmd<T>, list: seq<Redirection<T>>): Cmd<T>
    decreases |list|
  {
    if list == [] then cmd else Redir(Wrap(cmd, list[..|list| - 1]), list[|list| - 1])
  }

  function ParseRedirs(s: string, p: nat, list: seq<Redirection<Span>>): (r: RedirResult)
    requires p <= |s|
    ensures r.Redirs? ==> p <= r.pos <= |s|
    decreases |s| - p
  {
    if !Sees(s, p, "<>") then Redirs(list, Skip(s, p))
    else
      var op := TokenAt(s, p);
      var file := TokenAt(s, op.next);
      if file.kind != 'a' then NoFile
      else ParseRedirs(s, file.next, list + [Redirection(op.kind, Span(file.q, file.eq))])
  }

  /** The arguments of a simple command; redirections may stand between them. */
  function ParseArgs(s: string, p: nat, argv: seq<Span>, list: seq<Redirection<Span>>): (r: Result)
    requires p <= |s|
    ensures r.Ok? ==> p <= r.pos <= |s|
    decreases |s| - p
  {
    var t := TokenAt(s, p);
    if Sees(s, p, "|)&;") then Ok(Wrap(Exec(argv), list), Skip(s, p))
    else if t.kind == NUL then Ok(Wrap(Exec(argv), list), t.next)
    else if t.kind != 'a' then Panic("syntax")
    else if |argv| + 1 >= MAXARGS then Panic("too many args")
    else
      var r := ParseRedirs(s, t.next, list);
      if r.NoFile? then Panic("missing file for redirection")
      else ParseArgs(s, r.pos, argv + [Span(t.q, t.eq)], r.list)
  }

  function ParseExec(s: string, p: nat): (r: Result)
    requires p <= |s|
    ensures r.Ok? ==> p <= r.pos <= |s|
    decreases |s| - p, 2
  {
    if Sees(s, p, "(") then ParseBlock(s, p)
    else
      var r := ParseRedirs(s, p, []);
      if r.NoFile? then Panic("missing file for redirection") else ParseArgs(s, r.pos, [], r.list)
  }

  function ParseBlock(s: string, p: nat): (r: Result)
    requires p <= |s|
    ensures r.Ok? ==> p <= r.pos <= |s|
    decreases |s| - p, 1
  {
    if !Sees(s, p, "(") then Panic("parseblock")
    else
      var inner := ParseLine(s, TokenAt(s, p).next);
      if inner.Panic? then inner
      else if !Sees(s, inner.pos, ")") then Panic("syntax - missing )")
      else
        var r := ParseRedirs(s, TokenAt(s, inner.pos).next, []);
        if r.NoFile? then Panic("missing file for redirection") else Ok(Wrap(inner.cmd, r.list), r.pos)
  }

  function ParsePipe(s: string, p: nat): (r: Result)
    requires p <= |s|
    ensures r.Ok? ==> p <= r.pos <= |s|
    decreases |s| - p, 3
  {
    var left := ParseExec(s, p);
    if left.Panic? || !Sees(s, left.pos, "|") then (if left.Panic? then left else Ok(left.cmd, Skip(s, left.pos)))
    else
      var right := ParsePipe(s, TokenAt(s, left.pos).next);
      if right.Panic? then right else Ok(Pipe(left.cmd, right.cmd), right.pos)
  }

  function ParseBacks(s: string, p: nat, cmd: Cmd<Span>): (r: Result)
    requires p <= |s|
    ensures r.Ok? && p <= r.pos <= |s|
    decreases |s| - p
  {
    if Sees(s, p, "&") then ParseBacks(s, TokenAt(s, p).next, Back(cmd)) else Ok(cmd, Skip(s, p))
  }

  function ParseLine(s: string, p: nat): (r: Result)
    requires p <= |s|
    ensures r.Ok? ==> p <= r.pos <= |s|
    decreases |s| - p, 4
  {
    var first := ParsePipe(s, p);
    if first.Panic? then first
    else
      var left := ParseBacks(s, first.pos, first.cmd);
      if !Sees(s, left.pos, ";") then left
      else
        var right := ParseLine(s, TokenAt(s, left.pos).next);
        if right.Panic? then right else Ok(List(left.cmd, right.cmd), right.pos)
  }

  function ParseCmd(s: string): Result {
    var r := ParseLine(s, 0);
    if r.Panic? then r else if Skip(s, r.pos) != |s| then Panic("syntax") else r
  }

  // ---- the scanners, as loops

  method SkipSpace(s: string, p: nat) returns (r: nat)
    requires p <= |s|
    ensures r == Skip(s, p)
  {
    r := p;
    while r < |s| && IsSpace(s[r])
      invariant p <= r <= |s| && Skip(s, p) == Skip(s, r)
    {
      r := r + 1;
    }
  }

  /** gettoken. */
  method GetToken(s: string, ps: nat) returns (t: Token)
    requires ps <= |s|
    ensures t == TokenAt(s, ps)
  {
    var p := SkipSpace(s, ps);
    var q := p;
    var kind := At(s, p);
    match kind {
      case '\0' =>
      case '|' => p := p + 1;
      case '(' => p := p + 1;
      case ')' => p := p + 1;
      case ';' => p := p + 1;
      case '&' => p := p + 1;
      case '<' => p := p + 1;
      case '>' =>
        p := p + 1;
        if At(s, p) == '>' {
          kind := '+';
          p := p + 1;
        }
      case _ =>
        kind := 'a';
        while p < |s| && !IsSpace(s[p]) && !IsSymbol(s[p])
          invariant q <= p <= |s| && WordEnd(s, q) == WordEnd(s, p)
        {
          p := p + 1;
        }
    }
    var eq := p;
    p := SkipSpace(s, p);
    t := Token(kind, q, eq, p);
  }

  /** peek. */
  method Peek(s: string, ps: nat, toks: string) returns (p: nat, sees: bool)
    requires ps <= |s|
    ensures p == Skip(s, ps) && sees == Sees(s, ps, toks)
  {
    p := SkipSpace(s, ps);
    sees := At(s, p) != NUL && At(s, p) in toks;
  }

  /** parseredirs. */
  method GetRedirs(s: string, ps: nat, list0: seq<Redirection<Span>>) returns (r: RedirResult)
    requires ps <= |s|
    ensures r == ParseRedirs(s, ps, list0)
  {
    hide Skip, TokenAt;
    var p, list := ps, list0;
    while true
      invariant p <= |s| && ParseRedirs(s, ps, list0) == ParseRedirs(s, p, list)
      decreases |s| - p
    {
      var p', sees := Peek(s, p, "<>");
      if !sees { return Redirs(list, p'); }
      var op := GetToken(s, p);
      var file := GetToken(s, op.next);
      if file.kind != 'a' { return NoFile; }
      list := list + [Redirection(op.kind, Span(file.q, file.eq))];
      p := file.next;
    }
  }

  // ---- the printer

  function Words(argv: seq<string>): string {
    if argv == [] then "" else " " + argv[0] + Words(argv[1..])
  }

  function OpText(op: char): string {
    if op == '+' then ">>" else [op]
  }

  function RedirText(list: seq<Redirection<string>>): string {
    if list == [] then "" else " " + OpText(list[0].op) + list[0].file + RedirText(list[1..])
  }

  /** The command inside the redirections. */
  function Core<T>(c: Cmd<T>): Cmd<T> {
    if c.Redir? then Core(c.cmd) else c
  }

  function Wrapping<T>(c: Cmd<T>): seq<Redirection<T>> {
    if c.Redir? then Wrapping(c.cmd) + [c.to] else []
  }

  /** Parentheses go around a list, a pipe or a background command that stands where a simple command must. */
  function PrintExec(c: Cmd<string>): string
    decreases c, 0
  {
    CoreSmaller(c);
    var body := match Core(c)
                case Exec(argv) => Words(argv)
                case Pipe(l, r) => "(" + PrintExec(l) + "|" + PrintPipe(r) + ")"
                case List(l, r) => "(" + PrintBack(l) + ";" + PrintLine(r) + ")"
                case Back(x) => "(" + PrintBack(x) + "&" + ")";
    body + RedirText(Wrapping(c))
  }

  function PrintPipe(c: Cmd<string>): string
    decreases c, 1
  {
    if c.Pipe? then PrintExec(c.left) + "|" + PrintPipe(c.right) else PrintExec(c)
  }

  function PrintBack(c: Cmd<string>): string
    decreases c, 2
  {
    if c.Back? then PrintBack(c.cmd) + "&" else PrintPipe(c)
  }

  function PrintLine(c: Cmd<string>): string
    decreases c, 3
  {
    if c.List? then PrintBack(c.left) + ";" + PrintLine(c.right) else PrintBack(c)
  }

  lemma CoreSmaller<T>(c: Cmd<T>)
    ensures Core(c) == c || Core(c) < c
    ensures !Core(c).Redir?
  {
  }

  // ---- what can be printed

  predicate LegalWord(w: string) {
    w != "" && forall k :: 0 <= k < |w| ==> IsWordChar(w[k])
  }

  predicate IsRedirection(op: char) {
    op == '<' || op == '>' || op == '+'
  }

  predicate Legal(c: Cmd<string>) {
    match c
    case Exec(argv) => |argv| < MAXARGS && forall k :: 0 <= k < |argv| ==> LegalWord(argv[k])
    case Redir(x, to) => Legal(x) && LegalWord(to.file) && IsRedirection(to.op)
    case Pipe(l, r) => Legal(l) && Legal(r)
    case List(l, r) => Legal(l) && Legal(r)
    case Back(x) => Legal(x)
  }

  // ---- what a parse result says

  function Text(s: string, w: Span): string {
    if w.q <= w.eq <= |s| then s[w.q..w.eq] else ""
  }

  function Texts(s: string, argv: seq<Span>): (r: seq<string>)
    ensures |r| == |argv|
  {
    if argv == [] then [] else Texts(s, argv[..|argv| - 1]) + [Text(s, argv[|argv| - 1])]
  }

  function RedirTexts(s: string, list: seq<Redirection<Span>>): (r: seq<Redirection<string>>)
    ensures |r| == |list|
  {
    if list == [] then []
    else
      var last := list[|list| - 1];
      RedirTexts(s, list[..|list| - 1]) + [Redirection(last.op, Text(s, last.file))]
  }

  /** The command with each span replaced by the text it covers. */
  function Reads(s: string, c: Cmd<Span>): Cmd<string> {
    match c
    case Exec(argv) => Exec(Texts(s, argv))
    case Redir(x, to) => Redir(Reads(s, x), Redirection(to.op, Text(s, to.file)))
    case Pipe(l, r) => Pipe(Reads(s, l), Reads(s, r))
    case List(l, r) => List(Reads(s, l), Reads(s, r))
    case Back(x) => Back(Reads(s, x))
  }

  // ---- round trip: tokens

  /** s has the text t from p to e. */
  predicate Has(s: string, p: nat, e: nat, t: string) {
    p <= e <= |s| && s[p..e] == t
  }

  lemma HasSplit(s: string, p: nat, e: nat, a: string, b: string)
    requires Has(s, p, e, a + b)
    ensures Has(s, p, p + |a|, a) && Has(s, p + |a|, e, b)
  {
    assert s[p..p + |a|] == s[p..e][..|a|];
    assert s[p + |a|..e] == s[p..e][|a|..];
  }

  lemma SkipTwice(s: string, p: nat)
    ensures Skip(s, Skip(s, p)) == Skip(s, p)
    ensures TokenAt(s, Skip(s, p)) == TokenAt(s, p)
  {
    hide Skip, WordEnd;
    SkipSkip(s, p);
  }

  lemma {:induction false} SkipSkip(s: string, p: nat)
    ensures Skip(s, Skip(s, p)) == Skip(s, p)
    decreases |s| - p
  {
    if p < |s| && IsSpace(s[p]) {
      SkipSkip(s, p + 1);
    }
  }

  /** What follows a word is no part of it. */
  predicate WordStops(s: string, e: nat) {
    !IsWordChar(At(s, e)) || e >= |s|
  }

  lemma {:induction false} WordEndAt(s: string, p: nat, e: nat, w: string)
    requires Has(s, p, e, w) && (forall k :: 0 <= k < |w| ==> IsWordChar(w[k])) && WordStops(s, e) && NUL !in s
    ensures WordEnd(s, p) == e
    decreases e - p
  {
    if p < e {
      assert s[p] == w[0];
      assert s[p + 1..e] == s[p..e][1..] == w[1..];
      WordEndAt(s, p + 1, e, w[1..]);
    } else {
      assert p < |s| ==> s[p] in s;
    }
  }

  /** A word, after white space, is read as a token. */
  lemma WordToken(s: string, p: nat, q: nat, e: nat, w: string)
    requires p <= |s| && Skip(s, p) == q && Has(s, q, e, w) && LegalWord(w) && WordStops(s, e) && NUL !in s
    ensures TokenAt(s, p) == Token('a', q, e, Skip(s, e)) && At(s, q) == w[0]
  {
    assert s[q] == s[q..e][0];
    WordEndAt(s, q, e, w);
  }

  /** The first character that is no white space, from e on, is one of these or the end. */
  predicate Follows(s: string, e: nat, stops: string) {
    e <= |s| && (Skip(s, e) == |s| || s[Skip(s, e)] in stops)
  }

  // ---- round trip: redirections and arguments

  lemma RedirsSkip(s: string, p: nat, list: seq<Redirection<Span>>)
    requires p <= |s|
    ensures ParseRedirs(s, Skip(s, p), list) == ParseRedirs(s, p, list)
  {
    hide TokenAt;
    SkipTwice(s, p);
  }

  predicate LegalRedir(r: Redirection<string>) {
    LegalWord(r.file) && (r.op == '<' || r.op == '>' || r.op == '+')
  }

  predicate LegalRedirs(list: seq<Redirection<string>>) {
    forall k :: 0 <= k < |list| ==> LegalRedir(list[k])
  }

  /** One printed redirection is read as its operator and its file. */
  lemma OneRedir(s: string, p: nat, o: nat, e: nat, r: Redirection<string>)
    requires NUL !in s && LegalRedir(r) && Has(s, p, o, " " + OpText(r.op)) && Has(s, o, e, r.file) && WordStops(s, e)
    ensures Sees(s, p, "<>") && TokenAt(s, p).kind == r.op && TokenAt(s, p).next == o
    ensures TokenAt(s, o) == Token('a', o, e, Skip(s, e))
  {
    hide WordEnd;
    assert s[p] == s[p..o][0] == ' ';
    assert s[p + 1] == s[p..o][1];
    assert r.op == '+' ==> s[p + 2] == s[p..o][2];
    assert s[o] == s[o..e][0] == r.file[0];
    assert Skip(s, p) == p + 1;
    assert Skip(s, o) == o;
    WordToken(s, o, o, e, r.file);
  }

  lemma RedirsStep(s: string, p: nat, o: nat, f: nat, r: Redirection<string>, acc: seq<Redirection<Span>>)
    requires NUL !in s && LegalRedir(r) && Has(s, p, o, " " + OpText(r.op)) && Has(s, o, f, r.file) && WordStops(s, f)
    ensures ParseRedirs(s, p, acc) == ParseRedirs(s, f, acc + [Redirection(r.op, Span(o, f))])
  {
    hide TokenAt, Sees;
    OneRedir(s, p, o, f, r);
    RedirsSkip(s, f, acc + [Redirection(r.op, Span(o, f))]);
  }

  lemma RedirsNone(s: string, p: nat, acc: seq<Redirection<Span>>)
    requires p <= |s| && !Sees(s, p, "<>")
    ensures ParseRedirs(s, p, acc) == Redirs(acc, Skip(s, p))
  {
  }

  lemma RedirTextsMore(s: string, acc: seq<Redirection<Span>>, x: Redirection<Span>)
    ensures RedirTexts(s, acc + [x]) == RedirTexts(s, acc) + [Redirection(x.op, Text(s, x.file))]
  {
  }

  lemma {:induction false} RedirsParse(
    s: string, p: nat, e: nat, list: seq<Redirection<string>>, acc: seq<Redirection<Span>>)
    requires NUL !in s && LegalRedirs(list) && Has(s, p, e, RedirText(list)) && !Sees(s, e, "<>") && WordStops(s, e)
    ensures var r := ParseRedirs(s, p, acc);
            r.Redirs? && r.pos == Skip(s, e) && RedirTexts(s, r.list) == RedirTexts(s, acc) + list
    decreases |list|
  {
    hide ParseRedirs, Sees, Skip, RedirTexts, OpText, LegalWord, WordStops;
    if list == [] {
      RedirsNone(s, p, acc);
    } else {
      var r := list[0];
      var head := " " + OpText(r.op);
      var o := p + |head|;
      var f := o + |r.file|;
      assert RedirText(list) == head + (r.file + RedirText(list[1..]));
      HasSplit(s, p, e, head, r.file + RedirText(list[1..]));
      HasSplit(s, o, e, r.file, RedirText(list[1..]));
      RedirStops(s, f, e, list[1..]);
      RedirsStep(s, p, o, f, r, acc);
      var x := Redirection(r.op, Span(o, f));
      RedirTextsMore(s, acc, x);
      RedirsParse(s, f, e, list[1..], acc + [x]);
      assert RedirTexts(s, acc) + [r] + list[1..] == RedirTexts(s, acc) + list;
    }
  }

  /** Printed redirections, or what follows them, end a word. */
  lemma RedirStops(s: string, p: nat, e: nat, list: seq<Redirection<string>>)
    requires Has(s, p, e, RedirText(list)) && WordStops(s, e)
    ensures WordStops(s, p)
  {
  }

  lemma ArgsSkip(s: string, p: nat, argv: seq<Span>, list: seq<Redirection<Span>>)
    requires p <= |s|
    ensures ParseArgs(s, Skip(s, p), argv, list) == ParseArgs(s, p, argv, list)
  {
    hide TokenAt;
    SkipTwice(s, p);
  }

  lemma ArgsDone(s: string, e: nat, argv: seq<Span>, list: seq<Redirection<Span>>)
    requires Follows(s, e, "|)&;") && NUL !in s
    ensures ParseArgs(s, Skip(s, e), argv, list) == Ok(Wrap(Exec(argv), list), Skip(s, e))
  {
  }

  /** What may follow a simple command is no redirection and ends a word. */
  lemma FollowArgs(s: string, e: nat)
    requires Follows(s, e, "|)&;")
    ensures !Sees(s, e, "<>") && !Sees(s, e, "(") && WordStops(s, e)
  {
  }

  lemma TextsMore(s: string, argv: seq<Span>, x: Span)
    ensures Texts(s, argv + [x]) == Texts(s, argv) + [Text(s, x)]
  {
  }

  predicate LegalWords(words: seq<string>) {
    forall k :: 0 <= k < |words| ==> LegalWord(words[k])
  }

  /** One printed word is read as an argument, and then the redirections after it. */
  lemma OneArg(s: string, p: nat, f: nat, w: string, argv: seq<Span>, list: seq<Redirection<Span>>)
    requires NUL !in s && LegalWord(w) && Has(s, p, f, " " + w) && WordStops(s, f) && |argv| + 1 < MAXARGS
    ensures p + 1 <= f && Text(s, Span(p + 1, f)) == w && !Sees(s, p, "(") && !Sees(s, p, "<>")
    ensures ParseArgs(s, p, argv, list) ==
              var r := ParseRedirs(s, f, list);
              if r.NoFile? then Panic("missing file for redirection")
                else ParseArgs(s, r.pos, argv + [Span(p + 1, f)], r.list)
  {
    hide TokenAt, ParseRedirs, Wrap;
    HasSplit(s, p, f, " ", w);
    assert s[p] == s[p..f][0] == ' ';
    assert s[p + 1] == s[p + 1..f][0] == w[0];
    assert Skip(s, p) == p + 1;
    WordToken(s, p, p + 1, f, w);
    RedirsSkip(s, f, list);
  }

  /** Printed arguments and redirections are read back, after argv. */
  lemma {:induction false} ArgsParse(
    s: string, p: nat, m: nat, e: nat, words: seq<string>, list: seq<Redirection<string>>,
    argv: seq<Span>) returns (t: Cmd<Span>)
    requires NUL !in s && LegalWords(words) && LegalRedirs(list) && words != [] && |argv| + |words| < MAXARGS
    requires Has(s, p, m, Words(words)) && Has(s, m, e, RedirText(list)) && Follows(s, e, "|)&;")
    ensures ParseArgs(s, p, argv, []) == Ok(t, Skip(s, e)) && Reads(s, t) == Wrap(Exec(Texts(s, argv) + words), list)
    decreases |words|
  {
    hide ParseArgs, ParseRedirs, Sees, Skip, Texts, RedirTexts, RedirText, LegalWord, WordStops, Wrap, Follows, Reads;
    var w := words[0];
    var f := p + 1 + |w|;
    assert Words(words) == (" " + w) + Words(words[1..]);
    HasSplit(s, p, m, " " + w, Words(words[1..]));
    var argv' := argv + [Span(p + 1, f)];
    TextsMore(s, argv, Span(p + 1, f));
    FollowArgs(s, e);
    RedirStops(s, m, e, list);
    WordsStop(s, f, m, words[1..]);
    OneArg(s, p, f, w, argv, []);
    if |words| > 1 {
      MoreWords(s, f, m, words[1..]);
      RedirsNone(s, f, []);
      ArgsSkip(s, f, argv', []);
      t := ArgsParse(s, f, m, e, words[1..], list, argv');
      assert Texts(s, argv) + [w] + words[1..] == Texts(s, argv) + words;
    } else {
      assert Words(words[1..]) == "" && f == m;
      RedirsParse(s, m, e, list, []);
      NoRedirTexts(s);
      assert RedirTexts(s, []) + list == list;
      var r := ParseRedirs(s, m, []);
      ArgsDone(s, e, argv', r.list);
      t := Wrap(Exec(argv'), r.list);
      ReadsWrap(s, Exec(argv'), r.list);
      ReadsExec(s, argv');
      assert Texts(s, argv) + [w] == Texts(s, argv) + words;
    }
  }

  lemma NoRedirTexts(s: string)
    ensures RedirTexts(s, []) == []
  {
  }

  lemma ReadsExec(s: string, argv: seq<Span>)
    ensures Reads(s, Exec(argv)) == Exec(Texts(s, argv))
  {
  }

  lemma WordsStop(s: string, p: nat, m: nat, words: seq<string>)
    requires Has(s, p, m, Words(words)) && WordStops(s, m)
    ensures WordStops(s, p)
  {
  }

  /** After white space comes a word, so no redirection and no parenthesis. */
  lemma MoreWords(s: string, p: nat, m: nat, words: seq<string>)
    requires Has(s, p, m, Words(words)) && words != [] && LegalWord(words[0])
    ensures !Sees(s, p, "<>") && !Sees(s, p, "(")
  {
    assert s[p] == s[p..m][0] == ' ';
    assert s[p + 1] == s[p..m][1] == words[0][0];
    assert Skip(s, p) == p + 1;
  }

  lemma ReadsWrap(s: string, c: Cmd<Span>, list: seq<Redirection<Span>>)
    ensures Reads(s, Wrap(c, list)) == Wrap(Reads(s, c), RedirTexts(s, list))
    decreases |list|
  {
  }

  // ---- round trip: the grammar

  lemma ExecSkip(s: string, p: nat)
    requires p <= |s|
    ensures ParseExec(s, Skip(s, p)) == ParseExec(s, p)
  {
    hide ParseArgs, ParseLine, ParseRedirs, TokenAt, Wrap;
    SkipTwice(s, p);
    RedirsSkip(s, p, []);
  }

  lemma PipeSkip(s: string, p: nat)
    requires p <= |s|
    ensures ParsePipe(s, Skip(s, p)) == ParsePipe(s, p)
  {
    hide ParseExec, TokenAt;
    ExecSkip(s, p);
  }

  lemma LineSkip(s: string, p: nat)
    requires p <= |s|
    ensures ParseLine(s, Skip(s, p)) == ParseLine(s, p)
  {
    hide ParsePipe, ParseBacks, TokenAt;
    PipeSkip(s, p);
  }

  /** The token of a single symbol at m. */
  lemma SymbolAt(s: string, m: nat, c: char)
    requires m < |s| && s[m] == c && (c == '|' || c == '&' || c == ';' || c == '(' || c == ')')
    ensures Skip(s, m) == m && TokenAt(s, m) == Token(c, m, m + 1, Skip(s, m + 1)) && Sees(s, m, [c])
    ensures c != '&' ==> !Sees(s, m, "&")
    ensures Follows(s, m, "|)&;") <==> c != '('
    ensures Follows(s, m, ")&;") <==> c != '(' && c != '|'
    ensures Follows(s, m, ")") <==> c == ')'
  {
  }

  lemma PipeGlue(s: string, p: nat, m: nat, tl: Cmd<Span>, tr: Cmd<Span>, pos: nat)
    requires p <= m < |s| && s[m] == '|' && ParseExec(s, p) == Ok(tl, Skip(s, m)) && ParsePipe(s, m + 1) == Ok(tr, pos)
    ensures ParsePipe(s, p) == Ok(Pipe(tl, tr), pos)
  {
    hide ParseExec, TokenAt, Skip;
    SymbolAt(s, m, '|');
    PipeSkip(s, m + 1);
  }

  lemma PipeSingle(s: string, p: nat, e: nat, t: Cmd<Span>)
    requires Follows(s, e, ")&;") && p <= e && ParseExec(s, p) == Ok(t, Skip(s, e))
    ensures ParsePipe(s, p) == Ok(t, Skip(s, e))
  {
    hide ParseExec, TokenAt;
    SkipTwice(s, e);
  }

  /** parseline up to the semicolon. */
  function ParseHead(s: string, p: nat): Result
    requires p <= |s|
  {
    var first := ParsePipe(s, p);
    if first.Panic? then first else ParseBacks(s, first.pos, first.cmd)
  }

  lemma BackGlue(s: string, p: nat, m: nat, t: Cmd<Span>)
    requires p <= m < |s| && s[m] == '&' && ParseHead(s, p) == ParseBacks(s, Skip(s, m), t)
    ensures ParseHead(s, p) == ParseBacks(s, Skip(s, m + 1), Back(t))
  {
    hide ParseHead, TokenAt, Skip;
    SymbolAt(s, m, '&');
  }

  lemma BacksDone(s: string, e: nat, t: Cmd<Span>)
    requires e <= |s| && !Sees(s, e, "&")
    ensures ParseBacks(s, Skip(s, e), t) == Ok(t, Skip(s, e))
  {
    hide TokenAt;
    SkipTwice(s, e);
  }

  lemma LineGlue(s: string, p: nat, m: nat, tl: Cmd<Span>, tr: Cmd<Span>, pos: nat)
    requires p <= m < |s| && s[m] == ';' && ParseHead(s, p) == ParseBacks(s, Skip(s, m), tl) &&
             ParseLine(s, m + 1) == Ok(tr, pos)
    ensures ParseLine(s, p) == Ok(List(tl, tr), pos)
  {
    hide ParsePipe, ParseBacks, TokenAt, Skip, Sees;
    SymbolAt(s, m, ';');
    BacksDone(s, m, tl);
    LineSkip(s, m + 1);
  }

  lemma LineSingle(s: string, p: nat, e: nat, t: Cmd<Span>)
    requires p <= e && Follows(s, e, ")") && ParseHead(s, p) == ParseBacks(s, Skip(s, e), t)
    ensures ParseLine(s, p) == Ok(t, Skip(s, e))
  {
    hide ParsePipe, ParseBacks, TokenAt;
    SkipTwice(s, e);
    BacksDone(s, e, t);
  }

  /** A command in parentheses, and redirections. */
  lemma BlockGlue(
    s: string, p: nat, m: nat, e: nat, t: Cmd<Span>, list: seq<Redirection<string>>) returns (r: Cmd<Span>)
    requires NUL !in s && p < m < |s| && s[p] == '(' && s[m] == ')' && ParseLine(s, p + 1) == Ok(t, Skip(s, m))
    requires LegalRedirs(list) && Has(s, m + 1, e, RedirText(list)) && Follows(s, e, "|)&;")
    ensures ParseExec(s, p) == Ok(r, Skip(s, e)) && Reads(s, r) == Wrap(Reads(s, t), list)
  {
    hide ParseLine, ParseRedirs, TokenAt, Skip, Sees, Wrap, Reads, RedirTexts, RedirText, Follows, WordStops,
         LegalRedirs;
    SymbolAt(s, p, '(');
    SymbolAt(s, m, ')');
    LineSkip(s, p + 1);
    FollowArgs(s, e);
    RedirsParse(s, m + 1, e, list, []);
    RedirsSkip(s, m + 1, []);
    NoRedirTexts(s);
    assert RedirTexts(s, []) + list == list;
    var rr := ParseRedirs(s, m + 1, []);
    r := Wrap(t, rr.list);
    ReadsWrap(s, t, rr.list);
  }

  /** A simple command. */
  lemma SimpleParses(
    s: string, p: nat, m: nat, e: nat, words: seq<string>, list: seq<Redirection<string>>) returns (t: Cmd<Span>)
    requires NUL !in s && LegalWords(words) && LegalRedirs(list) && |words| < MAXARGS
    requires Has(s, p, m, Words(words)) && Has(s, m, e, RedirText(list)) && Follows(s, e, "|)&;")
    ensures ParseExec(s, p) == Ok(t, Skip(s, e)) && Reads(s, t) == Wrap(Exec(words), list)
  {
    hide ParseArgs, ParseRedirs, ParseBlock, TokenAt, Skip, Sees, Wrap, Reads, Texts, RedirTexts, RedirText, Follows,
         WordStops, LegalWord;
    FollowArgs(s, e);
    NoTexts(s);
    if words == [] {
      assert p == m;
      RedirsParse(s, p, e, list, []);
      NoRedirTexts(s);
      assert RedirTexts(s, []) + list == list;
      RedirsNoBlock(s, p, e, list);
      var r := ParseRedirs(s, p, []);
      ArgsDone(s, e, [], r.list);
      t := Wrap(Exec([]), r.list);
      ReadsWrap(s, Exec([]), r.list);
      ReadsExec(s, []);
    } else {
      MoreWords(s, p, m, words);
      RedirsNone(s, p, []);
      ArgsSkip(s, p, [], []);
      t := ArgsParse(s, p, m, e, words, list, []);
      assert Texts(s, []) + words == words;
    }
  }

  lemma NoTexts(s: string)
    ensures Texts(s, []) == []
  {
  }

  lemma RedirsNoBlock(s: string, p: nat, e: nat, list: seq<Redirection<string>>)
    requires Has(s, p, e, RedirText(list)) && LegalRedirs(list) && !Sees(s, e, "(")
    ensures !Sees(s, p, "(")
  {
    if list != [] {
      assert s[p] == s[p..e][0] == ' ';
      assert s[p + 1] == s[p..e][1];
      assert Skip(s, p) == p + 1;
    }
  }

  lemma LegalParts(c: Cmd<string>)
    requires Legal(c)
    ensures Legal(Core(c)) && LegalRedirs(Wrapping(c)) && c == Wrap(Core(c), Wrapping(c))
  {
  }

  /** The text of what stands inside the redirections. */
  function Body(c: Cmd<string>): string
    requires !c.Redir?
  {
    match c
    case Exec(argv) => Words(argv)
    case Pipe(l, r) => "(" + PrintExec(l) + "|" + PrintPipe(r) + ")"
    case List(l, r) => "(" + PrintBack(l) + ";" + PrintLine(r) + ")"
    case Back(x) => "(" + PrintBack(x) + "&" + ")"
  }

  lemma PrintExecIs(c: Cmd<string>)
    ensures !Core(c).Redir? && PrintExec(c) == Body(Core(c)) + RedirText(Wrapping(c))
  {
  }

  /** A printed simple command, or one in parentheses, is read back. */
  lemma {:induction false} ExecParses(s: string, p: nat, e: nat, c: Cmd<string>) returns (t: Cmd<Span>)
    requires NUL !in s && Legal(c) && Has(s, p, e, PrintExec(c)) && Follows(s, e, "|)&;")
    ensures ParseExec(s, p) == Ok(t, Skip(s, e)) && Reads(s, t) == c
    decreases c, 2
  {
    hide ParseExec, Follows, Skip, RedirText, Words, Wrap, Wrapping, Core, PrintExec, LegalWord, LegalRedirs;
    LegalParts(c);
    CoreSmaller(c);
    PrintExecIs(c);
    var core, list := Core(c), Wrapping(c);
    var m := p + |Body(core)|;
    HasSplit(s, p, e, Body(core), RedirText(list));
    if core.Exec? {
      t := SimpleParses(s, p, m, e, core.argv, list);
    } else {
      var inner := InBlock(s, p, m, core);
      t := BlockGlue(s, p, m - 1, e, inner, list);
    }
  }

  lemma BodyIs(c: Cmd<string>)
    requires !c.Redir? && !c.Exec?
    ensures Body(c) == "(" + Inside(c) + ")"
  {
    hide PrintExec, PrintPipe, PrintBack, PrintLine;
    match c {
      case Pipe(l, r) => assert "(" + PrintExec(l) + "|" + PrintPipe(r) == "(" + (PrintExec(l) + "|" + PrintPipe(r));
      case List(l, r) => assert "(" + PrintBack(l) + ";" + PrintLine(r) == "(" + (PrintBack(l) + ";" + PrintLine(r));
      case Back(x) => assert "(" + PrintBack(x) + "&" == "(" + (PrintBack(x) + "&");
    }
  }

  lemma HasBlock(s: string, p: nat, m: nat, inside: string)
    requires Has(s, p, m, "(" + inside + ")")
    ensures p + 1 < m && s[p] == '(' && s[m - 1] == ')' && Has(s, p + 1, m - 1, inside) && Follows(s, m - 1, ")")
  {
    assert "(" + inside + ")" == "(" + (inside + ")");
    HasSplit(s, p, m, "(", inside + ")");
    HasSplit(s, p + 1, m, inside, ")");
    assert s[p] == s[p..p + 1][0];
    assert s[m - 1] == s[m - 1..m][0];
    SymbolAt(s, m - 1, ')');
  }

  lemma LegalInside(c: Cmd<string>)
    requires Legal(c)
    ensures match c
            case Pipe(l, r) => Legal(l) && Legal(r)
            case List(l, r) => Legal(l) && Legal(r)
            case Back(x) => Legal(x)
            case _ => true
  {
  }

  /** What a block holds. */
  lemma {:induction false} InBlock(s: string, p: nat, m: nat, c: Cmd<string>) returns (t: Cmd<Span>)
    requires NUL !in s && Legal(c) && !c.Redir? && !c.Exec? && Has(s, p, m, Body(c))
    ensures p + 1 < m && s[p] == '(' && s[m - 1] == ')' && ParseLine(s, p + 1) == Ok(t, Skip(s, m - 1)) &&
            Reads(s, t) == c
    decreases c, 1
  {
    hide ParseLine, Skip, PrintExec, PrintPipe, PrintBack, PrintLine, Body, Follows, Legal, Reads;
    BodyIs(c);
    LegalInside(c);
    HasBlock(s, p, m, Inside(c));
    match c {
      case Pipe(l, r) => t := PipeInside(s, p + 1, m - 1, l, r);
      case List(l, r) => t := ListInside(s, p + 1, m - 1, l, r);
      case Back(x) => t := BackInside(s, p + 1, m - 1, x);
    }
  }

  lemma {:induction false} PipeInside(s: string, p: nat, e: nat, l: Cmd<string>, r: Cmd<string>) returns (t: Cmd<Span>)
    requires NUL !in s && Legal(l) && Legal(r) && Has(s, p, e, PrintExec(l) + "|" + PrintPipe(r)) && Follows(s, e, ")")
    ensures ParseLine(s, p) == Ok(t, Skip(s, e)) && Reads(s, t) == Pipe(l, r)
    decreases Pipe(l, r), 0
  {
    hide ParseLine, ParsePipe, ParseExec, ParseHead, ParseBacks, Skip, PrintExec, PrintPipe, Legal, Follows;
    var k := p + |PrintExec(l)|;
    assert PrintExec(l) + "|" + PrintPipe(r) == PrintExec(l) + ("|" + PrintPipe(r));
    HasSplit(s, p, e, PrintExec(l), "|" + PrintPipe(r));
    HasSplit(s, k, e, "|", PrintPipe(r));
    assert s[k] == s[k..k + 1][0];
    SymbolAt(s, k, '|');
    FollowLine(s, e);
    var tl := ExecParses(s, p, k, l);
    var tr := PipeParses(s, k + 1, e, r);
    PipeGlue(s, p, k, tl, tr, Skip(s, e));
    t := Pipe(tl, tr);
    HeadOfPipe(s, p, t, e);
    LineSingle(s, p, e, t);
  }

  lemma {:induction false} ListInside(s: string, p: nat, e: nat, l: Cmd<string>, r: Cmd<string>) returns (t: Cmd<Span>)
    requires NUL !in s && Legal(l) && Legal(r) && Has(s, p, e, PrintBack(l) + ";" + PrintLine(r)) && Follows(s, e, ")")
    ensures ParseLine(s, p) == Ok(t, Skip(s, e)) && Reads(s, t) == List(l, r)
    decreases List(l, r), 0
  {
    hide ParseLine, ParseHead, ParseBacks, Skip, PrintBack, PrintLine, Legal, Follows;
    var k := p + |PrintBack(l)|;
    assert PrintBack(l) + ";" + PrintLine(r) == PrintBack(l) + (";" + PrintLine(r));
    HasSplit(s, p, e, PrintBack(l), ";" + PrintLine(r));
    HasSplit(s, k, e, ";", PrintLine(r));
    assert s[k] == s[k..k + 1][0];
    SymbolAt(s, k, ';');
    var tl := BackParses(s, p, k, l);
    var tr := LineParses(s, k + 1, e, r);
    LineGlue(s, p, k, tl, tr, Skip(s, e));
    t := List(tl, tr);
  }

  lemma {:induction false} BackInside(s: string, p: nat, e: nat, x: Cmd<string>) returns (t: Cmd<Span>)
    requires NUL !in s && Legal(x) && Has(s, p, e, PrintBack(x) + "&") && Follows(s, e, ")")
    ensures ParseLine(s, p) == Ok(t, Skip(s, e)) && Reads(s, t) == Back(x)
    decreases Back(x), 0
  {
    hide ParseLine, ParseHead, ParseBacks, Skip, PrintBack, Legal, Follows;
    HasSplit(s, p, e, PrintBack(x), "&");
    assert s[e - 1] == s[e - 1..e][0];
    SymbolAt(s, e - 1, '&');
    var tx := BackParses(s, p, e - 1, x);
    BackGlue(s, p, e - 1, tx);
    t := Back(tx);
    LineSingle(s, p, e, t);
  }

  function Inside(c: Cmd<string>): string {
    match c
    case Pipe(l, r) => PrintExec(l) + "|" + PrintPipe(r)
    case List(l, r) => PrintBack(l) + ";" + PrintLine(r)
    case Back(x) => PrintBack(x) + "&"
    case _ => ""
  }

  lemma HeadOfPipe(s: string, p: nat, t: Cmd<Span>, e: nat)
    requires p <= e <= |s| && ParsePipe(s, p) == Ok(t, Skip(s, e))
    ensures ParseHead(s, p) == ParseBacks(s, Skip(s, e), t)
  {
  }

  lemma {:induction false} PipeParses(s: string, p: nat, e: nat, c: Cmd<string>) returns (t: Cmd<Span>)
    requires NUL !in s && Legal(c) && Has(s, p, e, PrintPipe(c)) && Follows(s, e, ")&;")
    ensures ParsePipe(s, p) == Ok(t, Skip(s, e)) && Reads(s, t) == c
    decreases c, 3
  {
    hide ParsePipe, ParseExec, Skip, PrintExec;
    if c.Pipe? {
      var k := p + |PrintExec(c.left)|;
      assert PrintPipe(c) == PrintExec(c.left) + ("|" + PrintPipe(c.right));
      HasSplit(s, p, e, PrintExec(c.left), "|" + PrintPipe(c.right));
      HasSplit(s, k, e, "|", PrintPipe(c.right));
      assert s[k] == s[k..k + 1][0];
      SymbolAt(s, k, '|');
      var tl := ExecParses(s, p, k, c.left);
      var tr := PipeParses(s, k + 1, e, c.right);
      PipeGlue(s, p, k, tl, tr, Skip(s, e));
      t := Pipe(tl, tr);
    } else {
      t := ExecParses(s, p, e, c);
      PipeSingle(s, p, e, t);
    }
  }

  lemma {:induction false} BackParses(s: string, p: nat, e: nat, c: Cmd<string>) returns (t: Cmd<Span>)
    requires NUL !in s && Legal(c) && Has(s, p, e, PrintBack(c)) && Follows(s, e, ")&;")
    ensures ParseHead(s, p) == ParseBacks(s, Skip(s, e), t) && Reads(s, t) == c
    decreases c, 4
  {
    hide ParseHead, ParsePipe, ParseBacks, Skip, PrintPipe;
    if c.Back? {
      HasSplit(s, p, e, PrintBack(c.cmd), "&");
      assert s[e - 1] == s[e - 1..e][0];
      SymbolAt(s, e - 1, '&');
      var tx := BackParses(s, p, e - 1, c.cmd);
      BackGlue(s, p, e - 1, tx);
      t := Back(tx);
    } else {
      t := PipeParses(s, p, e, c);
      HeadOfPipe(s, p, t, e);
    }
  }

  lemma {:induction false} LineParses(s: string, p: nat, e: nat, c: Cmd<string>) returns (t: Cmd<Span>)
    requires NUL !in s && Legal(c) && Has(s, p, e, PrintLine(c)) && Follows(s, e, ")")
    ensures ParseLine(s, p) == Ok(t, Skip(s, e)) && Reads(s, t) == c
    decreases c, 5
  {
    hide ParseHead, ParseLine, ParseBacks, Skip, PrintBack;
    if c.List? {
      t := ListInside(s, p, e, c.left, c.right);
    } else {
      FollowLine(s, e);
      t := BackParses(s, p, e, c);
      LineSingle(s, p, e, t);
    }
  }

  lemma FollowLine(s: string, e: nat)
    requires Follows(s, e, ")")
    ensures Follows(s, e, ")&;")
  {
  }

  lemma WordsNoNul(words: seq<string>)
    requires LegalWords(words)
    ensures NUL !in Words(words)
  {
  }

  lemma RedirsNoNul(list: seq<Redirection<string>>)
    requires LegalRedirs(list)
    ensures NUL !in RedirText(list)
  {
  }

  /** A printed command is a proper string. */
  lemma {:induction false} NoNul(c: Cmd<string>)
    requires Legal(c)
    ensures NUL !in PrintExec(c) && NUL !in PrintPipe(c) && NUL !in PrintBack(c) && NUL !in PrintLine(c)
    decreases c
  {
    hide Words, RedirText, PrintExec;
    LegalParts(c);
    CoreSmaller(c);
    PrintExecIs(c);
    RedirsNoNul(Wrapping(c));
    var core := Core(c);
    match core {
      case Exec(argv) =>
        WordsNoNul(argv);
      case Pipe(l, r) =>
        NoNul(l);
        NoNul(r);
      case List(l, r) =>
        NoNul(l);
        NoNul(r);
      case Back(x) =>
        NoNul(x);
    }
    match c {
      case Pipe(l, r) =>
        NoNul(l);
        NoNul(r);
      case List(l, r) =>
        NoNul(l);
        NoNul(r);
      case Back(x) =>
        NoNul(x);
      case _ =>
    }
  }

  /** Parsing what was printed gives the command back. */
  lemma RoundTrip(c: Cmd<string>)
    requires Legal(c)
    ensures var s := PrintLine(c); var r := ParseCmd(s); r.Ok? && Reads(s, r.cmd) == c
  {
    hide ParseLine, PrintLine;
    var s := PrintLine(c);
    NoNul(c);
    assert s[0..|s|] == s;
    var t := LineParses(s, 0, |s|, c);
  }

  // ---- what the spans of a parse cover

  /** A whole word of s. */
  predicate WholeWord(s: string, w: Span) {
    && w.q < w.eq <= |s| && (forall k :: w.q <= k < w.eq ==> IsWordChar(s[k]))
    && (w.eq == |s| || !IsWordChar(s[w.eq]))
  }

  /** A command within the parser's limits, whose words are whole words of s. */
  predicate WholeWords(s: string, c: Cmd<Span>) {
    match c
    case Exec(argv) => |argv| < MAXARGS && forall k :: 0 <= k < |argv| ==> WholeWord(s, argv[k])
    case Redir(x, to) => WholeWords(s, x) && WholeWord(s, to.file) && IsRedirection(to.op)
    case Pipe(l, r) => WholeWords(s, l) && WholeWords(s, r)
    case List(l, r) => WholeWords(s, l) && WholeWords(s, r)
    case Back(x) => WholeWords(s, x)
  }

  predicate WholeFiles(s: string, list: seq<Redirection<Span>>) {
    forall k :: 0 <= k < |list| ==> WholeWord(s, list[k].file) && IsRedirection(list[k].op)
  }

  lemma {:induction false} WordEndWhole(s: string, p: nat)
    requires p <= |s| && NUL !in s
    ensures forall k :: p <= k < WordEnd(s, p) ==> IsWordChar(s[k])
    ensures WordEnd(s, p) == |s| || !IsWordChar(s[WordEnd(s, p)])
    ensures p < |s| && !IsSpace(s[p]) && !IsSymbol(s[p]) ==> WordEnd(s, p) > p
    decreases |s| - p
  {
    if p < |s| && !IsSpace(s[p]) && !IsSymbol(s[p]) {
      WordEndWhole(s, p + 1);
      assert s[p] in s;
    }
  }

  lemma TokenWhole(s: string, p: nat)
    requires p <= |s| && NUL !in s && TokenAt(s, p).kind == 'a'
    ensures WholeWord(s, Span(TokenAt(s, p).q, TokenAt(s, p).eq))
  {
    hide Skip, WordEnd;
    WordEndWhole(s, Skip(s, p));
    SkipStops(s, p);
  }

  lemma {:induction false} SkipStops(s: string, p: nat)
    ensures Skip(s, p) < |s| ==> !IsSpace(s[Skip(s, p)])
    decreases |s| - p
  {
    if p < |s| && IsSpace(s[p]) {
      SkipStops(s, p + 1);
    }
  }

  lemma RedirToken(s: string, p: nat)
    requires Sees(s, p, "<>")
    ensures IsRedirection(TokenAt(s, p).kind)
  {
    hide Skip;
  }

  lemma {:induction false} RedirsWhole(s: string, p: nat, list: seq<Redirection<Span>>)
    requires p <= |s| && NUL !in s && WholeFiles(s, list)
    ensures var r := ParseRedirs(s, p, list); r.Redirs? ==> WholeFiles(s, r.list)
    decreases |s| - p
  {
    hide TokenAt, Sees, Skip, WholeWord;
    if Sees(s, p, "<>") {
      var op := TokenAt(s, p);
      var file := TokenAt(s, op.next);
      if file.kind == 'a' {
        TokenWhole(s, op.next);
        RedirToken(s, p);
        RedirsWhole(s, file.next, list + [Redirection(op.kind, Span(file.q, file.eq))]);
      }
    }
  }

  lemma {:induction false} WrapWhole(s: string, c: Cmd<Span>, list: seq<Redirection<Span>>)
    requires WholeWords(s, c) && WholeFiles(s, list)
    ensures WholeWords(s, Wrap(c, list))
    decreases |list|
  {
    if list != [] {
      WrapWhole(s, c, list[..|list| - 1]);
    }
  }

  lemma {:induction false} ArgsWhole(s: string, p: nat, argv: seq<Span>, list: seq<Redirection<Span>>)
    requires p <= |s| && NUL !in s && WholeFiles(s, list) && WholeWords(s, Exec(argv))
    ensures var r := ParseArgs(s, p, argv, list); r.Ok? ==> WholeWords(s, r.cmd)
    decreases |s| - p
  {
    hide TokenAt, Sees, Skip, ParseRedirs, WholeWord, Wrap;
    WrapWhole(s, Exec(argv), list);
    var t := TokenAt(s, p);
    if t.kind == 'a' && |argv| + 1 < MAXARGS {
      TokenWhole(s, p);
      RedirsWhole(s, t.next, list);
      var r := ParseRedirs(s, t.next, list);
      if r.Redirs? {
        ArgsWhole(s, r.pos, argv + [Span(t.q, t.eq)], r.list);
      }
    }
  }

  /** Every argument and file name of a parsed command is a whole word of the input. */
  lemma {:induction false} LineWhole(s: string, p: nat)
    requires p <= |s| && NUL !in s
    ensures var r := ParseLine(s, p); r.Ok? ==> WholeWords(s, r.cmd)
    decreases |s| - p, 4
  {
    hide TokenAt, Sees, Skip, ParsePipe, ParseBacks;
    PipeWhole(s, p);
    var first := ParsePipe(s, p);
    if first.Ok? {
      BacksWhole(s, first.pos, first.cmd);
      var left := ParseBacks(s, first.pos, first.cmd);
      if Sees(s, left.pos, ";") {
        SeesToken(s, left.pos, ";");
        LineWhole(s, TokenAt(s, left.pos).next);
      }
    }
  }

  lemma SeesToken(s: string, p: nat, toks: string)
    requires p <= |s| && Sees(s, p, toks)
    ensures p < TokenAt(s, p).next <= |s|
  {
  }

  lemma {:induction false} BacksWhole(s: string, p: nat, c: Cmd<Span>)
    requires p <= |s| && WholeWords(s, c)
    ensures WholeWords(s, ParseBacks(s, p, c).cmd)
    decreases |s| - p
  {
    hide TokenAt, Skip, Sees, WholeWord;
    if Sees(s, p, "&") {
      SeesToken(s, p, "&");
      BacksWhole(s, TokenAt(s, p).next, Back(c));
    }
  }

  lemma {:induction false} PipeWhole(s: string, p: nat)
    requires p <= |s| && NUL !in s
    ensures var r := ParsePipe(s, p); r.Ok? ==> WholeWords(s, r.cmd)
    decreases |s| - p, 3
  {
    hide TokenAt, Sees, Skip, ParseExec;
    ExecWhole(s, p);
    var left := ParseExec(s, p);
    if left.Ok? && Sees(s, left.pos, "|") {
      SeesToken(s, left.pos, "|");
      PipeWhole(s, TokenAt(s, left.pos).next);
    }
  }

  lemma {:induction false} ExecWhole(s: string, p: nat)
    requires p <= |s| && NUL !in s
    ensures var r := ParseExec(s, p); r.Ok? ==> WholeWords(s, r.cmd)
    decreases |s| - p, 2
  {
    hide TokenAt, Sees, Skip, ParseLine, ParseArgs, ParseRedirs, Wrap, WholeWord;
    if Sees(s, p, "(") {
      SeesToken(s, p, "(");
      var inner := ParseLine(s, TokenAt(s, p).next);
      LineWhole(s, TokenAt(s, p).next);
      if inner.Ok? && Sees(s, inner.pos, ")") {
        SeesToken(s, inner.pos, ")");
        RedirsWhole(s, TokenAt(s, inner.pos).next, []);
        var r := ParseRedirs(s, TokenAt(s, inner.pos).next, []);
        if r.Redirs? {
          WrapWhole(s, inner.cmd, r.list);
        }
      }
    } else {
      RedirsWhole(s, p, []);
      var r := ParseRedirs(s, p, []);
      if r.Redirs? {
        ArgsWhole(s, r.pos, [], r.list);
      }
    }
  }

  lemma {:induction false} TextsAt(s: string, argv: seq<Span>, k: nat)
    requires k < |argv|
    ensures Texts(s, argv)[k] == Text(s, argv[k])
  {
    if k < |argv| - 1 {
      TextsAt(s, argv[..|argv| - 1], k);
    }
  }

  lemma {:induction false} WholeIsLegal(s: string, c: Cmd<Span>)
    requires WholeWords(s, c)
    ensures Legal(Reads(s, c))
  {
    match c
    case Exec(argv) =>
      forall k | 0 <= k < |argv| ensures LegalWord(Texts(s, argv)[k]) {
        TextsAt(s, argv, k);
      }
    case Redir(x, to) => WholeIsLegal(s, x);
    case Pipe(l, r) => WholeIsLegal(s, l); WholeIsLegal(s, r);
    case List(l, r) => WholeIsLegal(s, l); WholeIsLegal(s, r);
    case Back(x) => WholeIsLegal(s, x);
  }

  /** Whatever line the shell accepts, printing what it means and parsing that gives the same command. */
  lemma AcceptedRoundTrip(s: string)
    requires NUL !in s && ParseCmd(s).Ok?
    ensures var c := Reads(s, ParseCmd(s).cmd); var t := PrintLine(c);
            Legal(c) && ParseCmd(t).Ok? && Reads(t, ParseCmd(t).cmd) == c
  {
    hide ParseLine, PrintLine;
    LineWhole(s, 0);
    WholeIsLegal(s, ParseCmd(s).cmd);
    RoundTrip(Reads(s, ParseCmd(s).cmd));
  }

  // ---- nulterminate

  /** The buffer still holds s, but for characters outside words that have become NUL. */
  predicate Keeps(b: seq<char>, s: string) {
    && |b| == |s| + 1 && b[|s|] == NUL
    && forall k :: 0 <= k < |s| ==> b[k] == s[k] || (b[k] == NUL && !IsWordChar(s[k]))
  }

  /** The C string at w is exactly the word there. */
  predicate Terminated(b: seq<char>, s: string, w: Span) {
    w.q <= w.eq < |b| && b[w.q..w.eq] == Text(s, w) && b[w.eq] == NUL && NUL !in Text(s, w)
  }

  predicate AllTerminated(b: seq<char>, s: string, c: Cmd<Span>) {
    match c
    case Exec(argv) => forall k :: 0 <= k < |argv| ==> Terminated(b, s, argv[k])
    case Redir(x, to) => AllTerminated(b, s, x) && Terminated(b, s, to.file)
    case Pipe(l, r) => AllTerminated(b, s, l) && AllTerminated(b, s, r)
    case List(l, r) => AllTerminated(b, s, l) && AllTerminated(b, s, r)
    case Back(x) => AllTerminated(b, s, x)
  }

  /** More NULs between words do no harm. */
  predicate MoreNuls(a: seq<char>, b: seq<char>) {
    |a| == |b| && forall k :: 0 <= k < |a| && a[k] == NUL ==> b[k] == NUL
  }

  lemma TerminatedKept(a: seq<char>, b: seq<char>, s: string, w: Span)
    requires Keeps(a, s) && Keeps(b, s) && MoreNuls(a, b) && WholeWord(s, w) && w.eq < |a| && a[w.eq] == NUL
    ensures Terminated(b, s, w)
  {
  }

  lemma AllKept(a: seq<char>, b: seq<char>, s: string, c: Cmd<Span>)
    requires Keeps(a, s) && Keeps(b, s) && MoreNuls(a, b) && WholeWords(s, c) && AllTerminated(a, s, c)
    ensures AllTerminated(b, s, c)
  {
    hide Keeps, MoreNuls, WholeWord, Terminated;
    match c
    case Exec(argv) =>
      forall k | 0 <= k < |argv| ensures Terminated(b, s, argv[k]) {
        Renew(a, b, s, argv[k]);
      }
    case Redir(x, to) => Renew(a, b, s, to.file);
    case _ =>
  }

  lemma Renew(a: seq<char>, b: seq<char>, s: string, w: Span)
    requires Keeps(a, s) && Keeps(b, s) && MoreNuls(a, b) && WholeWord(s, w) && Terminated(a, s, w)
    ensures Terminated(b, s, w)
  {
  }

  /** *w.eq = 0 */
  method PutNul(buf: array<char>, s: string, w: Span)
    requires Keeps(buf[..], s) && WholeWord(s, w)
    modifies buf
    ensures Keeps(buf[..], s) && MoreNuls(old(buf[..]), buf[..]) && Terminated(buf[..], s, w)
  {
    buf[w.eq] := NUL;
    TerminatedKept(buf[..], buf[..], s, w);
  }

  /** nulterminate: afterwards each argument and file pointer is a C string that holds exactly its word. */
  method NulTerminate(buf: array<char>, s: string, c: Cmd<Span>)
    requires Keeps(buf[..], s) && WholeWords(s, c)
    modifies buf
    ensures Keeps(buf[..], s) && MoreNuls(old(buf[..]), buf[..]) && AllTerminated(buf[..], s, c)
    decreases c
  {
    hide Keeps, MoreNuls, WholeWord, Terminated;
    ghost var b0 := buf[..];
    NulsSame(b0);
    match c
    case Exec(argv) =>
      var i := 0;
      while i < |argv|
        invariant 0 <= i <= |argv| && Keeps(buf[..], s) && MoreNuls(b0, buf[..])
        invariant forall k :: 0 <= k < i ==> Terminated(buf[..], s, argv[k])
      {
        ghost var b1 := buf[..];
        PutNul(buf, s, argv[i]);
        NulsMore(b0, b1, buf[..]);
        forall k | 0 <= k < i ensures Terminated(buf[..], s, argv[k]) {
          Renew(b1, buf[..], s, argv[k]);
        }
        i := i + 1;
      }
    case Redir(x, to) =>
      NulTerminate(buf, s, x);
      ghost var b1 := buf[..];
      PutNul(buf, s, to.file);
      NulsMore(b0, b1, buf[..]);
      AllKept(b1, buf[..], s, x);
    case Pipe(l, r) =>
      NulBoth(buf, s, l, r, c);
    case List(l, r) =>
      NulBoth(buf, s, l, r, c);
    case Back(x) =>
      NulTerminate(buf, s, x);
  }

  method NulBoth(buf: array<char>, s: string, l: Cmd<Span>, r: Cmd<Span>, ghost c: Cmd<Span>)
    requires Keeps(buf[..], s) && WholeWords(s, l) && WholeWords(s, r) && (c == Pipe(l, r) || c == List(l, r))
    modifies buf
    ensures Keeps(buf[..], s) && MoreNuls(old(buf[..]), buf[..]) && AllTerminated(buf[..], s, l) &&
            AllTerminated(buf[..], s, r)
    decreases c, 0
  {
    hide Keeps, MoreNuls, WholeWords, AllTerminated;
    ghost var b0 := buf[..];
    NulTerminate(buf, s, l);
    ghost var b1 := buf[..];
    NulTerminate(buf, s, r);
    NulsMore(b0, b1, buf[..]);
    AllKept(b1, buf[..], s, l);
  }

  lemma NulsSame(b: seq<char>)
    ensures MoreNuls(b, b)
  {
  }

  lemma NulsMore(a: seq<char>, b: seq<char>, c: seq<char>)
    requires MoreNuls(a, b) && MoreNuls(b, c)
    ensures MoreNuls(a, c)
  {
  }

  /** parsecmd, on the buffer that holds the line and its NUL. */
  method ParseCommand(buf: array<char>) returns (r: Result)
    requires buf.Length > 0 && buf[buf.Length - 1] == NUL && NUL !in buf[..buf.Length - 1]
    modifies buf
    ensures r == ParseCmd(old(buf[..buf.Length - 1]))
    ensures r.Ok? ==>
              WholeWords(old(buf[..buf.Length - 1]), r.cmd) && AllTerminated(buf[..], old(buf[..buf.Length - 1]), r.cmd)
  {
    hide ParseLine, WholeWords, AllTerminated;
    var s := buf[..buf.Length - 1];
    r := ParseCmd(s);
    if r.Ok? {
      LineWhole(s, 0);
      NulTerminate(buf, s, r.cmd);
    }
  }
}
