/** Printing a command and parsing it gives it back; and every command that the parser builds can be printed. */
module ShProof {
  import opened ShSpec

  predicate Stops(rest: string) {
    rest == "" || rest[0] == ')'
  }

  lemma SkipNothing(t: string)
    requires t == "" || !Blank(t[0])
    ensures Skip(t) == t
  {
  }

  lemma {:induction false} WordEnds(w: string, rest: string)
    requires GoodWord(w) && (rest == "" || !Plain(rest[0]))
    ensures WordLen(w + rest) == |w|
  {
    var t := w + rest;
    assert t[0] == w[0] && t[1..] == w[1..] + rest;
    if |w| == 1 { assert w[1..] + rest == rest; } else { WordEnds(w[1..], rest); }
  }

  lemma TokenWord(w: string, rest: string)
    requires GoodWord(w) && (rest == "" || !Plain(rest[0]))
    ensures Token(w + rest) == (Word(w), Skip(rest))
  {
    var t := w + rest;
    assert t[0] == w[0];
    SkipNothing(t);
    WordEnds(w, rest);
    assert t[..|w|] == w && t[|w|..] == rest;
  }

  lemma TokenSymbol(c: char, rest: string)
    requires Special(c) && (c == '>' ==> rest == "" || rest[0] != '>')
    ensures Token([c] + rest) == (Symbol(c), Skip(rest)) && (forall toks :: Next([c] + rest, toks) <==> c in toks)
  {
    var t := [c] + rest;
    SkipNothing(t);
    assert t[0] == c && t[1..] == rest;
  }

  lemma NoNext(t: string, toks: string)
    requires t == "" || (!Blank(t[0]) && t[0] !in toks)
    ensures !Next(t, toks)
  {
    SkipNothing(t);
  }

  lemma NoRedirs(t: string)
    requires t == "" || (!Blank(t[0]) && t[0] != '<' && t[0] != '>')
    ensures Redirs(t) == Ok([], t)
  {
    SkipNothing(t);
    NoNext(t, "<>");
  }

  // ----- one step of each rule -----

  lemma RedirsOf(t: string, tok: Tok, t1: string, w: string, t2: string, rs: seq<Redirection>, rest: string)
    requires Next(t, "<>") && Token(t) == (tok, t1) && Token(t1) == (Word(w), t2) && Redirs(t2) == Ok(rs, rest)
    ensures Redirs(t) == Ok([Redirection(w, tok != Symbol('<'))] + rs, rest)
  {
  }

  lemma ArgsOf(done: seq<string>, t: string, w: string, t1: string)
    requires !Next(t, "|)&;") && Token(t) == (Word(w), t1) && |done| + 1 < MAXARGS && Redirs(t1) == Ok([], t1)
    ensures Args(done, [], t) == Args(done + [w], [], t1)
  {
    var none: seq<Redirection> := [];
    assert none + none == none;
  }

  lemma PipeNone(t: string, c: Cmd, t1: string)
    requires ParseExec(t) == Ok(c, t1) && !Next(t1, "|") && Skip(t1) == t1
    ensures ParsePipe(t) == Ok(c, t1)
  {
  }

  lemma PipeOf(t: string, c: Cmd, t1: string, right: string, d: Cmd, rest: string)
    requires ParseExec(t) == Ok(c, t1) && Next(t1, "|") && Token(t1).1 == right && ParsePipe(right) == Ok(d, rest)
    ensures ParsePipe(t) == Ok(Pipe(c, d), rest)
  {
  }

  /** After a command that ends here, no operator follows. */
  lemma NoOperator(rest: string)
    requires Stops(rest)
    ensures !Next(rest, "|") && !Next(rest, "&") && !Next(rest, ";") && Skip(rest) == rest
  {
    SkipNothing(rest);
  }

  lemma LineOf(t: string, c: Cmd, rest: string)
    requires ParsePipe(t) == Ok(c, rest) && Stops(rest)
    ensures ParseLine(t) == Ok(c, rest)
  {
    NoOperator(rest);
  }

  lemma ListOf(t: string, c: Cmd, t1: string, right: string, d: Cmd, rest: string)
    requires ParsePipe(t) == Ok(c, t1) && !Next(t1, "&") && Skip(t1) == t1 && Next(t1, ";") && Token(t1).1 == right
    requires ParseLine(right) == Ok(d, rest)
    ensures ParseLine(t) == Ok(List(c, d), rest)
  {
  }

  lemma BackOf(t: string, c: Cmd, t1: string, rest: string)
    requires ParsePipe(t) == Ok(c, t1) && Next(t1, "&") && Token(t1).1 == rest && Stops(rest)
    ensures ParseLine(t) == Ok(Back(c), rest)
  {
    NoOperator(rest);
    assert Backs(Back(c), rest) == (Back(c), rest);
  }

  lemma BlockOf(t: string, inner: string, c: Cmd, t1: string, tail: string)
    requires Next(t, "(") && Skip(t) == t && Token(t).1 == inner && ParseLine(inner) == Ok(c, t1) && Next(t1, ")")
        && Token(t1).1 == tail
    ensures ParseExec(t) == Wrapped(c, Redirs(tail))
  {
  }

  lemma OneRedir(r: Redirection, rest: string)
    requires GoodWord(r.file) && Stops(rest)
    ensures Redirs(Arrow(r) + rest) == Ok([r], rest)
  {
    hide Token, Next, Redirs, Skip;
    var c := if r.out then '>' else '<';
    var tail := r.file + rest;
    var t := Arrow(r) + rest;
    assert t == [c] + tail;
    assert tail[0] == r.file[0];
    TokenSymbol(c, tail);
    SkipNothing(tail);
    TokenWord(r.file, rest);
    SkipNothing(rest);
    NoRedirs(rest);
    RedirsOf(t, Symbol(c), tail, r.file, rest, [], rest);
    assert [Redirection(r.file, Symbol(c) != Symbol('<'))] + [] == [r];
  }

  // ----- simple commands -----

  /** What may follow the words of a simple command. */
  predicate EndsCommand(rest: string) {
    rest == "" || rest[0] in "|)&;"
  }

  lemma WordsStart(argv: seq<string>, rest: string)
    requires (forall k :: 0 <= k < |argv| ==> GoodWord(argv[k])) && EndsCommand(rest)
    ensures var t := Words(argv) + rest;
      (argv == [] && t == rest) || (argv != [] && argv[0] != "" && t != "" && t[0] == argv[0][0] && Plain(t[0]))
  {
    if argv != [] { assert (Words(argv) + rest)[0] == argv[0][0]; }
  }

  lemma ArgsEnd(done: seq<string>, rest: string)
    requires EndsCommand(rest)
    ensures Args(done, [], Words([]) + rest) == Ok(Exec(done), rest)
  {
    assert Words([]) + rest == rest;
    SkipNothing(rest);
  }

  lemma Join3(a: string, b: string, c: string)
    ensures a + b + c == a + (b + c)
  {
  }

  lemma Join4Mid(a: string, b: string, c: string, d: string)
    ensures a + (b + c) + d == a + (b + (c + d))
  {
  }

  lemma WordsCut(argv: seq<string>, rest: string)
    requires argv != []
    ensures var next := Words(argv[1..]) + rest;
      Words(argv) + rest == argv[0] + (if |argv| == 1 then rest else " " + next) && (|argv| == 1 ==> next == rest)
  {
    var w, more := argv[0], Words(argv[1..]);
    assert Words(argv) == w + (if |argv| == 1 then "" else " " + more);
    assert |argv| == 1 ==> more == "";
    hide Words;
    if |argv| == 1 { Join3(w, "", rest); } else { Join4Mid(w, " ", more, rest); }
    assert "" + rest == rest;
  }

  lemma SkipBlank(next: string, rest: string, last: bool)
    requires (next == "" || !Blank(next[0])) && (last ==> next == rest)
    ensures Skip(if last then rest else " " + next) == next
  {
    SkipNothing(next);
    assert (" " + next)[1..] == next;
  }

  lemma ArgsTurn(done: seq<string>, argv: seq<string>, rest: string)
    requires (forall k :: 0 <= k < |argv| ==> GoodWord(argv[k])) && |done| + |argv| < MAXARGS && EndsCommand(rest)
        && argv != []
    ensures Args(done, [], Words(argv) + rest) == Args(done + [argv[0]], [], Words(argv[1..]) + rest)
  {
    hide Args, Token, Redirs, Next, Skip;
    var t, next := Words(argv) + rest, Words(argv[1..]) + rest;
    var after := if |argv| == 1 then rest else " " + next;
    WordsCut(argv, rest);
    WordsStart(argv, rest);
    WordsStart(argv[1..], rest);
    NoNext(t, "|)&;");
    TokenWord(argv[0], after);
    SkipBlank(next, rest, |argv| == 1);
    NoRedirs(next);
    ArgsOf(done, t, argv[0], next);
  }

  lemma {:induction false} ArgsWords(done: seq<string>, argv: seq<string>, rest: string)
    requires (forall k :: 0 <= k < |argv| ==> GoodWord(argv[k])) && |done| + |argv| < MAXARGS && EndsCommand(rest)
    ensures Args(done, [], Words(argv) + rest) == Ok(Exec(done + argv), rest)
    decreases |argv|
  {
    var t := Words(argv) + rest;
    hide Args, Token, Redirs, Next, Skip, Words, GoodWord, Blank, Plain;
    if argv == [] {
      assert done + argv == done;
      ArgsEnd(done, rest);
    } else {
      var tail := argv[1..];
      var next := Words(tail) + rest;
      ArgsTurn(done, argv, rest);
      ArgsWords(done + [argv[0]], tail, rest);
      assert done + [argv[0]] + tail == done + argv;
    }
  }

  lemma LineOfExec(c: Cmd, t: string, rest: string)
    requires Stops(rest) && ParseExec(t) == Ok(c, rest)
    ensures ParsePipe(t) == Ok(c, rest) && ParseLine(t) == Ok(c, rest)
  {
    hide ParseExec, ParsePipe, ParseLine;
    NoOperator(rest);
    PipeNone(t, c, rest);
    LineOf(t, c, rest);
  }

  lemma ExecWords(argv: seq<string>, rest: string)
    requires Good(Exec(argv)) && EndsCommand(rest)
    ensures ParseExec(Words(argv) + rest) == Ok(Exec(argv), rest)
  {
    var t := Words(argv) + rest;
    hide Args, Redirs;
    WordsStart(argv, rest);
    NoNext(t, "(");
    NoRedirs(t);
    ArgsWords([], argv, rest);
    assert [] + argv == argv;
  }

  lemma LineWords(argv: seq<string>, rest: string)
    requires Good(Exec(argv)) && Stops(rest)
    ensures ParseLine(Words(argv) + rest) == Ok(Exec(argv), rest)
  {
    ExecWords(argv, rest);
    LineOfExec(Exec(argv), Words(argv) + rest, rest);
  }

  // ----- parentheses -----

  lemma PrintStart(c: Cmd, rest: string)
    requires Good(c) && Stops(rest)
    ensures var t := Print(c) + rest;
      t == "" || !Blank(t[0])
  {
    if c.Exec? { WordsStart(c.argv, rest); } else { assert (Print(c) + rest)[0] == '('; }
  }

  /** A command in parentheses, where its own line parses back. */
  lemma ExecParen(c: Cmd, tail: string)
    requires Good(c) && (tail == "" || !Blank(tail[0]))
    requires ParseLine(Print(c) + (")" + tail)) == Ok(c, ")" + tail)
    ensures ParseExec(Paren(Print(c)) + tail) == Wrapped(c, Redirs(tail))
  {
    hide Token, Next, Skip, Redirs, ParseLine, ParseExec;
    var close := ")" + tail;
    var inner := Print(c) + close;
    var t := Paren(Print(c)) + tail;
    assert t == ['('] + inner;
    PrintStart(c, close);
    SkipNothing(inner);
    SkipNothing(t);
    TokenSymbol('(', inner);
    assert close == [')'] + tail;
    SkipNothing(tail);
    TokenSymbol(')', tail);
    BlockOf(t, inner, c, close, tail);
  }

  lemma ExecParenPlain(c: Cmd, tail: string)
    requires Good(c) && (tail == "" || (!Blank(tail[0]) && tail[0] != '<' && tail[0] != '>'))
    requires ParseLine(Print(c) + (")" + tail)) == Ok(c, ")" + tail)
    ensures ParseExec(Paren(Print(c)) + tail) == Ok(c, tail)
  {
    hide Redirs, ParseLine, ParseExec;
    ExecParen(c, tail);
    NoRedirs(tail);
  }

  lemma LineRedir(d: Cmd, r: Redirection, rest: string)
    requires Good(d) && GoodWord(r.file) && Stops(rest)
    requires var tail := Arrow(r) + rest;
      ParseLine(Print(d) + (")" + tail)) == Ok(d, ")" + tail)
    ensures ParseLine(Paren(Print(d)) + (Arrow(r) + rest)) == Ok(Redir(d, r), rest)
  {
    hide Token, Next, Skip, Redirs, ParseLine, ParseExec, ParsePipe;
    var tail := Arrow(r) + rest;
    ExecParen(d, tail);
    OneRedir(r, rest);
    assert [r][1..] == [];
    assert Wrap(Redir(d, r), []) == Redir(d, r);
    LineOfExec(Redir(d, r), Paren(Print(d)) + tail, rest);
  }

  lemma LinePipe(l: Cmd, r: Cmd, rest: string)
    requires Good(l) && Good(r) && Stops(rest)
    requires ParseLine(Print(r) + (")" + rest)) == Ok(r, ")" + rest)
    requires var tail := "|" + (Paren(Print(r)) + rest);
      ParseLine(Print(l) + (")" + tail)) == Ok(l, ")" + tail)
    ensures ParseLine(Paren(Print(l)) + ("|" + (Paren(Print(r)) + rest))) == Ok(Pipe(l, r), rest)
  {
    hide Token, Next, Skip, Redirs, ParseLine, ParseExec, ParsePipe;
    var right := Paren(Print(r)) + rest;
    var tail := "|" + right;
    ExecParenPlain(l, tail);
    ExecParenPlain(r, rest);
    LineOfExec(r, right, rest);
    assert tail == ['|'] + right;
    TokenSymbol('|', right);
    SkipNothing(right);
    PipeOf(Paren(Print(l)) + tail, l, tail, right, r, rest);
    LineOf(Paren(Print(l)) + tail, Pipe(l, r), rest);
  }

  lemma LineList(l: Cmd, r: Cmd, rest: string)
    requires Good(l) && Good(r) && Stops(rest)
    requires ParseLine(Print(r) + (")" + rest)) == Ok(r, ")" + rest)
    requires var tail := ";" + (Paren(Print(r)) + rest);
      ParseLine(Print(l) + (")" + tail)) == Ok(l, ")" + tail)
    ensures ParseLine(Paren(Print(l)) + (";" + (Paren(Print(r)) + rest))) == Ok(List(l, r), rest)
  {
    hide Token, Next, Skip, Redirs, ParseLine, ParseExec, ParsePipe;
    var right := Paren(Print(r)) + rest;
    var tail := ";" + right;
    ExecParenPlain(l, tail);
    ExecParenPlain(r, rest);
    LineOfExec(r, right, rest);
    assert tail == [';'] + right;
    TokenSymbol(';', right);
    SkipNothing(right);
    SkipNothing(tail);
    PipeNone(Paren(Print(l)) + tail, l, tail);
    ListOf(Paren(Print(l)) + tail, l, tail, right, r, rest);
  }

  lemma LineBack(d: Cmd, rest: string)
    requires Good(d) && Stops(rest)
    requires var tail := "&" + rest;
      ParseLine(Print(d) + (")" + tail)) == Ok(d, ")" + tail)
    ensures ParseLine(Paren(Print(d)) + ("&" + rest)) == Ok(Back(d), rest)
  {
    hide Token, Next, Skip, Redirs, ParseLine, ParseExec, ParsePipe;
    var tail := "&" + rest;
    ExecParenPlain(d, tail);
    assert tail == ['&'] + rest;
    TokenSymbol('&', rest);
    SkipNothing(rest);
    SkipNothing(tail);
    PipeNone(Paren(Print(d)) + tail, d, tail);
    BackOf(Paren(Print(d)) + tail, d, tail, rest);
  }

  // ----- round trip -----

  lemma Join4(a: string, b: string, c: string, d: string)
    ensures a + b + c + d == a + (b + (c + d))
  {
  }

  lemma {:induction false} LineBackAgain(c: Cmd, rest: string)
    requires Good(c) && Stops(rest)
    ensures ParseLine(Print(c) + rest) == Ok(c, rest)
    decreases c
  {
    hide ParseLine, Paren, Arrow;
    match c
    case Exec(argv) => LineWords(argv, rest);
    case Redir(d, r) =>
      LineBackAgain(d, ")" + (Arrow(r) + rest));
      LineRedir(d, r, rest);
      Join3(Paren(Print(d)), Arrow(r), rest);
    case Pipe(l, r) =>
      LineBackAgain(l, ")" + ("|" + (Paren(Print(r)) + rest)));
      LineBackAgain(r, ")" + rest);
      LinePipe(l, r, rest);
      Join4(Paren(Print(l)), "|", Paren(Print(r)), rest);
    case List(l, r) =>
      LineBackAgain(l, ")" + (";" + (Paren(Print(r)) + rest)));
      LineBackAgain(r, ")" + rest);
      LineList(l, r, rest);
      Join4(Paren(Print(l)), ";", Paren(Print(r)), rest);
    case Back(d) =>
      LineBackAgain(d, ")" + ("&" + rest));
      LineBack(d, rest);
      Join3(Paren(Print(d)), "&", rest);
  }

  /** Every tree that can be written down comes back from its printed form. */
  lemma PrintParse(c: Cmd)
    requires Good(c)
    ensures ParseCmd(Print(c)) == Ok(c, "")
  {
    LineBackAgain(c, "");
    assert Print(c) + "" == Print(c);
  }

  // ----- what the parser builds -----

  lemma TokenGood(t: string)
    ensures Token(t).0.Word? ==> GoodWord(Token(t).0.w)
  {
    var s := Skip(t);
    if Token(t).0.Word? { assert WordLen(s) >= 1; }
  }

  predicate GoodRedirs(rs: seq<Redirection>) {
    forall k :: 0 <= k < |rs| ==> GoodWord(rs[k].file)
  }

  lemma {:induction false} WrapGood(c: Cmd, rs: seq<Redirection>)
    requires Good(c) && GoodRedirs(rs)
    ensures Good(Wrap(c, rs))
    decreases |rs|
  {
    if rs != [] { WrapGood(Redir(c, rs[0]), rs[1..]); }
  }

  lemma {:induction false} RedirsGood(t: string)
    ensures Redirs(t).Ok? ==> GoodRedirs(Redirs(t).v)
    decreases |t|
  {
    if Next(t, "<>") {
      var (tok, t1) := Token(t);
      var (word, t2) := Token(t1);
      TokenGood(t1);
      if word.Word? { RedirsGood(t2); }
    }
  }

  lemma {:induction false} ArgsGood(argv: seq<string>, rs: seq<Redirection>, t: string)
    requires |argv| < MAXARGS && (forall k :: 0 <= k < |argv| ==> GoodWord(argv[k])) && GoodRedirs(rs)
    ensures Args(argv, rs, t).Ok? ==> Good(Args(argv, rs, t).v)
    decreases |t|
  {
    WrapGood(Exec(argv), rs);
    if !Next(t, "|)&;") {
      var (tok, t1) := Token(t);
      TokenGood(t);
      RedirsGood(t1);
      if tok.Word? && |argv| + 1 < MAXARGS && Redirs(t1).Ok? {
        ArgsGood(argv + [tok.w], rs + Redirs(t1).v, Redirs(t1).rest);
      }
    }
  }

  lemma {:induction false} BacksGood(c: Cmd, t: string)
    requires Good(c)
    ensures Good(Backs(c, t).0)
    decreases |t|
  {
    if Next(t, "&") { BacksGood(Back(c), Token(t).1); }
  }

  lemma {:induction false} ExecGood(t: string)
    ensures ParseExec(t).Ok? ==> Good(ParseExec(t).v)
    decreases |t|, 1
  {
    if Next(t, "(") {
      var s := Skip(t);
      if ParseExec(t).Ok? {
        LineGood(Token(s).1);
        var t1 := ParseLine(Token(s).1).rest;
        RedirsGood(Token(t1).1);
        WrapGood(ParseLine(Token(s).1).v, Redirs(Token(t1).1).v);
      }
    } else {
      RedirsGood(t);
      if Redirs(t).Ok? { ArgsGood([], Redirs(t).v, Redirs(t).rest); }
    }
  }

  lemma {:induction false} PipeGood(t: string)
    ensures ParsePipe(t).Ok? ==> Good(ParsePipe(t).v)
    decreases |t|, 2
  {
    ExecGood(t);
    if ParseExec(t).Ok? && Next(ParseExec(t).rest, "|") { PipeGood(Token(ParseExec(t).rest).1); }
  }

  lemma {:induction false} LineGood(t: string)
    ensures ParseLine(t).Ok? ==> Good(ParseLine(t).v)
    decreases |t|, 3
  {
    PipeGood(t);
    if ParsePipe(t).Ok? {
      var (d, t2) := Backs(ParsePipe(t).v, ParsePipe(t).rest);
      BacksGood(ParsePipe(t).v, ParsePipe(t).rest);
      if Next(t2, ";") { LineGood(Token(t2).1); }
    }
  }

  /** The trees that the parser builds, over all inputs, are exactly the ones that can be written down; and every
      accepted line means the same as its printed form. */
  lemma ParserImage(c: Cmd)
    ensures Good(c) <==> exists t :: ParseCmd(t) == Ok(c, "")
    ensures forall t :: ParseCmd(t) == Ok(c, "") ==> ParseCmd(Print(c)) == ParseCmd(t)
  {
    if Good(c) { PrintParse(c); }
    forall t | ParseCmd(t) == Ok(c, "")
      ensures Good(c)
    {
      LineGood(t);
    }
  }

  // ----- what the characters of a line mean -----

  /** The token that a text begins with, by its first characters. */
  lemma TokenIs(c: char, rest: string)
    ensures c in "<|&;()" ==> Token([c] + rest) == (Symbol(c), Skip(rest))
    ensures c == '>' && (rest == "" || rest[0] != '>') ==> Token([c] + rest) == (Symbol('>'), Skip(rest))
    ensures c == '>' && rest != "" && rest[0] == '>' ==> Token([c] + rest) == (Append, Skip(rest[1..]))
    ensures c in " \t\r\n" || c == 11 as char ==> Token([c] + rest) == Token(rest)
    ensures c !in " \t\r\n<|>&;()" && c != 11 as char ==> Token([c] + rest).0.Word? && Token([c] + rest).0.w[..1] == [c]
  {
    var t := [c] + rest;
    assert t[0] == c && t[1..] == rest;
    if rest != "" { assert t[2..] == rest[1..]; }
    if !Blank(c) { SkipNothing(t); }
    if Plain(c) { assert WordLen(t) >= 1; }
  }

  /** '>>' in front of a file name is read like '>'. */
  lemma AppendLikeOut(t: string)
    requires t == "" || t[0] != '>'
    ensures Redirs(">>" + t) == Redirs(">" + t)
  {
    var one, two := ">" + t, ">>" + t;
    assert one == ['>'] + t && two == ['>'] + one && one[1..] == t && one[0] == '>';
    TokenIs('>', t);
    TokenIs('>', one);
    SkipNothing(one);
    SkipNothing(two);
    assert Token(one).1 == Token(two).1;
  }

  /** Where a command gets a file: '<' for input, '>' and '>>' for output. */
  lemma RedirectionIs(op: string, f: string)
    requires op in ["<", ">", ">>"] && GoodWord(f)
    ensures Redirs(op + f) == Ok([Redirection(f, op != "<")], "")
  {
    var r := Redirection(f, op != "<");
    assert Arrow(r) + "" == Arrow(r) == (if op == "<" then "<" else ">") + f;
    OneRedir(r, "");
    if op == ">>" { AppendLikeOut(f); }
  }

  lemma RedirStart(op: string, f: string)
    requires op in ["<", ">", ">>"]
    ensures var tail := op + f; tail != "" && (tail[0] == '<' || tail[0] == '>')
  {
    assert (op + f)[0] == op[0];
  }

  lemma WordStart(argv: seq<string>, tail: string)
    requires (forall k :: 0 <= k < |argv| ==> GoodWord(argv[k])) && argv != []
    ensures var t := Words(argv) + tail; t != "" && argv[0] != "" && t[0] == argv[0][0] && Plain(t[0])
  {
    assert argv[0] != "" && (Words(argv) + tail)[0] == argv[0][0];
  }

  lemma LastArg(done: seq<string>, t: string, w: string, tail: string, r: Redirection)
    requires !Next(t, "|)&;") && Token(t) == (Word(w), tail) && |done| + 1 < MAXARGS && Redirs(tail) == Ok([r], "")
    ensures Args(done, [], t) == Ok(Redir(Exec(done + [w]), r), "")
  {
    var none: seq<Redirection> := [];
    assert none + [r] == [r] && [r][1..] == [];
    assert Wrap(Redir(Exec(done + [w]), r), []) == Redir(Exec(done + [w]), r);
    assert Args(done + [w], [r], "") == Ok(Wrap(Exec(done + [w]), [r]), "");
  }

  lemma ArgsSkip(done: seq<string>, argv: seq<string>, tail: string)
    requires (forall k :: 0 <= k < |argv| ==> GoodWord(argv[k])) && |done| + 1 < MAXARGS && |argv| > 1
    ensures Args(done, [], Words(argv) + tail) == Args(done + [argv[0]], [], Words(argv[1..]) + tail)
  {
    hide Args, Token, Redirs, Next, Skip, Words;
    var t, next := Words(argv) + tail, Words(argv[1..]) + tail;
    WordsCut(argv, tail);
    WordStart(argv, tail);
    WordStart(argv[1..], tail);
    NoNext(t, "|)&;");
    TokenWord(argv[0], " " + next);
    SkipBlank(next, tail, false);
    NoRedirs(next);
    ArgsOf(done, t, argv[0], next);
  }

  lemma {:induction false} ArgsRedir(done: seq<string>, argv: seq<string>, op: string, f: string)
    requires (forall k :: 0 <= k < |argv| ==> GoodWord(argv[k])) && |done| + |argv| < MAXARGS && argv != []
    requires op in ["<", ">", ">>"] && GoodWord(f)
    ensures Args(done, [], Words(argv) + (op + f)) == Ok(Redir(Exec(done + argv), Redirection(f, op != "<")), "")
    decreases |argv|
  {
    hide Args, Token, Redirs, Next, Skip, Words;
    var tail := op + f;
    RedirStart(op, f);
    if |argv| == 1 {
      WordsCut(argv, tail);
      WordStart(argv, tail);
      TokenWord(argv[0], tail);
      SkipNothing(tail);
      NoNext(Words(argv) + tail, "|)&;");
      RedirectionIs(op, f);
      assert argv == [argv[0]];
      LastArg(done, Words(argv) + tail, argv[0], tail, Redirection(f, op != "<"));
    } else {
      ArgsSkip(done, argv, tail);
      ArgsRedir(done + [argv[0]], argv[1..], op, f);
      assert done + [argv[0]] + argv[1..] == done + argv;
    }
  }

  lemma {:induction false} ArgsTooMany(done: seq<string>, argv: seq<string>)
    requires (forall k :: 0 <= k < |argv| ==> GoodWord(argv[k])) && |done| < 20 <= |done| + |argv|
    ensures Args(done, [], Words(argv) + "") == Panic("too many args")
    decreases |argv|
  {
    if |done| == 19 {
      var t := Words(argv) + "";
      WordStart(argv, "");
      WordsCut(argv, "");
      var after := if |argv| == 1 then "" else " " + (Words(argv[1..]) + "");
      assert t == argv[0] + after;
      TokenWord(argv[0], after);
      NoNext(t, "|)&;");
    } else {
      hide Args, Words;
      ArgsSkip(done, argv, "");
      ArgsTooMany(done + [argv[0]], argv[1..]);
    }
  }

  lemma PanicsAll(t: string, m: string)
    requires !Next(t, "(") && Redirs(t) == Ok([], t) && Args([], [], t) == Panic(m)
    ensures ParseCmd(t) == Panic(m)
  {
    hide Args, Redirs, Next;
    assert ParseExec(t) == Panic(m);
    hide ParseExec;
    assert ParsePipe(t) == Panic(m);
    hide ParsePipe;
    assert ParseLine(t) == Panic(m);
  }

  /** A command with twenty words or more is refused; nineteen are accepted. */
  lemma NineteenWords(argv: seq<string>)
    requires forall k :: 0 <= k < |argv| ==> GoodWord(argv[k])
    ensures ParseCmd(Words(argv)) == if |argv| < 20 then Ok(Exec(argv), "") else Panic("too many args")
  {
    if |argv| < 20 {
      PrintParse(Exec(argv));
    } else {
      var t := Words(argv);
      assert t + "" == t;
      WordStart(argv, "");
      ArgsTooMany([], argv);
      hide Args, Redirs, ParseCmd, Words;
      NoNext(t, "(");
      NoRedirs(t);
      PanicsAll(t, "too many args");
    }
  }

  /** A simple command whose output or input goes to a file. */
  lemma CommandToFile(argv: seq<string>, op: string, f: string)
    requires Good(Exec(argv)) && argv != [] && op in ["<", ">", ">>"] && GoodWord(f)
    ensures ParseCmd(Words(argv) + (op + f)) == Ok(Redir(Exec(argv), Redirection(f, op != "<")), "")
  {
    var t := Words(argv) + (op + f);
    assert argv[0] != "" && t[0] == argv[0][0];
    hide Args, Redirs;
    NoNext(t, "(");
    NoRedirs(t);
    ArgsRedir([], argv, op, f);
    assert [] + argv == argv;
    LineOfExec(Redir(Exec(argv), Redirection(f, op != "<")), t, "");
  }

  /** A pipe takes the simple command on its left and the whole pipeline on its right. */
  lemma PipeWords(argv: seq<string>, t: string, d: Cmd, rest: string)
    requires Good(Exec(argv)) && (t == "" || !Blank(t[0])) && ParsePipe(t) == Ok(d, rest)
    ensures ParsePipe(Words(argv) + ("|" + t)) == Ok(Pipe(Exec(argv), d), rest)
  {
    hide ParseExec, ParsePipe;
    var tail := "|" + t;
    ExecWords(argv, tail);
    assert tail == ['|'] + t;
    TokenSymbol('|', t);
    SkipNothing(t);
    PipeOf(Words(argv) + tail, Exec(argv), tail, t, d, rest);
  }

  lemma PipeLast(argv: seq<string>, rest: string)
    requires Good(Exec(argv)) && EndsCommand(rest) && !(rest != "" && rest[0] == '|')
    ensures ParsePipe(Words(argv) + rest) == Ok(Exec(argv), rest)
  {
    hide ParseExec, ParsePipe;
    ExecWords(argv, rest);
    SkipNothing(rest);
    PipeNone(Words(argv) + rest, Exec(argv), rest);
  }

  /** A semicolon takes the whole pipeline on its left and the whole line on its right. */
  lemma ListAfter(t: string, c: Cmd, right: string, d: Cmd, rest: string)
    requires ParsePipe(t) == Ok(c, ";" + right) && (right == "" || !Blank(right[0])) && ParseLine(right) == Ok(d, rest)
    ensures ParseLine(t) == Ok(List(c, d), rest)
  {
    var tail := ";" + right;
    assert tail == [';'] + right;
    TokenSymbol(';', right);
    SkipNothing(right);
    SkipNothing(tail);
    hide ParsePipe, ParseLine;
    ListOf(t, c, tail, right, d, rest);
  }

  /** The operators bind as in any shell: '|' before ';'. */
  lemma Precedence(a: seq<string>, b: seq<string>, c: seq<string>, d: seq<string>)
    requires Good(Exec(a)) && Good(Exec(b)) && Good(Exec(c)) && Good(Exec(d))
    ensures ParseCmd(Words(a) + ("|" + (Words(b) + (";" + (Words(c) + ("|" + Words(d))))))) ==
            Ok(List(Pipe(Exec(a), Exec(b)), Pipe(Exec(c), Exec(d))), "")
  {
    var right := Words(c) + ("|" + Words(d));
    var tail := ";" + right;
    hide ParseExec, ParsePipe, ParseLine;
    PipeLast(b, tail);
    WordsStart(b, tail);
    PipeWords(a, Words(b) + tail, Exec(b), tail);
    PipeLast(d, "");
    assert Words(d) + "" == Words(d);
    WordsStart(d, "");
    PipeWords(c, Words(d), Exec(d), "");
    LineOf(right, Pipe(Exec(c), Exec(d)), "");
    WordsStart(c, "|" + Words(d));
    ListAfter(Words(a) + ("|" + (Words(b) + tail)), Pipe(Exec(a), Exec(b)), right, Pipe(Exec(c), Exec(d)), "");
  }

  /** A command in the background, and one in parentheses. */
  lemma BackgroundAndBlock(argv: seq<string>)
    requires Good(Exec(argv))
    ensures ParseCmd(Words(argv) + "&") == Ok(Back(Exec(argv)), "")
    ensures ParseCmd("(" + Words(argv) + ")") == Ok(Exec(argv), "")
  {
    hide ParseExec, ParsePipe, ParseLine;
    PipeLast(argv, "&");
    assert "&" == ['&'] + "";
    TokenSymbol('&', "");
    BackOf(Words(argv) + "&", Exec(argv), "&", "");
    LineBackAgain(Exec(argv), ")");
    assert Print(Exec(argv)) + (")" + "") == Print(Exec(argv)) + ")";
    ExecParenPlain(Exec(argv), "");
    assert Paren(Print(Exec(argv))) + "" == "(" + Words(argv) + ")";
    LineOfExec(Exec(argv), "(" + Words(argv) + ")", "");
  }
}
