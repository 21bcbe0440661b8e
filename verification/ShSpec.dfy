/** The grammar of the shell's command line: what the parser of sh.c reads from a string, as functions of the
    text that is left. */
module ShSpec {
  const MAXARGS: nat := 20

  /** out is false for '<', true for '>' and '>>', which open the file the same way. */
  datatype Redirection = Redirection(file: string, out: bool)

  datatype Cmd =
    | Exec(argv: seq<string>)
    | Redir(cmd: Cmd, redir: Redirection)
    | Pipe(left: Cmd, right: Cmd)
    | List(left: Cmd, right: Cmd)
    | Back(cmd: Cmd)

  datatype Tok = End | Symbol(c: char) | Append | Word(w: string)

  /** What is read and what text is left, or the panic that ends the shell. */
  datatype Parsed<T> = Ok(v: T, rest: string) | Panic(msg: string)

  predicate Blank(c: char) {
    c in " \t\r\n" || c == 11 as char
  }

  predicate Special(c: char) {
    c in "<|>&;()"
  }

  predicate Plain(c: char) {
    !Blank(c) && !Special(c)
  }

  // ----- tokens -----

  function Skip(t: string): (r: string)
    ensures |r| <= |t| && (r != "" ==> !Blank(r[0]))
  {
    if t != "" && Blank(t[0]) then Skip(t[1..]) else t
  }

  /** The number of plain characters at the beginning. */
  function WordLen(t: string): (n: nat)
    ensures n <= |t| && (forall k :: 0 <= k < n ==> Plain(t[k])) && (n < |t| ==> !Plain(t[n]))
  {
    if t != "" && Plain(t[0]) then WordLen(t[1..]) + 1 else 0
  }

  function Token(t: string): (r: (Tok, string))
    ensures |r.1| <= |t| && (r.0 != End ==> |r.1| < |t|)
    ensures r.1 != "" ==> !Blank(r.1[0])
  {
    var s := Skip(t);
    if s == "" then (End, s)
    else if s[0] == '>' then if |s| > 1 && s[1] == '>' then (Append, Skip(s[2..])) else (Symbol('>'), Skip(s[1..]))
    else if Special(s[0]) then (Symbol(s[0]), Skip(s[1..]))
    else (Word(s[..WordLen(s)]), Skip(s[WordLen(s)..]))
  }

  /** Whether the next character that is not blank is one of toks. */
  predicate Next(t: string, toks: string) {
    var s := Skip(t);
    s != "" && s[0] in toks
  }

  // ----- the grammar -----

  function Wrap(c: Cmd, rs: seq<Redirection>): Cmd
    decreases |rs|
  {
    if rs == [] then c else Wrap(Redir(c, rs[0]), rs[1..])
  }

  function Redirs(t: string): (r: Parsed<seq<Redirection>>)
    ensures r.Ok? ==> |r.rest| <= |t| && !Next(r.rest, "<>") && (r.rest != "" ==> !Blank(r.rest[0]))
    decreases |t|
  {
    if !Next(t, "<>") then Ok([], Skip(t))
    else
      var (tok, t1) := Token(t);
      var (word, t2) := Token(t1);
      if !word.Word? then Panic("missing file for redirection")
      else
        match Redirs(t2)
        case Panic(m) => Panic(m)
        case Ok(rs, rest) => Ok([Redirection(word.w, tok != Symbol('<'))] + rs, rest)
  }

  /** The rest of a simple command, after the words `argv` and the redirections `rs`. */
  function Args(argv: seq<string>, rs: seq<Redirection>, t: string): (r: Parsed<Cmd>)
    ensures r.Ok? ==> |r.rest| <= |t|
    decreases |t|
  {
    if Next(t, "|)&;") then Ok(Wrap(Exec(argv), rs), Skip(t))
    else
      var (tok, t1) := Token(t);
      if tok == End then Ok(Wrap(Exec(argv), rs), t1)
      else if !tok.Word? then Panic("syntax")
      else if |argv| + 1 >= MAXARGS then Panic("too many args")
      else
        match Redirs(t1)
        case Panic(m) => Panic(m)
        case Ok(more, t2) => Args(argv + [tok.w], rs + more, t2)
  }

  /** Redirections that follow a block. */
  function Wrapped(c: Cmd, rs: Parsed<seq<Redirection>>): Parsed<Cmd> {
    match rs
    case Panic(m) => Panic(m)
    case Ok(v, rest) => Ok(Wrap(c, v), rest)
  }

  /** Any number of '&'. */
  function Backs(c: Cmd, t: string): (r: (Cmd, string))
    ensures |r.1| <= |t|
    decreases |t|
  {
    if Next(t, "&") then Backs(Back(c), Token(t).1) else (c, Skip(t))
  }

  function ParseBlock(t: string): (r: Parsed<Cmd>)
    ensures r.Ok? ==> |r.rest| <= |t|
    decreases |t|, 0
  {
    if !Next(t, "(") then Panic("parseblock")
    else
      match ParseLine(Token(t).1)
      case Panic(m) => Panic(m)
      case Ok(c, t1) =>
        if !Next(t1, ")") then Panic("syntax - missing )")
        else
          Wrapped(c, Redirs(Token(t1).1))
  }

  function ParseExec(t: string): (r: Parsed<Cmd>)
    ensures r.Ok? ==> |r.rest| <= |t|
    decreases |t|, 1
  {
    if Next(t, "(") then ParseBlock(Skip(t))
    else
      match Redirs(t)
      case Panic(m) => Panic(m)
      case Ok(rs, t1) => Args([], rs, t1)
  }

  function ParsePipe(t: string): (r: Parsed<Cmd>)
    ensures r.Ok? ==> |r.rest| <= |t|
    decreases |t|, 2
  {
    match ParseExec(t)
    case Panic(m) => Panic(m)
    case Ok(c, t1) =>
      if !Next(t1, "|") then Ok(c, Skip(t1))
      else
        match ParsePipe(Token(t1).1)
        case Panic(m) => Panic(m)
        case Ok(d, t2) => Ok(Pipe(c, d), t2)
  }

  function ParseLine(t: string): (r: Parsed<Cmd>)
    ensures r.Ok? ==> |r.rest| <= |t|
    decreases |t|, 3
  {
    match ParsePipe(t)
    case Panic(m) => Panic(m)
    case Ok(c, t1) =>
      var (d, t2) := Backs(c, t1);
      if !Next(t2, ";") then Ok(d, Skip(t2))
      else
        match ParseLine(Token(t2).1)
        case Panic(m) => Panic(m)
        case Ok(e, t3) => Ok(List(d, e), t3)
  }

  function ParseCmd(t: string): Parsed<Cmd> {
    match ParseLine(t)
    case Panic(m) => Panic(m)
    case Ok(c, t1) => if Skip(t1) != "" then Panic("syntax") else Ok(c, "")
  }

  // ----- printing -----

  predicate GoodWord(w: string) {
    w != "" && forall k :: 0 <= k < |w| ==> Plain(w[k])
  }

  /** The trees that can be written down: real words, and fewer than MAXARGS of them in a command. */
  predicate Good(c: Cmd) {
    match c
    case Exec(argv) => |argv| < MAXARGS && forall k :: 0 <= k < |argv| ==> GoodWord(argv[k])
    case Redir(d, r) => Good(d) && GoodWord(r.file)
    case Pipe(l, r) => Good(l) && Good(r)
    case List(l, r) => Good(l) && Good(r)
    case Back(d) => Good(d)
  }

  function Words(argv: seq<string>): string {
    if argv == [] then "" else argv[0] + (if |argv| == 1 then "" else " " + Words(argv[1..]))
  }

  function Paren(s: string): string {
    "(" + s + ")"
  }

  function Arrow(r: Redirection): string {
    (if r.out then ">" else "<") + r.file
  }

  /** A command with all its parentheses. */
  function Print(c: Cmd): string {
    match c
    case Exec(argv) => Words(argv)
    case Redir(d, r) => Paren(Print(d)) + Arrow(r)
    case Pipe(l, r) => Paren(Print(l)) + "|" + Paren(Print(r))
    case List(l, r) => Paren(Print(l)) + ";" + Paren(Print(r))
    case Back(d) => Paren(Print(d)) + "&"
  }
}
