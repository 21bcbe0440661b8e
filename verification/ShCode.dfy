/** The recursive-descent parser of sh.c: functions that move a cursor p over the line s. */
module ShCode {
  import opened ShSpec

  /** A result and the new cursor, or a panic. */
  datatype Res = Done(c: Cmd, p: nat) | Fail(msg: string)

  /** What a parser function says about the text from the cursor on is what the grammar says. */
  ghost predicate Same(s: string, r: Res, g: Parsed<Cmd>) {
    match g
    case Panic(m) => r == Fail(m)
    case Ok(c, rest) => r.Done? && r.c == c && r.p <= |s| && s[r.p..] == rest
  }

  lemma Drop(s: string, p: nat, k: nat)
    requires p + k <= |s|
    ensures s[p..][k..] == s[p + k..]
  {
  }

  /** The loop over blanks. */
  method SkipBlanks(s: string, p0: nat) returns (p: nat)
    requires p0 <= |s|
    ensures p0 <= p <= |s| && s[p..] == Skip(s[p0..])
  {
    p := p0;
    while p < |s| && Blank(s[p])
      invariant p0 <= p <= |s| && Skip(s[p..]) == Skip(s[p0..])
    {
      Drop(s, p, 1);
      p := p + 1;
    }
  }

  /** The loop over a word. */
  method SkipWord(s: string, q: nat) returns (e: nat)
    requires q <= |s|
    ensures e == q + WordLen(s[q..]) <= |s|
  {
    e := q;
    while e < |s| && !Blank(s[e]) && !Special(s[e])
      invariant q <= e <= |s| && WordLen(s[q..]) == e - q + WordLen(s[e..])
    {
      Drop(s, e, 1);
      e := e + 1;
    }
  }

  method GetToken(s: string, p0: nat) returns (tok: Tok, p: nat)
    requires p0 <= |s|
    ensures p0 <= p <= |s| && Token(s[p0..]) == (tok, s[p..]) && (tok != End ==> p > p0)
  {
    hide Skip, WordLen;
    var q := SkipBlanks(s, p0);
    ghost var t := s[q..];
    var e := q;
    if q == |s| {
      tok := End;
    } else if s[q] == '>' {
      e := q + 1;
      tok := Symbol('>');
      if e < |s| && s[e] == '>' {
        tok := Append;
        e := e + 1;
      }
    } else if s[q] in "|();&<" {
      e := q + 1;
      tok := Symbol(s[q]);
    } else {
      e := SkipWord(s, q);
      assert t[..e - q] == s[q..e];
      tok := Word(s[q..e]);
    }
    assert t[e - q..] == s[e..];
    p := SkipBlanks(s, e);
  }

  method Peek(s: string, p0: nat, toks: string) returns (b: bool, p: nat)
    requires p0 <= |s|
    ensures p0 <= p <= |s| && b == Next(s[p0..], toks) && s[p..] == Skip(s[p0..])
  {
    p := SkipBlanks(s, p0);
    b := p < |s| && s[p] in toks;
  }

  function Before(rs: seq<Redirection>, g: Parsed<seq<Redirection>>): Parsed<seq<Redirection>> {
    match g
    case Panic(m) => Panic(m)
    case Ok(more, rest) => Ok(rs + more, rest)
  }

  lemma {:induction false} WrapMore(c: Cmd, rs: seq<Redirection>, r: Redirection)
    ensures Wrap(c, rs + [r]) == Redir(Wrap(c, rs), r)
    decreases |rs|
  {
    if rs == [] {
      assert rs + [r] == [r] && [r][1..] == [];
      assert Wrap(Redir(c, r), []) == Redir(c, r);
    } else {
      assert (rs + [r])[1..] == rs[1..] + [r];
      WrapMore(Redir(c, rs[0]), rs[1..], r);
    }
  }

  /** Skipping blanks first makes no difference to what follows. */
  lemma SkipTwice(t: string)
    ensures Skip(Skip(t)) == Skip(t) && Token(Skip(t)) == Token(t)
        && (forall toks :: Next(Skip(t), toks) == Next(t, toks))
  {
    var s := Skip(t);
    assert Skip(s) == s;
  }

  lemma SkipRedirs(t: string)
    ensures Redirs(Skip(t)) == Redirs(t)
  {
    SkipTwice(t);
  }

  /** One redirection of the loop. */
  lemma RedirsTurn(t: string, rs: seq<Redirection>)
    requires Next(t, "<>")
    ensures var (tok, t1) := Token(t); var (word, t2) := Token(t1);
      if word.Word? then Before(rs, Redirs(t)) == Before(rs + [Redirection(word.w, tok != Symbol('<'))], Redirs(t2))
      else Before(rs, Redirs(t)) == Panic("missing file for redirection")
  {
    var (tok, t1) := Token(t);
    var (word, t2) := Token(t1);
    if word.Word? {
      var r := Redirection(word.w, tok != Symbol('<'));
      match Redirs(t2)
      case Panic(_) =>
      case Ok(more, rest) => assert rs + ([r] + more) == rs + [r] + more;
    }
  }

  lemma BeforeNone(g: Parsed<seq<Redirection>>)
    ensures Before([], g) == g
  {
    if g.Ok? { assert [] + g.v == g.v; }
  }

  lemma WrapNone(c: Cmd)
    ensures Wrap(c, []) == c
  {
  }

  lemma NextIsToken(t: string, toks: string)
    requires Next(t, toks)
    ensures Token(t).0 != End
  {
  }

  lemma RedirsEnd(t: string, rs: seq<Redirection>)
    requires !Next(t, "<>") && Skip(t) == t
    ensures Before(rs, Redirs(t)) == Ok(rs, t)
  {
    assert rs + [] == rs;
  }

  method ParseRedirs(cmd: Cmd, s: string, p0: nat) returns (res: Res)
    requires p0 <= |s|
    ensures Same(s, res, Wrapped(cmd, Redirs(s[p0..])))
    ensures res.Done? ==> p0 <= res.p
  {
    hide Token, Skip, Redirs, Next, Wrap;
    var c, p := cmd, p0;
    ghost var rs: seq<Redirection> := [];
    ghost var g := Redirs(s[p0..]);
    BeforeNone(g);
    WrapNone(cmd);
    var more;
    more, p := Peek(s, p, "<>");
    SkipTwice(s[p0..]);
    SkipRedirs(s[p0..]);
    while more
      invariant p0 <= p <= |s| && more == Next(s[p..], "<>") && s[p..] == Skip(s[p..])
      invariant Before(rs, Redirs(s[p..])) == Before([], g) && c == Wrap(cmd, rs)
      decreases |s| - p, more
    {
      RedirsTurn(s[p..], rs);
      ghost var was := p;
      var tok, p1 := GetToken(s, p);
      var word, p2 := GetToken(s, p1);
      NextIsToken(s[p..], "<>");
      if !word.Word? { return Fail("missing file for redirection"); }
      ghost var r := Redirection(word.w, tok != Symbol('<'));
      WrapMore(cmd, rs, r);
      rs := rs + [r];
      c := Redir(c, Redirection(word.w, tok != Symbol('<')));
      SkipTwice(s[p2..]);
      SkipRedirs(s[p2..]);
      more, p := Peek(s, p2, "<>");
    }
    RedirsEnd(s[p..], rs);
    res := Done(c, p);
  }

  /** The words of a simple command are stored in the node under its redirections. */
  function Fill(c: Cmd, argv: seq<string>): Cmd {
    match c
    case Exec(_) => Exec(argv)
    case Redir(d, r) => Redir(Fill(d, argv), r)
    case _ => c
  }

  lemma {:induction false} FillWrap(c: Cmd, rs: seq<Redirection>, argv: seq<string>)
    ensures Fill(Wrap(c, rs), argv) == Wrap(Fill(c, argv), rs)
    decreases |rs|
  {
    if rs != [] { FillWrap(Redir(c, rs[0]), rs[1..], argv); }
  }

  // ----- the parser -----

  lemma SkipBacks(c: Cmd, t: string)
    ensures Backs(c, Skip(t)) == Backs(c, t)
  {
    SkipTwice(t);
  }

  lemma BacksTurn(c: Cmd, t: string)
    requires Next(t, "&")
    ensures Backs(c, t) == Backs(Back(c), Token(t).1)
  {
  }

  lemma BacksEnd(c: Cmd, t: string)
    requires !Next(t, "&") && Skip(t) == t
    ensures Backs(c, t) == (c, t)
  {
  }

  method ParseBlock(s: string, p0: nat) returns (res: Res)
    requires p0 <= |s|
    ensures Same(s, res, ShSpec.ParseBlock(s[p0..])) && (res.Done? ==> p0 <= res.p)
    decreases |s| - p0, 0
  {
    hide Token, Skip, Redirs, Next, Wrap, ShSpec.ParseLine;
    SkipTwice(s[p0..]);
    var open, p := Peek(s, p0, "(");
    if !open { return Fail("parseblock"); }
    NextIsToken(s[p..], "(");
    var tok;
    tok, p := GetToken(s, p);
    res := ParseLine(s, p);
    if res.Fail? { return; }
    var c := res.c;
    SkipTwice(s[res.p..]);
    var close;
    close, p := Peek(s, res.p, ")");
    if !close { return Fail("syntax - missing )"); }
    tok, p := GetToken(s, p);
    res := ParseRedirs(c, s, p);
  }

  lemma SkipArgs(argv: seq<string>, rs: seq<Redirection>, t: string)
    ensures Args(argv, rs, Skip(t)) == Args(argv, rs, t)
  {
    SkipTwice(t);
  }

  /** One word of the loop. */
  lemma ArgsTurn(argv: seq<string>, rs: seq<Redirection>, t: string)
    requires !Next(t, "|)&;")
    ensures var (tok, t1) := Token(t);
      Args(argv, rs, t) ==
      if tok == End then Ok(Wrap(Exec(argv), rs), t1)
      else if !tok.Word? then Panic("syntax")
      else if |argv| + 1 >= MAXARGS then Panic("too many args")
      else if Redirs(t1).Panic? then Panic(Redirs(t1).msg)
      else Args(argv + [tok.w], rs + Redirs(t1).v, Redirs(t1).rest)
  {
  }

  lemma {:induction false} WrapBoth(c: Cmd, rs: seq<Redirection>, more: seq<Redirection>)
    ensures Wrap(Wrap(c, rs), more) == Wrap(c, rs + more)
    decreases |rs|
  {
    if rs == [] {
      assert rs + more == more;
    } else {
      assert (rs + more)[1..] == rs[1..] + more;
      WrapBoth(Redir(c, rs[0]), rs[1..], more);
    }
  }

  lemma ArgsEnd(argv: seq<string>, rs: seq<Redirection>, t: string)
    requires Next(t, "|)&;") && Skip(t) == t
    ensures Args(argv, rs, t) == Ok(Wrap(Exec(argv), rs), t)
  {
  }

  method ParseExec(s: string, p0: nat) returns (res: Res)
    requires p0 <= |s|
    ensures Same(s, res, ShSpec.ParseExec(s[p0..])) && (res.Done? ==> p0 <= res.p)
    decreases |s| - p0, 1
  {
    hide Token, Skip, Redirs, Next, Wrap, Args, ShSpec.ParseBlock;
    SkipTwice(s[p0..]);
    SkipRedirs(s[p0..]);
    var block, p := Peek(s, p0, "(");
    if block {
      res := ParseBlock(s, p);
      return;
    }
    var argv: seq<string> := [];
    ghost var rs: seq<Redirection> := [];
    res := ParseRedirs(Exec([]), s, p);
    if res.Fail? { return; }
    var ret := res.c;
    rs := Redirs(s[p0..]).v;
    p := res.p;
    ghost var g := Args([], rs, s[p..]);
    var stop;
    SkipTwice(s[p..]);
    SkipArgs(argv, rs, s[p..]);
    stop, p := Peek(s, p, "|)&;");
    while !stop
      invariant p0 <= p <= |s| && stop == Next(s[p..], "|)&;") && s[p..] == Skip(s[p..])
      invariant g == Args(argv, rs, s[p..]) && ret == Wrap(Exec([]), rs) && |argv| < MAXARGS
      decreases |s| - p, !stop
    {
      ArgsTurn(argv, rs, s[p..]);
      var tok, p1 := GetToken(s, p);
      if tok == End {
        FillWrap(Exec([]), rs, argv);
        return Done(Fill(ret, argv), p1);
      }
      if !tok.Word? { return Fail("syntax"); }
      argv := argv + [tok.w];
      if |argv| >= MAXARGS { return Fail("too many args"); }
      res := ParseRedirs(ret, s, p1);
      if res.Fail? { return; }
      ghost var more := Redirs(s[p1..]).v;
      WrapBoth(Exec([]), rs, more);
      ret, rs := res.c, rs + more;
      SkipTwice(s[res.p..]);
      SkipArgs(argv, rs, s[res.p..]);
      stop, p := Peek(s, res.p, "|)&;");
    }
    FillWrap(Exec([]), rs, argv);
    ArgsEnd(argv, rs, s[p..]);
    res := Done(Fill(ret, argv), p);
  }

  method ParsePipe(s: string, p0: nat) returns (res: Res)
    requires p0 <= |s|
    ensures Same(s, res, ShSpec.ParsePipe(s[p0..])) && (res.Done? ==> p0 <= res.p)
    decreases |s| - p0, 2
  {
    hide Token, Skip, Redirs, Next, ShSpec.ParseExec;
    res := ParseExec(s, p0);
    if res.Fail? { return; }
    var c := res.c;
    SkipTwice(s[res.p..]);
    var bar, p := Peek(s, res.p, "|");
    if !bar { return Done(c, p); }
    NextIsToken(s[p..], "|");
    var tok;
    tok, p := GetToken(s, p);
    res := ParsePipe(s, p);
    if res.Fail? { return; }
    res := Done(Pipe(c, res.c), res.p);
  }

  method ParseLine(s: string, p0: nat) returns (res: Res)
    requires p0 <= |s|
    ensures Same(s, res, ShSpec.ParseLine(s[p0..])) && (res.Done? ==> p0 <= res.p)
    decreases |s| - p0, 3
  {
    hide Token, Skip, Redirs, Next, ShSpec.ParsePipe, Backs;
    res := ParsePipe(s, p0);
    if res.Fail? { return; }
    var c := res.c;
    ghost var g := Backs(c, s[res.p..]);
    SkipTwice(s[res.p..]);
    SkipBacks(c, s[res.p..]);
    var amp, p := Peek(s, res.p, "&");
    while amp
      invariant p0 <= p <= |s| && amp == Next(s[p..], "&") && s[p..] == Skip(s[p..]) && g == Backs(c, s[p..])
      decreases |s| - p, amp
    {
      BacksTurn(c, s[p..]);
      NextIsToken(s[p..], "&");
      var tok, p1 := GetToken(s, p);
      c := Back(c);
      SkipTwice(s[p1..]);
      SkipBacks(c, s[p1..]);
      amp, p := Peek(s, p1, "&");
    }
    BacksEnd(c, s[p..]);
    SkipTwice(s[p..]);
    var semi;
    semi, p := Peek(s, p, ";");
    if semi {
      NextIsToken(s[p..], ";");
      var tok;
      tok, p := GetToken(s, p);
      res := ParseLine(s, p);
      if res.Fail? { return; }
      return Done(List(c, res.c), res.p);
    }
    res := Done(c, p);
  }

  /** parsecmd: the whole line, or a panic. */
  method ParseCmd(s: string) returns (res: Res)
    ensures Same(s, res, ShSpec.ParseCmd(s))
  {
    hide Skip, ShSpec.ParseLine;
    assert s[0..] == s;
    res := ParseLine(s, 0);
    if res.Fail? { return; }
    var c := res.c;
    var b, p := Peek(s, res.p, "");
    if p != |s| { return Fail("syntax"); }
    res := Done(c, p);
  }
}
