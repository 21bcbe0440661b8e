/** The regular expressions of grep.c: literals, '.', 'c*', a leading '^' and a final '$'.  Strings are C strings
    without their final NUL. */
module Grep {
  /** What one element of a pattern stands for: one character, or any number of them. */
  datatype Item = One(c: char) | Star(c: char)

  /** The elements of a pattern, with `eol` for a final '$'. */
  datatype Pattern = Pattern(items: seq<Item>, eol: bool)

  /** Reading a pattern, after a leading '^'. */
  function Read(re: string): Pattern {
    if re == "" then Pattern([], false)
    else if |re| >= 2 && re[1] == '*' then
      var p := Read(re[2..]);
      Pattern([Star(re[0])] + p.items, p.eol)
    else if re == "$" then Pattern([], true)
    else
      var p := Read(re[1..]);
      Pattern([One(re[0])] + p.items, p.eol)
  }

  predicate Fits(c: char, x: char) {
    c == '.' || c == x
  }

  predicate AllFit(c: char, s: string) {
    forall k :: 0 <= k < |s| ==> Fits(c, s[k])
  }

  predicate PieceOk(item: Item, piece: string) {
    match item
    case One(c) => |piece| == 1 && Fits(c, piece[0])
    case Star(c) => AllFit(c, piece)
  }

  function Flat(pieces: seq<string>): string {
    if pieces == [] then "" else pieces[0] + Flat(pieces[1..])
  }

  /** s is made of one piece for every element, in order. */
  ghost predicate Cut(items: seq<Item>, s: string, pieces: seq<string>) {
    && |pieces| == |items| && Flat(pieces) == s
    && forall k :: 0 <= k < |items| ==> PieceOk(items[k], pieces[k])
  }

  ghost predicate InLanguage(items: seq<Item>, s: string) {
    exists pieces :: Cut(items, s, pieces)
  }

  /** The pattern fits the text from position i to position j. */
  ghost predicate FitsAt(p: Pattern, text: string, i: int, j: int) {
    0 <= i <= j <= |text| && (p.eol ==> j == |text|) && InLanguage(p.items, text[i..j])
  }

  /** What grep promises: some part of the text fits; with '^' a part at the beginning. */
  ghost predicate Found(re: string, text: string) {
    if re != "" && re[0] == '^' then exists j :: FitsAt(Read(re[1..]), text, 0, j)
    else exists i, j :: FitsAt(Read(re), text, i, j)
  }

  ghost predicate Here(re: string, text: string, i: int) {
    exists j :: FitsAt(Read(re), text, i, j)
  }

  // ----- how the language of a pattern starts -----

  lemma EmptyLanguage(s: string)
    ensures InLanguage([], s) <==> s == ""
  {
    if s == "" { assert Cut([], s, []); }
  }

  lemma CutTail(all: seq<Item>, s: string, ps: seq<string>)
    requires Cut(all, s, ps) && all != []
    ensures |ps[0]| <= |s| && ps[0] == s[..|ps[0]|] && Cut(all[1..], s[|ps[0]|..], ps[1..])
  {
    assert s == ps[0] + Flat(ps[1..]);
    forall k | 0 <= k < |all| - 1
      ensures PieceOk(all[1..][k], ps[1..][k])
    {
      assert PieceOk(all[k + 1], ps[k + 1]);
    }
  }

  lemma CutMore(item: Item, piece: string, items: seq<Item>, s: string, ps: seq<string>)
    requires Cut(items, s, ps) && PieceOk(item, piece)
    ensures Cut([item] + items, piece + s, [piece] + ps) && InLanguage([item] + items, piece + s)
  {
    var qs := [piece] + ps;
    assert qs[1..] == ps;
    forall k | 0 <= k < |items| + 1
      ensures PieceOk(([item] + items)[k], qs[k])
    {
      if k > 0 { assert PieceOk(items[k - 1], ps[k - 1]); }
    }
  }

  lemma OneLanguage(c: char, items: seq<Item>, s: string)
    ensures InLanguage([One(c)] + items, s) <==> s != "" && Fits(c, s[0]) && InLanguage(items, s[1..])
  {
    var all := [One(c)] + items;
    if InLanguage(all, s) {
      var ps :| Cut(all, s, ps);
      CutTail(all, s, ps);
      assert PieceOk(all[0], ps[0]);
      assert Cut(items, s[1..], ps[1..]);
    }
    if s != "" && Fits(c, s[0]) && InLanguage(items, s[1..]) {
      var ps :| Cut(items, s[1..], ps);
      CutMore(One(c), s[..1], items, s[1..], ps);
      assert s == s[..1] + s[1..];
    }
  }

  ghost predicate StarCut(c: char, items: seq<Item>, s: string, k: int) {
    0 <= k <= |s| && AllFit(c, s[..k]) && InLanguage(items, s[k..])
  }

  lemma StarLanguage(c: char, items: seq<Item>, s: string)
    ensures InLanguage([Star(c)] + items, s) <==> exists k :: StarCut(c, items, s, k)
  {
    var all := [Star(c)] + items;
    if InLanguage(all, s) {
      var ps :| Cut(all, s, ps);
      CutTail(all, s, ps);
      assert PieceOk(all[0], ps[0]);
      assert Cut(items, s[|ps[0]|..], ps[1..]);
      assert StarCut(c, items, s, |ps[0]|);
    }
    if k :| StarCut(c, items, s, k) {
      var ps :| Cut(items, s[k..], ps);
      CutMore(Star(c), s[..k], items, s[k..], ps);
      assert s == s[..k] + s[k..];
    }
  }

  // ----- what matchhere has to answer -----

  lemma HereEmpty(text: string, i: nat)
    requires i <= |text|
    ensures Here("", text, i)
  {
    EmptyLanguage(text[i..i]);
    assert FitsAt(Read(""), text, i, i);
  }

  lemma HereEnd(text: string, i: nat)
    requires i <= |text|
    ensures Here("$", text, i) <==> i == |text|
  {
    var p := Read("$");
    assert p == Pattern([], true);
    if j :| FitsAt(p, text, i, j) { EmptyLanguage(text[i..j]); }
    if i == |text| {
      EmptyLanguage(text[i..i]);
      assert FitsAt(p, text, i, i);
    }
  }

  lemma HereOne(re: string, text: string, i: nat)
    requires re != "" && !(|re| >= 2 && re[1] == '*') && re != "$" && i <= |text|
    ensures Here(re, text, i) <==> i < |text| && Fits(re[0], text[i]) && Here(re[1..], text, i + 1)
  {
    var p, q := Read(re), Read(re[1..]);
    assert p == Pattern([One(re[0])] + q.items, q.eol);
    if j :| FitsAt(p, text, i, j) {
      OneLanguage(re[0], q.items, text[i..j]);
      assert text[i..j][1..] == text[i + 1..j];
      assert FitsAt(q, text, i + 1, j);
    }
    if i < |text| && Fits(re[0], text[i]) && Here(re[1..], text, i + 1) {
      var j :| FitsAt(q, text, i + 1, j);
      OneLanguage(re[0], q.items, text[i..j]);
      assert text[i..j][1..] == text[i + 1..j];
      assert FitsAt(p, text, i, j);
    }
  }

  /** c may be repeated from i up to k, and the rest fits from there. */
  ghost predicate Repeats(c: char, re: string, text: string, i: int, k: int) {
    0 <= i <= k <= |text| && AllFit(c, text[i..k]) && Here(re, text, k)
  }

  lemma StarSplit(c: char, q: Pattern, text: string, i: nat, j: nat) returns (k: nat)
    requires FitsAt(Pattern([Star(c)] + q.items, q.eol), text, i, j)
    ensures i <= k <= |text| && AllFit(c, text[i..k]) && FitsAt(q, text, k, j)
  {
    hide InLanguage;
    var s := text[i..j];
    StarLanguage(c, q.items, s);
    var l :| StarCut(c, q.items, s, l);
    k := i + l;
    assert s[l..] == text[k..j] && s[..l] == text[i..k];
  }

  lemma StarJoin(c: char, q: Pattern, text: string, i: nat, k: nat, j: nat)
    requires i <= k <= |text| && AllFit(c, text[i..k]) && FitsAt(q, text, k, j)
    ensures FitsAt(Pattern([Star(c)] + q.items, q.eol), text, i, j)
  {
    hide InLanguage;
    var s := text[i..j];
    StarLanguage(c, q.items, s);
    assert s[k - i..] == text[k..j] && s[..k - i] == text[i..k];
    assert StarCut(c, q.items, s, k - i);
  }

  lemma HereStar(re: string, text: string, i: nat)
    requires |re| >= 2 && re[1] == '*' && i <= |text|
    ensures Here(re, text, i) <==> exists k :: Repeats(re[0], re[2..], text, i, k)
  {
    var c, p, q := re[0], Read(re), Read(re[2..]);
    assert p == Pattern([Star(c)] + q.items, q.eol);
    hide Read, InLanguage;
    if j :| FitsAt(p, text, i, j) {
      var k := StarSplit(c, q, text, i, j);
      assert Repeats(c, re[2..], text, i, k);
    }
    if k :| Repeats(c, re[2..], text, i, k) {
      var j :| FitsAt(q, text, k, j);
      StarJoin(c, q, text, i, k, j);
      assert FitsAt(p, text, i, j);
    }
  }

  // ----- the code -----

  /** A starred c and then the pattern, against the text from position i on. */
  method MatchStar(c: char, re: string, text: string, i: nat) returns (r: bool)
    requires i <= |text|
    ensures r <==> exists k :: Repeats(c, re, text, i, k)
    decreases |re|, 1
  {
    var t := i;
    while true  // the rest is tried after every number of repetitions, none first
      invariant i <= t <= |text| && AllFit(c, text[i..t])
      invariant forall k :: i <= k < t ==> !Here(re, text, k)
      decreases |text| - t
    {
      var here := MatchHere(re, text, t);
      if here {
        assert Repeats(c, re, text, i, t);
        return true;
      }
      if t == |text| { break; }
      t := t + 1;
      if !(text[t - 1] == c || c == '.') {
        forall k | t <= k <= |text|
          ensures !Repeats(c, re, text, i, k)
        {
          assert AllFit(c, text[i..k]) ==> Fits(c, text[i..k][t - 1 - i]);
        }
        return false;
      }
      assert text[i..t] == text[i..t - 1] + [text[t - 1]];
    }
    return false;
  }

  /** The pattern against the text from position i on. */
  method MatchHere(re: string, text: string, i: nat) returns (r: bool)
    requires i <= |text|
    ensures r <==> Here(re, text, i)
    decreases |re|, 0
  {
    if re == "" {
      HereEmpty(text, i);
      return true;
    }
    if |re| >= 2 && re[1] == '*' {
      HereStar(re, text, i);
      r := MatchStar(re[0], re[2..], text, i);
      return;
    }
    if re[0] == '$' && |re| == 1 {
      HereEnd(text, i);
      assert re == "$";
      return i == |text|;
    }
    HereOne(re, text, i);
    if i < |text| && (re[0] == '.' || re[0] == text[i]) {
      r := MatchHere(re[1..], text, i + 1);
      return;
    }
    return false;
  }

  /** The pattern against every suffix of the text, or only the whole text when it is anchored. */
  method Match(re: string, text: string) returns (r: bool)
    ensures r <==> Found(re, text)
  {
    if re != "" && re[0] == '^' {
      r := MatchHere(re[1..], text, 0);
      return;
    }
    var i := 0;
    while true  // the last turn is the one behind the text
      invariant 0 <= i <= |text|
      invariant forall k, j :: 0 <= k < i ==> !FitsAt(Read(re), text, k, j)
      decreases |text| - i
    {
      var here := MatchHere(re, text, i);
      if here { return true; }
      if i == |text| { break; }
      i := i + 1;
    }
    forall k, j
      ensures !FitsAt(Read(re), text, k, j)
    {
      if k == i { assert !Here(re, text, i); }
    }
    r := false;
  }

  // ----- what patterns mean -----

  /** Characters that mean themselves. */
  predicate Plain(w: string) {
    forall k :: 0 <= k < |w| ==> w[k] !in ".*$^"
  }

  function Ones(w: string): seq<Item> {
    seq(|w|, k requires 0 <= k < |w| => One(w[k]))
  }

  lemma {:induction false} ReadWord(w: string, rest: string)
    requires Plain(w) && (rest == "" || rest[0] != '*')
    ensures Read(w + rest) == Pattern(Ones(w) + Read(rest).items, Read(rest).eol)
  {
    var re := w + rest;
    if w == "" {
      assert re == rest && Ones(w) + Read(rest).items == Read(rest).items;
    } else {
      assert re[1..] == w[1..] + rest && re[0] == w[0];
      ReadWord(w[1..], rest);
      assert Ones(w) == [One(w[0])] + Ones(w[1..]);
      assert [One(w[0])] + (Ones(w[1..]) + Read(rest).items) == Ones(w) + Read(rest).items;
    }
  }

  lemma {:induction false} WordLanguage(w: string, items: seq<Item>, s: string)
    requires Plain(w)
    ensures InLanguage(Ones(w) + items, s) <==> w <= s && InLanguage(items, s[|w|..])
  {
    if w == "" {
      assert Ones(w) + items == items && s[0..] == s;
    } else {
      assert Ones(w) + items == [One(w[0])] + (Ones(w[1..]) + items);
      OneLanguage(w[0], Ones(w[1..]) + items, s);
      if s != "" {
        WordLanguage(w[1..], items, s[1..]);
        assert w <= s <==> w[0] == s[0] && w[1..] <= s[1..];
        if |w| <= |s| { assert s[1..][|w| - 1..] == s[|w|..]; }
      }
    }
  }

  /** The word stands at position i of the text. */
  predicate StandsAt(w: string, text: string, i: int) {
    0 <= i && i + |w| <= |text| && text[i..i + |w|] == w
  }

  lemma WordHere(w: string, text: string, i: int)
    requires Plain(w)
    ensures Here(w, text, i) <==> StandsAt(w, text, i)
  {
    ReadWord(w, "");
    assert w + "" == w && Ones(w) + [] == Ones(w);
    forall j
      ensures FitsAt(Read(w), text, i, j) <==> StandsAt(w, text, i) && j == i + |w|
    {
      if 0 <= i <= j <= |text| {
        var s := text[i..j];
        WordLanguage(w, [], s);
        if w <= s { EmptyLanguage(s[|w|..]); }
        if StandsAt(w, text, i) && j == i + |w| { assert s[|w|..] == ""; }
      }
    }
    if StandsAt(w, text, i) { assert FitsAt(Read(w), text, i, i + |w|); }
  }

  /** A plain word is found exactly where it stands; with '^' only at the beginning. */
  lemma WordFound(w: string, text: string)
    requires Plain(w)
    ensures Found(w, text) <==> exists i :: StandsAt(w, text, i)
    ensures Found("^" + w, text) <==> StandsAt(w, text, 0)
  {
    assert ("^" + w)[0] == '^' && ("^" + w)[1..] == w;
    WordHere(w, text, 0);
    if Found(w, text) {
      var i, j :| FitsAt(Read(w), text, i, j);
      WordHere(w, text, i);
    }
    if i :| StandsAt(w, text, i) {
      WordHere(w, text, i);
      var j :| FitsAt(Read(w), text, i, j);
    }
  }

  /** With a final '$' a word is found only at the end. */
  lemma WordAtEnd(w: string, text: string)
    requires Plain(w)
    ensures Found(w + "$", text) <==> StandsAt(w, text, |text| - |w|)
  {
    var re := w + "$";
    ReadWord(w, "$");
    assert re[0] != '^' by { assert re[0] == if w == "" then '$' else w[0]; }
    assert Read("$") == Pattern([], true) && Ones(w) + [] == Ones(w);
    forall i, j
      ensures FitsAt(Read(re), text, i, j) <==> StandsAt(w, text, i) && j == |text| == i + |w|
    {
      if 0 <= i <= j <= |text| {
        var s := text[i..j];
        WordLanguage(w, [], s);
        if w <= s { EmptyLanguage(s[|w|..]); }
        if StandsAt(w, text, i) && j == i + |w| { assert s[|w|..] == ""; }
      }
    }
    if StandsAt(w, text, |text| - |w|) { assert FitsAt(Read(re), text, |text| - |w|, |text|); }
  }

  /** '.' stands for any one character. */
  lemma DotFound(a: string, b: string, text: string)
    requires Plain(a) && Plain(b)
    ensures Found("^" + (a + ("." + b)), text) <==> StandsAt(a, text, 0) && StandsAt(b, text, |a| + 1)
  {
    var rest := "." + b;
    var re := a + rest;
    assert ("^" + re)[0] == '^' && ("^" + re)[1..] == re && rest[0] == '.' && rest[1..] == b;
    ReadWord(a, rest);
    ReadWord(b, "");
    assert b + "" == b && Ones(b) + [] == Ones(b) && (b != "" ==> rest[1] == b[0] != '*');
    assert Read(rest) == Pattern([One('.')] + Ones(b), false);
    forall j
      ensures FitsAt(Read(re), text, 0, j) <==>
              StandsAt(a, text, 0) && StandsAt(b, text, |a| + 1) && j == |a| + 1 + |b|
    {
      if 0 <= j <= |text| {
        var s := text[0..j];
        WordLanguage(a, [One('.')] + Ones(b), s);
        if a <= s {
          var u := s[|a|..];
          OneLanguage('.', Ones(b), u);
          if u != "" {
            WordLanguage(b, [], u[1..]);
            if b <= u[1..] { EmptyLanguage(u[1..][|b|..]); }
            assert u[1..] == text[|a| + 1..j];
          }
        }
        assert StandsAt(a, text, 0) && |a| <= j <==> a <= s;
      }
    }
    if StandsAt(a, text, 0) && StandsAt(b, text, |a| + 1) {
      assert FitsAt(Read(re), text, 0, |a| + 1 + |b|);
    }
  }

  lemma RepeatsWord(c: char, w: string, text: string, k: int)
    requires Plain(w)
    ensures Repeats(c, w, text, 0, k) <==>
            StandsAt(w, text, k) && forall t :: 0 <= t < k ==> c == '.' || text[t] == c
  {
    WordHere(w, text, k);
    hide Here;
    if 0 <= k <= |text| { assert forall t :: 0 <= t < k ==> text[0..k][t] == text[t]; }
  }

  /** 'c*' stands for any number of that character, '.*' for anything. */
  lemma StarFound(c: char, w: string, text: string)
    requires Plain(w)
    ensures Found("^" + ([c] + ("*" + w)), text) <==>
            exists k :: StandsAt(w, text, k) && forall t :: 0 <= t < k ==> c == '.' || text[t] == c
  {
    var re := [c] + ("*" + w);
    assert ("^" + re)[0] == '^' && ("^" + re)[1..] == re && re[0] == c && re[1] == '*' && re[2..] == w;
    assert Found("^" + re, text) <==> Here(re, text, 0);
    HereStar(re, text, 0);
    hide Here, Found, Repeats, StandsAt;
    forall k
      ensures Repeats(c, w, text, 0, k) <==>
              StandsAt(w, text, k) && forall t :: 0 <= t < k ==> c == '.' || text[t] == c
    {
      RepeatsWord(c, w, text, k);
    }
  }
}
