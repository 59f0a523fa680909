/** The command language of sh.c as a grammar: what text spells a token, which token sequences are lines and
    which tree a line stands for. The scanner and the parser of Shell accept exactly that. */
module Grammar {
  import opened Shell

  // ----- Tokens and blanks

  /** The characters of whitespace[]. */
  predicate IsBlank(c: char) { c in " \t\r\n\U{0b}" }

  predicate Blank(g: string) { forall i :: 0 <= i < |g| ==> IsBlank(g[i]) }

  /** Neither in whitespace[] nor in symbols[] nor the end of the string. */
  predicate Plainly(c: char) { !IsBlank(c) && c !in "<|>&;()" && c != '\0' }

  predicate Name(w: string) { w != "" && forall i :: 0 <= i < |w| ==> Plainly(w[i]) }

  predicate Lexeme(t: Token) {
    match t
    case Sym(c) => c in "<|>&;()"
    case Append => true
    case Word(w) => Name(w)
  }

  ghost predicate Lexemes(toks: seq<Token>) { forall i :: 0 <= i < |toks| ==> Lexeme(toks[i]) }

  function Spell(t: Token): string {
    match t
    case Sym(c) => [c]
    case Append => ">>"
    case Word(w) => w
  }

  /** Written without a blank between them the two would scan as something else. */
  predicate Clash(t: Token, u: Token) { (t.Word? && u.Word?) || (t == Sym('>') && (u == Sym('>') || u == Append)) }

  /** The tokens with gaps[0] before the first of them and a gap after each. */
  function Spread(toks: seq<Token>, gaps: seq<string>): string
    requires |gaps| == |toks| + 1
  {
    if toks == [] then gaps[0] else gaps[0] + (Spell(toks[0]) + Spread(toks[1..], gaps[1..]))
  }

  /** Each gap is blank, and there is one wherever two tokens would clash. */
  ghost predicate Spaced(toks: seq<Token>, gaps: seq<string>) {
    && |gaps| == |toks| + 1 && Blank(gaps[0])
    && (toks != [] ==>
          Lexeme(toks[0]) && (|toks| > 1 && Clash(toks[0], toks[1]) ==> gaps[1] != "") && Spaced(toks[1..], gaps[1..]))
  }

  lemma Classes(c: char)
    ensures IsSpace(c) <==> IsBlank(c)
    ensures IsSymbol(c) <==> c in "<|>&;()"
    ensures IsWordChar(c) <==> Plainly(c)
  {}

  lemma {:induction false} TrimBlank(g: string, s: string)
    requires Blank(g)
    ensures Trim(g + s) == Trim(s)
  {
    if g == "" {
      assert g + s == s;
    } else {
      Classes(g[0]);
      assert (g + s)[1..] == g[1..] + s;
      TrimBlank(g[1..], s);
    }
  }

  lemma BlankLex(g: string, s: string)
    requires Blank(g) && CString(s)
    ensures CString(g + s) && Lex(g + s) == Lex(s)
  {
    hide Lex, Trim, Blank;
    TrimBlank(g, s);
    BlankText(g);
    assert '\0' !in g + s;
    SameTrim(g + s, s);
  }

  lemma BlankText(g: string)
    requires Blank(g)
    ensures CString(g)
  {
    hide IsBlank;
    if '\0' in g {
      Classes('\0');
      assert false;
    }
  }

  lemma SameTrim(s: string, t: string)
    requires CString(s) && CString(t) && Trim(s) == Trim(t)
    ensures Lex(s) == Lex(t)
  {
    hide Trim, WordLen, CString;
  }

  /** A word ends before s. */
  predicate Ends(s: string) { s == "" || !Plainly(s[0]) }

  lemma {:induction false} NameLen(w: string, s: string)
    requires (forall i :: 0 <= i < |w| ==> Plainly(w[i])) && Ends(s)
    ensures WordLen(w + s) == |w|
  {
    if w == "" {
      assert w + s == s;
      if s != "" { Classes(s[0]); }
    } else {
      Classes(w[0]);
      assert (w + s)[1..] == w[1..] + s;
      NameLen(w[1..], s);
    }
  }

  lemma NameLex(w: string, s: string)
    requires Name(w) && Ends(s) && CString(s)
    ensures CString(w + s) && Lex(w + s) == [Word(w)] + Lex(s)
  {
    hide Lex, WordLen, Trim;
    Classes(w[0]);
    NameLen(w, s);
    LexStartsWord(w + s);
    assert (w + s)[..|w|] == w && (w + s)[|w|..] == s;
  }

  lemma SymLex(c: char, s: string)
    requires c in "<|>&;()" && CString(s) && !(c == '>' && s != "" && s[0] == '>')
    ensures CString([c] + s) && Lex([c] + s) == [Sym(c)] + Lex(s)
  {
    hide Lex;
    Classes(c);
    LexStartsSym([c] + s);
    assert ([c] + s)[1..] == s;
  }

  lemma AppendLex(s: string)
    requires CString(s)
    ensures CString(">>" + s) && Lex(">>" + s) == [Append] + Lex(s)
  {
    hide Lex;
    LexStartsAppend(">>" + s);
    assert (">>" + s)[2..] == s;
  }

  /** What follows a token does not change how it scans. */
  lemma FirstApart(t: Token, toks: seq<Token>, gaps: seq<string>)
    requires Spaced(toks, gaps) && Lexeme(t) && (toks != [] && Clash(t, toks[0]) ==> gaps[0] != "")
    ensures var s := Spread(toks, gaps);
      (t.Word? ==> Ends(s)) && (t == Sym('>') && s != "" ==> s[0] != '>')
  {
    var s := Spread(toks, gaps);
    if gaps[0] != "" {
      assert s[0] == gaps[0][0];
    } else if toks != [] {
      assert s[0] == Spell(toks[0])[0];
    }
  }

  /** However the tokens of a line are spaced, they scan back. */
  lemma {:induction false} SpreadLex(toks: seq<Token>, gaps: seq<string>)
    requires Spaced(toks, gaps)
    ensures CString(Spread(toks, gaps)) && Lex(Spread(toks, gaps)) == toks
    decreases |toks|
  {
    hide Lex, Lexeme;
    if toks == [] {
      BlankLex(gaps[0], "");
      assert gaps[0] + "" == gaps[0];
      assert Lex("") == [] by { assert ""[0..] == ""; AtEnd("", 0); }
    } else {
      var s := Spread(toks[1..], gaps[1..]);
      SpreadLex(toks[1..], gaps[1..]);
      FirstApart(toks[0], toks[1..], gaps[1..]);
      TokenLex(toks[0], s);
      BlankLex(gaps[0], Spell(toks[0]) + s);
      assert [toks[0]] + toks[1..] == toks;
    }
  }

  lemma TokenLex(t: Token, s: string)
    requires Lexeme(t) && CString(s) && (t.Word? ==> Ends(s)) && (t == Sym('>') && s != "" ==> s[0] != '>')
    ensures CString(Spell(t) + s) && Lex(Spell(t) + s) == [t] + Lex(s)
  {
    hide Lex, Ends;
    match t
    case Sym(c) => SymLex(c, s);
    case Append => AppendLex(s);
    case Word(w) => NameLex(w, s);
  }

  /** The leading blanks of a string. */
  lemma TrimSplit(s: string) returns (g: string)
    ensures Blank(g) && s == g + Trim(s)
  {
    hide IsBlank;
    g := s[..|s| - |Trim(s)|];
    forall i | 0 <= i < |g| ensures IsBlank(g[i]) { TrimmedBlank(s, i); }
  }

  lemma {:induction false} TrimmedBlank(s: string, i: nat)
    requires i < |s| - |Trim(s)|
    ensures IsBlank(s[i])
  {
    Classes(s[0]);
    hide IsBlank;
    if i > 0 { TrimmedBlank(s[1..], i - 1); }
  }

  lemma Joined<T>(a: seq<T>, b: seq<T>, c: seq<T>)
    ensures a + b + c == a + (b + c)
  {}

  /** The first token of a string that starts with one. */
  lemma TokenSplit(t: string) returns (tok: Token, rest: string)
    requires CString(t) && t != "" && !IsSpace(t[0])
    ensures Lexeme(tok) && t == Spell(tok) + rest && |rest| < |t| && CString(rest) && Lex(t) == [tok] + Lex(rest)
    ensures (tok.Word? ==> Ends(rest)) && (tok == Sym('>') ==> rest == "" || rest[0] != '>')
  {
    hide Lex;
    Classes(t[0]);
    if IsSymbol(t[0]) {
      if t[0] == '>' && |t| > 1 && t[1] == '>' {
        LexStartsAppend(t);
        tok, rest := Append, t[2..];
        assert t == ">>" + t[2..];
      } else {
        LexStartsSym(t);
        tok, rest := Sym(t[0]), t[1..];
      }
    } else {
      var n := WordLen(t);
      LexStartsWord(t);
      tok, rest := Word(t[..n]), t[n..];
      forall i | 0 <= i < n ensures Plainly(t[i]) { Classes(t[i]); }
      if n < |t| { Classes(t[n]); }
    }
  }

  /** Every string is its own tokens, spaced. */
  lemma {:induction false} LexSpread(s: string) returns (gaps: seq<string>)
    requires CString(s)
    ensures Spaced(Lex(s), gaps) && s == Spread(Lex(s), gaps)
    decreases |s|
  {
    hide Lex, Lexeme, Ends, Clash;
    var g := TrimSplit(s);
    var t := Trim(s);
    BlankLex(g, t);
    if t == "" {
      gaps := [g];
      assert Lex(t) == [] by { assert t[0..] == t; AtEnd(t, 0); }
    } else {
      var tok, rest := TokenSplit(t);
      var more := LexSpread(rest);
      gaps := [g] + more;
      var toks := Lex(s);
      assert toks[0] == tok && toks[1..] == Lex(rest) && gaps[1..] == more;
      if toks[1..] != [] && Clash(tok, toks[1]) && more[0] == "" {
        ClashApart(tok, toks[1..], more);
        assert false;
      }
    }
  }

  lemma ClashApart(t: Token, toks: seq<Token>, gaps: seq<string>)
    requires Spaced(toks, gaps) && toks != [] && gaps[0] == "" && Clash(t, toks[0])
    ensures t.Word? || t == Sym('>')
    ensures var s := Spread(toks, gaps); s != "" && (t.Word? ==> !Ends(s)) && (t == Sym('>') ==> s[0] == '>')
  {
    assert Spread(toks, gaps)[0] == Spell(toks[0])[0];
  }

  // ----- Lines

  /** op is <, > or >>. */
  datatype Redir = Redir(op: Token, file: string)

  datatype Arg = Arg(word: string, after: seq<Redir>)

  /** A simple command, with redirections before and between its words, or a line in parentheses. */
  datatype Unit = Simple(before: seq<Redir>, args: seq<Arg>) | Group(line: Line, after: seq<Redir>)

  datatype Pipeline = Last(unit: Unit) | Bar(unit: Unit, more: Pipeline)

  /** Pipelines with semicolons between them, each with some number of ampersands after it. */
  datatype Line = End(pipe: Pipeline, amps: nat) | Semi(pipe: Pipeline, amps: nat, more: Line)

  predicate RedirOk(r: Redir) { (r.op == Sym('<') || r.op == Sym('>') || r.op == Append) && Name(r.file) }

  predicate RedirsOk(rs: seq<Redir>) { forall i :: 0 <= i < |rs| ==> RedirOk(rs[i]) }

  predicate ArgOk(a: Arg) { Name(a.word) && RedirsOk(a.after) }

  predicate ArgsOk(args: seq<Arg>) { forall i :: 0 <= i < |args| ==> ArgOk(args[i]) }

  /** At most nine words in a simple command; none is allowed. */
  predicate UnitOk(u: Unit) {
    match u
    case Simple(before, args) => RedirsOk(before) && |args| <= 9 && ArgsOk(args)
    case Group(line, after) => LineOk(line) && RedirsOk(after)
  }

  predicate PipeOk(p: Pipeline) { UnitOk(p.unit) && (p.Bar? ==> PipeOk(p.more)) }

  predicate LineOk(l: Line) { PipeOk(l.pipe) && (l.Semi? ==> LineOk(l.more)) }

  // How a line is written.

  function RedirToks(rs: seq<Redir>): seq<Token> {
    if rs == [] then [] else [rs[0].op, Word(rs[0].file)] + RedirToks(rs[1..])
  }

  function ArgToks(args: seq<Arg>): seq<Token> {
    if args == [] then [] else [Word(args[0].word)] + (RedirToks(args[0].after) + ArgToks(args[1..]))
  }

  function Amps(n: nat): seq<Token> { seq(n, _ => Sym('&')) }

  function UnitToks(u: Unit): seq<Token> {
    match u
    case Simple(before, args) => RedirToks(before) + ArgToks(args)
    case Group(line, after) => [Sym('(')] + (LineToks(line) + ([Sym(')')] + RedirToks(after)))
  }

  function PipeToks(p: Pipeline): seq<Token> {
    match p
    case Last(u) => UnitToks(u)
    case Bar(u, more) => UnitToks(u) + ([Sym('|')] + PipeToks(more))
  }

  function LineToks(l: Line): seq<Token> {
    match l
    case End(p, n) => PipeToks(p) + Amps(n)
    case Semi(p, n, more) => PipeToks(p) + (Amps(n) + ([Sym(';')] + LineToks(more)))
  }

  // What it means.

  /** The redirections around a command, the first of them innermost. */
  function Nest(c: Cmd<string>, rs: seq<Redir>): Cmd<string>
    decreases |rs|
  {
    if rs == [] then c else Nest(RedirCmd(c, rs[0].file, rs[0].op != Sym('<')), rs[1..])
  }

  function ArgWords(args: seq<Arg>): seq<string> {
    if args == [] then [] else [args[0].word] + ArgWords(args[1..])
  }

  function ArgRedirs(args: seq<Arg>): seq<Redir> {
    if args == [] then [] else args[0].after + ArgRedirs(args[1..])
  }

  function Backed(c: Cmd<string>, n: nat): Cmd<string> { if n == 0 then c else BackCmd(Backed(c, n - 1)) }

  function UnitTree(u: Unit): Cmd<string> {
    match u
    case Simple(before, args) => Nest(ExecCmd(ArgWords(args)), before + ArgRedirs(args))
    case Group(line, after) => Nest(LineTree(line), after)
  }

  function PipeTree(p: Pipeline): Cmd<string> {
    match p
    case Last(u) => UnitTree(u)
    case Bar(u, more) => PipeCmd(UnitTree(u), PipeTree(more))
  }

  function LineTree(l: Line): Cmd<string> {
    match l
    case End(p, n) => Backed(PipeTree(p), n)
    case Semi(p, n, more) => ListCmd(Backed(PipeTree(p), n), LineTree(more))
  }

  // ----- Redirections

  /** The redirections as Redirs returns them. */
  function Pairs(rs: seq<Redir>): seq<(string, bool)> {
    seq(|rs|, i requires 0 <= i < |rs| => (rs[i].file, rs[i].op != Sym('<')))
  }

  lemma PairsMore(a: seq<Redir>, b: seq<Redir>)
    ensures Pairs(a + b) == Pairs(a) + Pairs(b)
  {}

  lemma {:induction false} NestIsWrap(c: Cmd<string>, rs: seq<Redir>)
    ensures Nest(c, rs) == Wrap(c, Pairs(rs))
    decreases |rs|
  {
    hide Wrap;
    if rs == [] {
      WrapNone(c);
    } else {
      var x := (rs[0].file, rs[0].op != Sym('<'));
      var d := RedirCmd(c, x.0, x.1);
      NestIsWrap(d, rs[1..]);
      WrapNone(c);
      WrapOne(c, [], x.0, x.1);
      assert [] + [x] == [x];
      WrapMore(c, [x], Pairs(rs[1..]));
      assert Pairs(rs) == [x] + Pairs(rs[1..]);
    }
  }

  lemma {:induction false} RedirsParse(rs: seq<Redir>, rest: seq<Token>)
    requires RedirsOk(rs) && !Ahead(rest, "<>")
    ensures Redirs(RedirToks(rs) + rest) == Ok(Pairs(rs), rest)
    ensures !Ahead(rest, "(") ==> !Ahead(RedirToks(rs) + rest, "(")
    decreases |rs|
  {
    var toks := RedirToks(rs) + rest;
    if rs == [] {
      assert toks == rest;
    } else {
      RedirsParse(rs[1..], rest);
      assert RedirOk(rs[0]);
      assert toks[0] == rs[0].op && toks[1] == Word(rs[0].file) && toks[2..] == RedirToks(rs[1..]) + rest;
      assert Ahead(toks, "<>") && !Ahead(toks, "(");
      assert Pairs(rs) == [(rs[0].file, rs[0].op != Sym('<'))] + Pairs(rs[1..]);
    }
  }

  lemma {:induction false} RedirsDerive(toks: seq<Token>) returns (rs: seq<Redir>)
    requires Lexemes(toks) && Redirs(toks).Ok?
    ensures RedirsOk(rs) && toks == RedirToks(rs) + Redirs(toks).rest && Pairs(rs) == Redirs(toks).value
    decreases |toks|
  {
    hide Redirs, Name;
    if !Ahead(toks, "<>") {
      rs := [];
      RedirsEnd(toks);
    } else {
      FirstRedir(toks);
      hide Lexemes, Ahead;
      var r, tail := Redir(toks[0], toks[1].w), toks[2..];
      var more := RedirsDerive(tail);
      rs := [r] + more;
      RedirsMore(r, more);
      Joined([r.op, Word(r.file)], RedirToks(more), Redirs(tail).rest);
      assert toks == [r.op, Word(r.file)] + tail;
    }
  }

  lemma FirstRedir(toks: seq<Token>)
    requires Lexemes(toks) && Redirs(toks).Ok? && Ahead(toks, "<>")
    ensures |toks| >= 2 && toks[1].Word? && Lexemes(toks[2..]) && RedirOk(Redir(toks[0], toks[1].w))
    ensures Redirs(toks[2..]).Ok? && Redirs(toks).rest == Redirs(toks[2..]).rest
    ensures Redirs(toks).value == [(toks[1].w, toks[0] != Sym('<'))] + Redirs(toks[2..]).value
  {
    hide Redirs, Lexeme, Name;
    RedirsStep(toks);
    assert Lexeme(toks[0]) && Lexeme(toks[1]);
    IsOp(toks[0]);
    assert Name(toks[1].w) by { WordIs(toks[1]); }
  }

  lemma IsOp(t: Token)
    requires Lexeme(t) && Lead(t) in "<>"
    ensures t == Sym('<') || t == Sym('>') || t == Append
  {
    LeadOf(t);
  }

  lemma LeadOf(t: Token)
    requires Lexeme(t)
    ensures t.Word? ==> Plainly(Lead(t))
  {}

  lemma WordIs(t: Token)
    requires Lexeme(t) && t.Word?
    ensures Name(t.w)
  {}

  lemma RedirsMore(r: Redir, more: seq<Redir>)
    requires RedirOk(r) && RedirsOk(more)
    ensures RedirsOk([r] + more) && Pairs([r] + more) == [(r.file, r.op != Sym('<'))] + Pairs(more)
    ensures RedirToks([r] + more) == [r.op, Word(r.file)] + RedirToks(more)
  {
    assert ([r] + more)[1..] == more;
  }

  // ----- Simple commands

  /** What a simple command, and any unit, stops at. */
  predicate Stops(rest: seq<Token>) { rest == [] || Ahead(rest, "|)&;") }

  lemma StopsAhead(n: nat, rest: seq<Token>)
    requires Stops(rest)
    ensures !Ahead(rest, "<>") && !Ahead(rest, "(") && Args(n, rest) == Ok(([], []), rest)
  {}

  lemma NameAhead(w: string, more: seq<Token>)
    requires Name(w)
    ensures !Ahead([Word(w)] + more, "|)&;") && !Ahead([Word(w)] + more, "<>") && !Ahead([Word(w)] + more, "(")
  {
    assert Plainly(w[0]);
  }

  lemma {:induction false} ArgsParse(n: nat, args: seq<Arg>, rest: seq<Token>)
    requires n + |args| <= 9 && ArgsOk(args) && Stops(rest)
    ensures var toks := ArgToks(args) + rest;
      && Args(n, toks) == Ok((ArgWords(args), Pairs(ArgRedirs(args))), rest)
      && !Ahead(toks, "<>") && !Ahead(toks, "(")
    decreases |args|
  {
    var toks := ArgToks(args) + rest;
    if args == [] {
      assert toks == rest && Pairs([]) == [];
      StopsAhead(n, rest);
    } else {
      var a, more := args[0], args[1..];
      assert ArgOk(a) && ArgsOk(more);
      hide Ahead, Redirs, RedirsOk, Name, Args;
      ArgsParse(n + 1, more, rest);
      var tail := ArgToks(more) + rest;
      ArgSplit(args, rest);
      NameAhead(a.word, RedirToks(a.after) + tail);
      RedirsParse(a.after, tail);
      OneArg(n, a.word, RedirToks(a.after) + tail);
      PairsMore(a.after, ArgRedirs(more));
    }
  }

  lemma ArgSplit(args: seq<Arg>, rest: seq<Token>)
    requires args != []
    ensures ArgToks(args) + rest == [Word(args[0].word)] + (RedirToks(args[0].after) + (ArgToks(args[1..]) + rest))
  {
    hide ArgToks;
    var w, r, t := [Word(args[0].word)], RedirToks(args[0].after), ArgToks(args[1..]);
    assert ArgToks(args) == w + (r + t) by { FirstArg(args); }
    Joined(w, r + t, rest);
    Joined(r, t, rest);
  }

  lemma FirstArg(args: seq<Arg>)
    requires args != []
    ensures ArgToks(args) == [Word(args[0].word)] + (RedirToks(args[0].after) + ArgToks(args[1..]))
  {}

  /** One word, the redirections after it and the words after those. */
  lemma OneArg(n: nat, w: string, tail: seq<Token>)
    requires Name(w) && n < 9
    ensures Args(n, [Word(w)] + tail) ==
      match Redirs(tail)
      case Ok(rs, rest) =>
        (match Args(n + 1, rest)
         case Ok(more, rest') => Ok(([w] + more.0, rs + more.1), rest')
         case Panic => Panic)
      case Panic => Panic
  {
    NameAhead(w, tail);
    hide Ahead, Redirs;
    assert ([Word(w)] + tail)[1..] == tail;
  }

  lemma {:induction false} ArgsDerive(n: nat, toks: seq<Token>) returns (args: seq<Arg>)
    requires n <= 9 && Lexemes(toks) && Args(n, toks).Ok?
    ensures n + |args| <= 9 && ArgsOk(args) && toks == ArgToks(args) + Args(n, toks).rest
    ensures Args(n, toks).value == (ArgWords(args), Pairs(ArgRedirs(args)))
    decreases |toks|
  {
    hide Args, Redirs, Ahead, Lexeme, Name, RedirsOk;
    if toks == [] || Ahead(toks, "|)&;") {
      args := [];
      StopsAhead(n, toks);
      assert Pairs([]) == [];
    } else {
      FirstWord(n, toks);
      var w, tail := toks[0].w, toks[1..];
      hide ArgsOk, RedirToks, ArgToks, Pairs, ArgWords, ArgRedirs, Lexemes;
      OneArg(n, w, tail);
      var after := RedirsDerive(tail);
      var rest := Redirs(tail).rest;
      RestLexemes(RedirToks(after), rest);
      var more := ArgsDerive(n + 1, rest);
      args := [Arg(w, after)] + more;
      MoreArgs(w, after, more);
      ArgSplit(args, Args(n, toks).rest);
    }
  }

  lemma FirstWord(n: nat, toks: seq<Token>)
    requires Lexemes(toks) && Args(n, toks).Ok? && toks != [] && !Ahead(toks, "|)&;")
    ensures toks[0].Word? && n < 9 && Name(toks[0].w)
    ensures Lexemes(toks[1..]) && toks == [Word(toks[0].w)] + toks[1..]
  {
    hide Ahead, Redirs;
    assert Lexeme(toks[0]);
  }

  lemma MoreArgs(w: string, after: seq<Redir>, more: seq<Arg>)
    requires Name(w) && RedirsOk(after) && ArgsOk(more)
    ensures var args := [Arg(w, after)] + more;
      && args[1..] == more && ArgsOk(args) && ArgWords(args) == [w] + ArgWords(more)
      && Pairs(ArgRedirs(args)) == Pairs(after) + Pairs(ArgRedirs(more))
  {
    hide Name, RedirsOk;
    var args := [Arg(w, after)] + more;
    assert args[1..] == more;
    PairsMore(after, ArgRedirs(more));
  }

  lemma RestLexemes(a: seq<Token>, b: seq<Token>)
    requires Lexemes(a + b)
    ensures Lexemes(b)
  {
    forall i | 0 <= i < |b| ensures Lexeme(b[i]) { assert (a + b)[|a| + i] == b[i]; }
  }

  // ----- Writing a line and parsing it

  lemma SimpleParses(before: seq<Redir>, args: seq<Arg>, rest: seq<Token>)
    requires UnitOk(Simple(before, args)) && Stops(rest)
    ensures ParseExec(UnitToks(Simple(before, args)) + rest) == Ok(UnitTree(Simple(before, args)), rest)
  {
    hide Args, Redirs, Ahead, Wrap, Nest;
    var tail := ArgToks(args) + rest;
    ArgsParse(0, args, rest);
    RedirsParse(before, tail);
    Joined(RedirToks(before), ArgToks(args), rest);
    PairsMore(before, ArgRedirs(args));
    NestIsWrap(ExecCmd(ArgWords(args)), before + ArgRedirs(args));
  }

  lemma GroupParses(line: Line, after: seq<Redir>, rest: seq<Token>)
    requires RedirsOk(after) && Stops(rest)
    requires var close := [Sym(')')] + (RedirToks(after) + rest);
      ParseLine(LineToks(line) + close) == Ok(LineTree(line), close)
    ensures ParseExec(UnitToks(Group(line, after)) + rest) == Ok(UnitTree(Group(line, after)), rest)
  {
    hide Redirs, Wrap, Nest, ParseLine, LineToks, LineTree, RedirToks;
    var close := [Sym(')')] + (RedirToks(after) + rest);
    var toks := UnitToks(Group(line, after)) + rest;
    StopsAhead(0, rest);
    RedirsParse(after, rest);
    NestIsWrap(LineTree(line), after);
    GroupSplit(line, after, rest);
    assert toks[0] == Sym('(') && toks[1..] == LineToks(line) + close && close[1..] == RedirToks(after) + rest;
    assert Ahead(toks, "(") && Ahead(close, ")");
    assert ParseBlock(toks) == Ok(Nest(LineTree(line), after), rest);
  }

  lemma GroupSplit(line: Line, after: seq<Redir>, rest: seq<Token>)
    ensures UnitToks(Group(line, after)) + rest
         == [Sym('(')] + (LineToks(line) + ([Sym(')')] + (RedirToks(after) + rest)))
  {
    hide LineToks, RedirToks;
    var l, r := LineToks(line), RedirToks(after);
    Joined([Sym('(')], l + ([Sym(')')] + r), rest);
    Joined(l, [Sym(')')] + r, rest);
    Joined([Sym(')')], r, rest);
  }

  lemma BarParses(toks: seq<Token>, c: Cmd<string>, more: seq<Token>, d: Cmd<string>, rest: seq<Token>)
    requires ParseExec(toks) == Ok(c, [Sym('|')] + more) && ParsePipe(more) == Ok(d, rest)
    ensures ParsePipe(toks) == Ok(PipeCmd(c, d), rest)
  {
    hide ParseExec;
    assert ([Sym('|')] + more)[1..] == more && Ahead([Sym('|')] + more, "|");
  }

  lemma LastParses(toks: seq<Token>, c: Cmd<string>, rest: seq<Token>)
    requires ParseExec(toks) == Ok(c, rest) && !Ahead(rest, "|")
    ensures ParsePipe(toks) == Ok(c, rest)
  {
    hide ParseExec;
  }

  lemma {:induction false} AmpsBack(c: Cmd<string>, n: nat, rest: seq<Token>)
    requires !Ahead(rest, "&")
    ensures Backs(c, Amps(n) + rest) == (Backed(c, n), rest)
    decreases n
  {
    var toks := Amps(n) + rest;
    if n == 0 {
      assert toks == rest;
    } else {
      assert toks[0] == Sym('&') && toks[1..] == Amps(n - 1) + rest;
      AmpsBack(BackCmd(c), n - 1, rest);
      BackedIn(c, n - 1);
    }
  }

  lemma {:induction false} BackedIn(c: Cmd<string>, n: nat)
    ensures Backed(BackCmd(c), n) == BackCmd(Backed(c, n))
  {
    if n > 0 { BackedIn(c, n - 1); }
  }

  /** What can follow a whole line: the end, or the parenthesis that closes it. */
  predicate Closed(rest: seq<Token>) { rest == [] || rest[0] == Sym(')') }

  /** After a pipeline: any ampersands, then nothing more of this line or a semicolon. */
  lemma AmpsAhead(n: nat, rest: seq<Token>)
    requires Closed(rest) || Ahead(rest, ";")
    ensures Stops(Amps(n) + rest) && !Ahead(Amps(n) + rest, "|") && !Ahead(rest, "&")
  {
    if n == 0 { assert Amps(n) + rest == rest; }
  }

  lemma EndParses(toks: seq<Token>, c: Cmd<string>, n: nat, rest: seq<Token>)
    requires ParsePipe(toks) == Ok(c, Amps(n) + rest) && Closed(rest)
    ensures ParseLine(toks) == Ok(Backed(c, n), rest)
  {
    hide ParsePipe, Backs, Amps;
    assert !Ahead(rest, ";") && !Ahead(rest, "&");
    AmpsBack(c, n, rest);
  }

  lemma SemiParses(toks: seq<Token>, c: Cmd<string>, n: nat, more: seq<Token>, d: Cmd<string>, rest: seq<Token>)
    requires ParsePipe(toks) == Ok(c, Amps(n) + ([Sym(';')] + more)) && ParseLine(more) == Ok(d, rest)
    ensures ParseLine(toks) == Ok(ListCmd(Backed(c, n), d), rest)
  {
    hide ParsePipe, Backs, Amps;
    var semi := [Sym(';')] + more;
    assert Ahead(semi, ";") && !Ahead(semi, "&") && semi[1..] == more;
    AmpsBack(c, n, semi);
  }

  lemma {:induction false} UnitParses(u: Unit, rest: seq<Token>)
    requires UnitOk(u) && Stops(rest)
    ensures ParseExec(UnitToks(u) + rest) == Ok(UnitTree(u), rest)
    decreases u
  {
    hide ParseExec, UnitToks, UnitTree;
    match u
    case Simple(before, args) => SimpleParses(before, args, rest);
    case Group(line, after) =>
      LineParses(line, [Sym(')')] + (RedirToks(after) + rest));
      GroupParses(line, after, rest);
  }

  lemma {:induction false} PipeParses(p: Pipeline, rest: seq<Token>)
    requires PipeOk(p) && Stops(rest) && !Ahead(rest, "|")
    ensures ParsePipe(PipeToks(p) + rest) == Ok(PipeTree(p), rest)
    decreases p
  {
    hide ParsePipe, ParseExec, UnitToks, UnitTree, UnitOk;
    match p
    case Last(u) =>
      UnitParses(u, rest);
      LastParses(PipeToks(p) + rest, UnitTree(u), rest);
    case Bar(u, more) =>
      var tail := PipeToks(more) + rest;
      UnitParses(u, [Sym('|')] + tail);
      PipeParses(more, rest);
      Joined(UnitToks(u), [Sym('|')] + PipeToks(more), rest);
      Joined([Sym('|')], PipeToks(more), rest);
      BarParses(PipeToks(p) + rest, UnitTree(u), tail, PipeTree(more), rest);
  }

  /** A line written without any parentheses of its own parses to its tree: | binds tighter than &, and & tighter
      than ;, pipes and lists nest to the right, and the first redirection is innermost. */
  lemma {:induction false} LineParses(l: Line, rest: seq<Token>)
    requires LineOk(l) && Closed(rest)
    ensures ParseLine(LineToks(l) + rest) == Ok(LineTree(l), rest)
    decreases l
  {
    hide ParseLine, ParsePipe, PipeToks, PipeTree, PipeOk, Amps;
    match l
    case End(p, n) =>
      AmpsAhead(n, rest);
      PipeParses(p, Amps(n) + rest);
      Joined(PipeToks(p), Amps(n), rest);
      EndParses(LineToks(l) + rest, PipeTree(p), n, rest);
    case Semi(p, n, more) =>
      var tail := LineToks(more) + rest;
      var semi := [Sym(';')] + tail;
      AmpsAhead(n, semi);
      PipeParses(p, Amps(n) + semi);
      LineParses(more, rest);
      SemiSplit(p, n, more, rest);
      SemiParses(LineToks(l) + rest, PipeTree(p), n, tail, LineTree(more), rest);
  }

  lemma SemiSplit(p: Pipeline, n: nat, more: Line, rest: seq<Token>)
    ensures LineToks(Semi(p, n, more)) + rest
         == PipeToks(p) + (Amps(n) + ([Sym(';')] + (LineToks(more) + rest)))
  {
    var a, b, c := PipeToks(p), Amps(n), LineToks(more);
    assert LineToks(Semi(p, n, more)) == a + (b + ([Sym(';')] + c));
    hide PipeToks, Amps, LineToks;
    Joined(a, b + ([Sym(';')] + c), rest);
    Joined(b, [Sym(';')] + c, rest);
    Joined([Sym(';')], c, rest);
  }

  // ----- Parsing tokens and finding the line

  lemma SimpleDerive(toks: seq<Token>) returns (u: Unit)
    requires Lexemes(toks) && ParseExec(toks).Ok? && !Ahead(toks, "(")
    ensures UnitOk(u) && toks == UnitToks(u) + ParseExec(toks).rest && UnitTree(u) == ParseExec(toks).value
  {
    hide Redirs, Args, Ahead, Wrap, Nest, Lexeme, RedirsOk, ArgsOk;
    var before := RedirsDerive(toks);
    var tail := Redirs(toks).rest;
    RestLexemes(RedirToks(before), tail);
    var args := ArgsDerive(0, tail);
    u := Simple(before, args);
    var rest := Args(0, tail).rest;
    Joined(RedirToks(before), ArgToks(args), rest);
    PairsMore(before, ArgRedirs(args));
    NestIsWrap(ExecCmd(ArgWords(args)), before + ArgRedirs(args));
  }

  lemma BlockSteps(toks: seq<Token>)
    requires Lexemes(toks) && Ahead(toks, "(") && ParseExec(toks).Ok?
    ensures toks[0] == Sym('(') && ParseLine(toks[1..]).Ok?
    ensures var inner := ParseLine(toks[1..]);
      && Ahead(inner.rest, ")") && Redirs(inner.rest[1..]).Ok?
      && ParseExec(toks) == Ok(Wrap(inner.value, Redirs(inner.rest[1..]).value), Redirs(inner.rest[1..]).rest)
  {
    hide Redirs, ParseLine, Wrap;
    assert Lexeme(toks[0]);
    IsSym(toks[0], '(');
  }

  lemma IsSym(t: Token, c: char)
    requires Lexeme(t) && Lead(t) == c && c in "|&;()"
    ensures t == Sym(c)
  {
    LeadOf(t);
  }

  lemma GroupDerive(toks: seq<Token>, line: Line) returns (u: Unit)
    requires Lexemes(toks) && Ahead(toks, "(") && ParseExec(toks).Ok? && ParseLine(toks[1..]).Ok? && LineOk(line)
    requires toks[1..] == LineToks(line) + ParseLine(toks[1..]).rest && LineTree(line) == ParseLine(toks[1..]).value
    ensures UnitOk(u) && toks == UnitToks(u) + ParseExec(toks).rest && UnitTree(u) == ParseExec(toks).value
  {
    hide Redirs, ParseLine, ParseExec, Wrap, Nest, Lexeme, RedirsOk, LineToks, LineTree, RedirToks, LineOk;
    BlockSteps(toks);
    var close := ParseLine(toks[1..]).rest;
    assert toks == [Sym('(')] + toks[1..];
    RestLexemes([Sym('(')], toks[1..]);
    RestLexemes(LineToks(line), close);
    IsSym(close[0], ')');
    assert close == [Sym(')')] + close[1..];
    RestLexemes([Sym(')')], close[1..]);
    var after := RedirsDerive(close[1..]);
    u := Group(line, after);
    GroupSplit(line, after, Redirs(close[1..]).rest);
    NestIsWrap(LineTree(line), after);
  }

  lemma {:induction false} UnitDerive(toks: seq<Token>) returns (u: Unit)
    requires Lexemes(toks) && ParseExec(toks).Ok?
    ensures UnitOk(u) && toks == UnitToks(u) + ParseExec(toks).rest && UnitTree(u) == ParseExec(toks).value
    decreases |toks|, 0
  {
    hide ParseExec, ParseLine, UnitToks, UnitTree, UnitOk;
    if Ahead(toks, "(") {
      BlockSteps(toks);
      assert Lexemes(toks[1..]);
      var line := LineDerive(toks[1..]);
      u := GroupDerive(toks, line);
    } else {
      u := SimpleDerive(toks);
    }
  }

  lemma {:induction false} PipeDerive(toks: seq<Token>) returns (p: Pipeline)
    requires Lexemes(toks) && ParsePipe(toks).Ok?
    ensures PipeOk(p) && toks == PipeToks(p) + ParsePipe(toks).rest && PipeTree(p) == ParsePipe(toks).value
    decreases |toks|, 1
  {
    hide ParseExec, UnitToks, UnitTree, UnitOk, Lexeme;
    var u := UnitDerive(toks);
    var tail := ParseExec(toks).rest;
    RestLexemes(UnitToks(u), tail);
    if Ahead(tail, "|") {
      IsSym(tail[0], '|');
      assert tail == [Sym('|')] + tail[1..];
      RestLexemes([Sym('|')], tail[1..]);
      var more := PipeDerive(tail[1..]);
      p := Bar(u, more);
      var rest := ParsePipe(tail[1..]).rest;
      Joined(UnitToks(u), [Sym('|')] + PipeToks(more), rest);
      Joined([Sym('|')], PipeToks(more), rest);
    } else {
      p := Last(u);
    }
  }

  lemma {:induction false} BacksDerive(c: Cmd<string>, toks: seq<Token>) returns (n: nat)
    requires Lexemes(toks)
    ensures toks == Amps(n) + Backs(c, toks).1 && Backs(c, toks).0 == Backed(c, n)
    decreases |toks|
  {
    hide Lexeme;
    if Ahead(toks, "&") {
      IsSym(toks[0], '&');
      assert Lexemes(toks[1..]);
      var m := BacksDerive(BackCmd(c), toks[1..]);
      n := m + 1;
      BackedIn(c, m);
      assert toks == [Sym('&')] + toks[1..] && Amps(n) == [Sym('&')] + Amps(m);
    } else {
      n := 0;
    }
  }

  lemma {:induction false} LineDerive(toks: seq<Token>) returns (l: Line)
    requires Lexemes(toks) && ParseLine(toks).Ok?
    ensures LineOk(l) && toks == LineToks(l) + ParseLine(toks).rest && LineTree(l) == ParseLine(toks).value
    decreases |toks|, 2
  {
    hide ParsePipe, PipeToks, PipeTree, PipeOk, Lexeme, Backs, Backed, Amps;
    var p := PipeDerive(toks);
    var tail := ParsePipe(toks).rest;
    RestLexemes(PipeToks(p), tail);
    var n := BacksDerive(ParsePipe(toks).value, tail);
    var semi := Backs(ParsePipe(toks).value, tail).1;
    RestLexemes(Amps(n), semi);
    if Ahead(semi, ";") {
      IsSym(semi[0], ';');
      assert semi == [Sym(';')] + semi[1..];
      RestLexemes([Sym(';')], semi[1..]);
      var more := LineDerive(semi[1..]);
      l := Semi(p, n, more);
      SemiSplit(p, n, more, ParseLine(semi[1..]).rest);
    } else {
      l := End(p, n);
      Joined(PipeToks(p), Amps(n), semi);
    }
  }

  // ----- The language of the shell

  /** The text is a way to write the line. */
  ghost predicate Writes(s: string, l: Line) {
    LineOk(l) && exists gaps :: Renders(LineToks(l), gaps, s)
  }

  ghost predicate Renders(toks: seq<Token>, gaps: seq<string>, s: string) {
    Spaced(toks, gaps) && s == Spread(toks, gaps)
  }

  lemma SpacedLexemes(toks: seq<Token>, gaps: seq<string>)
    requires Spaced(toks, gaps)
    ensures Lexemes(toks)
    decreases |toks|
  {
    if toks != [] {
      SpacedLexemes(toks[1..], gaps[1..]);
      assert toks == [toks[0]] + toks[1..];
    }
  }

  /** Whatever way a line is written, the parser finds its tree. */
  lemma Reads(s: string, l: Line)
    requires Writes(s, l)
    ensures CString(s) && Parse(s) == Ok(LineTree(l), [])
  {
    hide Lex, ParseLine, LineToks, LineTree, LineOk, Spread;
    var gaps :| Renders(LineToks(l), gaps, s);
    SpreadLex(LineToks(l), gaps);
    LineParses(l, []);
    assert LineToks(l) + [] == LineToks(l);
  }

  /** Whatever the parser accepts is a way to write a line. */
  lemma Derives(s: string) returns (l: Line)
    requires CString(s) && Parse(s).Ok?
    ensures Writes(s, l) && Parse(s) == Ok(LineTree(l), [])
  {
    hide Lex, ParseLine, LineToks, LineTree, LineOk, Spread;
    var gaps := LexSpread(s);
    SpacedLexemes(Lex(s), gaps);
    l := LineDerive(Lex(s));
    assert LineToks(l) + [] == LineToks(l);
    assert Renders(LineToks(l), gaps, s);
  }

  /** The shell takes exactly the texts that write a line, and reads the line's tree; it panics on all others. */
  lemma Language(s: string, c: Cmd<string>)
    requires CString(s)
    ensures Parse(s) == Ok(c, []) <==> exists l :: Writes(s, l) && LineTree(l) == c
    ensures Parse(s) == Panic <==> forall l :: !Writes(s, l)
  {
    hide Parse, Writes, LineTree;
    if Parse(s).Ok? {
      var l := Derives(s);
      assert Writes(s, l);
    }
    forall l | Writes(s, l) ensures Parse(s) == Ok(LineTree(l), []) { Reads(s, l); }
  }

  /** A simple command of ten words or more is a panic, whatever redirections are among them and whatever follows. */
  lemma TooManyWords(before: seq<Redir>, args: seq<Arg>, rest: seq<Token>)
    requires RedirsOk(before) && ArgsOk(args) && |args| >= 10
    ensures ParseLine(RedirToks(before) + (ArgToks(args) + rest)) == Panic
  {
    hide Args, Redirs, Ahead, ArgToks, RedirToks;
    ArgsFail(0, args, rest);
    RedirsParse(before, ArgToks(args) + rest);
    var toks := RedirToks(before) + (ArgToks(args) + rest);
    assert ParseExec(toks) == Panic;
    assert ParsePipe(toks) == Panic;
  }

  lemma {:induction false} ArgsFail(n: nat, args: seq<Arg>, rest: seq<Token>)
    requires n <= 9 < n + |args| && ArgsOk(args)
    ensures var toks := ArgToks(args) + rest; Args(n, toks) == Panic && !Ahead(toks, "<>") && !Ahead(toks, "(")
    decreases |args|
  {
    var a, more := args[0], args[1..];
    assert ArgOk(a) && ArgsOk(more);
    hide Ahead, Redirs, RedirsOk, Name, ArgToks;
    var tail := RedirToks(a.after) + (ArgToks(more) + rest);
    ArgSplit(args, rest);
    NameAhead(a.word, tail);
    if n < 9 {
      ArgsFail(n + 1, more, rest);
      RedirsParse(a.after, ArgToks(more) + rest);
      hide Args;
      OneArg(n, a.word, tail);
    }
  }

  // ----- Every tree can be written

  /** At most nine words a command, each of them a word. */
  predicate Legal(c: Cmd<string>) {
    match c
    case ExecCmd(ws) => |ws| <= 9 && forall i :: 0 <= i < |ws| ==> Name(ws[i])
    case RedirCmd(d, file, _) => Legal(d) && Name(file)
    case PipeCmd(l, r) => Legal(l) && Legal(r)
    case ListCmd(l, r) => Legal(l) && Legal(r)
    case BackCmd(d) => Legal(d)
  }

  function WordArgs(ws: seq<string>): seq<Arg> {
    if ws == [] then [] else [Arg(ws[0], [])] + WordArgs(ws[1..])
  }

  /** The tree as a line, every subtree in parentheses. */
  function AsLine(c: Cmd<string>): Line {
    match c
    case ExecCmd(ws) => End(Last(Simple([], WordArgs(ws))), 0)
    case RedirCmd(d, file, out) => End(Last(Group(AsLine(d), [Redir(Sym(if out then '>' else '<'), file)])), 0)
    case PipeCmd(l, r) => End(Bar(Group(AsLine(l), []), Last(Group(AsLine(r), []))), 0)
    case ListCmd(l, r) => Semi(Last(Group(AsLine(l), [])), 0, End(Last(Group(AsLine(r), [])), 0))
    case BackCmd(d) => End(Last(Group(AsLine(d), [])), 1)
  }

  lemma {:induction false} WordArgsIs(ws: seq<string>)
    requires forall i :: 0 <= i < |ws| ==> Name(ws[i])
    ensures |WordArgs(ws)| == |ws| && ArgsOk(WordArgs(ws))
    ensures ArgWords(WordArgs(ws)) == ws && ArgRedirs(WordArgs(ws)) == []
  {
    if ws != [] {
      WordArgsIs(ws[1..]);
      assert WordArgs(ws)[1..] == WordArgs(ws[1..]) && [ws[0]] + ws[1..] == ws;
    }
  }

  lemma {:induction false} AsLineIs(c: Cmd<string>)
    requires Legal(c)
    ensures LineOk(AsLine(c)) && LineTree(AsLine(c)) == c
  {
    match c
    case ExecCmd(ws) =>
      WordArgsIs(ws);
      AloneIs(Simple([], WordArgs(ws)), 0);
    case RedirCmd(d, file, out) =>
      AsLineIs(d);
      var r := Redir(Sym(if out then '>' else '<'), file);
      AloneIs(Group(AsLine(d), [r]), 0);
      NestOne(d, r);
    case PipeCmd(l, r) =>
      AsLineIs(l);
      AsLineIs(r);
      GroupIs(AsLine(l));
      GroupIs(AsLine(r));
      PairIs(Group(AsLine(l), []), Group(AsLine(r), []));
    case ListCmd(l, r) =>
      AsLineIs(l);
      AsLineIs(r);
      GroupIs(AsLine(l));
      GroupIs(AsLine(r));
      AloneIs(Group(AsLine(r), []), 0);
    case BackCmd(d) =>
      AsLineIs(d);
      GroupIs(AsLine(d));
      AloneIs(Group(AsLine(d), []), 1);
  }

  lemma AloneIs(u: Unit, n: nat)
    ensures LineOk(End(Last(u), n)) == UnitOk(u) && LineTree(End(Last(u), n)) == Backed(UnitTree(u), n)
  {}

  lemma NestOne(c: Cmd<string>, r: Redir)
    ensures Nest(c, [r]) == RedirCmd(c, r.file, r.op != Sym('<'))
  {
    assert [r][1..] == [];
  }

  lemma PairIs(u: Unit, v: Unit)
    ensures LineOk(End(Bar(u, Last(v)), 0)) == (UnitOk(u) && UnitOk(v))
    ensures LineTree(End(Bar(u, Last(v)), 0)) == PipeCmd(UnitTree(u), UnitTree(v))
  {
    assert PipeTree(Bar(u, Last(v))) == PipeCmd(UnitTree(u), UnitTree(v));
    assert PipeOk(Bar(u, Last(v))) == (UnitOk(u) && UnitOk(v));
  }

  lemma GroupIs(line: Line)
    ensures UnitOk(Group(line, [])) == LineOk(line) && UnitTree(Group(line, [])) == LineTree(line)
  {}

  /** The line with one blank after every token. */
  function Print(c: Cmd<string>): string {
    var toks := LineToks(AsLine(c));
    Spread(toks, [""] + seq(|toks|, _ => " "))
  }

  lemma {:induction false} BlankSpaced(toks: seq<Token>, g: string)
    requires Lexemes(toks) && Blank(g)
    ensures Spaced(toks, [g] + seq(|toks|, _ => " "))
    decreases |toks|
  {
    if toks != [] {
      var gaps: seq<string> := [g] + seq(|toks|, _ => " ");
      assert gaps[1..] == [" "] + seq(|toks[1..]|, _ => " ");
      BlankSpaced(toks[1..], " ");
    }
  }

  /** Every legal tree is what its printing parses to. */
  lemma ParsePrint(c: Cmd<string>)
    requires Legal(c)
    ensures CString(Print(c)) && Parse(Print(c)) == Ok(c, [])
  {
    hide Lex, ParseLine, LineToks, LineTree, LineOk, Spaced, Spread, AsLine, Legal;
    var toks := LineToks(AsLine(c));
    AsLineIs(c);
    LineLexemes(AsLine(c));
    BlankSpaced(toks, "");
    assert Renders(toks, [""] + seq(|toks|, _ => " "), Print(c));
    Reads(Print(c), AsLine(c));
  }

  lemma LexemesMore(a: seq<Token>, b: seq<Token>)
    requires Lexemes(a) && Lexemes(b)
    ensures Lexemes(a + b)
  {}

  lemma {:induction false} RedirLexemes(rs: seq<Redir>)
    requires RedirsOk(rs)
    ensures Lexemes(RedirToks(rs))
  {
    if rs != [] {
      assert RedirOk(rs[0]);
      RedirLexemes(rs[1..]);
      LexemesMore([rs[0].op, Word(rs[0].file)], RedirToks(rs[1..]));
    }
  }

  lemma {:induction false} ArgLexemes(args: seq<Arg>)
    requires ArgsOk(args)
    ensures Lexemes(ArgToks(args))
  {
    if args != [] {
      assert ArgOk(args[0]);
      RedirLexemes(args[0].after);
      ArgLexemes(args[1..]);
      LexemesMore(RedirToks(args[0].after), ArgToks(args[1..]));
      LexemesMore([Word(args[0].word)], RedirToks(args[0].after) + ArgToks(args[1..]));
    }
  }

  lemma {:induction false} UnitLexemes(u: Unit)
    requires UnitOk(u)
    ensures Lexemes(UnitToks(u))
    decreases u
  {
    hide Lexemes, RedirToks, ArgToks;
    match u
    case Simple(before, args) =>
      RedirLexemes(before);
      ArgLexemes(args);
      LexemesMore(RedirToks(before), ArgToks(args));
    case Group(line, after) =>
      LineLexemes(line);
      RedirLexemes(after);
      OneLexeme('(');
      OneLexeme(')');
      LexemesMore([Sym(')')], RedirToks(after));
      LexemesMore(LineToks(line), [Sym(')')] + RedirToks(after));
      LexemesMore([Sym('(')], LineToks(line) + ([Sym(')')] + RedirToks(after)));
  }

  lemma OneLexeme(c: char)
    requires c in "<|>&;()"
    ensures Lexemes([Sym(c)])
  {}

  lemma {:induction false} PipeLexemes(p: Pipeline)
    requires PipeOk(p)
    ensures Lexemes(PipeToks(p))
    decreases p
  {
    hide Lexemes, UnitToks, UnitOk;
    UnitLexemes(p.unit);
    if p.Bar? {
      PipeLexemes(p.more);
      OneLexeme('|');
      LexemesMore([Sym('|')], PipeToks(p.more));
      LexemesMore(UnitToks(p.unit), [Sym('|')] + PipeToks(p.more));
    }
  }

  lemma {:induction false} LineLexemes(l: Line)
    requires LineOk(l)
    ensures Lexemes(LineToks(l))
    decreases l
  {
    assert Lexemes(Amps(l.amps));
    hide Lexemes, PipeToks, PipeOk, Amps;
    PipeLexemes(l.pipe);
    if l.Semi? {
      LineLexemes(l.more);
      OneLexeme(';');
      LexemesMore([Sym(';')], LineToks(l.more));
      LexemesMore(Amps(l.amps), [Sym(';')] + LineToks(l.more));
      LexemesMore(PipeToks(l.pipe), Amps(l.amps) + ([Sym(';')] + LineToks(l.more)));
    } else {
      LexemesMore(PipeToks(l.pipe), Amps(l.amps));
    }
  }
}
