/** The command parser of sh.c: a scanner over the line, recursive descent, and
    the pass that ends every word with a NUL in place. */
module Shell {
  import opened Basics

  const MAXARGS := 10

  /** A word of the line, from q up to eq. */
  datatype Span = Span(q: nat, eq: nat)

  /** A command tree, over spans as the parser builds it or over the words themselves.
      out: the redirection is of standard output. */
  datatype Cmd<W> =
    | ExecCmd(argv: seq<W>)
    | RedirCmd(cmd: Cmd<W>, file: W, out: bool)
    | PipeCmd(left: Cmd<W>, right: Cmd<W>)
    | ListCmd(left: Cmd<W>, right: Cmd<W>)
    | BackCmd(cmd: Cmd<W>)

  // ----- Tokens

  predicate IsSpace(c: char) { c == ' ' || c == '\t' || c == '\r' || c == '\n' || c == '\U{0b}' }
  predicate IsSymbol(c: char) { c == '<' || c == '|' || c == '>' || c == '&' || c == ';' || c == '(' || c == ')' }
  predicate IsWordChar(c: char) { !IsSpace(c) && !IsSymbol(c) && c != '\0' }

  /** Append is the token >>. */
  datatype Token = Sym(c: char) | Append | Word(w: string)

  function Trim(s: string): (t: string)
    ensures |t| <= |s| && t == s[|s| - |t|..] && (t != "" ==> !IsSpace(t[0]))
  {
    if s != "" && IsSpace(s[0]) then Trim(s[1..]) else s
  }

  function WordLen(s: string): (n: nat)
    ensures n <= |s| && (forall i :: 0 <= i < n ==> IsWordChar(s[i])) && (n < |s| ==> !IsWordChar(s[n]))
  {
    if s != "" && IsWordChar(s[0]) then 1 + WordLen(s[1..]) else 0
  }

  predicate CString(s: string) { '\0' !in s }

  /** The tokens of a line. */
  function Lex(s: string): seq<Token>
    requires CString(s)
    decreases |s|
  {
    var t := Trim(s);
    if t == "" then []
    else if t[0] == '>' && |t| > 1 && t[1] == '>' then [Append] + Lex(t[2..])
    else if IsSymbol(t[0]) then [Sym(t[0])] + Lex(t[1..])
    else [Word(t[..WordLen(t)])] + Lex(t[WordLen(t)..])
  }

  /** The character a token begins with, which is what peek looks at. */
  function Lead(t: Token): char {
    match t
    case Sym(c) => c
    case Append => '>'
    case Word(w) => if w == "" then 'a' else w[0]
  }

  predicate Ahead(toks: seq<Token>, cs: string) { toks != [] && Lead(toks[0]) in cs }

  // ----- The grammar

  datatype Result<T> = Ok(value: T, rest: seq<Token>) | Panic

  /** < file and > file, any number of them; >> is taken for >. */
  function Redirs(toks: seq<Token>): (r: Result<seq<(string, bool)>>)
    ensures r.Ok? ==> |r.rest| <= |toks|
  {
    if !Ahead(toks, "<>") then Ok([], toks)
    else if |toks| < 2 || !toks[1].Word? then Panic
    else
      match Redirs(toks[2..])
      case Ok(rs, rest) => Ok([(toks[1].w, toks[0] != Sym('<'))] + rs, rest)
      case Panic => Panic
  }

  /** The words of a simple command after the first n, with redirections among them. */
  function Args(n: nat, toks: seq<Token>): (r: Result<(seq<string>, seq<(string, bool)>)>)
    ensures r.Ok? ==> |r.rest| <= |toks|
    decreases |toks|
  {
    if toks == [] || Ahead(toks, "|)&;") then Ok(([], []), toks)
    else if !toks[0].Word? || n + 1 >= MAXARGS then Panic
    else
      match Redirs(toks[1..])
      case Ok(rs, rest) =>
        (match Args(n + 1, rest)
         case Ok(more, rest') => Ok(([toks[0].w] + more.0, rs + more.1), rest')
         case Panic => Panic)
      case Panic => Panic
  }

  function Wrap<W>(c: Cmd<W>, redirs: seq<(W, bool)>): Cmd<W> {
    if redirs == [] then c
    else RedirCmd(Wrap(c, redirs[..|redirs| - 1]), redirs[|redirs| - 1].0, redirs[|redirs| - 1].1)
  }

  function ParseExec(toks: seq<Token>): (r: Result<Cmd<string>>)
    ensures r.Ok? ==> |r.rest| <= |toks|
    decreases |toks|, 0
  {
    if Ahead(toks, "(") then ParseBlock(toks)
    else
      match Redirs(toks)
      case Ok(rs, rest) =>
        (match Args(0, rest)
         case Ok(more, rest') => Ok(Wrap(ExecCmd(more.0), rs + more.1), rest')
         case Panic => Panic)
      case Panic => Panic
  }

  function ParseBlock(toks: seq<Token>): (r: Result<Cmd<string>>)
    ensures r.Ok? ==> |r.rest| <= |toks|
    decreases |toks| - 1, 3
  {
    if !Ahead(toks, "(") then Panic
    else
      match ParseLine(toks[1..])
      case Ok(c, rest) =>
        if !Ahead(rest, ")") then Panic
        else (match Redirs(rest[1..])
              case Ok(rs, rest') => Ok(Wrap(c, rs), rest')
              case Panic => Panic)
      case Panic => Panic
  }

  function ParsePipe(toks: seq<Token>): (r: Result<Cmd<string>>)
    ensures r.Ok? ==> |r.rest| <= |toks|
    decreases |toks|, 1
  {
    match ParseExec(toks)
    case Ok(c, rest) =>
      if !Ahead(rest, "|") then Ok(c, rest)
      else (match ParsePipe(rest[1..])
            case Ok(d, rest') => Ok(PipeCmd(c, d), rest')
            case Panic => Panic)
    case Panic => Panic
  }

  function Backs(c: Cmd<string>, toks: seq<Token>): (r: (Cmd<string>, seq<Token>))
    ensures |r.1| <= |toks|
    decreases |toks|
  {
    if Ahead(toks, "&") then Backs(BackCmd(c), toks[1..]) else (c, toks)
  }

  function ParseLine(toks: seq<Token>): (r: Result<Cmd<string>>)
    ensures r.Ok? ==> |r.rest| <= |toks|
    decreases |toks|, 2
  {
    match ParsePipe(toks)
    case Ok(c, rest) =>
      var (c1, rest1) := Backs(c, rest);
      if !Ahead(rest1, ";") then Ok(c1, rest1)
      else (match ParseLine(rest1[1..])
            case Ok(d, rest') => Ok(ListCmd(c1, d), rest')
            case Panic => Panic)
    case Panic => Panic
  }

  /** What parsecmd makes of a line. */
  function Parse(s: string): Result<Cmd<string>>
    requires CString(s)
  {
    var r := ParseLine(Lex(s));
    if r.Ok? && r.rest != [] then Panic else r
  }

  // ----- The scanner

  lemma LexStartsSym(t: string)
    requires CString(t) && t != "" && IsSymbol(t[0]) && !(t[0] == '>' && |t| > 1 && t[1] == '>')
    ensures Lex(t) == [Sym(t[0])] + Lex(t[1..])
  {
    hide WordLen, Trim, CString;
    TrimNone(t);
  }

  lemma TrimNone(t: string)
    requires t != "" && !IsSpace(t[0])
    ensures Trim(t) == t
  {}

  lemma LexStartsAppend(t: string)
    requires CString(t) && |t| > 1 && t[0] == '>' && t[1] == '>'
    ensures Lex(t) == [Append] + Lex(t[2..])
  {
    assert Trim(t) == t;
  }

  ghost function Toks(s: string, p: nat): seq<Token>
    requires CString(s) && p <= |s|
  {
    Lex(s[p..])
  }

  /** A word that goes as far as it can. */
  ghost predicate WordAt(s: string, w: Span) {
    && w.q < w.eq <= |s| && (forall i :: w.q <= i < w.eq ==> IsWordChar(s[i]))
    && (w.eq < |s| ==> !IsWordChar(s[w.eq]))
  }

  /** The number gettoken returns for a token. */
  function Code(t: Token): char {
    match t
    case Sym(c) => c
    case Append => '+'
    case Word(_) => 'a'
  }

  lemma SkipSpace(s: string, p: nat)
    requires CString(s) && p < |s| && IsSpace(s[p])
    ensures Toks(s, p + 1) == Toks(s, p)
  {
    assert s[p..][1..] == s[p + 1..];
  }

  lemma AtEnd(s: string, p: nat)
    requires CString(s) && p == |s|
    ensures Toks(s, p) == []
  {}

  lemma AtSymbol(s: string, p: nat)
    requires CString(s) && p < |s| && IsSymbol(s[p])
    ensures if s[p] == '>' && p + 1 < |s| && s[p + 1] == '>' then Toks(s, p) == [Append] + Toks(s, p + 2)
            else Toks(s, p) == [Sym(s[p])] + Toks(s, p + 1)
  {
    hide Lex;
    var t := s[p..];
    assert t[0] == s[p] && t[1..] == s[p + 1..] && (|t| > 1 ==> t[1] == s[p + 1]);
    if s[p] == '>' && p + 1 < |s| && s[p + 1] == '>' {
      assert t[2..] == s[p + 2..];
      LexStartsAppend(t);
    } else {
      LexStartsSym(t);
    }
  }

  lemma LexStartsWord(t: string)
    requires CString(t) && t != "" && IsWordChar(t[0])
    ensures CString(t[WordLen(t)..]) && Lex(t) == [Word(t[..WordLen(t)])] + Lex(t[WordLen(t)..])
  {
    assert Trim(t) == t;
  }

  lemma WordLenAt(s: string, w: Span)
    requires WordAt(s, w)
    ensures WordLen(s[w.q..]) == w.eq - w.q && IsWordChar(s[w.q..][0])
  {
    var t, n := s[w.q..], w.eq - w.q;
    assert forall i :: 0 <= i < |t| ==> t[i] == s[w.q + i];
  }

  lemma AtWord(s: string, w: Span)
    requires CString(s) && WordAt(s, w)
    ensures Toks(s, w.q) == [Word(s[w.q..w.eq])] + Toks(s, w.eq)
  {
    hide Lex, WordLen;
    var t, n := s[w.q..], w.eq - w.q;
    WordLenAt(s, w);
    LexStartsWord(t);
    assert t[..n] == s[w.q..w.eq] && t[n..] == s[w.eq..];
  }

  method Gettoken(s: string, p: nat) returns (ret: char, q: nat, eq: nat, p': nat)
    requires CString(s) && p <= |s|
    ensures p <= p' <= |s|
    ensures Toks(s, p) == [] ==> ret == '\0' && Toks(s, p') == []
    ensures Toks(s, p) != [] ==> p < p' && ret == Code(Toks(s, p)[0]) && Toks(s, p') == Toks(s, p)[1..]
    ensures Toks(s, p) != [] && Toks(s, p)[0].Sym? ==> IsSymbol(Toks(s, p)[0].c)
    ensures ret == 'a' ==> WordAt(s, Span(q, eq)) && Toks(s, p) != [] && Toks(s, p)[0] == Word(s[q..eq])
  {
    hide Lex;
    p' := p;
    while p' < |s| && IsSpace(s[p'])
      invariant p <= p' <= |s| && Toks(s, p') == Toks(s, p)
    {
      SkipSpace(s, p');
      p' := p' + 1;
    }
    q := p';
    if p' == |s| {
      AtEnd(s, p');
      return '\0', q, q, p';
    }
    ret := s[p'];
    if IsSymbol(s[p']) {
      AtSymbol(s, p');
      p' := p' + 1;
      if ret == '>' && p' < |s| && s[p'] == '>' {
        ret := '+';
        p' := p' + 1;
      }
    } else {
      ret := 'a';
      while p' < |s| && !IsSpace(s[p']) && !IsSymbol(s[p'])
        invariant q <= p' <= |s| && forall i :: q <= i < p' ==> IsWordChar(s[i])
        invariant p' == q ==> !IsSpace(s[p']) && !IsSymbol(s[p'])
      {
        p' := p' + 1;
      }
      AtWord(s, Span(q, p'));
    }
    eq := p';
    while p' < |s| && IsSpace(s[p'])
      invariant eq <= p' <= |s| && Toks(s, p') == Toks(s, eq)
    {
      SkipSpace(s, p');
      p' := p' + 1;
    }
  }

  method Peek(s: string, p: nat, cs: string) returns (b: bool, p': nat)
    requires CString(s) && p <= |s|
    ensures p <= p' <= |s| && Toks(s, p') == Toks(s, p)
    ensures b <==> Ahead(Toks(s, p), cs)
    ensures Toks(s, p) == [] ==> p' == |s|
  {
    hide Lex;
    p' := p;
    while p' < |s| && IsSpace(s[p'])
      invariant p <= p' <= |s| && Toks(s, p') == Toks(s, p)
    {
      SkipSpace(s, p');
      p' := p' + 1;
    }
    if p' == |s| { AtEnd(s, p'); return false, p'; }
    b := s[p'] in cs;
    if IsSymbol(s[p']) {
      AtSymbol(s, p');
    } else {
      var w := WordFrom(s, p');
      AtWord(s, w);
    }
  }

  lemma WordFrom(s: string, p: nat) returns (w: Span)
    requires CString(s) && p < |s| && IsWordChar(s[p])
    ensures WordAt(s, w) && w.q == p
  {
    var n := WordLen(s[p..]);
    w := Span(p, p + n);
    assert forall i :: 0 <= i < n ==> s[p..][i] == s[p + i];
    forall i | w.q <= i < w.eq ensures IsWordChar(s[i]) { assert IsWordChar(s[p..][i - p]); }
    assert n > 0;
    if n < |s| - p { assert s[p..][n] == s[p + n]; }
  }

  // ----- The parser

  ghost function Cut(s: string, w: Span): string {
    if w.q <= w.eq <= |s| then s[w.q..w.eq] else ""
  }

  /** The tree with each span replaced by the word it covers. */
  ghost function Text(s: string, c: Cmd<Span>): Cmd<string> {
    match c
    case ExecCmd(ws) => ExecCmd(seq(|ws|, i requires 0 <= i < |ws| => Cut(s, ws[i])))
    case RedirCmd(d, file, out) => RedirCmd(Text(s, d), Cut(s, file), out)
    case PipeCmd(l, r) => PipeCmd(Text(s, l), Text(s, r))
    case ListCmd(l, r) => ListCmd(Text(s, l), Text(s, r))
    case BackCmd(d) => BackCmd(Text(s, d))
  }

  ghost function Spans(c: Cmd<Span>): set<Span> {
    match c
    case ExecCmd(ws) => set w | w in ws
    case RedirCmd(d, file, _) => Spans(d) + {file}
    case PipeCmd(l, r) => Spans(l) + Spans(r)
    case ListCmd(l, r) => Spans(l) + Spans(r)
    case BackCmd(d) => Spans(d)
  }

  ghost predicate WordsOk(s: string, c: Cmd<Span>) { forall w :: w in Spans(c) ==> WordAt(s, w) }

  /** The parser at position p' holds what the grammar gives: the same tree and the same rest, or a panic. */
  ghost predicate Agrees(s: string, r: Option<Cmd<Span>>, p': nat, spec: Result<Cmd<string>>) {
    && CString(s) && p' <= |s|
    && match r
       case None => spec == Panic
       case Some(c) => spec == Ok(Text(s, c), Toks(s, p')) && WordsOk(s, c)
  }

  lemma {:induction false} WrapMore<W>(c: Cmd<W>, a: seq<(W, bool)>, b: seq<(W, bool)>)
    ensures Wrap(Wrap(c, a), b) == Wrap(c, a + b)
    decreases |b|
  {
    if b == [] {
      assert a + b == a;
    } else {
      WrapMore(c, a, b[..|b| - 1]);
      assert (a + b)[..|a + b| - 1] == a + b[..|b| - 1];
    }
  }

  ghost function Onto(rs: seq<(string, bool)>, r: Result<seq<(string, bool)>>): Result<seq<(string, bool)>> {
    if r.Ok? then Ok(rs + r.value, r.rest) else Panic
  }

  lemma OntoNone(r: Result<seq<(string, bool)>>)
    ensures Onto([], r) == r
  {
    if r.Ok? { assert [] + r.value == r.value; }
  }

  lemma OntoMore(rs: seq<(string, bool)>, x: (string, bool), r: Result<seq<(string, bool)>>)
    ensures Onto(rs, Onto([x], r)) == Onto(rs + [x], r)
  {
    if r.Ok? { assert rs + ([x] + r.value) == rs + [x] + r.value; }
  }

  lemma RedirsStep(toks: seq<Token>)
    requires Ahead(toks, "<>")
    ensures |toks| < 2 || !toks[1].Word? ==> Redirs(toks) == Panic
    ensures |toks| >= 2 && toks[1].Word? ==> Redirs(toks) == Onto([(toks[1].w, toks[0] != Sym('<'))], Redirs(toks[2..]))
  {}

  lemma WrapOne(c: Cmd<string>, rs: seq<(string, bool)>, file: string, out: bool)
    ensures Wrap(c, rs + [(file, out)]) == RedirCmd(Wrap(c, rs), file, out)
  {
    assert (rs + [(file, out)])[..|rs|] == rs;
  }

  /** parseredirs. */
  method Parseredirs(cmd: Cmd<Span>, s: string, p: nat)
      returns (r: Option<Cmd<Span>>, p': nat, ghost rs: seq<(string, bool)>)
    requires CString(s) && p <= |s| && WordsOk(s, cmd)
    ensures p <= p' <= |s|
    ensures r.None? ==> Redirs(Toks(s, p)) == Panic
    ensures r.Some? ==>
      Redirs(Toks(s, p)) == Ok(rs, Toks(s, p')) && WordsOk(s, r.value) && Text(s, r.value) == Wrap(Text(s, cmd), rs)
  {
    hide Toks, Redirs, Wrap;
    var c := cmd;
    rs := [];
    p' := p;
    WrapNone(Text(s, cmd));
    OntoNone(Redirs(Toks(s, p)));
    while true
      invariant p <= p' <= |s| && WordsOk(s, c) && Text(s, c) == Wrap(Text(s, cmd), rs)
      invariant Redirs(Toks(s, p)) == Onto(rs, Redirs(Toks(s, p')))
      decreases |s| - p'
    {
      ghost var toks := Toks(s, p');
      var more;
      more, p' := Peek(s, p', "<>");
      if !more {
        RedirsEnd(toks);
        assert rs + [] == rs;
        r := Some(c);
        return;
      }
      RedirsStep(toks);
      var tok, q, eq;
      tok, q, eq, p' := Gettoken(s, p');
      var word;
      word, q, eq, p' := Gettoken(s, p');
      if word != 'a' {
        NotAWord(toks, word);
        return None, p', rs;
      }
      ghost var x := (s[q..eq], tok != '<');
      assert toks[1..][1..] == toks[2..];
      OntoMore(rs, x, Redirs(toks[2..]));
      WrapOne(Text(s, cmd), rs, s[q..eq], tok != '<');
      if tok == '<' {
        c := RedirCmd(c, Span(q, eq), false);
      } else {
        c := RedirCmd(c, Span(q, eq), true);
      }
      rs := rs + [x];
    }
  }

  lemma WrapNone(c: Cmd<string>) ensures Wrap(c, []) == c {}

  lemma RedirsEnd(toks: seq<Token>)
    requires !Ahead(toks, "<>")
    ensures Redirs(toks) == Ok([], toks)
  {}

  lemma NotAWord(toks: seq<Token>, code: char)
    requires toks != [] && code != 'a' && (if |toks| < 2 then code == '\0' else code == Code(toks[1]))
    ensures |toks| < 2 || !toks[1].Word?
  {}

  /** One more word for the simple command inside its redirections. */
  function AddArg(c: Cmd<Span>, w: Span): Cmd<Span> {
    match c
    case ExecCmd(ws) => ExecCmd(ws + [w])
    case RedirCmd(d, file, out) => RedirCmd(AddArg(d, w), file, out)
    case _ => c
  }

  lemma {:induction false} AddArgText(s: string, c: Cmd<Span>, w: Span, ws: seq<string>, rs: seq<(string, bool)>)
    requires Text(s, c) == Wrap(ExecCmd(ws), rs)
    ensures Text(s, AddArg(c, w)) == Wrap(ExecCmd(ws + [Cut(s, w)]), rs) && Spans(AddArg(c, w)) == Spans(c) + {w}
    decreases c
  {
    if c.RedirCmd? {
      AddArgText(s, c.cmd, w, ws, rs[..|rs| - 1]);
    }
  }

  datatype ArgList = ArgList(ws: seq<string>, rs: seq<(string, bool)>)

  ghost function Join(a: ArgList, r: Result<(seq<string>, seq<(string, bool)>)>)
    : Result<(seq<string>, seq<(string, bool)>)>
  {
    if r.Ok? then Ok((a.ws + r.value.0, a.rs + r.value.1), r.rest) else Panic
  }

  lemma JoinNone(r: Result<(seq<string>, seq<(string, bool)>)>)
    ensures Join(ArgList([], []), r) == r
  {
    if r.Ok? { assert [] + r.value.0 == r.value.0 && [] + r.value.1 == r.value.1; }
  }

  /** The definition of Args, once, at a word. */
  lemma ArgsUnfold(n: nat, toks: seq<Token>, rs: seq<(string, bool)>, rest: seq<Token>)
    requires toks != [] && toks[0].Word? && !Ahead(toks, "|)&;") && n + 1 < MAXARGS && Redirs(toks[1..]) == Ok(rs, rest)
    ensures Args(n, toks) == Join(ArgList([toks[0].w], rs), Args(n + 1, rest))
  {
    hide Redirs, Ahead;
  }

  lemma JoinTwice(a: ArgList, b: ArgList, r: Result<(seq<string>, seq<(string, bool)>)>)
    ensures Join(a, Join(b, r)) == Join(ArgList(a.ws + b.ws, a.rs + b.rs), r)
  {
    if r.Ok? {
      assert a.ws + (b.ws + r.value.0) == a.ws + b.ws + r.value.0;
      assert a.rs + (b.rs + r.value.1) == a.rs + b.rs + r.value.1;
    }
  }

  /** One turn of the loop of parseexec. */
  lemma ArgsTurn(a: ArgList, n: nat, toks: seq<Token>, rs: seq<(string, bool)>, rest: seq<Token>)
    requires toks != [] && toks[0].Word? && !Ahead(toks, "|)&;") && n + 1 < MAXARGS && Redirs(toks[1..]) == Ok(rs, rest)
    ensures Join(a, Args(n, toks)) == Join(ArgList(a.ws + [toks[0].w], a.rs + rs), Args(n + 1, rest))
  {
    hide Args, Redirs, Ahead, Join;
    ArgsUnfold(n, toks, rs, rest);
    JoinTwice(a, ArgList([toks[0].w], rs), Args(n + 1, rest));
  }

  lemma ArgsEnd(a: ArgList, n: nat, toks: seq<Token>)
    requires toks == [] || Ahead(toks, "|)&;")
    ensures Join(a, Args(n, toks)) == Ok((a.ws, a.rs), toks)
  {
    assert a.ws + [] == a.ws && a.rs + [] == a.rs;
  }

  lemma ArgsPanic(a: ArgList, n: nat, toks: seq<Token>)
    requires toks != [] && !Ahead(toks, "|)&;") && (!toks[0].Word? || n + 1 >= MAXARGS || Redirs(toks[1..]) == Panic)
    ensures Join(a, Args(n, toks)) == Panic
  {}

  lemma ExecSpec(toks: seq<Token>, rs: seq<(string, bool)>, rest: seq<Token>)
    requires !Ahead(toks, "(")
    ensures Redirs(toks) == Panic ==> ParseExec(toks) == Panic
    ensures Redirs(toks) == Ok(rs, rest) ==>
      ParseExec(toks) == (var r := Args(0, rest);
                          if r.Ok? then Ok(Wrap(ExecCmd(r.value.0), rs + r.value.1), r.rest) else Panic)
  {}

  lemma SpansOfEmpty(s: string)
    ensures WordsOk(s, ExecCmd([])) && Text(s, ExecCmd([])) == ExecCmd([])
  {}

  method Parseexec(s: string, p: nat) returns (r: Option<Cmd<Span>>, p': nat)
    requires CString(s) && p <= |s|
    ensures p <= p' <= |s| && Agrees(s, r, p', ParseExec(Toks(s, p)))
    decreases |s| - p, 1
  {
    hide Toks, Redirs, Args, ParseExec, Wrap, Text, WordsOk, Join, Ahead, WordAt;
    ghost var toks0 := Toks(s, p);
    var block;
    block, p' := Peek(s, p, "(");
    if block {
      BlockSpec(toks0);
      r, p' := Parseblock(s, p');
      return;
    }
    SpansOfEmpty(s);
    ghost var rs0;
    r, p', rs0 := Parseredirs(ExecCmd([]), s, p');
    ghost var toks1 := Toks(s, p');
    ExecSpec(toks0, rs0, toks1);
    if r.None? { return; }
    var ret := r.value;
    var argc := 0;
    ghost var a := ArgList([], []);
    JoinNone(Args(0, toks1));
    assert rs0 + [] == rs0;
    while true
      invariant p <= p' <= |s| && WordsOk(s, ret) && Text(s, ret) == Wrap(ExecCmd(a.ws), rs0 + a.rs)
      invariant argc == |a.ws| < MAXARGS && Args(0, toks1) == Join(a, Args(argc, Toks(s, p')))
      decreases |s| - p'
    {
      ghost var toks := Toks(s, p');
      var stop;
      stop, p' := Peek(s, p', "|)&;");
      if stop { ArgsEnd(a, argc, toks); break; }
      var tok, q, eq;
      tok, q, eq, p' := Gettoken(s, p');
      if tok == '\0' { NoToken(toks); ArgsEnd(a, argc, toks); break; }
      if tok != 'a' { ArgsPanic(a, argc, toks); return None, p'; }
      var w := Span(q, eq);
      CutWord(s, w);
      AddArgText(s, ret, w, a.ws, rs0 + a.rs);
      AddArgOk(s, ret, w);
      ret := AddArg(ret, w);
      argc := argc + 1;
      if argc >= MAXARGS { ArgsPanic(a, argc - 1, toks); return None, p'; }
      ghost var rs1;
      r, p', rs1 := Parseredirs(ret, s, p');
      if r.None? { ArgsPanic(a, argc - 1, toks); return None, p'; }
      ret := r.value;
      ArgsTurn(a, argc - 1, toks, rs1, Toks(s, p'));
      WrapMore(ExecCmd(a.ws + [Cut(s, w)]), rs0 + a.rs, rs1);
      assert rs0 + a.rs + rs1 == rs0 + (a.rs + rs1);
      a := ArgList(a.ws + [Cut(s, w)], a.rs + rs1);
    }
    r := Some(ret);
  }

  lemma CutWord(s: string, w: Span)
    requires WordAt(s, w)
    ensures w.q < w.eq <= |s| && Cut(s, w) == s[w.q..w.eq]
  {}

  lemma NoToken(toks: seq<Token>)
    requires toks != [] ==> Code(toks[0]) == '\0' && (toks[0].Sym? ==> IsSymbol(toks[0].c))
    ensures toks == []
  {}

  lemma AddArgOk(s: string, c: Cmd<Span>, w: Span)
    requires WordsOk(s, c) && WordAt(s, w) && Spans(AddArg(c, w)) == Spans(c) + {w}
    ensures WordsOk(s, AddArg(c, w))
  {}

  lemma BlockSpec(toks: seq<Token>)
    requires Ahead(toks, "(")
    ensures ParseExec(toks) == ParseBlock(toks)
  {}

  method Parseblock(s: string, p: nat) returns (r: Option<Cmd<Span>>, p': nat)
    requires CString(s) && p <= |s|
    ensures p <= p' <= |s| && Agrees(s, r, p', ParseBlock(Toks(s, p)))
    decreases |s| - p, 0
  {
    hide Toks, Redirs, ParseLine, Wrap, Text, WordsOk, WordAt;
    var open;
    open, p' := Peek(s, p, "(");
    if !open { return None, p'; }
    var tok, q, eq;
    tok, q, eq, p' := Gettoken(s, p');
    r, p' := Parseline(s, p');
    if r.None? { return; }
    var close;
    close, p' := Peek(s, p', ")");
    if !close { return None, p'; }
    tok, q, eq, p' := Gettoken(s, p');
    ghost var rs;
    r, p', rs := Parseredirs(r.value, s, p');
  }

  method Parsepipe(s: string, p: nat) returns (r: Option<Cmd<Span>>, p': nat)
    requires CString(s) && p <= |s|
    ensures p <= p' <= |s| && Agrees(s, r, p', ParsePipe(Toks(s, p)))
    decreases |s| - p, 2
  {
    hide Toks, ParseExec, WordAt;
    r, p' := Parseexec(s, p);
    if r.None? { return; }
    var more;
    more, p' := Peek(s, p', "|");
    if more {
      var left := r.value;
      var tok, q, eq;
      tok, q, eq, p' := Gettoken(s, p');
      r, p' := Parsepipe(s, p');
      if r.Some? { r := Some(PipeCmd(left, r.value)); }
    }
  }

  method Parseline(s: string, p: nat) returns (r: Option<Cmd<Span>>, p': nat)
    requires CString(s) && p <= |s|
    ensures p <= p' <= |s| && Agrees(s, r, p', ParseLine(Toks(s, p)))
    decreases |s| - p, 3
  {
    hide Toks, ParsePipe, WordAt;
    r, p' := Parsepipe(s, p);
    if r.None? { return; }
    var cmd := r.value;
    ghost var start := Backs(Text(s, cmd), Toks(s, p'));
    var tok, q, eq;
    var more;
    while true
      invariant p <= p' <= |s| && WordsOk(s, cmd) && Backs(Text(s, cmd), Toks(s, p')) == start
      decreases |s| - p'
    {
      more, p' := Peek(s, p', "&");
      if !more { break; }
      tok, q, eq, p' := Gettoken(s, p');
      cmd := BackCmd(cmd);
    }
    more, p' := Peek(s, p', ";");
    if !more { return Some(cmd), p'; }
    tok, q, eq, p' := Gettoken(s, p');
    r, p' := Parseline(s, p');
    if r.Some? { r := Some(ListCmd(cmd, r.value)); }
  }

  // ----- Ending the words in place

  ghost predicate EndsAt(c: Cmd<Span>, i: nat) { exists w :: w in Spans(c) && w.eq == i }

  /** The buffer holds the line and its NUL, with a NUL at the end of every word of c. */
  ghost predicate Terminated(s: string, c: Cmd<Span>, buf: seq<char>) {
    && |buf| == |s| + 1
    && forall i: nat :: i <= |s| ==> buf[i] == if EndsAt(c, i) || i == |s| then '\0' else s[i]
  }

  /** A C string read from position q. */
  ghost function ReadAt(buf: seq<char>, q: nat): string
    decreases |buf| - q
  {
    if q < |buf| && buf[q] != '\0' then [buf[q]] + ReadAt(buf, q + 1) else ""
  }

  /** The tree as runcmd finds it in the buffer. */
  ghost function ReadTree(buf: seq<char>, c: Cmd<Span>): Cmd<string> {
    match c
    case ExecCmd(ws) => ExecCmd(seq(|ws|, i requires 0 <= i < |ws| => ReadAt(buf, ws[i].q)))
    case RedirCmd(d, file, out) => RedirCmd(ReadTree(buf, d), ReadAt(buf, file.q), out)
    case PipeCmd(l, r) => PipeCmd(ReadTree(buf, l), ReadTree(buf, r))
    case ListCmd(l, r) => ListCmd(ReadTree(buf, l), ReadTree(buf, r))
    case BackCmd(d) => BackCmd(ReadTree(buf, d))
  }

  /** No NUL lands inside a word. */
  lemma {:induction false} WordReadsBack(s: string, c: Cmd<Span>, buf: seq<char>, w: Span, i: nat)
    requires WordsOk(s, c) && CString(s) && Terminated(s, c, buf) && w in Spans(c) && w.q <= i <= w.eq
    ensures w.eq <= |s| && ReadAt(buf, i) == s[i..w.eq]
    decreases w.eq - i
  {
    assert WordAt(s, w);
    if i < w.eq {
      WordReadsBack(s, c, buf, w, i + 1);
      assert IsWordChar(s[i]);
      forall v | v in Spans(c) ensures v.eq != i { assert WordAt(s, v); }
      assert buf[i] == s[i] && s[i..w.eq] == [s[i]] + s[i + 1..w.eq];
    } else {
      assert EndsAt(c, i);
    }
  }

  lemma {:induction false} TreeReadsBack(s: string, whole: Cmd<Span>, buf: seq<char>, c: Cmd<Span>)
    requires WordsOk(s, whole) && CString(s) && Terminated(s, whole, buf) && Spans(c) <= Spans(whole)
    ensures ReadTree(buf, c) == Text(s, c)
    decreases c
  {
    hide Terminated, ReadAt;
    match c
    case ExecCmd(ws) =>
      forall i | 0 <= i < |ws| ensures ReadAt(buf, ws[i].q) == Cut(s, ws[i]) { OneReadsBack(s, whole, buf, ws[i]); }
    case RedirCmd(d, file, _) => TreeReadsBack(s, whole, buf, d); OneReadsBack(s, whole, buf, file);
    case PipeCmd(l, r) => TreeReadsBack(s, whole, buf, l); TreeReadsBack(s, whole, buf, r);
    case ListCmd(l, r) => TreeReadsBack(s, whole, buf, l); TreeReadsBack(s, whole, buf, r);
    case BackCmd(d) => TreeReadsBack(s, whole, buf, d);
  }

  lemma OneReadsBack(s: string, whole: Cmd<Span>, buf: seq<char>, w: Span)
    requires WordsOk(s, whole) && CString(s) && Terminated(s, whole, buf) && w in Spans(whole)
    ensures ReadAt(buf, w.q) == Cut(s, w)
  {
    assert WordAt(s, w);
    WordReadsBack(s, whole, buf, w, w.q);
  }

  /** nulterminate. */
  method Nulterminate(cmd: Cmd<Span>, buf: array<char>)
    requires forall w :: w in Spans(cmd) ==> w.eq < buf.Length
    modifies buf
    ensures forall i: nat :: i < buf.Length ==> buf[i] == if EndsAt(cmd, i) then '\0' else old(buf[i])
    decreases cmd
  {
    match cmd
    case ExecCmd(argv) =>
      var k := 0;
      while k < |argv|
        invariant 0 <= k <= |argv|
        invariant forall i: nat :: i < buf.Length ==>
          buf[i] == if EndsAt(ExecCmd(argv[..k]), i) then '\0' else old(buf[i])
      {
        assert argv[k] in Spans(cmd);
        ExecEnds(argv, k);
        buf[argv[k].eq] := '\0';
        k := k + 1;
      }
      assert argv[..k] == argv;
    case RedirCmd(d, file, _) =>
      Nulterminate(d, buf);
      assert file in Spans(cmd);
      buf[file.eq] := '\0';
      RedirEnds(d, file, cmd.out);
    case PipeCmd(l, r) =>
      Nulterminate(l, buf);
      Nulterminate(r, buf);
    case ListCmd(l, r) =>
      Nulterminate(l, buf);
      Nulterminate(r, buf);
    case BackCmd(d) => Nulterminate(d, buf);
  }

  lemma ExecEnds(argv: seq<Span>, k: nat)
    requires k < |argv|
    ensures forall i: nat :: EndsAt(ExecCmd(argv[..k + 1]), i) <==> EndsAt(ExecCmd(argv[..k]), i) || i == argv[k].eq
  {
    assert argv[..k + 1] == argv[..k] + [argv[k]];
    assert Spans(ExecCmd(argv[..k + 1])) == Spans(ExecCmd(argv[..k])) + {argv[k]};
  }

  lemma RedirEnds(d: Cmd<Span>, file: Span, out: bool)
    ensures forall i: nat :: EndsAt(RedirCmd(d, file, out), i) <==> EndsAt(d, i) || i == file.eq
  {
    assert Spans(RedirCmd(d, file, out)) == Spans(d) + {file};
  }

  /** parsecmd on the buffer that holds the line. None is one of the parser's panics;
      otherwise what runcmd will read is the tree the grammar gives. */
  method Parsecmd(buf: array<char>) returns (r: Option<Cmd<Span>>)
    requires buf.Length > 0 && buf[buf.Length - 1] == '\0' && CString(buf[..buf.Length - 1])
    modifies buf
    ensures r.None? ==> Parse(old(buf[..buf.Length - 1])) == Panic
    ensures r.Some? ==> Parse(old(buf[..buf.Length - 1])) == Ok(ReadTree(buf[..], r.value), [])
  {
    hide Lex, ParseLine, WordAt, EndsAt;
    var s := buf[..buf.Length - 1];
    var p;
    r, p := Parseline(s, 0);
    assert s[0..] == s;
    if r.None? { return; }
    var b;
    b, p := Peek(s, p, "");
    if p != |s| { return None; }
    AtEnd(s, p);
    forall w | w in Spans(r.value) ensures w.eq < buf.Length { CutWord(s, w); }
    Nulterminate(r.value, buf);
    TreeReadsBack(s, r.value, buf[..], r.value);
  }
}
