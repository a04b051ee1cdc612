/**
 The shell's parser (user/sh.c:262-446): gettoken and peek over the characters of a
 line, and a recursive descent over the tokens. The grammar is first stated on token
 sequences; the parser that moves a cursor over the characters is proved to compute
 it, and printing a command and parsing it back is proved to give the command.
 */
module Shell {

  const MAXARGS: nat := 10
  const WHITESPACE: string := [' ', '\t', '\r', '\n', 11 as char]
  const SYMBOLS: string := "<|>&;()"
  const NUL: char := 0 as char

  // ---------------------------------------------------------------- commands and tokens

  datatype Way = In | Out       // O_RDONLY on 0, O_WRONLY|O_CREATE on 1

  datatype Cmd =
    | Exec(argv: seq<string>)
    | Redir(cmd: Cmd, file: string, way: Way)
    | Pipe(left: Cmd, right: Cmd)
    | List(left: Cmd, right: Cmd)
    | Back(cmd: Cmd)

  /** A symbol, '+' standing for ">>", or a word. */
  datatype Tok = Sym(c: char) | Word(text: string)

  /** What a parser makes of some tokens: a command and the tokens left, or a panic. */
  datatype Parsed = Panic | Ok(cmd: Cmd, rest: seq<Tok>)

  /** The next token is the symbol. */
  predicate Next(t: seq<Tok>, c: char) { |t| > 0 && t[0] == Sym(c) }

  // ---------------------------------------------------------------- the grammar

  /** The redirections at the front: from the last one in, what comes first is innermost. */
  function ParseRedirs(cmd: Cmd, t: seq<Tok>): (r: Parsed)
    ensures r.Ok? ==> |r.rest| <= |t|
    decreases |t|
  {
    if !(Next(t, '<') || Next(t, '>') || Next(t, '+')) then Ok(cmd, t)
    else if |t| == 1 || !t[1].Word? then Panic
    else ParseRedirs(Redir(cmd, t[1].text, if Next(t, '<') then In else Out), t[2..])
  }

  /** The last words of a simple command are added to the innermost node, under its redirections. */
  function AddArg(cmd: Cmd, w: string): Cmd {
    match cmd
    case Exec(argv) => Exec(argv + [w])
    case Redir(c, file, way) => Redir(AddArg(c, w), file, way)
    case _ => cmd
  }

  predicate EndsExec(t: seq<Tok>) { |t| == 0 || Next(t, '|') || Next(t, ')') || Next(t, '&') || Next(t, ';') }

  function ParseArgs(cmd: Cmd, argc: nat, t: seq<Tok>): (r: Parsed)
    ensures r.Ok? ==> |r.rest| <= |t|
    decreases |t|
  {
    if EndsExec(t) then Ok(cmd, t)
    else if !t[0].Word? || argc + 1 >= MAXARGS then Panic
    else
      var r := ParseRedirs(AddArg(cmd, t[0].text), t[1..]);
      if r.Panic? then Panic else ParseArgs(r.cmd, argc + 1, r.rest)
  }

  function ParseExec(t: seq<Tok>): (r: Parsed)
    ensures r.Ok? ==> |r.rest| <= |t|
    decreases |t|, 0
  {
    if Next(t, '(') then
      var r := ParseLine(t[1..]);
      if r.Panic? || !Next(r.rest, ')') then Panic else ParseRedirs(r.cmd, r.rest[1..])
    else
      var r := ParseRedirs(Exec([]), t);
      if r.Panic? then Panic else ParseArgs(r.cmd, 0, r.rest)
  }

  function ParsePipe(t: seq<Tok>): (r: Parsed)
    ensures r.Ok? ==> |r.rest| <= |t|
    decreases |t|, 1
  {
    var l := ParseExec(t);
    if l.Panic? || !Next(l.rest, '|') then l
    else
      var r := ParsePipe(l.rest[1..]);
      if r.Panic? then Panic else Ok(Pipe(l.cmd, r.cmd), r.rest)
  }

  function ParseAmps(cmd: Cmd, t: seq<Tok>): (r: Parsed)
    ensures r.Ok? && |r.rest| <= |t|
    decreases |t|
  {
    if Next(t, '&') then ParseAmps(Back(cmd), t[1..]) else Ok(cmd, t)
  }

  function ParseLine(t: seq<Tok>): (r: Parsed)
    ensures r.Ok? ==> |r.rest| <= |t|
    decreases |t|, 2
  {
    var p := ParsePipe(t);
    if p.Panic? then Panic
    else
      var l := ParseAmps(p.cmd, p.rest);
      if !Next(l.rest, ';') then l
      else
        var r := ParseLine(l.rest[1..]);
        if r.Panic? then Panic else Ok(List(l.cmd, r.cmd), r.rest)
  }

  // ---------------------------------------------------------------- printing

  function RedirToks(cmd: Cmd): seq<Tok> {
    if cmd.Redir? then RedirToks(cmd.cmd) + [Sym(if cmd.way == In then '<' else '>'), Word(cmd.file)] else []
  }

  /** What is under a command's redirections. */
  function Core(cmd: Cmd): (r: Cmd)
    ensures !r.Redir? && (r == cmd || r < cmd)
  {
    if cmd.Redir? then Core(cmd.cmd) else cmd
  }

  function Words(argv: seq<string>): (r: seq<Tok>)
    ensures |r| == |argv| && forall i :: 0 <= i < |argv| ==> r[i] == Word(argv[i])
  {
    seq(|argv|, i requires 0 <= i < |argv| => Word(argv[i]))
  }

  /** A command where a simple command or a block is expected. */
  function PrintExec(c: Cmd): seq<Tok>
    decreases c, 1
  {
    (if Core(c).Exec? then Words(Core(c).argv) else [Sym('(')] + PrintOpen(Core(c)) + [Sym(')')]) + RedirToks(c)
  }

  /** A pipeline, list or background command without parentheses around it. */
  function PrintOpen(c: Cmd): seq<Tok>
    requires c.Pipe? || c.List? || c.Back?
    decreases c, 0
  {
    match c
    case Pipe(l, r) => PrintExec(l) + [Sym('|')] + PrintPipe(r)
    case Back(x) => PrintBack(x) + [Sym('&')]
    case List(l, r) => PrintBack(l) + [Sym(';')] + PrintLine(r)
  }

  function PrintPipe(c: Cmd): seq<Tok>
    decreases c, 2
  {
    if c.Pipe? then PrintOpen(c) else PrintExec(c)
  }

  function PrintBack(c: Cmd): seq<Tok>
    decreases c, 3
  {
    if c.Back? then PrintOpen(c) else PrintPipe(c)
  }

  function PrintLine(c: Cmd): seq<Tok>
    decreases c, 4
  {
    if c.List? then PrintOpen(c) else PrintBack(c)
  }

  /** At most nine words to a simple command. */
  predicate Good(c: Cmd) {
    match c
    case Exec(argv) => |argv| < MAXARGS
    case Redir(x, _, _) => Good(x)
    case Pipe(l, r) => Good(l) && Good(r)
    case List(l, r) => Good(l) && Good(r)
    case Back(x) => Good(x)
  }

  // ---------------------------------------------------------------- printing, then parsing

  /** A command's redirections put on another. */
  function Rewrap(c: Cmd, x: Cmd): Cmd {
    if c.Redir? then Redir(Rewrap(c.cmd, x), c.file, c.way) else x
  }

  lemma {:induction false} RewrapCore(c: Cmd)
    ensures Rewrap(c, Core(c)) == c
    ensures Good(c) ==> Good(Core(c))
  {
    if c.Redir? {
      RewrapCore(c.cmd);
    }
  }

  predicate StartsRedir(t: seq<Tok>) { Next(t, '<') || Next(t, '>') || Next(t, '+') }

  lemma {:induction false} RedirsBack(c: Cmd, x: Cmd, rest: seq<Tok>)
    ensures ParseRedirs(x, RedirToks(c) + rest) == ParseRedirs(Rewrap(c, x), rest)
    decreases c
  {
    if c.Redir? {
      var more := [Sym(if c.way == In then '<' else '>'), Word(c.file)] + rest;
      assert RedirToks(c) + rest == RedirToks(c.cmd) + more;
      RedirsBack(c.cmd, x, more);
      assert more[2..] == rest;
    } else {
      assert RedirToks(c) + rest == rest;
    }
  }

  lemma NoRedirs(c: Cmd, t: seq<Tok>)
    requires !StartsRedir(t)
    ensures ParseRedirs(c, t) == Ok(c, t)
  {
  }

  lemma ArgsStep(argv: seq<string>, argc: nat, w: string, t: seq<Tok>)
    requires argc + 1 < MAXARGS
    ensures var r := ParseRedirs(Exec(argv + [w]), t);
            ParseArgs(Exec(argv), argc, [Word(w)] + t) == if r.Panic? then Panic else ParseArgs(r.cmd, argc + 1, r.rest)
  {
    hide ParseRedirs;
    assert ([Word(w)] + t)[1..] == t;
  }

  lemma ArgsEnd(c: Cmd, argc: nat, t: seq<Tok>)
    requires EndsExec(t)
    ensures ParseArgs(c, argc, t) == Ok(c, t) && !StartsRedir(t) && !Next(t, '(')
  {
  }

  /** The words of a simple command from the kth on, and its redirections. */
  lemma {:induction false} ArgsBack(c: Cmd, k: nat, rest: seq<Tok>)
    requires Core(c).Exec? && k < |Core(c).argv| < MAXARGS && EndsExec(rest)
    ensures var argv := Core(c).argv;
            ParseArgs(Exec(argv[..k]), k, Words(argv)[k..] + (RedirToks(c) + rest)) == Ok(c, rest)
    decreases |Core(c).argv| - k
  {
    hide ParseArgs, ParseRedirs, RedirToks, Core, Words, Rewrap, EndsExec;
    var argv := Core(c).argv;
    var more := RedirToks(c) + rest;
    var u := Words(argv)[k + 1..] + more;
    assert Words(argv)[k..] + more == [Word(argv[k])] + u;
    assert argv[..k + 1] == argv[..k] + [argv[k]];
    ArgsStep(argv[..k], k, argv[k], u);
    if k + 1 < |argv| {
      assert u[0] == Word(argv[k + 1]);
      NoRedirs(Exec(argv[..k + 1]), u);
      ArgsBack(c, k + 1, rest);
    } else {
      assert argv[..k + 1] == argv && u == more;
      RedirsBack(c, Exec(argv), rest);
      RewrapCore(c);
      ArgsEnd(c, k + 1, rest);
      NoRedirs(c, rest);
    }
  }

  lemma ExecUnfold(t: seq<Tok>)
    requires !Next(t, '(')
    ensures var r := ParseRedirs(Exec([]), t); ParseExec(t) == if r.Panic? then Panic else ParseArgs(r.cmd, 0, r.rest)
  {
    hide ParseRedirs, ParseArgs;
  }

  lemma SimpleRound(c: Cmd, rest: seq<Tok>)
    requires Core(c).Exec? && |Core(c).argv| < MAXARGS && EndsExec(rest)
    ensures ParseExec(PrintExec(c) + rest) == Ok(c, rest)
  {
    hide Rewrap, ParseExec, ParseArgs, ParseRedirs, RedirToks, Core, Words, EndsExec;
    var argv := Core(c).argv;
    var t := PrintExec(c) + rest;
    assert t == Words(argv) + (RedirToks(c) + rest);
    ArgsEnd(c, 0, rest);
    if argv == [] {
      assert t == RedirToks(c) + rest;
      RedirsStart(c);
      ExecUnfold(t);
      RedirsBack(c, Exec([]), rest);
      RewrapCore(c);
      NoRedirs(c, rest);
    } else {
      assert t[0] == Word(argv[0]);
      ExecUnfold(t);
      NoRedirs(Exec([]), t);
      ArgsBack(c, 0, rest);
      assert argv[..0] == [] && Words(argv)[0..] == Words(argv);
    }
  }

  lemma {:induction false} RedirsStart(c: Cmd)
    ensures RedirToks(c) == [] || RedirToks(c)[0] == Sym('<') || RedirToks(c)[0] == Sym('>')
  {
    if c.Redir? {
      RedirsStart(c.cmd);
    }
  }

  predicate EndsPipe(t: seq<Tok>) { |t| == 0 || Next(t, ')') || Next(t, '&') || Next(t, ';') }

  predicate EndsLine(t: seq<Tok>) { |t| == 0 || Next(t, ')') }

  lemma {:induction false} ExecRound(c: Cmd, rest: seq<Tok>)
    requires Good(c) && EndsExec(rest)
    ensures ParseExec(PrintExec(c) + rest) == Ok(c, rest)
    decreases c, 1
  {
    RewrapCore(c);
    var x := Core(c);
    if x.Exec? {
      SimpleRound(c, rest);
    } else {
      var more := [Sym(')')] + (RedirToks(c) + rest);
      var t := PrintExec(c) + rest;
      assert t == [Sym('(')] + (PrintOpen(x) + more);
      assert t[1..] == PrintOpen(x) + more;
      OpenRound(x, more);
      assert more[1..] == RedirToks(c) + rest;
      RedirsBack(c, x, rest);
    }
  }

  lemma {:induction false} PipeRound(c: Cmd, rest: seq<Tok>)
    requires Good(c) && EndsPipe(rest)
    ensures ParsePipe(PrintPipe(c) + rest) == Ok(c, rest)
    decreases c, 2
  {
    if c.Pipe? {
      PipeOpen(c, rest);
    } else {
      ExecRound(c, rest);
    }
  }

  lemma {:induction false} PipeOpen(c: Cmd, rest: seq<Tok>)
    requires c.Pipe? && Good(c) && EndsPipe(rest)
    ensures ParsePipe(PrintOpen(c) + rest) == Ok(c, rest)
    decreases c, 0
  {
    var more := [Sym('|')] + (PrintPipe(c.right) + rest);
    assert PrintOpen(c) + rest == PrintExec(c.left) + more;
    assert more[1..] == PrintPipe(c.right) + rest;
    ExecRound(c.left, more);
    PipeRound(c.right, rest);
  }

  /** A background chain: parsepipe takes the pipeline and parseline's loop the rest. */
  lemma {:induction false} BackRound(c: Cmd, rest: seq<Tok>)
    requires Good(c) && EndsPipe(rest)
    ensures var p := ParsePipe(PrintBack(c) + rest); p.Ok? && ParseAmps(p.cmd, p.rest) == ParseAmps(c, rest)
    decreases c, 3
  {
    if c.Back? {
      var more := [Sym('&')] + rest;
      assert PrintBack(c) + rest == PrintBack(c.cmd) + more;
      assert more[1..] == rest;
      BackRound(c.cmd, more);
    } else {
      PipeRound(c, rest);
    }
  }

  lemma {:induction false} OpenRound(c: Cmd, rest: seq<Tok>)
    requires (c.Pipe? || c.List? || c.Back?) && Good(c) && EndsLine(rest)
    ensures ParseLine(PrintOpen(c) + rest) == Ok(c, rest)
    decreases c, 0
  {
    match c
    case Pipe(l, r) =>
      var more := [Sym('|')] + (PrintPipe(r) + rest);
      assert PrintOpen(c) + rest == PrintExec(l) + more && more[1..] == PrintPipe(r) + rest;
      ExecRound(l, more);
      PipeRound(r, rest);
    case Back(x) =>
      var more := [Sym('&')] + rest;
      assert PrintOpen(c) + rest == PrintBack(x) + more && more[1..] == rest;
      BackRound(x, more);
    case List(l, r) =>
      var more := [Sym(';')] + (PrintLine(r) + rest);
      assert PrintOpen(c) + rest == PrintBack(l) + more && more[1..] == PrintLine(r) + rest;
      BackRound(l, more);
      LineRound(r, rest);
  }

  lemma {:induction false} LineRound(c: Cmd, rest: seq<Tok>)
    requires Good(c) && EndsLine(rest)
    ensures ParseLine(PrintLine(c) + rest) == Ok(c, rest)
    decreases c, 4
  {
    if c.Pipe? || c.List? || c.Back? {
      assert c.Pipe? ==> PrintPipe(c) == PrintOpen(c) && PrintBack(c) == PrintPipe(c);
      assert PrintLine(c) == PrintOpen(c);
      OpenRound(c, rest);
    } else {
      assert PrintLine(c) == PrintBack(c) == PrintPipe(c) == PrintExec(c);
      ExecRound(c, rest);
      assert ParsePipe(PrintExec(c) + rest) == Ok(c, rest);
    }
  }

  // ---------------------------------------------------------------- characters

  predicate IsSpace(c: char) { c in WHITESPACE }

  predicate IsSymbol(c: char) { c in SYMBOLS }

  predicate IsPlain(c: char) { !IsSpace(c) && !IsSymbol(c) }

  /** A C string's characters: those before the first NUL. */
  predicate NoNul(s: string) { forall i :: 0 <= i < |s| ==> s[i] != NUL }

  /** strlen */
  function StrLen(s: string): (n: nat)
    ensures n <= |s| && NoNul(s[..n]) && (n < |s| ==> s[n] == NUL)
  {
    if s == [] || s[0] == NUL then 0
    else
      assert s[..1 + StrLen(s[1..])] == [s[0]] + s[1..][..StrLen(s[1..])];
      1 + StrLen(s[1..])
  }

  /** The characters after leading whitespace. */
  function Skip(s: string): (r: string)
    ensures |r| <= |s| && (r == [] || !IsSpace(r[0]))
  {
    if s != [] && IsSpace(s[0]) then Skip(s[1..]) else s
  }

  /** The length of the word at the front. */
  function WordLen(s: string): (n: nat)
    ensures n <= |s| && (s != [] && IsPlain(s[0]) ==> n > 0)
  {
    if s != [] && IsPlain(s[0]) then 1 + WordLen(s[1..]) else 0
  }

  /** gettoken on text that does not start with whitespace: the token and its length. */
  function TokenAt(s: string): (r: (Tok, nat))
    requires s != [] && !IsSpace(s[0])
    ensures 0 < r.1 <= |s|
  {
    if s[0] == '>' then (if |s| > 1 && s[1] == '>' then (Sym('+'), 2) else (Sym('>'), 1))
    else if IsSymbol(s[0]) then (Sym(s[0]), 1)
    else (Word(s[..WordLen(s)]), WordLen(s))
  }

  /** The tokens of a text. */
  function Lex(s: string): seq<Tok>
    decreases |s|
  {
    var u := Skip(s);
    if u == [] then [] else [TokenAt(u).0] + Lex(u[TokenAt(u).1..])
  }

  /** A token's text. */
  function Text(t: Tok): string { if t.Word? then t.text else if t.c == '+' then ">>" else [t.c] }

  predicate PlainWord(w: string) { w != [] && NoNul(w) && forall i :: 0 <= i < |w| ==> IsPlain(w[i]) }

  predicate GoodTok(t: Tok) { if t.Word? then PlainWord(t.text) else t.c == '+' || IsSymbol(t.c) }

  /** Tokens with a space after each. */
  function Spell(t: seq<Tok>): string {
    if |t| == 0 then [] else Text(t[0]) + [' '] + Spell(t[1..])
  }

  lemma {:induction false} WordLenAppend(w: string, s: string)
    requires (forall i :: 0 <= i < |w| ==> IsPlain(w[i])) && (s == [] || !IsPlain(s[0]))
    ensures WordLen(w + s) == |w|
  {
    if w == [] {
      assert w + s == s;
    } else {
      assert (w + s)[1..] == w[1..] + s;
      WordLenAppend(w[1..], s);
    }
  }

  lemma FirstToken(t: Tok, s: string)
    requires GoodTok(t)
    ensures var u := Text(t) + [' '] + s; Skip(u) == u && TokenAt(u) == (t, |Text(t)|) && u[|Text(t)|..] == [' '] + s
  {
    var u := Text(t) + [' '] + s;
    assert u == Text(t) + ([' '] + s);
    assert IsSpace(' ');
    if t.Word? {
      WordLenAppend(t.text, [' '] + s);
      assert u[0] == t.text[0] && IsPlain(u[0]) && u[0] != '>';
      assert IsSymbol('>');
      assert u[..|t.text|] == t.text;
    } else {
      SymbolsApart(u[0]);
      assert u[0] == if t.c == '+' then '>' else t.c;
    }
  }

  lemma SymbolsApart(c: char)
    ensures IsSymbol(c) ==> !IsSpace(c)
    ensures IsSymbol('>') && !IsSymbol('+')
  {
  }

  lemma LexSpace(s: string)
    ensures Lex([' '] + s) == Lex(s)
  {
    assert IsSpace(' ');
    assert ([' '] + s)[1..] == s;
    assert Skip([' '] + s) == Skip(s);
  }

  /** Lexing undoes spelling. */
  lemma {:induction false} LexSpell(t: seq<Tok>)
    requires forall i :: 0 <= i < |t| ==> GoodTok(t[i])
    ensures Lex(Spell(t)) == t
    decreases |t|
  {
    hide Skip, TokenAt, Text, GoodTok;
    if |t| > 0 {
      FirstToken(t[0], Spell(t[1..]));
      LexSpace(Spell(t[1..]));
      LexSpell(t[1..]);
    } else {
      LexEmpty();
    }
  }

  lemma {:induction false} SpellNoNul(t: seq<Tok>)
    requires forall i :: 0 <= i < |t| ==> GoodTok(t[i])
    ensures NoNul(Spell(t))
    decreases |t|
  {
    if |t| > 0 {
      assert !IsSymbol(NUL);
      SpellNoNul(t[1..]);
    }
  }

  lemma LexEmpty()
    ensures Lex([]) == []
  {
  }

  /** Words and file names are plain. */
  predicate GoodWords(c: Cmd) {
    match c
    case Exec(argv) => forall i :: 0 <= i < |argv| ==> PlainWord(argv[i])
    case Redir(x, file, _) => PlainWord(file) && GoodWords(x)
    case Pipe(l, r) => GoodWords(l) && GoodWords(r)
    case List(l, r) => GoodWords(l) && GoodWords(r)
    case Back(x) => GoodWords(x)
  }

  predicate AllGood(t: seq<Tok>) { forall i :: 0 <= i < |t| ==> GoodTok(t[i]) }

  lemma {:induction false} RedirsGood(c: Cmd)
    requires GoodWords(c)
    ensures AllGood(RedirToks(c)) && GoodWords(Core(c))
  {
    if c.Redir? {
      RedirsGood(c.cmd);
      assert IsSymbol('<') && IsSymbol('>');
    }
  }

  lemma {:induction false} ExecGood(c: Cmd)
    requires GoodWords(c)
    ensures AllGood(PrintExec(c))
    decreases c, 1
  {
    RedirsGood(c);
    if !Core(c).Exec? {
      OpenGood(Core(c));
      assert IsSymbol('(') && IsSymbol(')');
    }
  }

  lemma {:induction false} OpenGood(c: Cmd)
    requires (c.Pipe? || c.List? || c.Back?) && GoodWords(c)
    ensures AllGood(PrintOpen(c))
    decreases c, 0
  {
    assert IsSymbol('|') && IsSymbol('&') && IsSymbol(';');
    match c
    case Pipe(l, r) =>
      ExecGood(l);
      LineGood(r);
    case Back(x) => LineGood(x);
    case List(l, r) =>
      LineGood(l);
      LineGood(r);
  }

  lemma {:induction false} LineGood(c: Cmd)
    requires GoodWords(c)
    ensures AllGood(PrintLine(c)) && AllGood(PrintBack(c)) && AllGood(PrintPipe(c))
    decreases c, 2
  {
    ExecGood(c);
    if c.Pipe? || c.List? || c.Back? {
      OpenGood(c);
    }
    assert c.Pipe? ==> PrintPipe(c) == PrintOpen(c);
    assert !c.Pipe? ==> PrintPipe(c) == PrintExec(c);
    assert !c.Back? ==> PrintBack(c) == PrintPipe(c);
    assert !c.List? ==> PrintLine(c) == PrintBack(c);
  }

  /** A whole line parsed: parsecmd's result. The line ends at its first NUL. */
  function ParseCmd(s: string): Parsed {
    var r := ParseLine(Lex(s[..StrLen(s)]));
    if r.Panic? || r.rest != [] then Panic else r
  }

  // ---------------------------------------------------------------- what parsing can give

  /** A command that parsing can give. */
  predicate Fine(c: Cmd) { Good(c) && GoodWords(c) }

  /** A simple command with argc words under some redirections. */
  predicate Simple(c: Cmd, argc: nat) { Core(c).Exec? && |Core(c).argv| == argc }

  lemma {:induction false} RedirsFine(c: Cmd, t: seq<Tok>, argc: nat)
    requires Fine(c) && AllGood(t)
    ensures var r := ParseRedirs(c, t);
            r.Ok? ==> Fine(r.cmd) && AllGood(r.rest) && (Simple(c, argc) ==> Simple(r.cmd, argc))
    decreases |t|
  {
    if StartsRedir(t) && |t| > 1 && t[1].Word? {
      var c' := Redir(c, t[1].text, if Next(t, '<') then In else Out);
      assert GoodTok(t[1]);
      assert Fine(c') && Core(c') == Core(c);
      RedirsFine(c', t[2..], argc);
    }
  }

  lemma {:induction false} AddArgFine(c: Cmd, w: string, argc: nat)
    requires Fine(c) && Simple(c, argc) && argc + 1 < MAXARGS && PlainWord(w)
    ensures Fine(AddArg(c, w)) && Simple(AddArg(c, w), argc + 1)
  {
    if c.Redir? {
      AddArgFine(c.cmd, w, argc);
    }
  }

  lemma {:induction false} ArgsFine(c: Cmd, argc: nat, t: seq<Tok>)
    requires Fine(c) && Simple(c, argc) && AllGood(t)
    ensures var r := ParseArgs(c, argc, t); r.Ok? ==> Fine(r.cmd) && AllGood(r.rest)
    decreases |t|
  {
    hide Simple, Fine, AddArg, ParseRedirs, GoodTok;
    if !EndsExec(t) && t[0].Word? && argc + 1 < MAXARGS {
      GoodWordTok(t[0]);
      AddArgFine(c, t[0].text, argc);
      RedirsFine(AddArg(c, t[0].text), t[1..], argc + 1);
      var r := ParseRedirs(AddArg(c, t[0].text), t[1..]);
      if r.Ok? {
        ArgsFine(r.cmd, argc + 1, r.rest);
      }
    }
  }

  lemma GoodWordTok(t: Tok)
    requires GoodTok(t) && t.Word?
    ensures PlainWord(t.text)
  {
  }

  lemma EmptyFine()
    ensures Fine(Exec([])) && Simple(Exec([]), 0)
  {
  }

  lemma {:induction false} ExecFine(t: seq<Tok>)
    requires AllGood(t)
    ensures var r := ParseExec(t); r.Ok? ==> Fine(r.cmd) && AllGood(r.rest)
    decreases |t|, 0
  {
    hide Simple, ParseRedirs, ParseArgs, GoodTok, Fine;
    if Next(t, '(') {
      LineFine(t[1..]);
      var r := ParseLine(t[1..]);
      if r.Ok? && Next(r.rest, ')') {
        RedirsFine(r.cmd, r.rest[1..], 0);
      }
    } else {
      EmptyFine();
      RedirsFine(Exec([]), t, 0);
      var r := ParseRedirs(Exec([]), t);
      if r.Ok? {
        ArgsFine(r.cmd, 0, r.rest);
      }
    }
  }

  lemma {:induction false} PipeFine(t: seq<Tok>)
    requires AllGood(t)
    ensures var r := ParsePipe(t); r.Ok? ==> Fine(r.cmd) && AllGood(r.rest)
    decreases |t|, 1
  {
    hide ParseExec, GoodTok;
    ExecFine(t);
    var e := ParseExec(t);
    if e.Ok? && Next(e.rest, '|') {
      PipeFine(e.rest[1..]);
    }
  }

  lemma {:induction false} LineFine(t: seq<Tok>)
    requires AllGood(t)
    ensures var r := ParseLine(t); r.Ok? ==> Fine(r.cmd) && AllGood(r.rest)
    decreases |t|, 2
  {
    hide ParsePipe, GoodTok;
    PipeFine(t);
    var p := ParsePipe(t);
    if p.Ok? {
      AmpsFine(p.cmd, p.rest);
      var l := ParseAmps(p.cmd, p.rest);
      if Next(l.rest, ';') {
        LineFine(l.rest[1..]);
      }
    }
  }

  lemma {:induction false} AmpsFine(c: Cmd, t: seq<Tok>)
    requires Fine(c) && AllGood(t)
    ensures var r := ParseAmps(c, t); Fine(r.cmd) && AllGood(r.rest)
    decreases |t|
  {
    if Next(t, '&') {
      AmpsFine(Back(c), t[1..]);
    }
  }

  lemma {:induction false} WordPlain(s: string)
    ensures forall i :: 0 <= i < WordLen(s) ==> IsPlain(s[i])
  {
    if s != [] && IsPlain(s[0]) {
      WordPlain(s[1..]);
      forall i | 0 <= i < WordLen(s) ensures IsPlain(s[i]) {
        if i > 0 {
          assert s[i] == s[1..][i - 1];
        }
      }
    }
  }

  lemma {:induction false} SkipNoNul(s: string)
    requires NoNul(s)
    ensures NoNul(Skip(s))
  {
    if s != [] && IsSpace(s[0]) {
      SkipNoNul(s[1..]);
    }
  }

  lemma {:induction false} LexGood(s: string)
    requires NoNul(s)
    ensures AllGood(Lex(s))
    decreases |s|
  {
    var u := Skip(s);
    SkipNoNul(s);
    if u != [] {
      WordPlain(u);
      assert IsSymbol('>');
      LexGood(u[TokenAt(u).1..]);
    }
  }

  /**
   Printing a command and parsing the text gives the command back, and uses up the
   text, exactly when the command has at most nine words to a simple command, all words
   non-empty and free of symbols, whitespace and NULs.
   */
  lemma RoundTrip(c: Cmd)
    ensures ParseCmd(Spell(PrintLine(c))) == Ok(c, []) <==> Fine(c)
  {
    hide PrintLine, ParseLine, Good, GoodWords;
    var s := Spell(PrintLine(c));
    var line := s[..StrLen(s)];
    LexGood(line);
    LineFine(Lex(line));
    if Fine(c) {
      LineGood(c);
      SpellNoNul(PrintLine(c));
      assert line == s;
      LexSpell(PrintLine(c));
      LineRound(c, []);
      assert PrintLine(c) + [] == PrintLine(c);
    }
  }

  // ---------------------------------------------------------------- the code

  /** The symbol, or 'a' for a word. */
  function Kind(t: Tok): char { if t.Word? then 'a' else t.c }

  function FirstChar(t: Tok): char
    requires GoodTok(t)
  {
    Text(t)[0]
  }

  /** The parser's cursor (char **ps) in a line that ends at es. */
  class Parser {
    const s: string
    var pos: nat

    ghost predicate Valid()
      reads this
    {
      pos <= |s| && NoNul(s)
    }

    /** The tokens still to come. */
    ghost function Left(): seq<Tok>
      requires Valid()
      reads this
    {
      Lex(s[pos..])
    }

    constructor (line: string)
      ensures s == line[..StrLen(line)] && pos == 0 && Valid()
    {
      s, pos := line[..StrLen(line)], 0;
    }

    method SkipSpace()
      requires Valid()
      modifies this
      ensures Valid() && pos >= old(pos) && s[pos..] == Skip(s[old(pos)..])
    {
      while pos < |s| && s[pos] in WHITESPACE
        invariant Valid() && pos >= old(pos) && Skip(s[pos..]) == Skip(s[old(pos)..])
        decreases |s| - pos
      {
        assert s[pos..][1..] == s[pos + 1..];
        pos := pos + 1;
      }
    }

    /** peek: whether the next token starts with one of these characters; only whitespace is passed. */
    method Peek(toks: string) returns (b: bool)
      requires Valid()
      modifies this
      ensures Valid() && pos >= old(pos) && s[pos..] == Skip(s[old(pos)..]) && Left() == old(Left())
      ensures AllGood(Left()) && (b <==> Left() != [] && FirstChar(Left()[0]) in toks)
    {
      SkipSpace();
      LexSkip(s[old(pos)..]);
      LexGood(s[pos..]);
      LexFirst(s[pos..]);
      b := pos < |s| && s[pos] in toks;
    }

    /** The middle of gettoken: one token, from a character that is not whitespace. */
    method TakeToken() returns (tok: char)
      requires Valid() && pos < |s| && !IsSpace(s[pos])
      modifies this
      ensures Valid() && pos == old(pos) + TokenAt(s[old(pos)..]).1
      ensures tok == Kind(TokenAt(s[old(pos)..]).0)
      ensures TokenAt(s[old(pos)..]).0.Word? ==> s[old(pos)..pos] == TokenAt(s[old(pos)..]).0.text
    {
      var c, q := s[pos], pos;
      ghost var u := s[pos..];
      tok := c;
      if c == '>' {
        pos := pos + 1;
        if pos < |s| && s[pos] == '>' {
          tok := '+';
          pos := pos + 1;
        }
      } else if c in "|();&<" {
        pos := pos + 1;
      } else {
        tok := 'a';
        assert !IsSymbol(c);
        while pos < |s| && s[pos] !in WHITESPACE && s[pos] !in SYMBOLS
          invariant q <= pos <= |s| && (pos - q) + WordLen(s[pos..]) == WordLen(u)
          decreases |s| - pos
        {
          assert s[pos..][1..] == s[pos + 1..];
          pos := pos + 1;
        }
        assert s[q..pos] == u[..pos - q];
      }
    }

    /** gettoken: the next token's kind, 0 at the end; a word is s[q..eq]. */
    method GetToken() returns (tok: char, q: nat, eq: nat)
      requires Valid()
      modifies this
      ensures Valid() && pos >= old(pos)
      ensures old(Left()) == [] ==> tok == NUL && Left() == []
      ensures old(Left()) != [] ==>
                && pos > old(pos) && tok == Kind(old(Left())[0]) && tok != NUL && Left() == old(Left())[1..]
                && (tok == 'a' <==> old(Left())[0].Word?)
                && (old(Left())[0].Word? ==> q <= eq <= |s| && s[q..eq] == old(Left())[0].text)
    {
      hide Lex, TokenAt, Skip, Kind, Text, GoodTok;
      LexGood(s[pos..]);
      KindsApart(Left());
      SkipSpace();
      LexSkip(s[old(pos)..]);
      ghost var u := s[pos..];
      LexFirst(u);
      q := pos;
      if pos == |s| {
        return NUL, q, pos;
      }
      tok := TakeToken();
      eq := pos;
      assert s[pos..] == u[pos - q..];
      LexSkip(s[pos..]);
      SkipSpace();
    }

    method TryRedirs(sub: Cmd) returns (ok: bool, cmd: Cmd)
      requires Valid()
      modifies this
      ensures Valid() && pos >= old(pos)
      ensures var r := ParseRedirs(sub, old(Left())); ok == r.Ok? && (ok ==> cmd == r.cmd && Left() == r.rest)
    {
      hide Lex, Valid, GoodTok, FirstChar;
      ok, cmd := true, sub;
      var more := Peek("<>");
      RedirChars(Left());
      while more
        invariant Valid() && pos >= old(pos) && ParseRedirs(cmd, Left()) == ParseRedirs(sub, old(Left()))
        invariant more == StartsRedir(Left())
        decreases |s| - pos
      {
        var tok, _, _ := GetToken();
        var kind, q, eq := GetToken();
        if kind != 'a' {
          return false, cmd;
        }
        cmd := Redir(cmd, s[q..eq], if tok == '<' then In else Out);
        more := Peek("<>");
        RedirChars(Left());
      }
    }

    /** parseexec without a block: words and redirections, at most nine words. */
    method TryArgs(sub: Cmd) returns (ok: bool, cmd: Cmd)
      requires Valid()
      modifies this
      ensures Valid() && pos >= old(pos)
      ensures var r := ParseArgs(sub, 0, old(Left())); ok == r.Ok? && (ok ==> cmd == r.cmd && Left() == r.rest)
    {
      hide Lex, Valid, GoodTok, FirstChar, ParseRedirs, AddArg;
      ok, cmd := true, sub;
      var argc: nat := 0;
      var end := Peek("|)&;");
      EndChars(Left());
      while !end
        invariant Valid() && pos >= old(pos) && ParseArgs(cmd, argc, Left()) == ParseArgs(sub, 0, old(Left()))
        invariant end == (Left() != [] && EndsExec(Left()))
        decreases |s| - pos
      {
        var tok, q, eq := GetToken();
        if tok == NUL {
          return true, cmd;
        }
        if tok != 'a' {
          return false, cmd;
        }
        cmd := AddArg(cmd, s[q..eq]);
        argc := argc + 1;
        if argc >= MAXARGS {
          return false, cmd;
        }
        ok, cmd := TryRedirs(cmd);
        if !ok {
          return;
        }
        end := Peek("|)&;");
        EndChars(Left());
      }
    }

    /** parseexec, with parseblock in it. */
    method TryExec() returns (ok: bool, cmd: Cmd)
      requires Valid()
      modifies this
      ensures Valid() && pos >= old(pos)
      ensures var r := ParseExec(old(Left())); ok == r.Ok? && (ok ==> cmd == r.cmd && Left() == r.rest)
      decreases |s| - pos, 0
    {
      hide Lex, GoodTok, FirstChar, ParseRedirs, ParseArgs, ParseLine;
      cmd := Exec([]);
      var block := Peek("(");
      CharIs(Left(), '(');
      if block {
        var _, _, _ := GetToken();
        ok, cmd := TryLine();
        if !ok {
          return;
        }
        var close := Peek(")");
        CharIs(Left(), ')');
        if !close {
          return false, cmd;
        }
        var _, _, _ := GetToken();
        ok, cmd := TryRedirs(cmd);
        return;
      }
      ok, cmd := TryRedirs(cmd);
      if ok {
        ok, cmd := TryArgs(cmd);
      }
    }

    method TryPipe() returns (ok: bool, cmd: Cmd)
      requires Valid()
      modifies this
      ensures Valid() && pos >= old(pos)
      ensures var r := ParsePipe(old(Left())); ok == r.Ok? && (ok ==> cmd == r.cmd && Left() == r.rest)
      decreases |s| - pos, 1
    {
      hide Lex, GoodTok, FirstChar, ParseExec;
      ok, cmd := TryExec();
      if !ok {
        return;
      }
      var bar := Peek("|");
      CharIs(Left(), '|');
      if bar {
        var _, _, _ := GetToken();
        var right;
        ok, right := TryPipe();
        cmd := Pipe(cmd, right);
      }
    }

    method TryLine() returns (ok: bool, cmd: Cmd)
      requires Valid()
      modifies this
      ensures Valid() && pos >= old(pos)
      ensures var r := ParseLine(old(Left())); ok == r.Ok? && (ok ==> cmd == r.cmd && Left() == r.rest)
      decreases |s| - pos, 2
    {
      hide Lex, GoodTok, FirstChar, ParsePipe;
      ok, cmd := TryPipe();
      if !ok {
        return;
      }
      cmd := Amps(cmd);
      var more := Peek(";");
      CharIs(Left(), ';');
      if more {
        var _, _, _ := GetToken();
        var right;
        ok, right := TryLine();
        cmd := List(cmd, right);
      }
    }

    method Amps(sub: Cmd) returns (cmd: Cmd)
      requires Valid()
      modifies this
      ensures Valid() && pos >= old(pos) && Ok(cmd, Left()) == ParseAmps(sub, old(Left()))
    {
      hide Lex, GoodTok, FirstChar;
      cmd := sub;
      var amp := Peek("&");
      CharIs(Left(), '&');
      while amp
        invariant Valid() && pos >= old(pos) && ParseAmps(cmd, Left()) == ParseAmps(sub, old(Left()))
        invariant amp == Next(Left(), '&')
        decreases |s| - pos
      {
        var _, _, _ := GetToken();
        cmd := Back(cmd);
        amp := Peek("&");
        CharIs(Left(), '&');
      }
    }
  }

  /** parsecmd: the command of a whole line, or a panic. */
  method TryCmd(line: string) returns (ok: bool, cmd: Cmd)
    ensures var r := ParseCmd(line); ok == r.Ok? && (ok ==> cmd == r.cmd)
  {
    hide Lex, GoodTok, FirstChar, ParseLine, Skip;
    var p := new Parser(line);
    assert p.s[0..] == p.s;
    ok, cmd := p.TryLine();
    if !ok {
      return;
    }
    SpaceLeft(p.s[p.pos..]);
    var _ := p.Peek("");
    ok := p.pos == |p.s|;
  }

  /** No tokens are left exactly when only whitespace is. */
  lemma SpaceLeft(s: string)
    ensures Lex(s) == [] <==> Skip(s) == []
  {
  }

  lemma EndChars(t: seq<Tok>)
    requires AllGood(t)
    ensures t != [] && FirstChar(t[0]) in "|)&;" <==> t != [] && EndsExec(t)
  {
  }

  lemma CharIs(t: seq<Tok>, c: char)
    requires AllGood(t) && IsSymbol(c) && c != '>'
    ensures t != [] && FirstChar(t[0]) in [c] <==> Next(t, c)
  {
  }

  lemma KindsApart(t: seq<Tok>)
    requires AllGood(t)
    ensures t != [] ==> Kind(t[0]) != NUL && (Kind(t[0]) == 'a' <==> t[0].Word?)
  {
    assert !IsSymbol('a') && !IsSymbol(NUL);
  }

  lemma RedirChars(t: seq<Tok>)
    requires AllGood(t)
    ensures t != [] && FirstChar(t[0]) in "<>" <==> StartsRedir(t)
  {
  }

  lemma LexSkip(s: string)
    ensures Lex(Skip(s)) == Lex(s)
  {
    SkipTwice(s);
  }

  lemma {:induction false} SkipTwice(s: string)
    ensures Skip(Skip(s)) == Skip(s)
  {
    if s != [] && IsSpace(s[0]) {
      SkipTwice(s[1..]);
    }
  }

  lemma LexFirst(u: string)
    requires u == [] || !IsSpace(u[0])
    ensures u == [] <==> Lex(u) == []
    ensures u != [] ==> Lex(u) == [TokenAt(u).0] + Lex(u[TokenAt(u).1..]) && Text(TokenAt(u).0)[..1] == [u[0]]
  {
    assert Skip(u) == u;
  }
}
