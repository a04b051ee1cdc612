/**
 What the shell's parser makes of any tokens (user/sh.c:327-446), not only of printed ones: where
 the words and the redirections of a line go, when a simple command is refused, and what makes no
 difference.
 */
module ShellLaws {
  import opened Shell

  // ---------------------------------------------------------------- ">>" is ">"

  function PlainTok(t: Tok): Tok { if t == Sym('+') then Sym('>') else t }

  /** Every ">>" replaced by ">". */
  function Plain(t: seq<Tok>): (r: seq<Tok>)
    ensures |r| == |t| && forall i :: 0 <= i < |t| ==> r[i] == PlainTok(t[i])
  {
    seq(|t|, i requires 0 <= i < |t| => PlainTok(t[i]))
  }

  function PlainParsed(r: Parsed): Parsed { if r.Panic? then Panic else Ok(r.cmd, Plain(r.rest)) }

  lemma PlainDrop(t: seq<Tok>, k: nat)
    requires k <= |t|
    ensures Plain(t)[k..] == Plain(t[k..])
  {
  }

  lemma PlainNext(t: seq<Tok>, c: char)
    requires c != '>' && c != '+'
    ensures Next(Plain(t), c) <==> Next(t, c)
  {
  }

  lemma {:induction false} RedirsPlain(c: Cmd, t: seq<Tok>)
    ensures ParseRedirs(c, Plain(t)) == PlainParsed(ParseRedirs(c, t))
    decreases |t|
  {
    if StartsRedir(t) && |t| > 1 && t[1].Word? {
      PlainDrop(t, 2);
      RedirsPlain(Redir(c, t[1].text, if Next(t, '<') then In else Out), t[2..]);
    }
  }

  lemma EndsPlain(t: seq<Tok>)
    ensures EndsExec(Plain(t)) <==> EndsExec(t)
  {
  }

  lemma {:induction false} ArgsPlain(c: Cmd, argc: nat, t: seq<Tok>)
    ensures ParseArgs(c, argc, Plain(t)) == PlainParsed(ParseArgs(c, argc, t))
    decreases |t|
  {
    hide ParseRedirs, AddArg, EndsExec;
    EndsPlain(t);
    if !EndsExec(t) && |t| > 0 && t[0].Word? && argc + 1 < MAXARGS {
      PlainDrop(t, 1);
      RedirsPlain(AddArg(c, t[0].text), t[1..]);
      var r := ParseRedirs(AddArg(c, t[0].text), t[1..]);
      if r.Ok? { ArgsPlain(r.cmd, argc + 1, r.rest); }
    }
  }

  lemma {:induction false} ExecPlain(t: seq<Tok>)
    ensures ParseExec(Plain(t)) == PlainParsed(ParseExec(t))
    decreases |t|, 0
  {
    hide ParseRedirs, ParseArgs;
    PlainNext(t, '(');
    if Next(t, '(') {
      PlainDrop(t, 1);
      LinePlain(t[1..]);
      var r := ParseLine(t[1..]);
      if r.Ok? {
        PlainNext(r.rest, ')');
        if Next(r.rest, ')') {
          PlainDrop(r.rest, 1);
          RedirsPlain(r.cmd, r.rest[1..]);
        }
      }
    } else {
      RedirsPlain(Exec([]), t);
      var r := ParseRedirs(Exec([]), t);
      if r.Ok? { ArgsPlain(r.cmd, 0, r.rest); }
    }
  }

  lemma {:induction false} PipePlain(t: seq<Tok>)
    ensures ParsePipe(Plain(t)) == PlainParsed(ParsePipe(t))
    decreases |t|, 1
  {
    hide ParseExec;
    ExecPlain(t);
    var l := ParseExec(t);
    if l.Ok? {
      PlainNext(l.rest, '|');
      if Next(l.rest, '|') {
        PlainDrop(l.rest, 1);
        PipePlain(l.rest[1..]);
      }
    }
  }

  lemma {:induction false} AmpsPlain(c: Cmd, t: seq<Tok>)
    ensures ParseAmps(c, Plain(t)) == PlainParsed(ParseAmps(c, t))
    decreases |t|
  {
    if Next(t, '&') {
      PlainDrop(t, 1);
      AmpsPlain(Back(c), t[1..]);
    }
  }

  /** Replacing every ">>" by ">" changes no parse. */
  lemma {:induction false} LinePlain(t: seq<Tok>)
    ensures ParseLine(Plain(t)) == PlainParsed(ParseLine(t))
    decreases |t|, 2
  {
    hide ParsePipe, ParseAmps;
    PipePlain(t);
    var p := ParsePipe(t);
    if p.Ok? {
      AmpsPlain(p.cmd, p.rest);
      var l := ParseAmps(p.cmd, p.rest);
      PlainNext(l.rest, ';');
      if Next(l.rest, ';') {
        PlainDrop(l.rest, 1);
        LinePlain(l.rest[1..]);
      }
    }
  }

  // ---------------------------------------------------------------- simple commands

  /** A file a command is redirected to or from. */
  datatype File = File(name: string, way: Way)

  function WayOf(c: char): Way { if c == '<' then In else Out }

  /** Where the simple command at the front ends. */
  function SimpleLen(t: seq<Tok>): (n: nat)
    ensures n <= |t|
    decreases |t|
  {
    if EndsExec(t) then 0
    else if StartsRedir(t) && |t| > 1 then 2 + SimpleLen(t[2..])
    else 1 + SimpleLen(t[1..])
  }

  /** Words, and redirection symbols with a word after each. */
  predicate SimpleOk(t: seq<Tok>)
    decreases |t|
  {
    if |t| == 0 then true
    else if StartsRedir(t) then |t| > 1 && t[1].Word? && SimpleOk(t[2..])
    else t[0].Word? && SimpleOk(t[1..])
  }

  /** The words that are not right after a redirection symbol, in order. */
  function ArgsOf(t: seq<Tok>): seq<string>
    decreases |t|
  {
    if |t| == 0 then []
    else if StartsRedir(t) && |t| > 1 then ArgsOf(t[2..])
    else if t[0].Word? then [t[0].text] + ArgsOf(t[1..])
    else ArgsOf(t[1..])
  }

  /** The words right after a redirection symbol, in order: '<' reads, '>' and ">>" write. */
  function FilesOf(t: seq<Tok>): seq<File>
    decreases |t|
  {
    if |t| == 0 then []
    else if StartsRedir(t) && |t| > 1 && t[1].Word? then [File(t[1].text, WayOf(t[0].c))] + FilesOf(t[2..])
    else if StartsRedir(t) && |t| > 1 then FilesOf(t[2..])
    else FilesOf(t[1..])
  }

  /** The redirections around a command, innermost first. */
  function Files(c: Cmd): seq<File> { if c.Redir? then Files(c.cmd) + [File(c.file, c.way)] else [] }

  lemma {:induction false} AddArgParts(c: Cmd, w: string)
    requires Core(c).Exec?
    ensures Core(AddArg(c, w)) == Exec(Core(c).argv + [w]) && Files(AddArg(c, w)) == Files(c)
  {
    if c.Redir? { AddArgParts(c.cmd, w); }
  }

  /** parseexec from the middle of a simple command on. */
  function ParseMore(c: Cmd, argc: nat, t: seq<Tok>): Parsed {
    var r := ParseRedirs(c, t);
    if r.Panic? then Panic else ParseArgs(r.cmd, argc, r.rest)
  }

  lemma MoreEnds(c: Cmd, argc: nat, t: seq<Tok>)
    requires EndsExec(t)
    ensures ParseMore(c, argc, t) == Ok(c, t)
  {
  }

  lemma MoreRedir(c: Cmd, argc: nat, t: seq<Tok>)
    requires StartsRedir(t)
    ensures ParseMore(c, argc, t) == if |t| == 1 || !t[1].Word? then Panic
                                     else ParseMore(Redir(c, t[1].text, WayOf(t[0].c)), argc, t[2..])
  {
    hide ParseArgs;
  }

  lemma MoreWord(c: Cmd, argc: nat, t: seq<Tok>)
    requires !StartsRedir(t) && !EndsExec(t)
    ensures ParseMore(c, argc, t) == if !t[0].Word? || argc + 1 >= MAXARGS then Panic
                                     else ParseMore(AddArg(c, t[0].text), argc + 1, t[1..])
  {
    NoRedirs(c, t);
    hide ParseRedirs, AddArg;
  }

  /** What the tokens u of a simple command make of a command c. */
  predicate Completed(c: Cmd, u: seq<Tok>, d: Cmd)
    requires Core(c).Exec?
  {
    Core(d) == Exec(Core(c).argv + ArgsOf(u)) && Files(d) == Files(c) + FilesOf(u)
  }

  lemma LenUnfold(t: seq<Tok>)
    requires !EndsExec(t)
    ensures var k := if StartsRedir(t) && |t| > 1 then 2 else 1;
            && SimpleLen(t) == k + SimpleLen(t[k..])
            && t[..SimpleLen(t)][k..] == t[k..][..SimpleLen(t[k..])] && t[k..][SimpleLen(t[k..])..] == t[SimpleLen(t)..]
  {
    hide EndsExec;
    var k := if StartsRedir(t) && |t| > 1 then 2 else 1;
    assert SimpleLen(t) == k + SimpleLen(t[k..]);
  }

  lemma RedirParts(u: seq<Tok>)
    requires StartsRedir(u)
    ensures SimpleOk(u) <==> |u| > 1 && u[1].Word? && SimpleOk(u[2..])
    ensures |u| > 1 && u[1].Word? ==>
              ArgsOf(u) == ArgsOf(u[2..]) && FilesOf(u) == [File(u[1].text, WayOf(u[0].c))] + FilesOf(u[2..])
  {
  }

  lemma WordParts(u: seq<Tok>)
    requires |u| > 0 && !StartsRedir(u)
    ensures SimpleOk(u) <==> u[0].Word? && SimpleOk(u[1..])
    ensures u[0].Word? ==> ArgsOf(u) == [u[0].text] + ArgsOf(u[1..]) && FilesOf(u) == FilesOf(u[1..])
  {
  }

  lemma EmptyParts()
    ensures SimpleOk([]) && ArgsOf([]) == [] && FilesOf([]) == []
  {
  }

  predicate MoreIs(c: Cmd, argc: nat, t: seq<Tok>, u: seq<Tok>)
    requires Core(c).Exec? && |u| <= |t|
  {
    var r := ParseMore(c, argc, t);
    && (r.Ok? <==> SimpleOk(u) && argc + |ArgsOf(u)| < MAXARGS)
    && (r.Ok? ==> Completed(c, u, r.cmd) && r.rest == t[|u|..])
  }

  lemma {:induction false} MoreExactly(c: Cmd, argc: nat, t: seq<Tok>)
    requires Core(c).Exec? && |Core(c).argv| == argc < MAXARGS
    ensures MoreIs(c, argc, t, t[..SimpleLen(t)])
    decreases |t|, 1
  {
    hide ParseMore, EndsExec, SimpleLen, StartsRedir, MoreIs, Core;
    if EndsExec(t) {
      MoreNone(c, argc, t);
    } else {
      LenUnfold(t);
      if StartsRedir(t) { MoreAfterRedir(c, argc, t); } else { MoreAfterWord(c, argc, t); }
    }
  }

  lemma MoreNone(c: Cmd, argc: nat, t: seq<Tok>)
    requires Core(c).Exec? && argc < MAXARGS && EndsExec(t)
    ensures MoreIs(c, argc, t, t[..SimpleLen(t)])
  {
    hide ParseMore, SimpleOk, ArgsOf, FilesOf;
    MoreEnds(c, argc, t);
    EmptyParts();
    assert t[..0] == [];
  }

  lemma {:induction false} MoreAfterRedir(c: Cmd, argc: nat, t: seq<Tok>)
    requires Core(c).Exec? && |Core(c).argv| == argc < MAXARGS && !EndsExec(t) && StartsRedir(t)
    ensures MoreIs(c, argc, t, t[..SimpleLen(t)])
    decreases |t|, 0
  {
    hide ParseMore, EndsExec, SimpleLen, StartsRedir, SimpleOk, ArgsOf, FilesOf, Next;
    NotEmpty(t);
    LenUnfold(t);
    MoreRedir(c, argc, t);
    var u := t[..SimpleLen(t)];
    StartsStarts(t, u);
    RedirParts(u);
    if |t| > 1 && t[1].Word? { MoreExactly(Redir(c, t[1].text, WayOf(t[0].c)), argc, t[2..]); }
  }

  lemma {:induction false} MoreAfterWord(c: Cmd, argc: nat, t: seq<Tok>)
    requires Core(c).Exec? && |Core(c).argv| == argc < MAXARGS && !EndsExec(t) && !StartsRedir(t)
    ensures MoreIs(c, argc, t, t[..SimpleLen(t)])
    decreases |t|, 0
  {
    hide ParseMore, EndsExec, SimpleLen, StartsRedir, SimpleOk, ArgsOf, FilesOf, Next, AddArg, Core, Files;
    NotEmpty(t);
    LenUnfold(t);
    MoreWord(c, argc, t);
    var u := t[..SimpleLen(t)];
    StartsStarts(t, u);
    WordParts(u);
    if t[0].Word? && argc + 1 < MAXARGS {
      AddArgParts(c, t[0].text);
      MoreExactly(AddArg(c, t[0].text), argc + 1, t[1..]);
    }
  }

  lemma NotEmpty(t: seq<Tok>)
    requires !EndsExec(t)
    ensures |t| > 0 && (StartsRedir(t) ==> t[0].Sym?)
  {
  }

  lemma StartsStarts(t: seq<Tok>, u: seq<Tok>)
    requires |t| > 0 && 0 < |u| && u[0] == t[0]
    ensures StartsRedir(u) <==> StartsRedir(t)
  {
  }

  /**
   A simple command, with redirections anywhere: it is taken exactly when every redirection symbol
   has a word after it, nothing but words is left and they are fewer than ten; and then it has
   those words and those redirections, each in order.
   */
  lemma SimpleExactly(t: seq<Tok>)
    requires !Next(t, '(')
    ensures var u, r := t[..SimpleLen(t)], ParseExec(t);
            && (r.Ok? <==> SimpleOk(u) && |ArgsOf(u)| < MAXARGS)
            && (r.Ok? ==> Core(r.cmd) == Exec(ArgsOf(u)) && Files(r.cmd) == FilesOf(u) && r.rest == t[|u|..])
  {
    hide ParseRedirs, ParseArgs, ParseExec, SimpleLen, SimpleOk, ArgsOf, FilesOf;
    ExecUnfold(t);
    assert ParseExec(t) == ParseMore(Exec([]), 0, t);
    MoreExactly(Exec([]), 0, t);
  }

  // ---------------------------------------------------------------- whole lines

  /** A command's words and operators from left to right, without redirections and parentheses. */
  function Yield(c: Cmd): seq<Tok> {
    match c
    case Exec(argv) => Words(argv)
    case Redir(x, _, _) => Yield(x)
    case Pipe(l, r) => Yield(l) + [Sym('|')] + Yield(r)
    case List(l, r) => Yield(l) + [Sym(';')] + Yield(r)
    case Back(x) => Yield(x) + [Sym('&')]
  }

  /** A command's redirections from left to right. */
  function AllFiles(c: Cmd): seq<File> {
    match c
    case Exec(_) => []
    case Redir(x, file, way) => AllFiles(x) + [File(file, way)]
    case Pipe(l, r) => AllFiles(l) + AllFiles(r)
    case List(l, r) => AllFiles(l) + AllFiles(r)
    case Back(x) => AllFiles(x)
  }

  /** The same of a line's tokens. */
  function Bare(t: seq<Tok>): seq<Tok>
    decreases |t|
  {
    if |t| == 0 then []
    else if StartsRedir(t) then (if |t| > 1 then Bare(t[2..]) else [])
    else if t[0] == Sym('(') || t[0] == Sym(')') then Bare(t[1..])
    else [t[0]] + Bare(t[1..])
  }

  function LineFiles(t: seq<Tok>): seq<File>
    decreases |t|
  {
    if |t| == 0 then []
    else if StartsRedir(t) then
      (if |t| > 1 && t[1].Word? then [File(t[1].text, WayOf(t[0].c))] + LineFiles(t[2..]) else [])
    else LineFiles(t[1..])
  }

  /** Parsing moved what is between t and rest from the line into the command. */
  predicate Moved(c: Cmd, t: seq<Tok>, d: Cmd, rest: seq<Tok>) {
    && Yield(d) + Bare(rest) == Yield(c) + Bare(t)
    && AllFiles(d) + LineFiles(rest) == AllFiles(c) + LineFiles(t)
  }

  lemma {:induction false} RedirsMoved(c: Cmd, t: seq<Tok>)
    ensures var r := ParseRedirs(c, t); r.Ok? ==> Moved(c, t, r.cmd, r.rest)
    decreases |t|
  {
    if StartsRedir(t) && |t| > 1 && t[1].Word? {
      var f := File(t[1].text, WayOf(t[0].c));
      var d := Redir(c, f.name, f.way);
      RedirsMoved(d, t[2..]);
      assert AllFiles(d) + LineFiles(t[2..]) == AllFiles(c) + LineFiles(t);
    }
  }

  lemma {:induction false} AddArgYield(c: Cmd, w: string)
    requires Core(c).Exec?
    ensures Yield(AddArg(c, w)) == Yield(c) + [Word(w)] && AllFiles(AddArg(c, w)) == AllFiles(c)
    ensures Core(AddArg(c, w)).Exec?
  {
    if c.Redir? { AddArgYield(c.cmd, w); }
  }

  lemma {:induction false} RedirsCore(c: Cmd, t: seq<Tok>)
    ensures var r := ParseRedirs(c, t); r.Ok? ==> Core(r.cmd) == Core(c)
    decreases |t|
  {
    if StartsRedir(t) && |t| > 1 && t[1].Word? {
      RedirsCore(Redir(c, t[1].text, if Next(t, '<') then In else Out), t[2..]);
    }
  }

  lemma WordMoved(t: seq<Tok>)
    requires |t| > 0 && t[0].Word?
    ensures Bare(t) == [t[0]] + Bare(t[1..]) && LineFiles(t) == LineFiles(t[1..])
  {
  }

  lemma SymMoved(t: seq<Tok>, c: char)
    requires Next(t, c) && c != '<' && c != '>' && c != '+'
    ensures Bare(t) == (if c == '(' || c == ')' then [] else [Sym(c)]) + Bare(t[1..])
    ensures LineFiles(t) == LineFiles(t[1..])
  {
  }

  lemma {:induction false} ArgsMoved(c: Cmd, argc: nat, t: seq<Tok>)
    requires Core(c).Exec?
    ensures var r := ParseArgs(c, argc, t); r.Ok? ==> Moved(c, t, r.cmd, r.rest)
    decreases |t|
  {
    hide ParseRedirs, AddArg, Bare, LineFiles, Yield, AllFiles, Core;
    if !EndsExec(t) && t[0].Word? && argc + 1 < MAXARGS {
      var d := AddArg(c, t[0].text);
      AddArgYield(c, t[0].text);
      RedirsMoved(d, t[1..]);
      RedirsCore(d, t[1..]);
      WordMoved(t);
      var r := ParseRedirs(d, t[1..]);
      if r.Ok? {
        ArgsMoved(r.cmd, argc + 1, r.rest);
        assert Yield(d) + Bare(t[1..]) == Yield(c) + Bare(t);
      }
    }
  }

  /** What a parse of t gives. */
  predicate Keeps(t: seq<Tok>, r: Parsed) {
    r.Ok? ==> Yield(r.cmd) + Bare(r.rest) == Bare(t) && AllFiles(r.cmd) + LineFiles(r.rest) == LineFiles(t)
  }

  lemma EmptyYield()
    ensures Yield(Exec([])) == [] && AllFiles(Exec([])) == [] && Core(Exec([])).Exec?
  {
  }

  lemma {:induction false} ExecKeeps(t: seq<Tok>)
    ensures Keeps(t, ParseExec(t))
    decreases |t|, 0
  {
    hide ParseRedirs, ParseArgs, Bare, LineFiles, Yield, AllFiles, Core;
    if Next(t, '(') {
      LineKeeps(t[1..]);
      SymMoved(t, '(');
      var r := ParseLine(t[1..]);
      if r.Ok? && Next(r.rest, ')') {
        SymMoved(r.rest, ')');
        RedirsMoved(r.cmd, r.rest[1..]);
      }
    } else {
      EmptyYield();
      RedirsMoved(Exec([]), t);
      RedirsCore(Exec([]), t);
      var r := ParseRedirs(Exec([]), t);
      if r.Ok? { ArgsMoved(r.cmd, 0, r.rest); }
    }
  }

  lemma PipeYield(l: Cmd, r: Cmd)
    ensures Yield(Pipe(l, r)) == Yield(l) + [Sym('|')] + Yield(r) && AllFiles(Pipe(l, r)) == AllFiles(l) + AllFiles(r)
    ensures Yield(List(l, r)) == Yield(l) + [Sym(';')] + Yield(r) && AllFiles(List(l, r)) == AllFiles(l) + AllFiles(r)
    ensures Yield(Back(l)) == Yield(l) + [Sym('&')] && AllFiles(Back(l)) == AllFiles(l)
  {
  }

  lemma {:induction false} PipeKeeps(t: seq<Tok>)
    ensures Keeps(t, ParsePipe(t))
    decreases |t|, 1
  {
    hide ParseExec, Bare, LineFiles, Yield, AllFiles;
    ExecKeeps(t);
    var l := ParseExec(t);
    if l.Ok? && Next(l.rest, '|') {
      SymMoved(l.rest, '|');
      PipeKeeps(l.rest[1..]);
      var r := ParsePipe(l.rest[1..]);
      if r.Ok? { Joined('|', l.cmd, r.cmd, Pipe(l.cmd, r.cmd), l.rest, r.rest); }
    }
  }

  /** Two commands around an operator. */
  lemma Joined(c: char, l: Cmd, r: Cmd, d: Cmd, t: seq<Tok>, rest: seq<Tok>)
    requires (c == '|' && d == Pipe(l, r)) || (c == ';' && d == List(l, r))
    requires Next(t, c) && Keeps(t[1..], Ok(r, rest))
    ensures Yield(d) + Bare(rest) == Yield(l) + Bare(t) && AllFiles(d) + LineFiles(rest) == AllFiles(l) + LineFiles(t)
  {
    hide Bare, LineFiles, Yield, AllFiles;
    PipeYield(l, r);
    SymMoved(t, c);
    Around(Yield(l), [Sym(c)], Yield(r), Bare(rest));
    Around(AllFiles(l), [], AllFiles(r), LineFiles(rest));
    assert AllFiles(l) + [] + AllFiles(r) == AllFiles(l) + AllFiles(r);
    assert [] + (AllFiles(r) + LineFiles(rest)) == AllFiles(r) + LineFiles(rest);
  }

  lemma Around<T>(a: seq<T>, m: seq<T>, b: seq<T>, rest: seq<T>)
    ensures a + m + b + rest == a + (m + (b + rest))
  {
  }

  lemma {:induction false} AmpsMoved(c: Cmd, t: seq<Tok>)
    ensures var r := ParseAmps(c, t); Moved(c, t, r.cmd, r.rest)
    decreases |t|
  {
    hide Bare, LineFiles, Yield, AllFiles;
    if Next(t, '&') {
      SymMoved(t, '&');
      PipeYield(c, c);
      AmpsMoved(Back(c), t[1..]);
      assert Yield(Back(c)) + Bare(t[1..]) == Yield(c) + Bare(t);
    }
  }

  /**
   Whatever parses, nothing of it is lost, added or reordered: the command's words and operators
   from left to right are the line's, and so are its redirections.
   */
  lemma {:induction false} LineKeeps(t: seq<Tok>)
    ensures Keeps(t, ParseLine(t))
    decreases |t|, 2
  {
    hide ParsePipe, ParseAmps, Bare, LineFiles, Yield, AllFiles;
    PipeKeeps(t);
    var p := ParsePipe(t);
    if p.Ok? {
      AmpsMoved(p.cmd, p.rest);
      var l := ParseAmps(p.cmd, p.rest);
      if Next(l.rest, ';') {
        LineKeeps(l.rest[1..]);
        var r := ParseLine(l.rest[1..]);
        if r.Ok? { Joined(';', l.cmd, r.cmd, List(l.cmd, r.cmd), l.rest, r.rest); }
      }
    }
  }

  /** The same of the characters of a line. */
  lemma ParsedKeeps(s: string)
    requires ParseCmd(s).Ok?
    ensures var t := Lex(s[..StrLen(s)]); Yield(ParseCmd(s).cmd) == Bare(t) && AllFiles(ParseCmd(s).cmd) == LineFiles(t)
  {
    hide ParseLine, Lex;
    LineKeeps(Lex(s[..StrLen(s)]));
  }

  // ---------------------------------------------------------------- parentheses

  /** A parse that was taken is the same with a closing parenthesis and anything after the line. */
  predicate Extends(r: Parsed, r': Parsed, u: seq<Tok>) { r.Ok? ==> r' == Ok(r.cmd, r.rest + u) }

  lemma NextExtends(t: seq<Tok>, u: seq<Tok>, c: char)
    requires Next(u, ')') && c != ')'
    ensures Next(t + u, c) <==> Next(t, c)
  {
  }

  lemma {:induction false} RedirsExtend(c: Cmd, t: seq<Tok>, u: seq<Tok>)
    requires Next(u, ')')
    ensures Extends(ParseRedirs(c, t), ParseRedirs(c, t + u), u)
    decreases |t|
  {
    if StartsRedir(t) && |t| > 1 && t[1].Word? {
      assert (t + u)[2..] == t[2..] + u;
      RedirsExtend(Redir(c, t[1].text, if Next(t, '<') then In else Out), t[2..], u);
    }
  }

  lemma EndsExtend(t: seq<Tok>, u: seq<Tok>)
    requires Next(u, ')')
    ensures EndsExec(t + u) <==> EndsExec(t)
  {
  }

  lemma {:induction false} ArgsExtend(c: Cmd, argc: nat, t: seq<Tok>, u: seq<Tok>)
    requires Next(u, ')')
    ensures Extends(ParseArgs(c, argc, t), ParseArgs(c, argc, t + u), u)
    decreases |t|
  {
    hide ParseRedirs, AddArg;
    EndsExtend(t, u);
    if !EndsExec(t) && t[0].Word? && argc + 1 < MAXARGS {
      assert (t + u)[1..] == t[1..] + u;
      RedirsExtend(AddArg(c, t[0].text), t[1..], u);
      var r := ParseRedirs(AddArg(c, t[0].text), t[1..]);
      if r.Ok? { ArgsExtend(r.cmd, argc + 1, r.rest, u); }
    }
  }

  lemma RestExtends(t: seq<Tok>, u: seq<Tok>)
    requires |t| > 0
    ensures (t + u)[1..] == t[1..] + u
  {
  }

  lemma {:induction false} ExecExtend(t: seq<Tok>, u: seq<Tok>)
    requires Next(u, ')')
    ensures Extends(ParseExec(t), ParseExec(t + u), u)
    decreases |t|, 0
  {
    hide ParseRedirs, ParseArgs;
    NextExtends(t, u, '(');
    if Next(t, '(') {
      RestExtends(t, u);
      LineExtend(t[1..], u);
      var r := ParseLine(t[1..]);
      if r.Ok? && Next(r.rest, ')') {
        RestExtends(r.rest, u);
        RedirsExtend(r.cmd, r.rest[1..], u);
      }
    } else {
      RedirsExtend(Exec([]), t, u);
      var r := ParseRedirs(Exec([]), t);
      if r.Ok? { ArgsExtend(r.cmd, 0, r.rest, u); }
    }
  }

  lemma {:induction false} PipeExtend(t: seq<Tok>, u: seq<Tok>)
    requires Next(u, ')')
    ensures Extends(ParsePipe(t), ParsePipe(t + u), u)
    decreases |t|, 1
  {
    hide ParseExec;
    ExecExtend(t, u);
    var l := ParseExec(t);
    if l.Ok? {
      NextExtends(l.rest, u, '|');
      if Next(l.rest, '|') {
        RestExtends(l.rest, u);
        PipeExtend(l.rest[1..], u);
      }
    }
  }

  lemma {:induction false} AmpsExtend(c: Cmd, t: seq<Tok>, u: seq<Tok>)
    requires Next(u, ')')
    ensures Extends(ParseAmps(c, t), ParseAmps(c, t + u), u)
    decreases |t|
  {
    NextExtends(t, u, '&');
    if Next(t, '&') {
      RestExtends(t, u);
      AmpsExtend(Back(c), t[1..], u);
    }
  }

  lemma {:induction false} LineExtend(t: seq<Tok>, u: seq<Tok>)
    requires Next(u, ')')
    ensures Extends(ParseLine(t), ParseLine(t + u), u)
    decreases |t|, 2
  {
    hide ParsePipe, ParseAmps;
    PipeExtend(t, u);
    var p := ParsePipe(t);
    if p.Ok? {
      AmpsExtend(p.cmd, p.rest, u);
      var l := ParseAmps(p.cmd, p.rest);
      NextExtends(l.rest, u, ';');
      if Next(l.rest, ';') {
        RestExtends(l.rest, u);
        LineExtend(l.rest[1..], u);
      }
    }
  }

  /** Parentheses around a whole line change nothing. */
  lemma Parenthesized(t: seq<Tok>)
    requires ParseLine(t).Ok? && ParseLine(t).rest == []
    ensures ParseLine([Sym('(')] + t + [Sym(')')]) == ParseLine(t)
  {
    hide ParseLine;
    var u := [Sym(')')];
    var v := [Sym('(')] + t + u;
    assert v[1..] == t + u && Next(v, '(');
    LineExtend(t, u);
    assert ([] + u)[1..] == [];
    BlockParses(v, ParseLine(t).cmd);
  }

  lemma BlockParses(v: seq<Tok>, c: Cmd)
    requires Next(v, '(') && ParseLine(v[1..]) == Ok(c, [Sym(')')])
    ensures ParseLine(v) == Ok(c, [])
  {
    assert [Sym(')')][1..] == [];
    assert ParseExec(v) == ParseRedirs(c, []) == Ok(c, []);
  }

  // ---------------------------------------------------------------- characters

  /** No token goes from the end of s on into v. */
  predicate Boundary(s: string, v: string) {
    s == [] || v == [] || (!IsPlain(v[0]) && !(s[|s| - 1] == '>' && v[0] == '>'))
  }

  lemma {:induction false} SkipAppend(s: string, v: string)
    ensures Skip(s + v) == if Skip(s) == [] then Skip(v) else Skip(s) + v
    decreases |s|
  {
    if s == [] {
      assert s + v == v;
    } else if IsSpace(s[0]) {
      assert (s + v)[1..] == s[1..] + v;
      SkipAppend(s[1..], v);
    }
  }

  lemma {:induction false} SkipSuffix(s: string)
    ensures Skip(s) != [] ==> s != [] && Skip(s)[|Skip(s)| - 1] == s[|s| - 1]
    decreases |s|
  {
    if s != [] && IsSpace(s[0]) { SkipSuffix(s[1..]); }
  }

  lemma {:induction false} WordLenMore(s: string, v: string)
    requires v == [] || !IsPlain(v[0])
    ensures WordLen(s + v) == WordLen(s)
    decreases |s|
  {
    if s == [] {
      assert s + v == v;
    } else {
      assert (s + v)[1..] == s[1..] + v;
      WordLenMore(s[1..], v);
    }
  }

  lemma TokenAppend(u: string, v: string)
    requires u != [] && !IsSpace(u[0]) && Boundary(u, v)
    ensures TokenAt(u + v) == TokenAt(u)
  {
    WordLenMore(u, v);
    assert (u + v)[..WordLen(u)] == u[..WordLen(u)];
  }

  /** Where no token goes across, a text's tokens are those of its two parts. */
  lemma {:induction false} LexSplit(s: string, v: string)
    requires Boundary(s, v)
    ensures Lex(s + v) == Lex(s) + Lex(v)
    decreases |s|
  {
    hide Lex, Skip, TokenAt, IsPlain, IsSpace;
    SkipAppend(s, v);
    var u := Skip(s);
    if u == [] {
      LexSkips(s + v, v);
      LexNothing(s);
    } else {
      SkipSuffix(s);
      LexUnfold(s);
      LexUnfold(s + v);
      TokenAppend(u, v);
      var k := TokenAt(u).1;
      assert (u + v)[k..] == u[k..] + v;
      assert u[k..] != [] ==> u[k..][|u[k..]| - 1] == u[|u| - 1];
      LexSplit(u[k..], v);
      assert [TokenAt(u).0] + (Lex(u[k..]) + Lex(v)) == Lex(s) + Lex(v);
    }
  }

  lemma LexNothing(s: string)
    requires Skip(s) == []
    ensures Lex(s) == []
  {
  }

  lemma LexUnfold(s: string)
    requires Skip(s) != []
    ensures Lex(s) == [TokenAt(Skip(s)).0] + Lex(Skip(s)[TokenAt(Skip(s)).1..])
  {
  }

  lemma LexSkips(s: string, v: string)
    requires Skip(s) == Skip(v)
    ensures Lex(s) == Lex(v)
  {
  }

  /** Whitespace separates and is no token. */
  lemma LexBlank(s: string, c: char, u: string)
    requires c == ' ' || c == '\t' || c == '\r' || c == '\n' || c == 11 as char
    ensures Lex(s + [c] + u) == Lex(s) + Lex(u)
  {
    var v := [c] + u;
    SymbolsApart('>');
    assert IsSpace(c);
    assert s + [c] + u == s + v;
    LexSplit(s, v);
    assert v[1..] == u;
    LexSkips(v, u);
  }

  /** A symbol other than '>' is a token of its own, with or without whitespace around it. */
  lemma LexSymbol(s: string, c: char, u: string)
    requires IsSymbol(c) && c != '>'
    ensures Lex(s + [c] + u) == Lex(s) + [Sym(c)] + Lex(u)
  {
    var v := [c] + u;
    SymbolsApart(c);
    assert s + [c] + u == s + v;
    LexSplit(s, v);
    assert v[1..] == u && Skip(v) == v;
    assert Lex(v) == [Sym(c)] + Lex(u);
  }

  /** One '>' by itself is ">", two are ">>". */
  lemma LexArrow(s: string, u: string)
    requires (s == [] || s[|s| - 1] != '>') && (u == [] || u[0] != '>')
    ensures Lex(s + ">" + u) == Lex(s) + [Sym('>')] + Lex(u)
    ensures Lex(s + ">>" + u) == Lex(s) + [Sym('+')] + Lex(u)
  {
    hide Lex, IsPlain;
    SymbolsApart('>');
    var v, w := ">" + u, ">>" + u;
    assert s + ">" + u == s + v && s + ">>" + u == s + w;
    ArrowNotPlain();
    LexSplit(s, v);
    LexSplit(s, w);
    LexFirst(v);
    LexFirst(w);
    assert v[1..] == u && w[2..] == u;
  }

  lemma ArrowNotPlain()
    ensures !IsPlain('>')
  {
    SymbolsApart('>');
  }

  lemma LexFirst(v: string)
    requires v != [] && !IsSpace(v[0])
    ensures Lex(v) == [TokenAt(v).0] + Lex(v[TokenAt(v).1..])
  {
  }
}
