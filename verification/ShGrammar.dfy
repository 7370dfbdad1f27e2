/** The shell's grammar on tokens: parsing, printing, and that printing then parsing is the identity. */
module ShGrammar {
  /** Commands over words of any kind: strings, or stretches of the input buffer. */
  datatype Cmd<W> =
    | Exec(args: seq<W>)
    | Redir(cmd: Cmd<W>, file: W, mode: int, fd: int)
    | Pipe(left: Cmd<W>, right: Cmd<W>)
    | List(left: Cmd<W>, right: Cmd<W>)
    | Back(cmd: Cmd<W>)

  /** A symbol, >> (which gettoken calls +), or a word. */
  datatype Tok = Sym(c: char) | Word(w: string)

  datatype Result<W> = Ok(cmd: Cmd<W>, rest: seq<Tok>) | Err

  /** A redirection: the file, and the mode and descriptor that its symbol stands for. */
  datatype Red<W> = Red(file: W, mode: int, fd: int)

  const MAXARGS := 20
  const O_RDONLY := 0
  const O_WRONLY_CREATE := 0x201

  predicate IsRed(t: Tok) {
    t == Sym('<') || t == Sym('>') || t == Sym('+')
  }

  function RedOf<W>(t: Tok, file: W): Red<W> {
    if t == Sym('<') then Red(file, O_RDONLY, 0) else Red(file, O_WRONLY_CREATE, 1)
  }

  /** The redirections wrapped round a command, the first innermost. */
  function Wrap<W>(c: Cmd<W>, rs: seq<Red<W>>): Cmd<W>
    decreases |rs|
  {
    if rs == [] then c
    else Redir(Wrap(c, rs[..|rs| - 1]), rs[|rs| - 1].file, rs[|rs| - 1].mode, rs[|rs| - 1].fd)
  }

  predicate Starts(ts: seq<Tok>, c: char) {
    ts != [] && ts[0] == Sym(c)
  }

  /** Where parseexec stops: at one of | ) & ; or at the end. */
  predicate Stops(ts: seq<Tok>) {
    ts == [] || Starts(ts, '|') || Starts(ts, ')') || Starts(ts, '&') || Starts(ts, ';')
  }

  // ----- parsing

  datatype Reds = Reds(ok: bool, rs: seq<Red<string>>, rest: seq<Tok>)

  /** parseredirs */
  function ParseReds(rs: seq<Red<string>>, ts: seq<Tok>): (r: Reds)
    ensures |r.rest| <= |ts|
    decreases |ts|
  {
    if ts != [] && IsRed(ts[0]) then
      if |ts| > 1 && ts[1].Word? then ParseReds(rs + [RedOf(ts[0], ts[1].w)], ts[2..]) else Reds(false, rs, [])
    else Reds(true, rs, ts)
  }

  /** The loop of parseexec, with the words and redirections so far. */
  function ParseArgs(args: seq<string>, rs: seq<Red<string>>, ts: seq<Tok>): (r: Result<string>)
    ensures r.Ok? ==> |r.rest| <= |ts|
    decreases |ts|
  {
    if Stops(ts) then Ok(Wrap(Exec(args), rs), ts)
    else if !ts[0].Word? || |args| + 1 >= MAXARGS then Err
    else
      var p := ParseReds(rs, ts[1..]);
      if p.ok then ParseArgs(args + [ts[0].w], p.rs, p.rest) else Err
  }

  function ParseExec(ts: seq<Tok>): (r: Result<string>)
    ensures r.Ok? ==> |r.rest| <= |ts|
    decreases |ts|, 1
  {
    if Starts(ts, '(') then ParseBlock(ts)
    else
      var p := ParseReds([], ts);
      if p.ok then ParseArgs([], p.rs, p.rest) else Err
  }

  function ParseBlock(ts: seq<Tok>): (r: Result<string>)
    requires Starts(ts, '(')
    ensures r.Ok? ==> |r.rest| <= |ts|
    decreases |ts|, 0
  {
    var c := ParseLine(ts[1..]);
    if c.Err? || !Starts(c.rest, ')') then Err
    else
      var p := ParseReds([], c.rest[1..]);
      if p.ok then Ok(Wrap(c.cmd, p.rs), p.rest) else Err
  }

  function ParsePipe(ts: seq<Tok>): (r: Result<string>)
    ensures r.Ok? ==> |r.rest| <= |ts|
    decreases |ts|, 2
  {
    var c := ParseExec(ts);
    if c.Err? || !Starts(c.rest, '|') then c
    else
      var d := ParsePipe(c.rest[1..]);
      if d.Err? then Err else Ok(Pipe(c.cmd, d.cmd), d.rest)
  }

  /** One Back for each &. */
  function ParseBacks(c: Cmd<string>, ts: seq<Tok>): (r: Result<string>)
    ensures r.Ok? && |r.rest| <= |ts| && !Starts(r.rest, '&')
    decreases |ts|
  {
    if Starts(ts, '&') then ParseBacks(Back(c), ts[1..]) else Ok(c, ts)
  }

  function ParseLine(ts: seq<Tok>): (r: Result<string>)
    ensures r.Ok? ==> |r.rest| <= |ts|
    decreases |ts|, 3
  {
    var c := ParsePipe(ts);
    if c.Err? then Err
    else
      var b := ParseBacks(c.cmd, c.rest);
      if !Starts(b.rest, ';') then b
      else
        var d := ParseLine(b.rest[1..]);
        if d.Err? then Err else Ok(List(b.cmd, d.cmd), d.rest)
  }

  /** parsecmd: the whole input must be used. */
  function ParseCmd(ts: seq<Tok>): (r: Result<string>)
  {
    var c := ParseLine(ts);
    if c.Ok? && c.rest == [] then c else Err
  }

  // ----- printing

  /** Commands that the shell can make: few enough words, and redirections that have a symbol. */
  predicate Printable(c: Cmd<string>) {
    match c
    case Exec(args) => |args| < MAXARGS
    case Redir(d, f, mode, fd) =>
      Printable(d) && ((mode == O_RDONLY && fd == 0) || (mode == O_WRONLY_CREATE && fd == 1))
    case Pipe(l, r) => Printable(l) && Printable(r)
    case List(l, r) => Printable(l) && Printable(r)
    case Back(d) => Printable(d)
  }

  function Words(args: seq<string>): (ts: seq<Tok>)
    ensures |ts| == |args|
  {
    seq(|args|, i requires 0 <= i < |args| => Word(args[i]))
  }

  function RedSym(mode: int): Tok {
    if mode == O_RDONLY then Sym('<') else Sym('>')
  }

  /** At the level of parseexec: words and redirections, or anything else in parentheses. */
  function PrintExec(c: Cmd<string>): seq<Tok>
    decreases c, if c.Exec? || c.Redir? then 0 else 4
  {
    match c
    case Exec(args) => Words(args)
    case Redir(d, f, mode, fd) => PrintExec(d) + [RedSym(mode), Word(f)]
    case _ => [Sym('(')] + PrintLine(c) + [Sym(')')]
  }

  function PrintPipe(c: Cmd<string>): seq<Tok>
    decreases c, if c.List? || c.Back? then 4 else 1
  {
    match c
    case Pipe(l, r) => PrintExec(l) + [Sym('|')] + PrintPipe(r)
    case List(_, _) => [Sym('(')] + PrintLine(c) + [Sym(')')]
    case Back(_) => [Sym('(')] + PrintLine(c) + [Sym(')')]
    case _ => PrintExec(c)
  }

  /** What may stand before & or ; without parentheses. */
  function PrintBack(c: Cmd<string>): seq<Tok>
    decreases c, if c.List? then 5 else 2
  {
    match c
    case Back(d) => PrintBack(d) + [Sym('&')]
    case _ => PrintPipe(c)
  }

  function PrintLine(c: Cmd<string>): seq<Tok>
    decreases c, 3
  {
    match c
    case List(l, r) => PrintBack(l) + [Sym(';')] + PrintLine(r)
    case _ => PrintBack(c)
  }

  // ----- printing, then parsing

  function PrintReds(rs: seq<Red<string>>): seq<Tok> {
    if rs == [] then [] else [RedSym(rs[0].mode), Word(rs[0].file)] + PrintReds(rs[1..])
  }

  predicate RedsOk(rs: seq<Red<string>>) {
    forall i :: 0 <= i < |rs| ==>
      (rs[i].mode == O_RDONLY && rs[i].fd == 0) || (rs[i].mode == O_WRONLY_CREATE && rs[i].fd == 1)
  }

  lemma {:induction false} RedsBack(before: seq<Red<string>>, rs: seq<Red<string>>, rest: seq<Tok>)
    requires RedsOk(rs) && !(rest != [] && IsRed(rest[0]))
    ensures ParseReds(before, PrintReds(rs) + rest) == Reds(true, before + rs, rest)
    decreases |rs|
  {
    if rs == [] {
      assert PrintReds(rs) + rest == rest;
      assert before + rs == before;
    } else {
      var ts := PrintReds(rs) + rest;
      RedsBack(before + [rs[0]], rs[1..], rest);
      assert ts[0] == RedSym(rs[0].mode) && ts[1] == Word(rs[0].file) && ts[2..] == PrintReds(rs[1..]) + rest;
      assert RedOf(ts[0], ts[1].w) == rs[0];
      assert before + [rs[0]] + rs[1..] == before + rs;
    }
  }

  /** The redirections round a command, and what they are round. */
  function Inner(c: Cmd<string>): Cmd<string> {
    if c.Redir? then Inner(c.cmd) else c
  }

  function Outer(c: Cmd<string>): seq<Red<string>> {
    if c.Redir? then Outer(c.cmd) + [Red(c.file, c.mode, c.fd)] else []
  }

  lemma PrintRedsAppend(rs: seq<Red<string>>, r: Red<string>)
    ensures PrintReds(rs + [r]) == PrintReds(rs) + [RedSym(r.mode), Word(r.file)]
  {
    if rs == [] {
      assert rs + [r] == [r];
    } else {
      PrintRedsAppend(rs[1..], r);
      assert (rs + [r])[1..] == rs[1..] + [r];
    }
  }

  lemma {:induction false} Layers(c: Cmd<string>)
    requires Printable(c)
    ensures c == Wrap(Inner(c), Outer(c)) && PrintExec(c) == PrintExec(Inner(c)) + PrintReds(Outer(c))
    ensures RedsOk(Outer(c)) && Printable(Inner(c)) && !Inner(c).Redir? && (c.Redir? ==> Inner(c) < c)
  {
    if c.Redir? {
      Layers(c.cmd);
      var r := Red(c.file, c.mode, c.fd);
      assert Outer(c)[..|Outer(c)| - 1] == Outer(c.cmd);
      PrintRedsAppend(Outer(c.cmd), r);
      assert PrintExec(c) == PrintExec(Inner(c)) + PrintReds(Outer(c.cmd)) + [RedSym(r.mode), Word(r.file)];
    } else {
      assert PrintExec(c) == PrintExec(c) + PrintReds([]);
    }
  }

  /** One word taken. */
  lemma ArgsStep(before: seq<string>, ts: seq<Tok>, rs: seq<Red<string>>, rs': seq<Red<string>>, rest: seq<Tok>)
    requires ts != [] && ts[0].Word? && |before| + 1 < MAXARGS && ParseReds(rs, ts[1..]) == Reds(true, rs', rest)
    ensures ParseArgs(before, rs, ts) == ParseArgs(before + [ts[0].w], rs', rest)
  {
    hide ParseReds;
  }

  /** Words, then redirections. */
  lemma {:induction false} ArgsBack(before: seq<string>, args: seq<string>, rs: seq<Red<string>>, rest: seq<Tok>)
    requires args != [] && |before| + |args| < MAXARGS && RedsOk(rs) && Stops(rest)
    ensures ParseArgs(before, [], Words(args) + PrintReds(rs) + rest) == Ok(Wrap(Exec(before + args), rs), rest)
    decreases |args|
  {
    hide ParseReds, ParseArgs, PrintReds, Stops, Wrap;
    var ts := Words(args) + PrintReds(rs) + rest;
    assert ts[0] == Word(args[0]);
    assert Words(args) == [Word(args[0])] + Words(args[1..]);
    assert ts[1..] == Words(args[1..]) + PrintReds(rs) + rest;
    StopsNoRed(rest);
    if |args| == 1 {
      assert ts[1..] == PrintReds(rs) + rest;
      RedsBack([], rs, rest);
      assert [] + rs == rs && before + [args[0]] == before + args;
      ArgsStep(before, ts, [], rs, rest);
      ArgsDone(before + args, rs, rest);
    } else {
      assert ts[1] == Word(args[1]);
      NoReds([], ts[1..]);
      ArgsStep(before, ts, [], [], ts[1..]);
      ArgsBack(before + [args[0]], args[1..], rs, rest);
      assert before + [args[0]] + args[1..] == before + args;
    }
  }

  lemma StopsNoRed(rest: seq<Tok>)
    requires Stops(rest)
    ensures !(rest != [] && IsRed(rest[0])) && !Starts(rest, '(')
  {
  }

  lemma ArgsDone(args: seq<string>, rs: seq<Red<string>>, rest: seq<Tok>)
    requires Stops(rest)
    ensures ParseArgs(args, rs, rest) == Ok(Wrap(Exec(args), rs), rest)
  {
  }

  lemma NoReds(rs: seq<Red<string>>, ts: seq<Tok>)
    requires ts != [] && ts[0].Word?
    ensures ParseReds(rs, ts) == Reds(true, rs, ts)
  {
  }

  /** parseexec, when no parenthesis comes first. */
  lemma ExecCases(ts: seq<Tok>)
    requires !Starts(ts, '(')
    ensures var p := ParseReds([], ts); ParseExec(ts) == if p.ok then ParseArgs([], p.rs, p.rest) else Err
  {
    hide ParseReds, ParseArgs, ParseBlock;
  }

  lemma ExecBack(args: seq<string>, rs: seq<Red<string>>, rest: seq<Tok>)
    requires |args| < MAXARGS && RedsOk(rs) && Stops(rest)
    ensures ParseExec(Words(args) + PrintReds(rs) + rest) == Ok(Wrap(Exec(args), rs), rest)
  {
    hide ParseReds, ParseArgs, ParseExec, PrintReds, Stops, Wrap;
    var ts := Words(args) + PrintReds(rs) + rest;
    StopsNoRed(rest);
    if args == [] {
      assert ts == PrintReds(rs) + rest;
      FirstRed(rs, rest);
      RedsBack([], rs, rest);
      assert [] + rs == rs;
      ArgsDone([], rs, rest);
    } else {
      assert ts[0] == Word(args[0]);
      NoReds([], ts);
      ArgsBack([], args, rs, rest);
      assert [] + args == args;
    }
    ExecCases(ts);
  }

  lemma FirstRed(rs: seq<Red<string>>, rest: seq<Tok>)
    requires !Starts(rest, '(')
    ensures !Starts(PrintReds(rs) + rest, '(')
  {
  }

  lemma BlockBack(line: seq<Tok>, c: Cmd<string>, rs: seq<Red<string>>, rest: seq<Tok>)
    requires RedsOk(rs) && Stops(rest)
    requires ParseLine(line + ([Sym(')')] + (PrintReds(rs) + rest))) == Ok(c, [Sym(')')] + (PrintReds(rs) + rest))
    ensures ParseExec([Sym('(')] + line + [Sym(')')] + PrintReds(rs) + rest) == Ok(Wrap(c, rs), rest)
  {
    hide ParseLine, ParseReds, PrintReds, ParseArgs, Wrap;
    var ts, after := [Sym('(')] + line + [Sym(')')] + PrintReds(rs) + rest, [Sym(')')] + (PrintReds(rs) + rest);
    assert ts[1..] == line + after;
    assert after[1..] == PrintReds(rs) + rest;
    StopsNoRed(rest);
    RedsBack([], rs, rest);
    assert [] + rs == rs;
  }

  // ----- the levels above

  function Amps(k: nat): (ts: seq<Tok>)
    ensures |ts| == k
  {
    seq(k, _ => Sym('&'))
  }

  function Backs(c: Cmd<string>, k: nat): Cmd<string> {
    if k == 0 then c else Back(Backs(c, k - 1))
  }

  lemma {:induction false} BacksBack(c: Cmd<string>, j: nat, k: nat, rest: seq<Tok>)
    requires !Starts(rest, '&')
    ensures ParseBacks(Backs(c, j), Amps(k) + rest) == Ok(Backs(c, j + k), rest)
    decreases k
  {
    if k == 0 {
      assert Amps(k) + rest == rest;
    } else {
      assert (Amps(k) + rest)[1..] == Amps(k - 1) + rest;
      BacksBack(c, j + 1, k - 1, rest);
    }
  }

  function Depth(c: Cmd<string>): nat {
    if c.Back? then Depth(c.cmd) + 1 else 0
  }

  function Under(c: Cmd<string>): Cmd<string> {
    if c.Back? then Under(c.cmd) else c
  }

  lemma {:induction false} BackLayers(c: Cmd<string>)
    requires Printable(c)
    ensures c == Backs(Under(c), Depth(c)) && PrintBack(c) == PrintPipe(Under(c)) + Amps(Depth(c))
    ensures Printable(Under(c)) && !Under(c).Back? && (c.Back? ==> Under(c) < c)
  {
    if c.Back? {
      BackLayers(c.cmd);
      assert Amps(Depth(c)) == Amps(Depth(c.cmd)) + [Sym('&')];
      assert PrintBack(c) == PrintPipe(Under(c)) + (Amps(Depth(c.cmd)) + [Sym('&')]);
    } else {
      assert PrintPipe(c) + Amps(0) == PrintPipe(c);
    }
  }

  /** parsepipe after its parseexec. */
  lemma PipeCases(ts: seq<Tok>)
    ensures var c := ParseExec(ts);
      ParsePipe(ts) ==
      if c.Err? || !Starts(c.rest, '|') then c
      else var d := ParsePipe(c.rest[1..]); if d.Err? then Err else Ok(Pipe(c.cmd, d.cmd), d.rest)
  {
    hide ParseExec;
  }

  lemma LineCases(ts: seq<Tok>)
    requires ParsePipe(ts).Ok?
    ensures var b := ParseBacks(ParsePipe(ts).cmd, ParsePipe(ts).rest);
      ParseLine(ts) ==
      if !Starts(b.rest, ';') then b
      else var d := ParseLine(b.rest[1..]); if d.Err? then Err else Ok(List(b.cmd, d.cmd), d.rest)
  {
    hide ParsePipe, ParseBacks;
  }

  /** What is printed in parentheses. */
  lemma Grouped(c: Cmd<string>)
    requires !c.Exec? && !c.Redir?
    ensures PrintExec(c) == [Sym('(')] + PrintLine(c) + [Sym(')')]
    ensures c.List? || c.Back? ==> PrintPipe(c) == PrintExec(c)
  {
  }

  lemma {:induction false} ExecRoundTrip(c: Cmd<string>, rest: seq<Tok>)
    requires Printable(c) && Stops(rest)
    ensures ParseExec(PrintExec(c) + rest) == Ok(c, rest)
    decreases c, if c.Exec? || c.Redir? then 3 else 7
  {
    hide ParseExec, ParseLine, PrintLine, PrintReds, Wrap, Stops;
    Layers(c);
    var b, rs := Inner(c), Outer(c);
    if b.Exec? {
      ExecBack(b.args, rs, rest);
    } else {
      Grouped(b);
      var after := [Sym(')')] + (PrintReds(rs) + rest);
      LineRoundTrip(b, after);
      BlockBack(PrintLine(b), b, rs, rest);
    }
  }

  lemma {:induction false} PipeRoundTrip(c: Cmd<string>, rest: seq<Tok>)
    requires Printable(c) && Stops(rest) && !Starts(rest, '|')
    ensures ParsePipe(PrintPipe(c) + rest) == Ok(c, rest)
    decreases c, if c.List? || c.Back? then 8 else 4
  {
    hide ParsePipe, ParseExec, PrintExec, PrintLine;
    var ts := PrintPipe(c) + rest;
    if c.Pipe? {
      var after := [Sym('|')] + (PrintPipe(c.right) + rest);
      assert ts == PrintExec(c.left) + after;
      assert after[1..] == PrintPipe(c.right) + rest;
      ExecRoundTrip(c.left, after);
      PipeRoundTrip(c.right, rest);
    } else {
      if c.List? || c.Back? {
        Grouped(c);
      }
      ExecRoundTrip(c, rest);
    }
    PipeCases(ts);
  }

  /** A line printed in front of anything that ends a line. */
  lemma {:induction false} LineRoundTrip(c: Cmd<string>, rest: seq<Tok>)
    requires Printable(c) && (rest == [] || Starts(rest, ')'))
    ensures ParseLine(PrintLine(c) + rest) == Ok(c, rest)
    decreases c, 6
  {
    hide ParseLine, ParsePipe, ParseBacks, PrintBack;
    var ts := PrintLine(c) + rest;
    if c.List? {
      var after := [Sym(';')] + (PrintLine(c.right) + rest);
      assert ts == PrintBack(c.left) + after;
      assert after[1..] == PrintLine(c.right) + rest;
      BackRoundTrip(c.left, after);
      LineRoundTrip(c.right, rest);
    } else {
      BackRoundTrip(c, rest);
    }
    LineCases(ts);
  }

  /** The part of a line before its semicolon. */
  lemma {:induction false} BackRoundTrip(c: Cmd<string>, rest: seq<Tok>)
    requires Printable(c) && Stops(rest) && !Starts(rest, '|') && !Starts(rest, '&')
    ensures var p := ParsePipe(PrintBack(c) + rest); p.Ok? && ParseBacks(p.cmd, p.rest) == Ok(c, rest)
    decreases c, if c.List? then 9 else 5
  {
    hide ParsePipe, ParseBacks, PrintBack, PrintPipe, Backs;
    BackLayers(c);
    var d, k := Under(c), Depth(c);
    assert PrintBack(c) + rest == PrintPipe(d) + (Amps(k) + rest);
    AmpsStop(k, rest);
    PipeRoundTrip(d, Amps(k) + rest);
    NoBacks(d);
    BacksBack(d, 0, k, rest);
  }

  lemma AmpsStop(k: nat, rest: seq<Tok>)
    requires Stops(rest) && !Starts(rest, '|')
    ensures Stops(Amps(k) + rest) && !Starts(Amps(k) + rest, '|')
  {
    if k == 0 {
      assert Amps(k) + rest == rest;
    }
  }

  lemma NoBacks(c: Cmd<string>)
    ensures Backs(c, 0) == c
  {
  }

  /** Every command that can be printed is read back. */
  lemma CmdRoundTrip(c: Cmd<string>)
    requires Printable(c)
    ensures ParseCmd(PrintLine(c)) == Ok(c, [])
  {
    hide ParseLine, PrintLine;
    LineRoundTrip(c, []);
    assert PrintLine(c) + [] == PrintLine(c);
  }
}
