/** The shell's tokens, and the text that stands for them. */
module ShLex {
  import opened ShGrammar

  predicate Space(c: char) {
    c == ' ' || c == '\t' || c == '\r' || c == '\n' || c == 11 as char
  }

  predicate Symbol(c: char) {
    c == '<' || c == '|' || c == '>' || c == '&' || c == ';' || c == '(' || c == ')'
  }

  predicate Plain(c: char) {
    !Space(c) && !Symbol(c) && c != '\0'
  }

  /** A C string's contents. */
  predicate IsText(s: string) {
    forall i :: 0 <= i < |s| ==> s[i] != '\0'
  }

  /** The length of the word at the start of t. */
  function WordLen(t: string): (k: nat)
    ensures k <= |t| && (forall i :: 0 <= i < k ==> !Space(t[i]) && !Symbol(t[i]))
    ensures k < |t| ==> Space(t[k]) || Symbol(t[k])
  {
    if t == [] || Space(t[0]) || Symbol(t[0]) then 0 else WordLen(t[1..]) + 1
  }

  function Lex(t: string): seq<Tok>
    decreases |t|
  {
    if t == [] then []
    else if Space(t[0]) then Lex(t[1..])
    else if |t| > 1 && t[0] == '>' && t[1] == '>' then [Sym('+')] + Lex(t[2..])
    else if Symbol(t[0]) then [Sym(t[0])] + Lex(t[1..])
    else [Word(t[..WordLen(t)])] + Lex(t[WordLen(t)..])
  }

  // ----- text for tokens

  predicate Sayable(t: Tok) {
    match t
    case Sym(c) => Symbol(c) || c == '+'
    case Word(w) => w != [] && forall i :: 0 <= i < |w| ==> Plain(w[i])
  }

  function TokText(t: Tok): string {
    match t
    case Sym(c) => if c == '+' then ">>" else [c]
    case Word(w) => w
  }

  /** The tokens with a blank after each. */
  function Text(ts: seq<Tok>): string {
    if ts == [] then [] else TokText(ts[0]) + [' '] + Text(ts[1..])
  }

  lemma LexWord(w: string, rest: string)
    requires w != [] && (forall i :: 0 <= i < |w| ==> Plain(w[i])) && rest != [] && Space(rest[0])
    ensures Lex(w + rest) == [Word(w)] + Lex(rest)
  {
    var t := w + rest;
    var k := WordLen(t);
    forall i | 0 <= i < |w| ensures t[i] == w[i] {
    }
    assert t[|w|] == rest[0];
    assert k == |w|;
    assert t[..k] == w && t[k..] == rest;
  }

  lemma LexTok(t: Tok, rest: string)
    requires Sayable(t)
    ensures Lex(TokText(t) + [' '] + rest) == [t] + Lex(rest)
  {
    var after := [' '] + rest;
    assert TokText(t) + [' '] + rest == TokText(t) + after;
    assert after[1..] == rest && Lex(after) == Lex(rest);
    if t.Word? {
      LexWord(t.w, after);
    } else if t.c == '+' {
      assert (TokText(t) + after)[2..] == after;
    } else {
      assert (TokText(t) + after)[1..] == after;
      assert (TokText(t) + after)[1] == ' ';
    }
  }

  lemma {:induction false} LexText(ts: seq<Tok>)
    requires forall i :: 0 <= i < |ts| ==> Sayable(ts[i])
    ensures Lex(Text(ts)) == ts
  {
    if ts != [] {
      LexText(ts[1..]);
      LexTok(ts[0], Text(ts[1..]));
      assert ts == [ts[0]] + ts[1..];
    }
  }

  // ----- commands whose words are plain

  predicate PlainWord(w: string) {
    w != [] && forall i :: 0 <= i < |w| ==> Plain(w[i])
  }

  predicate PlainWords(c: Cmd<string>) {
    match c
    case Exec(args) => forall i :: 0 <= i < |args| ==> PlainWord(args[i])
    case Redir(d, f, _, _) => PlainWords(d) && PlainWord(f)
    case Pipe(l, r) => PlainWords(l) && PlainWords(r)
    case List(l, r) => PlainWords(l) && PlainWords(r)
    case Back(d) => PlainWords(d)
  }

  ghost predicate AllSayable(ts: seq<Tok>) {
    forall i :: 0 <= i < |ts| ==> Sayable(ts[i])
  }

  lemma {:induction false} ExecSayable(c: Cmd<string>)
    requires PlainWords(c)
    ensures AllSayable(PrintExec(c))
    decreases c, if c.Exec? || c.Redir? then 3 else 7
  {
    match c
    case Exec(_) =>
    case Redir(d, _, _, _) => ExecSayable(d);
    case _ => LineSayable(c);
  }

  lemma {:induction false} PipeSayable(c: Cmd<string>)
    requires PlainWords(c)
    ensures AllSayable(PrintPipe(c))
    decreases c, if c.List? || c.Back? then 8 else 4
  {
    match c
    case Pipe(l, r) => ExecSayable(l); PipeSayable(r);
    case List(_, _) => LineSayable(c);
    case Back(_) => LineSayable(c);
    case _ => ExecSayable(c);
  }

  lemma {:induction false} BackSayable(c: Cmd<string>)
    requires PlainWords(c)
    ensures AllSayable(PrintBack(c))
    decreases c, if c.List? then 9 else 5
  {
    match c
    case Back(d) => BackSayable(d);
    case _ => PipeSayable(c);
  }

  lemma {:induction false} LineSayable(c: Cmd<string>)
    requires PlainWords(c)
    ensures AllSayable(PrintLine(c))
    decreases c, 6
  {
    match c
    case List(l, r) => BackSayable(l); LineSayable(r);
    case _ => BackSayable(c);
  }

  /** A command line for a command. */
  function CommandLine(c: Cmd<string>): string {
    Text(PrintLine(c))
  }

  lemma {:induction false} TextIsText(ts: seq<Tok>)
    requires AllSayable(ts)
    ensures IsText(Text(ts))
  {
    if ts != [] {
      TextIsText(ts[1..]);
      assert Sayable(ts[0]);
    }
  }

  lemma LineIsText(c: Cmd<string>)
    requires PlainWords(c)
    ensures IsText(CommandLine(c))
  {
    LineSayable(c);
    TextIsText(PrintLine(c));
  }

  /** The shell's round trip: the line printed for a command is read as that command. */
  lemma RoundTrip(c: Cmd<string>)
    requires Printable(c) && PlainWords(c)
    ensures ParseCmd(Lex(CommandLine(c))) == Ok(c, [])
  {
    hide ParseCmd, PrintLine, Lex, Text;
    LineSayable(c);
    LexText(PrintLine(c));
    CmdRoundTrip(c);
  }

  // ----- what the parser can return

  /** A command that can be printed and whose words can be read back. */
  predicate Writable(c: Cmd<string>) {
    Printable(c) && PlainWords(c)
  }

  predicate PlainFiles(rs: seq<Red<string>>) {
    forall i :: 0 <= i < |rs| ==> PlainWord(rs[i].file)
  }

  lemma {:induction false} RedsRange(rs: seq<Red<string>>, ts: seq<Tok>)
    requires AllSayable(ts) && RedsOk(rs) && PlainFiles(rs)
    ensures var p := ParseReds(rs, ts); p.ok ==> RedsOk(p.rs) && PlainFiles(p.rs) && AllSayable(p.rest)
    decreases |ts|
  {
    if ts != [] && IsRed(ts[0]) && |ts| > 1 && ts[1].Word? {
      assert Sayable(ts[1]);
      RedsRange(rs + [RedOf(ts[0], ts[1].w)], ts[2..]);
    }
  }

  lemma {:induction false} WrapRange(c: Cmd<string>, rs: seq<Red<string>>)
    requires Writable(c) && RedsOk(rs) && PlainFiles(rs)
    ensures Writable(Wrap(c, rs))
    decreases |rs|
  {
    if rs != [] {
      WrapRange(c, rs[..|rs| - 1]);
    }
  }

  lemma {:induction false} ArgsRange(args: seq<string>, rs: seq<Red<string>>, ts: seq<Tok>)
    requires AllSayable(ts) && RedsOk(rs) && PlainFiles(rs) && Writable(Exec(args))
    ensures var r := ParseArgs(args, rs, ts); r.Ok? ==> Writable(r.cmd) && AllSayable(r.rest)
    decreases |ts|
  {
    if Stops(ts) {
      WrapRange(Exec(args), rs);
    } else if ts[0].Word? && |args| + 1 < MAXARGS {
      assert Sayable(ts[0]);
      RedsRange(rs, ts[1..]);
      var p := ParseReds(rs, ts[1..]);
      if p.ok {
        ArgsRange(args + [ts[0].w], p.rs, p.rest);
      }
    }
  }

  lemma {:induction false} ExecRange(ts: seq<Tok>)
    requires AllSayable(ts)
    ensures var r := ParseExec(ts); r.Ok? ==> Writable(r.cmd) && AllSayable(r.rest)
    decreases |ts|, 1
  {
    if Starts(ts, '(') {
      BlockRange(ts);
    } else {
      RedsRange([], ts);
      var p := ParseReds([], ts);
      if p.ok {
        ArgsRange([], p.rs, p.rest);
      }
    }
  }

  lemma {:induction false} BlockRange(ts: seq<Tok>)
    requires Starts(ts, '(') && AllSayable(ts)
    ensures var r := ParseBlock(ts); r.Ok? ==> Writable(r.cmd) && AllSayable(r.rest)
    decreases |ts|, 0
  {
    LineRange(ts[1..]);
    var c := ParseLine(ts[1..]);
    if c.Ok? && Starts(c.rest, ')') {
      RedsRange([], c.rest[1..]);
      var p := ParseReds([], c.rest[1..]);
      if p.ok {
        WrapRange(c.cmd, p.rs);
      }
    }
  }

  lemma {:induction false} PipeRange(ts: seq<Tok>)
    requires AllSayable(ts)
    ensures var r := ParsePipe(ts); r.Ok? ==> Writable(r.cmd) && AllSayable(r.rest)
    decreases |ts|, 2
  {
    ExecRange(ts);
    var c := ParseExec(ts);
    if c.Ok? && Starts(c.rest, '|') {
      PipeRange(c.rest[1..]);
    }
  }

  lemma {:induction false} BacksRange(c: Cmd<string>, ts: seq<Tok>)
    requires Writable(c) && AllSayable(ts)
    ensures var r := ParseBacks(c, ts); Writable(r.cmd) && AllSayable(r.rest)
    decreases |ts|
  {
    if Starts(ts, '&') {
      BacksRange(Back(c), ts[1..]);
    }
  }

  lemma {:induction false} LineRange(ts: seq<Tok>)
    requires AllSayable(ts)
    ensures var r := ParseLine(ts); r.Ok? ==> Writable(r.cmd) && AllSayable(r.rest)
    decreases |ts|, 3
  {
    PipeRange(ts);
    var c := ParsePipe(ts);
    if c.Ok? {
      BacksRange(c.cmd, c.rest);
      var b := ParseBacks(c.cmd, c.rest);
      if Starts(b.rest, ';') {
        LineRange(b.rest[1..]);
      }
    }
  }

  /** gettoken makes only tokens that can be written. */
  lemma {:induction false} LexSayable(t: string)
    requires IsText(t)
    ensures AllSayable(Lex(t))
    decreases |t|
  {
    if t == [] {
    } else if Space(t[0]) {
      LexSayable(t[1..]);
    } else if |t| > 1 && t[0] == '>' && t[1] == '>' {
      LexSayable(t[2..]);
    } else if Symbol(t[0]) {
      LexSayable(t[1..]);
    } else {
      LexSayable(t[WordLen(t)..]);
      assert Sayable(Word(t[..WordLen(t)]));
    }
  }

  /** The round trip's domain is exactly what the parser can return: a command comes from some text if and
      only if it can be written. */
  lemma ParserRange(c: Cmd<string>)
    ensures Writable(c) <==> exists t :: IsText(t) && ParseCmd(Lex(t)) == Ok(c, [])
  {
    hide ParseLine, Lex, CommandLine, Printable, PlainWords;
    if Writable(c) {
      LineIsText(c);
      RoundTrip(c);
    }
    forall t | IsText(t) && ParseCmd(Lex(t)) == Ok(c, []) ensures Writable(c) {
      LexSayable(t);
      LineRange(Lex(t));
    }
  }
}
