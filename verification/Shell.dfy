/** The shell's parser as it is written, on a buffer and a cursor, and nulterminate. */
module Shell {
  import opened ShGrammar
  import opened ShLex

  /** A word by its place in the buffer: argv[i] and eargv[i], or file and efile. */
  datatype Span = Span(q: nat, eq: nat)

  /** A maximal run of plain characters. */
  predicate SpanOk(s: string, w: Span) {
    w.q < w.eq <= |s| && (forall i :: w.q <= i < w.eq ==> Plain(s[i])) && (w.eq < |s| ==> !Plain(s[w.eq]))
  }

  predicate SpansIn(s: string, ws: seq<Span>) {
    forall i :: 0 <= i < |ws| ==> SpanOk(s, ws[i])
  }

  predicate AllOk(s: string, c: Cmd<Span>) {
    match c
    case Exec(args) => SpansIn(s, args)
    case Redir(d, f, _, _) => AllOk(s, d) && SpanOk(s, f)
    case Pipe(l, r) => AllOk(s, l) && AllOk(s, r)
    case List(l, r) => AllOk(s, l) && AllOk(s, r)
    case Back(d) => AllOk(s, d)
  }

  /** The words themselves. */
  function WordsOf(s: string, ws: seq<Span>): seq<string>
    requires SpansIn(s, ws)
  {
    seq(|ws|, i requires 0 <= i < |ws| => s[ws[i].q..ws[i].eq])
  }

  function Read(s: string, c: Cmd<Span>): Cmd<string>
    requires AllOk(s, c)
  {
    match c
    case Exec(args) => Exec(WordsOf(s, args))
    case Redir(d, f, mode, fd) => Redir(Read(s, d), s[f.q..f.eq], mode, fd)
    case Pipe(l, r) => Pipe(Read(s, l), Read(s, r))
    case List(l, r) => List(Read(s, l), Read(s, r))
    case Back(d) => Back(Read(s, d))
  }

  predicate RedsIn(s: string, rs: seq<Red<Span>>) {
    forall i :: 0 <= i < |rs| ==> SpanOk(s, rs[i].file)
  }

  function RedsOf(s: string, rs: seq<Red<Span>>): seq<Red<string>>
    requires RedsIn(s, rs)
  {
    seq(|rs|, i requires 0 <= i < |rs| => Red(s[rs[i].file.q..rs[i].file.eq], rs[i].mode, rs[i].fd))
  }

  lemma {:induction false} ReadWrap(s: string, c: Cmd<Span>, rs: seq<Red<Span>>)
    requires AllOk(s, c) && RedsIn(s, rs)
    ensures AllOk(s, Wrap(c, rs)) && Read(s, Wrap(c, rs)) == Wrap(Read(s, c), RedsOf(s, rs))
    decreases |rs|
  {
    if rs != [] {
      var front := rs[..|rs| - 1];
      ReadWrap(s, c, front);
      assert RedsOf(s, rs)[..|rs| - 1] == RedsOf(s, front);
    }
  }

  // ----- gettoken and peek

  method SkipSpace(s: string, ps: nat) returns (k: nat)
    requires ps <= |s|
    ensures ps <= k <= |s| && (k < |s| ==> !Space(s[k])) && Lex(s[k..]) == Lex(s[ps..])
  {
    k := ps;
    while k < |s| && Space(s[k])
      invariant ps <= k <= |s| && Lex(s[k..]) == Lex(s[ps..])
    {
      assert s[k..][1..] == s[k + 1..];
      k := k + 1;
    }
  }

  /** peek: the cursor moves over blanks; the next character is one of toks. */
  method Peek(s: string, ps: nat, toks: string) returns (b: bool, ps': nat)
    requires ps <= |s| && IsText(s)
    ensures ps <= ps' <= |s| && Lex(s[ps'..]) == Lex(s[ps..]) && (ps' < |s| ==> !Space(s[ps']))
    ensures b <==> ps' < |s| && s[ps'] in toks
  {
    ps' := SkipSpace(s, ps);
    b := ps' < |s| && s[ps'] in toks;
  }

  /** What the first character says about the first token. */
  lemma FirstChar(s: string, k: nat)
    requires k <= |s| && (k < |s| ==> !Space(s[k]))
    ensures k == |s| ==> Lex(s[k..]) == []
    ensures k < |s| ==> Lex(s[k..]) != []
    ensures k < |s| && Symbol(s[k]) ==> var t := Lex(s[k..])[0]; t == Sym(s[k]) || (s[k] == '>' && t == Sym('+'))
    ensures k < |s| && !Symbol(s[k]) ==> Lex(s[k..])[0].Word?
  {
  }

  /** gettoken: '\0' at the end, 'a' for a word, otherwise the symbol, + for >>. */
  method Gettoken(s: string, ps: nat) returns (ret: char, w: Span, ps': nat)
    requires ps <= |s| && IsText(s)
    ensures ps <= ps' <= |s|
    ensures Lex(s[ps..]) == [] ==> ret == '\0' && Lex(s[ps'..]) == []
    ensures Lex(s[ps..]) != [] ==> ps < ps' && Lex(s[ps'..]) == Lex(s[ps..])[1..]
    ensures Lex(s[ps..]) != [] && Lex(s[ps..])[0].Sym? ==> ret == Lex(s[ps..])[0].c && ret != 'a' && ret != '\0'
    ensures Lex(s[ps..]) != [] && Lex(s[ps..])[0].Word? ==>
      ret == 'a' && SpanOk(s, w) && Lex(s[ps..])[0].w == s[w.q..w.eq]
  {
    var q := SkipSpace(s, ps);
    var k := q;
    if k == |s| {
      return '\0', Span(q, k), k;
    }
    ret := s[k];
    if Symbol(ret) {
      k := k + 1;
      assert s[q..][1..] == s[k..];
      if ret == '>' && k < |s| && s[k] == '>' {
        ret := '+';
        k := k + 1;
        assert s[q..][2..] == s[k..];
      }
    } else {
      ret := 'a';
      k := EndOfWord(s, q);
    }
    w := Span(q, k);
    ps' := SkipSpace(s, k);
  }

  method EndOfWord(s: string, q: nat) returns (k: nat)
    requires q < |s| && IsText(s) && !Space(s[q]) && !Symbol(s[q])
    ensures q < k <= |s| && SpanOk(s, Span(q, k)) && Lex(s[q..]) == [Word(s[q..k])] + Lex(s[k..])
  {
    k := q;
    while k < |s| && !Space(s[k]) && !Symbol(s[k])
      invariant q <= k <= |s| && forall i :: q <= i < k ==> !Space(s[i]) && !Symbol(s[i])
    {
      k := k + 1;
    }
    var t, n := s[q..], WordLen(s[q..]);
    assert n == k - q by {
      forall i | 0 <= i < k - q ensures t[i] == s[q + i] {
      }
      assert k < |s| ==> t[k - q] == s[k];
    }
    assert t[..n] == s[q..k] && t[n..] == s[k..];
  }

  // ----- the parser

  /** What a parse method has done: from cursor ps to ps', as the grammar says. */
  ghost predicate Parsed(s: string, ps: nat, r: Result<string>, ok: bool, c: Cmd<Span>, ps': nat)
    requires ps <= |s|
  {
    && (ok <==> r.Ok?)
    && (ok ==> ps <= ps' <= |s| && AllOk(s, c) && Read(s, c) == r.cmd && Lex(s[ps'..]) == r.rest)
  }

  /** parseredirs, with the redirections so far. */
  method Parseredirs(s: string, ps: nat, rs0: seq<Red<Span>>) returns (ok: bool, rs: seq<Red<Span>>, ps': nat)
    requires ps <= |s| && IsText(s) && RedsIn(s, rs0)
    ensures ps <= ps' <= |s| && RedsIn(s, rs)
    ensures var p := ParseReds(RedsOf(s, rs0), Lex(s[ps..]));
      (ok <==> p.ok) && (ok ==> p.rs == RedsOf(s, rs) && p.rest == Lex(s[ps'..]))
  {
    hide Lex, SpanOk, ParseReds;
    rs, ps' := rs0, ps;
    while true
      invariant ps <= ps' <= |s| && RedsIn(s, rs)
      invariant ParseReds(RedsOf(s, rs), Lex(s[ps'..])) == ParseReds(RedsOf(s, rs0), Lex(s[ps..]))
      decreases |s| - ps'
    {
      var more;
      more, ps' := Peek(s, ps', "<>");
      FirstChar(s, ps');
      ghost var ts := Lex(s[ps'..]);
      RedsCases(RedsOf(s, rs), ts);
      if !more {
        return true, rs, ps';
      }
      var tok, _, p1 := Gettoken(s, ps');
      var ret, w, p2 := Gettoken(s, p1);
      if ret != 'a' {
        return false, rs, ps';
      }
      ghost var was := rs;
      if tok == '<' {
        rs := rs + [Red(w, O_RDONLY, 0)];
      } else {
        rs := rs + [Red(w, O_WRONLY_CREATE, 1)];
      }
      assert RedsOf(s, rs) == RedsOf(s, was) + [RedOf(ts[0], ts[1].w)];
      ps' := p2;
    }
  }

  lemma RedsCases(rs: seq<Red<string>>, ts: seq<Tok>)
    ensures ParseReds(rs, ts) ==
      if ts != [] && IsRed(ts[0]) then
        if |ts| > 1 && ts[1].Word? then ParseReds(rs + [RedOf(ts[0], ts[1].w)], ts[2..]) else Reds(false, rs, [])
      else Reds(true, rs, ts)
  {
  }

  lemma ArgsCases(args: seq<string>, rs: seq<Red<string>>, ts: seq<Tok>)
    ensures ParseArgs(args, rs, ts) ==
      if Stops(ts) then Ok(Wrap(Exec(args), rs), ts)
      else if !ts[0].Word? || |args| + 1 >= MAXARGS then Err
      else
        var p := ParseReds(rs, ts[1..]);
        if p.ok then ParseArgs(args + [ts[0].w], p.rs, p.rest) else Err
  {
    hide ParseReds, Wrap;
  }

  method Parseexec(s: string, ps: nat) returns (ok: bool, c: Cmd<Span>, ps': nat)
    requires ps <= |s| && IsText(s)
    ensures Parsed(s, ps, ParseExec(Lex(s[ps..])), ok, c, ps')
    decreases |s| - ps, 1
  {
    hide Lex, SpanOk, ParseReds, ParseArgs, ParseBlock, ParseLine, Wrap;
    var paren, p := Peek(s, ps, "(");
    FirstChar(s, p);
    if paren {
      ok, c, ps' := Parseblock(s, p);
      return;
    }
    ghost var ts := Lex(s[p..]);
    ExecCases(ts);
    var rs;
    assert RedsOf(s, []) == [];
    ok, rs, ps' := Parseredirs(s, p, []);
    if !ok {
      return false, Exec([]), ps';
    }
    var args;
    assert WordsOf(s, []) == [];
    ok, args, rs, ps' := ParseWords(s, ps', rs);
    c := Wrap(Exec(args), rs);
    if ok {
      ReadWrap(s, Exec(args), rs);
    }
  }

  /** The loop of parseexec. */
  method ParseWords(s: string, ps: nat, rs0: seq<Red<Span>>) returns (ok: bool, args: seq<Span>, rs: seq<Red<Span>>,
    ps': nat)
    requires ps <= |s| && IsText(s) && RedsIn(s, rs0)
    ensures ps <= ps' <= |s| && RedsIn(s, rs) && SpansIn(s, args)
    ensures var r := ParseArgs([], RedsOf(s, rs0), Lex(s[ps..]));
      (ok <==> r.Ok?) && (ok ==> r.rest == Lex(s[ps'..]) && r.cmd == Wrap(Exec(WordsOf(s, args)), RedsOf(s, rs)))
  {
    hide Lex, SpanOk, ParseReds, ParseArgs, Wrap;
    args, rs, ps' := [], rs0, ps;
    assert WordsOf(s, args) == [];
    while true
      invariant ps <= ps' <= |s| && RedsIn(s, rs) && SpansIn(s, args)
      invariant ParseArgs(WordsOf(s, args), RedsOf(s, rs), Lex(s[ps'..])) == ParseArgs([], RedsOf(s, rs0), Lex(s[ps..]))
      decreases |s| - ps'
    {
      var stop;
      stop, ps' := Peek(s, ps', "|)&;");
      FirstChar(s, ps');
      ghost var ts := Lex(s[ps'..]);
      ArgsCases(WordsOf(s, args), RedsOf(s, rs), ts);
      if stop {
        return true, args, rs, ps';
      }
      var tok, w, p1 := Gettoken(s, ps');
      if tok == '\0' {
        return true, args, rs, p1;
      }
      if tok != 'a' {
        return false, args, rs, ps';
      }
      ghost var was := args;
      args := args + [w];
      assert WordsOf(s, args) == WordsOf(s, was) + [ts[0].w];
      if |args| >= MAXARGS {
        return false, args, rs, ps';
      }
      ok, rs, ps' := Parseredirs(s, p1, rs);
      if !ok {
        return false, args, rs, ps';
      }
    }
  }

  method Parseblock(s: string, ps: nat) returns (ok: bool, c: Cmd<Span>, ps': nat)
    requires ps < |s| && IsText(s) && s[ps] == '('
    ensures Starts(Lex(s[ps..]), '(') && Parsed(s, ps, ParseBlock(Lex(s[ps..])), ok, c, ps')
    decreases |s| - ps, 0
  {
    hide Lex, SpanOk, ParseReds, ParseLine, Wrap;
    FirstChar(s, ps);
    var _, _, p1 := Gettoken(s, ps);
    ok, c, ps' := Parseline(s, p1);
    if !ok {
      return;
    }
    var close;
    close, ps' := Peek(s, ps', ")");
    FirstChar(s, ps');
    if !close {
      return false, c, ps';
    }
    var _, _, p2 := Gettoken(s, ps');
    var rs;
    assert RedsOf(s, []) == [];
    ok, rs, ps' := Parseredirs(s, p2, []);
    if ok {
      ReadWrap(s, c, rs);
    }
    c := Wrap(c, rs);
  }

  method Parsepipe(s: string, ps: nat) returns (ok: bool, c: Cmd<Span>, ps': nat)
    requires ps <= |s| && IsText(s)
    ensures Parsed(s, ps, ParsePipe(Lex(s[ps..])), ok, c, ps')
    decreases |s| - ps, 2
  {
    hide Lex, SpanOk, ParseExec, ParsePipe;
    PipeCases(Lex(s[ps..]));
    ok, c, ps' := Parseexec(s, ps);
    if !ok {
      return;
    }
    var bar;
    bar, ps' := Peek(s, ps', "|");
    FirstChar(s, ps');
    if bar {
      var _, _, p1 := Gettoken(s, ps');
      var d;
      ok, d, ps' := Parsepipe(s, p1);
      c := Pipe(c, d);
    }
  }

  method Parseline(s: string, ps: nat) returns (ok: bool, c: Cmd<Span>, ps': nat)
    requires ps <= |s| && IsText(s)
    ensures Parsed(s, ps, ParseLine(Lex(s[ps..])), ok, c, ps')
    decreases |s| - ps, 3
  {
    hide Lex, SpanOk, ParsePipe, ParseLine, ParseBacks;
    ok, c, ps' := Parsepipe(s, ps);
    if !ok {
      LineFails(Lex(s[ps..]));
      return;
    }
    LineCases(Lex(s[ps..]));
    c, ps' := ParseAmps(s, ps', c);
    var semi;
    semi, ps' := Peek(s, ps', ";");
    FirstChar(s, ps');
    if semi {
      var _, _, p1 := Gettoken(s, ps');
      var d;
      ok, d, ps' := Parseline(s, p1);
      c := List(c, d);
    }
  }

  lemma LineFails(ts: seq<Tok>)
    requires ParsePipe(ts).Err?
    ensures ParseLine(ts).Err?
  {
    hide ParsePipe;
  }

  /** The loop of parseline. */
  method ParseAmps(s: string, ps: nat, c0: Cmd<Span>) returns (c: Cmd<Span>, ps': nat)
    requires ps <= |s| && IsText(s) && AllOk(s, c0)
    ensures ps <= ps' <= |s| && AllOk(s, c) && Ok(Read(s, c), Lex(s[ps'..])) == ParseBacks(Read(s, c0), Lex(s[ps..]))
  {
    hide Lex, SpanOk, ParseBacks;
    c, ps' := c0, ps;
    while true
      invariant ps <= ps' <= |s| && AllOk(s, c)
      invariant ParseBacks(Read(s, c), Lex(s[ps'..])) == ParseBacks(Read(s, c0), Lex(s[ps..]))
      decreases |s| - ps'
    {
      var amp;
      amp, ps' := Peek(s, ps', "&");
      FirstChar(s, ps');
      BacksCases(Read(s, c), Lex(s[ps'..]));
      if !amp {
        return;
      }
      var _, _, p1 := Gettoken(s, ps');
      c := Back(c);
      ps' := p1;
    }
  }

  lemma BacksCases(c: Cmd<string>, ts: seq<Tok>)
    ensures ParseBacks(c, ts) == if Starts(ts, '&') then ParseBacks(Back(c), ts[1..]) else Ok(c, ts)
  {
  }

  /** parsecmd, before nulterminate. */
  method Parsecmd(s: string) returns (ok: bool, c: Cmd<Span>)
    requires IsText(s)
    ensures ok <==> ParseCmd(Lex(s)).Ok?
    ensures ok ==> AllOk(s, c) && Read(s, c) == ParseCmd(Lex(s)).cmd
  {
    hide Lex, SpanOk, ParseLine;
    var ps;
    assert s[0..] == s;
    ok, c, ps := Parseline(s, 0);
    if !ok {
      return;
    }
    var _, end := Peek(s, ps, "");
    FirstChar(s, end);
    ok := end == |s|;
  }

  // ----- nulterminate

  function EndsOf(ws: seq<Span>): set<nat> {
    set i | 0 <= i < |ws| :: ws[i].eq
  }

  /** Where the words of a command end. */
  function WordEnds(c: Cmd<Span>): set<nat> {
    match c
    case Exec(args) => EndsOf(args)
    case Redir(d, f, _, _) => WordEnds(d) + {f.eq}
    case Pipe(l, r) => WordEnds(l) + WordEnds(r)
    case List(l, r) => WordEnds(l) + WordEnds(r)
    case Back(d) => WordEnds(d)
  }

  predicate EndsIn(c: Cmd<Span>, n: nat) {
    forall e :: e in WordEnds(c) ==> e < n
  }

  method Nulterminate(buf: array<char>, c: Cmd<Span>)
    requires EndsIn(c, buf.Length)
    modifies buf
    ensures forall i :: 0 <= i < buf.Length ==> buf[i] == if i in WordEnds(c) then '\0' else old(buf[i])
    decreases c
  {
    match c {
      case Exec(args) =>
        for i := 0 to |args|
          invariant forall j :: 0 <= j < buf.Length ==> buf[j] == if j in EndsOf(args[..i]) then '\0' else old(buf[j])
        {
          assert args[i].eq in WordEnds(c);
          buf[args[i].eq] := '\0';
          OneMoreEnd(args, i);
        }
        assert args[..|args|] == args;
      case Redir(d, f, _, _) =>
        assert WordEnds(d) <= WordEnds(c) && f.eq in WordEnds(c);
        Nulterminate(buf, d);
        buf[f.eq] := '\0';
      case Pipe(l, r) =>
        assert WordEnds(l) <= WordEnds(c) && WordEnds(r) <= WordEnds(c);
        Nulterminate(buf, l);
        Nulterminate(buf, r);
      case List(l, r) =>
        assert WordEnds(l) <= WordEnds(c) && WordEnds(r) <= WordEnds(c);
        Nulterminate(buf, l);
        Nulterminate(buf, r);
      case Back(d) =>
        assert WordEnds(d) <= WordEnds(c);
        Nulterminate(buf, d);
    }
  }

  lemma OneMoreEnd(args: seq<Span>, i: nat)
    requires i < |args|
    ensures EndsOf(args[..i + 1]) == EndsOf(args[..i]) + {args[i].eq}
  {
    forall e ensures e in EndsOf(args[..i + 1]) <==> e in EndsOf(args[..i]) || e == args[i].eq {
      if e == args[i].eq {
        assert args[..i + 1][i] == args[i];
      }
      if e in EndsOf(args[..i]) {
        var k :| 0 <= k < i && args[..i][k].eq == e;
        assert args[..i + 1][k].eq == e;
      }
      if e in EndsOf(args[..i + 1]) && e != args[i].eq {
        var k :| 0 <= k < i + 1 && args[..i + 1][k].eq == e;
        assert args[..i][k].eq == e;
      }
    }
  }

  /** The C string at position q. */
  function CString(b: seq<char>, q: nat): string
    decreases |b| - q
  {
    if q >= |b| || b[q] == '\0' then [] else [b[q]] + CString(b, q + 1)
  }

  /** The command as exec and open will see it: every word a C string in the buffer. */
  function Strings(b: seq<char>, c: Cmd<Span>): Cmd<string> {
    match c
    case Exec(args) => Exec(seq(|args|, i requires 0 <= i < |args| => CString(b, args[i].q)))
    case Redir(d, f, mode, fd) => Redir(Strings(b, d), CString(b, f.q), mode, fd)
    case Pipe(l, r) => Pipe(Strings(b, l), Strings(b, r))
    case List(l, r) => List(Strings(b, l), Strings(b, r))
    case Back(d) => Back(Strings(b, d))
  }

  /** b is the buffer of s with NULs at the ends of words only, where no word has a character. */
  ghost predicate Terminated(s: string, b: seq<char>, es: set<nat>) {
    && |b| == |s| + 1 && b[|s|] == '\0'
    && (forall i :: 0 <= i < |s| ==> b[i] == if i in es then '\0' else s[i])
    && (forall e :: e in es ==> e <= |s| && (e < |s| ==> !Plain(s[e])))
  }

  lemma {:induction false} WordIs(s: string, b: seq<char>, es: set<nat>, w: Span, q: nat)
    requires Terminated(s, b, es) && SpanOk(s, w) && w.eq in es && w.q <= q <= w.eq
    ensures CString(b, q) == s[q..w.eq]
    decreases w.eq - q
  {
    if q < w.eq {
      WordIs(s, b, es, w, q + 1);
      assert s[q..w.eq] == [s[q]] + s[q + 1..w.eq];
    }
  }

  lemma {:induction false} WordsAre(s: string, b: seq<char>, es: set<nat>, c: Cmd<Span>)
    requires Terminated(s, b, es) && AllOk(s, c) && WordEnds(c) <= es
    ensures Strings(b, c) == Read(s, c)
  {
    match c
    case Exec(args) =>
      forall i | 0 <= i < |args| ensures CString(b, args[i].q) == s[args[i].q..args[i].eq] {
        assert args[i].eq in EndsOf(args);
        WordIs(s, b, es, args[i], args[i].q);
      }
    case Redir(d, f, _, _) =>
      WordsAre(s, b, es, d);
      WordIs(s, b, es, f, f.q);
    case Pipe(l, r) =>
      WordsAre(s, b, es, l);
      WordsAre(s, b, es, r);
    case List(l, r) =>
      WordsAre(s, b, es, l);
      WordsAre(s, b, es, r);
    case Back(d) =>
      WordsAre(s, b, es, d);
  }

  lemma {:induction false} EndsOk(s: string, c: Cmd<Span>)
    requires AllOk(s, c)
    ensures forall e :: e in WordEnds(c) ==> e <= |s| && (e < |s| ==> !Plain(s[e]))
  {
    match c
    case Exec(args) =>
    case Redir(d, _, _, _) => EndsOk(s, d);
    case Pipe(l, r) => EndsOk(s, l); EndsOk(s, r);
    case List(l, r) => EndsOk(s, l); EndsOk(s, r);
    case Back(d) => EndsOk(s, d);
  }

  /** parsecmd on a buffer: fails exactly when the grammar does; otherwise every word of the command
      is afterwards the C string it should be. */
  method RunParser(buf: array<char>) returns (ok: bool, c: Cmd<Span>)
    requires 0 < buf.Length && buf[buf.Length - 1] == '\0' && IsText(buf[..buf.Length - 1])
    modifies buf
    ensures ok <==> ParseCmd(Lex(old(buf[..buf.Length - 1]))).Ok?
    ensures ok ==> Strings(buf[..], c) == ParseCmd(Lex(old(buf[..buf.Length - 1]))).cmd
    ensures !ok ==> buf[..] == old(buf[..])
  {
    hide Lex, ParseCmd;
    var s := buf[..buf.Length - 1];
    ok, c := Parsecmd(s);
    if ok {
      EndsOk(s, c);
      Nulterminate(buf, c);
      WordsAre(s, buf[..], WordEnds(c), c);
    }
  }

  /** The round trip through the code: a printable command is read back from its command line. */
  method ReadBack(buf: array<char>, ghost cmd: Cmd<string>) returns (ok: bool, c: Cmd<Span>)
    requires Printable(cmd) && PlainWords(cmd)
    requires 0 < buf.Length && buf[..buf.Length - 1] == CommandLine(cmd) && buf[buf.Length - 1] == '\0'
    modifies buf
    ensures ok && Strings(buf[..], c) == cmd
  {
    hide Lex, ParseCmd, Printable, PlainWords, CommandLine, Strings;
    RoundTrip(cmd);
    LineIsText(cmd);
    ok, c := RunParser(buf);
  }
}
