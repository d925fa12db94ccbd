/**
 * The shell's lexer and recursive-descent parser (user/sh.c) on the characters
 * of a line, and nulterminate, which cuts the words out of the line in place.
 * The cursor *ps is a position in the line, es is its length.
 */
module Shell {
  import opened ShellGrammar

  // ---- Characters and tokens ----

  predicate White(c: char) {
    c == ' ' || c == '\t' || c == '\r' || c == '\n' || c == 11 as char
  }

  predicate Symbol(c: char) {
    c == '<' || c == '|' || c == '>' || c == '&' || c == ';' || c == '(' || c == ')'
  }

  predicate Plain(c: char) {
    !White(c) && !Symbol(c) && c != '\0'
  }

  /** A line before its NUL. */
  predicate CString(s: string) {
    '\0' !in s
  }

  function SkipWhite(s: string, i: nat): (j: nat)
    requires i <= |s|
    ensures i <= j <= |s| && (j < |s| ==> !White(s[j]))
    ensures forall k :: i <= k < j ==> White(s[k])
    decreases |s| - i
  {
    if i < |s| && White(s[i]) then SkipWhite(s, i + 1) else i
  }

  function WordEnd(s: string, i: nat): (j: nat)
    requires i <= |s|
    ensures i <= j <= |s| && (j < |s| ==> White(s[j]) || Symbol(s[j]))
    ensures forall k :: i <= k < j ==> !White(s[k]) && !Symbol(s[k])
    decreases |s| - i
  {
    if i < |s| && !White(s[i]) && !Symbol(s[i]) then WordEnd(s, i + 1) else i
  }

  /** The token that starts at q, and where it ends. */
  function TokenAt(s: string, q: nat): (r: (Token, nat))
    requires q < |s| && !White(s[q])
    ensures q < r.1 <= |s|
  {
    match s[q]
    case '|' => (Bar, q + 1)
    case '(' => (Open, q + 1)
    case ')' => (Close, q + 1)
    case ';' => (Semi, q + 1)
    case '&' => (Amp, q + 1)
    case '<' => (Angle(Input), q + 1)
    case '>' => if q + 1 < |s| && s[q + 1] == '>' then (Angle(Append), q + 2) else (Angle(Output), q + 1)
    case _ => (Word(Span(q, WordEnd(s, q))), WordEnd(s, q))
  }

  /** The tokens from position i on. */
  function Lex(s: string, i: nat): Tokens
    requires i <= |s|
    decreases |s| - i
  {
    var q := SkipWhite(s, i);
    if q == |s| then Nil else Cons(TokenAt(s, q).0, Lex(s, TokenAt(s, q).1))
  }

  lemma LexSkips(s: string, i: nat)
    requires i <= |s|
    ensures Lex(s, SkipWhite(s, i)) == Lex(s, i)
  {
  }

  /** The character gettoken returns for a token. */
  function Code(t: Token): char {
    match t
    case Word(_) => 'a'
    case Angle(Input) => '<'
    case Angle(Output) => '>'
    case Angle(Append) => '+'
    case Bar => '|'
    case Open => '('
    case Close => ')'
    case Semi => ';'
    case Amp => '&'
  }

  /** The character a token starts with, if it is a symbol. */
  function Lead(t: Token): char {
    if t == Angle(Append) then '>' else Code(t)
  }

  method SkipLoop(s: string, i: nat) returns (j: nat)
    requires i <= |s|
    ensures j == SkipWhite(s, i)
  {
    j := i;
    while j < |s| && White(s[j])
      invariant i <= j <= |s| && SkipWhite(s, j) == SkipWhite(s, i)
    {
      j := j + 1;
    }
  }

  /** The switch of gettoken, at a character that is not white. */
  method ScanToken(s: string, q: nat) returns (ret: char, eq: nat)
    requires q < |s| && !White(s[q])
    ensures ret == Code(TokenAt(s, q).0) && eq == TokenAt(s, q).1
    ensures ret == 'a' ==> TokenAt(s, q).0 == Word(Span(q, eq))
  {
    eq := q + 1;
    if s[q] == '>' {
      ret := '>';
      if eq < |s| && s[eq] == '>' { ret, eq := '+', eq + 1; }
    } else if Symbol(s[q]) {
      ret := s[q];
    } else {
      ret, eq := 'a', q;
      while eq < |s| && !White(s[eq]) && !Symbol(s[eq])
        invariant q <= eq <= |s| && WordEnd(s, eq) == WordEnd(s, q)
      {
        eq := eq + 1;
      }
    }
  }

  /** gettoken: '\0' at the end of the line, else the next token's code and slice. */
  method GetToken(s: string, ps: nat) returns (ret: char, q: nat, eq: nat, ps': nat)
    requires ps <= |s|
    ensures ps <= ps' <= |s| && q <= eq <= |s|
    ensures Lex(s, ps).Nil? ==> ret == '\0' && Lex(s, ps').Nil?
    ensures Lex(s, ps).Cons? ==> ret == Code(Lex(s, ps).head) && Lex(s, ps') == Lex(s, ps).tail && ps < ps'
    ensures ret == 'a' ==> Lex(s, ps).Cons? && Lex(s, ps).head == Word(Span(q, eq))
  {
    hide TokenAt, White, Symbol, WordEnd;
    q := SkipLoop(s, ps);
    if q == |s| {
      ret, eq := '\0', q;
    } else {
      ret, eq := ScanToken(s, q);
    }
    ps' := SkipLoop(s, eq);
    LexSkips(s, eq);
  }

  predicate Peeks(ts: Tokens, toks: string) {
    ts.Cons? && !ts.head.Word? && Lead(ts.head) in toks
  }

  /** peek: is the next token one that starts with a character of toks? */
  method Peek(s: string, ps: nat, toks: string) returns (yes: bool, ps': nat)
    requires ps <= |s| && forall c :: c in toks ==> Symbol(c)
    ensures ps <= ps' <= |s| && Lex(s, ps') == Lex(s, ps)
    ensures yes <==> Peeks(Lex(s, ps), toks)
    ensures ps' == |s| <==> Lex(s, ps).Nil?
  {
    ps' := SkipLoop(s, ps);
    LexSkips(s, ps);
    yes := ps' < |s| && s[ps'] in toks;
  }

  lemma PeekMeans(ts: Tokens)
    ensures Peeks(ts, "<>") <==> Angled(ts)
    ensures Peeks(ts, "(") <==> Next(ts, Open)
    ensures Peeks(ts, ")") <==> Next(ts, Close)
    ensures Peeks(ts, "|") <==> Next(ts, Bar)
    ensures Peeks(ts, "&") <==> Next(ts, Amp)
    ensures Peeks(ts, ";") <==> Next(ts, Semi)
    ensures Peeks(ts, "|)&;") <==> ts.Cons? && Stops(ts)
  {
    if ts.Cons? {
      match ts.head {
        case Word(_) =>
        case Angle(k) => match k { case Input => case Output => case Append => }
        case _ =>
      }
    }
  }

  // ---- The parser in the line ----

  datatype Result<T> = Done(value: T) | Panic(error: Error)

  /** A stretch of parsing gives what the token parser gives, and leaves the cursor before its rest. */
  predicate Agrees(p: Parse<Cmd<Span>>, r: Result<Cmd<Span>>, s: string, ps: nat)
    requires ps <= |s|
  {
    match p
    case Err(e) => r == Panic(e)
    case Ok(cmd, rest) => r == Done(cmd) && Lex(s, ps) == rest
  }

  function RedirsCmd(cmd: Cmd<Span>, ts: Tokens): Parse<Cmd<Span>> {
    match ParseRedirs(ts)
    case Err(e) => Err(e)
    case Ok(rs, rest) => Ok(Wrap(cmd, rs), rest)
  }

  function StageCmd(ts: Tokens): Parse<Cmd<Span>> {
    match ParseStage(ts)
    case Err(e) => Err(e)
    case Ok(st, rest) => Ok(StageTree(st), rest)
  }

  function PipelineCmd(ts: Tokens): Parse<Cmd<Span>> {
    match ParsePipeline(ts)
    case Err(e) => Err(e)
    case Ok(p, rest) => Ok(PipelineTree(p), rest)
  }

  function LineCmd(ts: Tokens): Parse<Cmd<Span>> {
    match ParseLine(ts)
    case Err(e) => Err(e)
    case Ok(l, rest) => Ok(LineTree(l), rest)
  }

  /** Storing arguments into the EXEC node that the redirections so far enclose. */
  function AddArgs(cmd: Cmd<Span>, ws: seq<Span>): Cmd<Span> {
    match cmd
    case Exec(argv) => Exec(argv + ws)
    case Redir(c, file, kind) => Redir(AddArgs(c, ws), file, kind)
    case _ => cmd
  }

  lemma {:induction false} AddUnderWrap(cmd: Cmd<Span>, rs: Seq<Redirect>, ws: seq<Span>)
    ensures AddArgs(Wrap(cmd, rs), ws) == Wrap(AddArgs(cmd, ws), rs)
    decreases rs
  {
    if rs.Cons? { AddUnderWrap(Redir(cmd, rs.head.file, rs.head.kind), rs.tail, ws); }
  }

  lemma {:induction false} AddTwice(cmd: Cmd<Span>, vs: seq<Span>, ws: seq<Span>)
    ensures AddArgs(AddArgs(cmd, vs), ws) == AddArgs(cmd, vs + ws)
  {
    match cmd {
      case Exec(argv) => assert argv + vs + ws == argv + (vs + ws);
      case Redir(c, _, _) => AddTwice(c, vs, ws);
      case _ =>
    }
  }

  /** The rest of a simple command, n arguments into it. */
  function ArgsCmd(cmd: Cmd<Span>, n: nat, ts: Tokens): Parse<Cmd<Span>> {
    match ParseArgs(ts, n)
    case Err(e) => Err(e)
    case Ok(args, rest) => Ok(WrapAll(AddArgs(cmd, Words(args)), args), rest)
  }

  lemma ArgsStep(cmd: Cmd<Span>, n: nat, ts: Tokens)
    requires !Stops(ts) && ts.head.Word? && n + 1 < MAXARGS
    ensures match RedirsCmd(AddArgs(cmd, [ts.head.span]), ts.tail)
      case Err(e) => ArgsCmd(cmd, n, ts) == Err(e)
      case Ok(cmd', mid) => ArgsCmd(cmd, n, ts) == ArgsCmd(cmd', n + 1, mid)
  {
    var w := ts.head.span;
    var rs := ParseRedirs(ts.tail);
    if rs.Ok? {
      var rest := ParseArgs(rs.rest, n + 1);
      if rest.Ok? {
        var ws := Words(rest.v);
        AddUnderWrap(AddArgs(cmd, [w]), rs.v, ws);
        AddTwice(cmd, [w], ws);
      }
    }
  }

  lemma ArgsEnd(cmd: Cmd<Span>, n: nat, ts: Tokens)
    ensures Stops(ts) ==> ArgsCmd(cmd, n, ts) == Ok(cmd, ts)
    ensures !Stops(ts) && !ts.head.Word? ==> ArgsCmd(cmd, n, ts) == Err(Syntax)
    ensures !Stops(ts) && ts.head.Word? && n + 1 >= MAXARGS ==> ArgsCmd(cmd, n, ts) == Err(TooManyArgs)
  {
    NoArgs(cmd);
  }

  lemma {:induction false} NoArgs(cmd: Cmd<Span>)
    ensures AddArgs(cmd, []) == cmd
  {
    match cmd {
      case Exec(argv) => assert argv + [] == argv;
      case Redir(c, _, _) => NoArgs(c);
      case _ =>
    }
  }

  lemma StageByArgs(ts: Tokens)
    requires !Next(ts, Open)
    ensures match RedirsCmd(Exec([]), ts)
      case Err(e) => StageCmd(ts) == Err(e)
      case Ok(cmd, mid) => StageCmd(ts) == ArgsCmd(cmd, 0, mid)
  {
    var rs := ParseRedirs(ts);
    if rs.Ok? {
      var args := ParseArgs(rs.rest, 0);
      if args.Ok? {
        var ws := Words(args.v);
        AddUnderWrap(Exec([]), rs.v, ws);
        assert AddArgs(Exec([]), ws) == Exec(ws);
      }
    }
  }

  /** parseredirs */
  method ParseRedirsAt(cmd: Cmd<Span>, s: string, ps: nat) returns (r: Result<Cmd<Span>>, ps': nat)
    requires ps <= |s|
    ensures ps <= ps' <= |s| && Agrees(RedirsCmd(cmd, Lex(s, ps)), r, s, ps')
  {
    hide Lex, SkipWhite, TokenAt, Peeks, White;
    var ret, cursor := cmd, ps;
    while true
      invariant ps <= cursor <= |s| && RedirsCmd(ret, Lex(s, cursor)) == RedirsCmd(cmd, Lex(s, ps))
      decreases |s| - cursor
    {
      PeekMeans(Lex(s, cursor));
      var yes, at := Peek(s, cursor, "<>");
      if !yes { return Done(ret), at; }
      var tok, _, _, next := GetToken(s, at);
      var word, q, eq, after := GetToken(s, next);
      if word != 'a' { return Panic(MissingFile), after; }
      var kind := if tok == '<' then Input else if tok == '>' then Output else Append;
      ret := Redir(ret, Span(q, eq), kind);
      cursor := after;
    }
  }

  /** parseblock */
  method ParseBlockAt(s: string, ps: nat) returns (r: Result<Cmd<Span>>, ps': nat)
    requires ps <= |s| && Next(Lex(s, ps), Open)
    ensures ps <= ps' <= |s| && Agrees(StageCmd(Lex(s, ps)), r, s, ps')
    decreases |s| - ps, 0
  {
    hide Lex, SkipWhite, TokenAt, Peeks, White;
    assert ParseStage(Lex(s, ps)) == ParseBlock(Lex(s, ps));
    var _, _, _, inner := GetToken(s, ps);
    var line, end := ParseLineAt(s, inner);
    if line.Panic? { return line, end; }
    PeekMeans(Lex(s, end));
    var closed, at := Peek(s, end, ")");
    if !closed { return Panic(MissingParen), at; }
    var _, _, _, after := GetToken(s, at);
    r, ps' := ParseRedirsAt(line.value, s, after);
  }

  /** parseexec */
  method ParseExecAt(s: string, ps: nat) returns (r: Result<Cmd<Span>>, ps': nat)
    requires ps <= |s|
    ensures ps <= ps' <= |s| && Agrees(StageCmd(Lex(s, ps)), r, s, ps')
    decreases |s| - ps, 1
  {
    hide Lex, SkipWhite, TokenAt, Peeks, White, ArgsCmd, StageCmd, RedirsCmd, AddArgs;
    PeekMeans(Lex(s, ps));
    var block, at := Peek(s, ps, "(");
    if block {
      r, ps' := ParseBlockAt(s, at);
      return;
    }
    StageByArgs(Lex(s, ps));
    r, ps' := ParseRedirsAt(Exec([]), s, at);
    var argc := 0;
    while r.Done?
      invariant ps <= ps' <= |s| && argc < MAXARGS
      invariant r.Done? ==> ArgsCmd(r.value, argc, Lex(s, ps')) == StageCmd(Lex(s, ps))
      invariant r.Panic? ==> StageCmd(Lex(s, ps)) == Err(r.error)
      decreases |s| - ps', r.Done?
    {
      PeekMeans(Lex(s, ps'));
      ArgsEnd(r.value, argc, Lex(s, ps'));
      var stop, here := Peek(s, ps', "|)&;");
      if stop { ps' := here; break; }
      var tok, q, eq, next := GetToken(s, here);
      if tok == '\0' { ps' := next; break; }
      if tok != 'a' { return Panic(Syntax), next; }
      argc := argc + 1;
      if argc >= MAXARGS { return Panic(TooManyArgs), next; }
      ArgsStep(r.value, argc - 1, Lex(s, here));
      r, ps' := ParseRedirsAt(AddArgs(r.value, [Span(q, eq)]), s, next);
    }
  }

  /** parsepipe */
  method ParsePipeAt(s: string, ps: nat) returns (r: Result<Cmd<Span>>, ps': nat)
    requires ps <= |s|
    ensures ps <= ps' <= |s| && Agrees(PipelineCmd(Lex(s, ps)), r, s, ps')
    decreases |s| - ps, 2
  {
    hide Lex, SkipWhite, TokenAt, Peeks, White;
    r, ps' := ParseExecAt(s, ps);
    if r.Panic? { return; }
    var left := r.value;
    PeekMeans(Lex(s, ps'));
    var bar, at := Peek(s, ps', "|");
    ps' := at;
    if bar {
      var _, _, _, next := GetToken(s, at);
      r, ps' := ParsePipeAt(s, next);
      if r.Done? { r := Done(Pipe(left, r.value)); }
    }
  }

  /** parseline */
  method ParseLineAt(s: string, ps: nat) returns (r: Result<Cmd<Span>>, ps': nat)
    requires ps <= |s|
    ensures ps <= ps' <= |s| && Agrees(LineCmd(Lex(s, ps)), r, s, ps')
    decreases |s| - ps, 3
  {
    hide Lex, SkipWhite, TokenAt, Peeks, White;
    r, ps' := ParsePipeAt(s, ps);
    if r.Panic? { return; }
    var cmd := r.value;
    ghost var (n, after) := ParseAmps(Lex(s, ps'));
    ghost var all := Backs(cmd, n);
    PeekMeans(Lex(s, ps'));
    var amp, at := Peek(s, ps', "&");
    while amp
      invariant ps <= at <= |s|
      invariant var (k, rest) := ParseAmps(Lex(s, at)); rest == after && Backs(cmd, k) == all
      invariant amp <==> Next(Lex(s, at), Amp)
      decreases |s| - at
    {
      var _, _, _, next := GetToken(s, at);
      cmd := Back(cmd);
      PeekMeans(Lex(s, next));
      amp, at := Peek(s, next, "&");
    }
    PeekMeans(Lex(s, at));
    var semi;
    semi, ps' := Peek(s, at, ";");
    if semi {
      var _, _, _, next := GetToken(s, ps');
      r, ps' := ParseLineAt(s, next);
      if r.Done? { r := Done(List(cmd, r.value)); }
    } else {
      r := Done(cmd);
    }
  }

  // ---- Cutting the words out of the line ----

  /** A maximal run of plain characters. */
  predicate WordIn(s: string, w: Span) {
    && w.q < w.eq <= |s|
    && (forall k :: w.q <= k < w.eq ==> Plain(s[k]))
    && (w.eq < |s| ==> !Plain(s[w.eq]))
  }

  lemma {:induction false} LexWords(s: string, i: nat, w: Span)
    requires i <= |s| && CString(s) && Holds(Lex(s, i), Word(w))
    ensures WordIn(s, w)
    decreases |s| - i
  {
    var q := SkipWhite(s, i);
    var (t, eq) := TokenAt(s, q);
    if t != Word(w) { LexWords(s, eq, w); }
  }

  /** nulterminate writes a NUL here. */
  ghost predicate EndsAt(cmd: Cmd<Span>, i: nat) {
    match cmd
    case Exec(argv) => exists w :: w in argv && w.eq == i
    case Redir(c, file, _) => file.eq == i || EndsAt(c, i)
    case Pipe(left, right) => EndsAt(left, i) || EndsAt(right, i)
    case List(left, right) => EndsAt(left, i) || EndsAt(right, i)
    case Back(c) => EndsAt(c, i)
  }

  lemma {:induction false} EndsAreWordEnds(cmd: Cmd<Span>, i: nat)
    ensures EndsAt(cmd, i) <==> exists w :: Mentions(cmd, w) && w.eq == i
    decreases cmd, 1
  {
    match cmd {
      case Exec(argv) =>
        if w :| w in argv && w.eq == i { assert Mentions(cmd, w); }
      case Redir(c, file, _) =>
        EndsAreWordEnds(c, i);
        assert Mentions(cmd, file);
        if w :| Mentions(c, w) && w.eq == i { assert Mentions(cmd, w); }
      case Pipe(left, right) => EndsOfTwo(cmd, left, right, i);
      case List(left, right) => EndsOfTwo(cmd, left, right, i);
      case Back(c) =>
        EndsAreWordEnds(c, i);
        if w :| Mentions(c, w) && w.eq == i { assert Mentions(cmd, w); }
    }
  }

  lemma {:induction false} EndsOfTwo(cmd: Cmd<Span>, left: Cmd<Span>, right: Cmd<Span>, i: nat)
    requires cmd == Pipe(left, right) || cmd == List(left, right)
    ensures EndsAt(cmd, i) <==> exists w :: Mentions(cmd, w) && w.eq == i
    decreases cmd, 0
  {
    EndsAreWordEnds(left, i);
    EndsAreWordEnds(right, i);
    if w :| Mentions(left, w) && w.eq == i { assert Mentions(cmd, w); }
    if w :| Mentions(right, w) && w.eq == i { assert Mentions(cmd, w); }
  }

  method CutArgs(argv: seq<Span>, buf: array<char>)
    requires forall w :: w in argv ==> w.eq < buf.Length
    modifies buf
    ensures forall i: nat :: i < buf.Length ==>
      buf[i] == if EndsAt(Exec(argv), i) then '\0' else old(buf[i])
  {
    ghost var cmd: Cmd<Span> := Exec(argv);
    var k := 0;
    while k < |argv|
      invariant k <= |argv|
      invariant forall i: nat :: i < buf.Length ==>
        buf[i] == if EndsAt(Exec(argv[..k]), i) then '\0' else old(buf[i])
    {
      buf[argv[k].eq] := '\0';
      forall i: nat ensures EndsAt(Exec(argv[..k + 1]), i) <==> EndsAt(Exec(argv[..k]), i) || i == argv[k].eq {
        assert argv[..k + 1] == argv[..k] + [argv[k]];
        if i == argv[k].eq { assert argv[k] in argv[..k + 1]; }
      }
      k := k + 1;
    }
    assert argv[..k] == argv;
  }

  /** nulterminate: a NUL after every word of the tree, and no other change. */
  method NulTerminate(cmd: Cmd<Span>, buf: array<char>)
    requires forall w :: Mentions(cmd, w) ==> w.eq < buf.Length
    modifies buf
    ensures forall i: nat :: i < buf.Length ==> buf[i] == if EndsAt(cmd, i) then '\0' else old(buf[i])
    decreases cmd
  {
    match cmd {
      case Exec(argv) => CutArgs(argv, buf);
      case Redir(c, file, _) =>
        assert Mentions(cmd, file);
        NulTerminate(c, buf);
        buf[file.eq] := '\0';
      case Pipe(left, right) =>
        NulTerminate(left, buf);
        NulTerminate(right, buf);
      case List(left, right) =>
        NulTerminate(left, buf);
        NulTerminate(right, buf);
      case Back(c) => NulTerminate(c, buf);
    }
  }

  /** The C string at q in memory b is w. */
  predicate ReadsAs(b: seq<char>, q: nat, w: string) {
    q + |w| < |b| && b[q..q + |w|] == w && CString(w) && b[q + |w|] == '\0'
  }

  function Slice(s: string, w: Span): string {
    if w.q <= w.eq <= |s| then s[w.q..w.eq] else ""
  }

  /** No NUL written for one word falls inside another. */
  lemma CutReads(s: string, cmd: Cmd<Span>, b: seq<char>, w: Span)
    requires |s| < |b| && Mentions(cmd, w) && forall v :: Mentions(cmd, v) ==> WordIn(s, v)
    requires forall i: nat :: i < |s| ==> b[i] == if EndsAt(cmd, i) then '\0' else s[i]
    requires b[|s|] == '\0'
    ensures ReadsAs(b, w.q, Slice(s, w))
  {
    EndsAreWordEnds(cmd, w.eq);
    forall i: nat | w.q <= i < w.eq ensures b[i] == s[i] && s[i] != '\0' {
      EndsAreWordEnds(cmd, i);
      assert Plain(s[i]);
    }
    assert b[w.q..w.eq] == s[w.q..w.eq];
  }

  /** The characters before the first NUL. */
  function CText(b: seq<char>): string {
    if b == [] || b[0] == '\0' then [] else [b[0]] + CText(b[1..])
  }

  lemma {:induction false} CTextIs(b: seq<char>, n: nat)
    requires n < |b| && b[n] == '\0' && CString(b[..n])
    ensures CText(b) == b[..n]
  {
    if n > 0 {
      assert b[0] in b[..n];
      assert b[1..][..n - 1] == b[..n][1..];
      assert forall x :: x in b[..n][1..] ==> x in b[..n];
      CTextIs(b[1..], n - 1);
      assert b[..n] == [b[0]] + b[1..][..n - 1];
    }
  }

  method StrLen(buf: array<char>) returns (n: nat)
    requires '\0' in buf[..]
    ensures n < buf.Length && buf[n] == '\0' && CString(buf[..n]) && CText(buf[..]) == buf[..n]
  {
    n := 0;
    while buf[n] != '\0'
      invariant n < buf.Length && CString(buf[..n]) && exists k :: n <= k < buf.Length && buf[k] == '\0'
      decreases buf.Length - n
    {
      n := n + 1;
    }
    assert buf[..][..n] == buf[..n];
    CTextIs(buf[..], n);
  }

  /** Every word of an accepted line's tree is a word of the line. */
  lemma TreeWords(s: string, l: Line)
    requires CString(s) && ParseAll(Lex(s, 0)) == Ok(l, Nil)
    ensures forall w :: Mentions(LineTree(l), w) ==> WordIn(s, w)
  {
    ParserIsGrammar(Lex(s, 0), l);
    forall w | Mentions(LineTree(l), w) ensures WordIn(s, w) {
      LineMention(l, Nil, w);
      LexWords(s, 0, w);
    }
  }

  /**
   * parsecmd: the tree of the line's derivation, with every argument and file
   * name readable as exactly its slice; a panic leaves the line alone.
   */
  method ParseCmd(buf: array<char>) returns (r: Result<Cmd<Span>>)
    requires '\0' in buf[..]
    modifies buf
    ensures match ParseAll(Lex(old(CText(buf[..])), 0))
      case Err(e) => r == Panic(e) && buf[..] == old(buf[..])
      case Ok(l, _) =>
        && r == Done(LineTree(l))
        && forall w :: Mentions(LineTree(l), w) ==> ReadsAs(buf[..], w.q, Slice(old(CText(buf[..])), w))
  {
    hide Lex, EndsAt, ReadsAs, Mentions, CText, ParseLine;
    var n := StrLen(buf);
    var s := buf[..n];
    var ps;
    r, ps := ParseLineAt(s, 0);
    if r.Panic? { return; }
    var _, end := Peek(s, ps, "");
    if end != n { return Panic(Leftovers); }
    ghost var l := ParseAll(Lex(s, 0)).v;
    TreeWords(s, l);
    NulTerminate(r.value, buf);
    forall w | Mentions(r.value, w) ensures ReadsAs(buf[..], w.q, Slice(s, w)) {
      CutReads(s, r.value, buf[..], w);
    }
  }
}
