/**
 * The command language of user/sh.c: the grammar that parseline, parsepipe,
 * parseblock, parseexec and parseredirs follow, and a parser on tokens that is
 * proved to accept exactly that grammar.
 */
module ShellGrammar {
  import opened Options

  const MAXARGS := 10

  datatype Seq<T> = Nil | Cons(head: T, tail: Seq<T>)

  function Len<T>(s: Seq<T>): nat {
    if s.Nil? then 0 else 1 + Len(s.tail)
  }

  /** A word is the slice [q, eq) of the line. */
  datatype Span = Span(q: nat, eq: nat)

  /** The kinds of redirection: < and > and >>. */
  datatype Kind = Input | Output | Append

  datatype Token = Word(span: Span) | Angle(kind: Kind) | Bar | Open | Close | Semi | Amp

  /** The command tree; W is a slice of the line, or the text of one. */
  datatype Cmd<W> =
    | Exec(argv: seq<W>)
    | Redir(cmd: Cmd<W>, file: W, kind: Kind)
    | Pipe(left: Cmd<W>, right: Cmd<W>)
    | List(left: Cmd<W>, right: Cmd<W>)
    | Back(cmd: Cmd<W>)

  datatype Error = Syntax | MissingFile | MissingParen | TooManyArgs | Leftovers

  // ---- The grammar: derivations, the tokens they cover and the trees they mean ----

  datatype Redirect = Redirect(kind: Kind, file: Span)
  datatype Arg = Arg(word: Span, redirs: Seq<Redirect>)
  datatype Stage = Block(line: Line, after: Seq<Redirect>) | Simple(before: Seq<Redirect>, args: Seq<Arg>)
  datatype Pipeline = Pipeline(stage: Stage, more: Option<Pipeline>)
  datatype Line = Line(pipeline: Pipeline, amps: nat, next: Option<Line>)

  type Tokens = Seq<Token>

  // Each of these puts the tokens of a derivation before `rest`.

  function RedirTokens(rs: Seq<Redirect>, rest: Tokens): Tokens {
    match rs
    case Nil => rest
    case Cons(r, more) => Cons(Angle(r.kind), Cons(Word(r.file), RedirTokens(more, rest)))
  }

  function ArgTokens(args: Seq<Arg>, rest: Tokens): Tokens {
    match args
    case Nil => rest
    case Cons(a, more) => Cons(Word(a.word), RedirTokens(a.redirs, ArgTokens(more, rest)))
  }

  function StageTokens(st: Stage, rest: Tokens): Tokens {
    match st
    case Block(line, after) => Cons(Open, LineTokens(line, Cons(Close, RedirTokens(after, rest))))
    case Simple(before, args) => RedirTokens(before, ArgTokens(args, rest))
  }

  function PipelineTokens(p: Pipeline, rest: Tokens): Tokens {
    match p.more
    case None => StageTokens(p.stage, rest)
    case Some(p') => StageTokens(p.stage, Cons(Bar, PipelineTokens(p', rest)))
  }

  function AmpTokens(n: nat, rest: Tokens): Tokens {
    if n == 0 then rest else Cons(Amp, AmpTokens(n - 1, rest))
  }

  function LineTokens(l: Line, rest: Tokens): Tokens {
    match l.next
    case None => PipelineTokens(l.pipeline, AmpTokens(l.amps, rest))
    case Some(l') => PipelineTokens(l.pipeline, AmpTokens(l.amps, Cons(Semi, LineTokens(l', rest))))
  }

  /** The array argv has MAXARGS entries and a NULL must end it. */
  predicate Sized(l: Line) {
    && SizedPipeline(l.pipeline)
    && (l.next.Some? ==> Sized(l.next.value))
  }

  predicate SizedPipeline(p: Pipeline) {
    && SizedStage(p.stage)
    && (p.more.Some? ==> SizedPipeline(p.more.value))
  }

  predicate SizedStage(st: Stage) {
    match st
    case Block(line, _) => Sized(line)
    case Simple(_, args) => Len(args) < MAXARGS
  }

  /** Each redirection wraps what stands to its left: the first ends up innermost. */
  function Wrap(cmd: Cmd<Span>, rs: Seq<Redirect>): Cmd<Span>
    decreases rs
  {
    match rs
    case Nil => cmd
    case Cons(r, more) => Wrap(Redir(cmd, r.file, r.kind), more)
  }

  function Words(args: Seq<Arg>): seq<Span> {
    match args
    case Nil => []
    case Cons(a, more) => [a.word] + Words(more)
  }

  /** The redirections between and after the arguments wrap in order of appearance. */
  function WrapAll(cmd: Cmd<Span>, args: Seq<Arg>): Cmd<Span>
    decreases args
  {
    match args
    case Nil => cmd
    case Cons(a, more) => WrapAll(Wrap(cmd, a.redirs), more)
  }

  function Backs(cmd: Cmd<Span>, n: nat): Cmd<Span>
    decreases n
  {
    if n == 0 then cmd else Backs(Back(cmd), n - 1)
  }

  /** All arguments gather in one EXEC node, inside all redirections. */
  function StageTree(st: Stage): Cmd<Span> {
    match st
    case Block(line, after) => Wrap(LineTree(line), after)
    case Simple(before, args) => WrapAll(Wrap(Exec(Words(args)), before), args)
  }

  function PipelineTree(p: Pipeline): Cmd<Span> {
    match p.more
    case None => StageTree(p.stage)
    case Some(p') => Pipe(StageTree(p.stage), PipelineTree(p'))
  }

  function LineTree(l: Line): Cmd<Span> {
    match l.next
    case None => Backs(PipelineTree(l.pipeline), l.amps)
    case Some(l') => List(Backs(PipelineTree(l.pipeline), l.amps), LineTree(l'))
  }

  // ---- How redirections nest ----

  /** The command inside n redirections, if there are as many. */
  function Inside(cmd: Cmd<Span>, n: nat): Cmd<Span>
    decreases n
  {
    if n == 0 then cmd else if cmd.Redir? then Inside(cmd.cmd, n - 1) else cmd
  }

  function At<T>(s: Seq<T>, k: nat): T
    requires k < Len(s)
    decreases s
  {
    if k == 0 then s.head else At(s.tail, k - 1)
  }

  lemma {:induction false} InsideMore(cmd: Cmd<Span>, m: nat, n: nat)
    ensures Inside(Inside(cmd, m), n) == Inside(cmd, m + n)
    decreases m
  {
    if m > 0 {
      if cmd.Redir? { InsideMore(cmd.cmd, m - 1, n); } else { InsideStays(cmd, n); }
    }
  }

  lemma InsideStays(cmd: Cmd<Span>, n: nat)
    requires !cmd.Redir?
    ensures Inside(cmd, n) == cmd
  {
  }

  /** The last redirection is the outermost, the first the innermost, and inside all of them is the command. */
  lemma {:induction false} WrapNests(cmd: Cmd<Span>, rs: Seq<Redirect>, k: nat)
    ensures Inside(Wrap(cmd, rs), Len(rs)) == cmd
    ensures k < Len(rs) ==>
      Inside(Wrap(cmd, rs), Len(rs) - 1 - k) ==
      Redir(Inside(Wrap(cmd, rs), Len(rs) - k), At(rs, k).file, At(rs, k).kind)
    decreases rs
  {
    if rs.Cons? {
      var inner := Redir(cmd, rs.head.file, rs.head.kind);
      WrapNests(inner, rs.tail, if k > 0 then k - 1 else 0);
      InsideMore(Wrap(inner, rs.tail), Len(rs.tail), 1);
      assert Inside(inner, 1) == cmd;
    }
  }

  function Append<T>(s: Seq<T>, more: Seq<T>): Seq<T>
    decreases s
  {
    if s.Nil? then more else Cons(s.head, Append(s.tail, more))
  }

  /** The redirections of a simple command in order of appearance. */
  function RedirsOf(args: Seq<Arg>): Seq<Redirect>
    decreases args
  {
    if args.Nil? then Nil else Append(args.head.redirs, RedirsOf(args.tail))
  }

  lemma {:induction false} WrapAppend(cmd: Cmd<Span>, rs: Seq<Redirect>, more: Seq<Redirect>)
    ensures Wrap(cmd, Append(rs, more)) == Wrap(Wrap(cmd, rs), more)
    decreases rs
  {
    if rs.Cons? { WrapAppend(Redir(cmd, rs.head.file, rs.head.kind), rs.tail, more); }
  }

  lemma {:induction false} WrapAllIsWrap(cmd: Cmd<Span>, args: Seq<Arg>)
    ensures WrapAll(cmd, args) == Wrap(cmd, RedirsOf(args))
    decreases args
  {
    if args.Cons? {
      WrapAllIsWrap(Wrap(cmd, args.head.redirs), args.tail);
      WrapAppend(cmd, args.head.redirs, RedirsOf(args.tail));
    }
  }

  /**
   * The k-th redirection of a simple command, wherever it stands among the
   * arguments, encloses those before it and is enclosed by those behind it.
   */
  lemma SimpleNests(before: Seq<Redirect>, args: Seq<Arg>, k: nat)
    ensures var rs := Append(before, RedirsOf(args)); var tree := StageTree(Simple(before, args));
      && Inside(tree, Len(rs)) == Exec(Words(args))
      && (k < Len(rs) ==>
            Inside(tree, Len(rs) - 1 - k) == Redir(Inside(tree, Len(rs) - k), At(rs, k).file, At(rs, k).kind))
  {
    WrapAllIsWrap(Wrap(Exec(Words(args)), before), args);
    WrapAppend(Exec(Words(args)), before, RedirsOf(args));
    WrapNests(Exec(Words(args)), Append(before, RedirsOf(args)), k);
  }

  // ---- The parser on tokens ----

  datatype Parse<A> = Ok(v: A, rest: Tokens) | Err(e: Error)

  predicate Next(ts: Tokens, t: Token) {
    ts.Cons? && ts.head == t
  }

  /** A simple command ends here: peek of |)&; or the end of the line. */
  predicate Stops(ts: Tokens) {
    ts.Cons? ==> ts.head in {Bar, Close, Amp, Semi}
  }

  predicate Angled(ts: Tokens) {
    ts.Cons? && ts.head.Angle?
  }

  function ParseRedirs(ts: Tokens): (r: Parse<Seq<Redirect>>)
    ensures r.Ok? ==> Len(r.rest) <= Len(ts)
  {
    if !Angled(ts) then Ok(Nil, ts)
    else if ts.tail.Nil? || !ts.tail.head.Word? then Err(MissingFile)
    else
      match ParseRedirs(ts.tail.tail)
      case Err(e) => Err(e)
      case Ok(rs, rest) => Ok(Cons(Redirect(ts.head.kind, ts.tail.head.span), rs), rest)
  }

  /** The arguments after the first n. */
  function ParseArgs(ts: Tokens, n: nat): (r: Parse<Seq<Arg>>)
    ensures r.Ok? ==> Len(r.rest) <= Len(ts)
    decreases Len(ts)
  {
    if Stops(ts) then Ok(Nil, ts)
    else if !ts.head.Word? then Err(Syntax)
    else if n + 1 >= MAXARGS then Err(TooManyArgs)
    else
      match ParseRedirs(ts.tail)
      case Err(e) => Err(e)
      case Ok(rs, mid) =>
        match ParseArgs(mid, n + 1)
        case Err(e) => Err(e)
        case Ok(args, rest) => Ok(Cons(Arg(ts.head.span, rs), args), rest)
  }

  function ParseStage(ts: Tokens): (r: Parse<Stage>)
    ensures r.Ok? ==> Len(r.rest) <= Len(ts)
    decreases Len(ts), 1
  {
    if Next(ts, Open) then ParseBlock(ts)
    else
      match ParseRedirs(ts)
      case Err(e) => Err(e)
      case Ok(rs, mid) =>
        match ParseArgs(mid, 0)
        case Err(e) => Err(e)
        case Ok(args, rest) => Ok(Simple(rs, args), rest)
  }

  function ParseBlock(ts: Tokens): (r: Parse<Stage>)
    requires Next(ts, Open)
    ensures r.Ok? ==> Len(r.rest) <= Len(ts)
    decreases Len(ts), 0
  {
    match ParseLine(ts.tail)
    case Err(e) => Err(e)
    case Ok(line, mid) =>
      if !Next(mid, Close) then Err(MissingParen)
      else
        match ParseRedirs(mid.tail)
        case Err(e) => Err(e)
        case Ok(rs, rest) => Ok(Block(line, rs), rest)
  }

  function ParsePipeline(ts: Tokens): (r: Parse<Pipeline>)
    ensures r.Ok? ==> Len(r.rest) <= Len(ts)
    decreases Len(ts), 2
  {
    match ParseStage(ts)
    case Err(e) => Err(e)
    case Ok(st, mid) =>
      if !Next(mid, Bar) then Ok(Pipeline(st, None), mid)
      else
        match ParsePipeline(mid.tail)
        case Err(e) => Err(e)
        case Ok(p, rest) => Ok(Pipeline(st, Some(p)), rest)
  }

  /** How many & come next, and what follows them. */
  function ParseAmps(ts: Tokens): (r: (nat, Tokens))
    ensures Len(r.1) <= Len(ts)
  {
    if Next(ts, Amp) then var (n, rest) := ParseAmps(ts.tail); (n + 1, rest) else (0, ts)
  }

  function ParseLine(ts: Tokens): (r: Parse<Line>)
    ensures r.Ok? ==> Len(r.rest) <= Len(ts)
    decreases Len(ts), 3
  {
    match ParsePipeline(ts)
    case Err(e) => Err(e)
    case Ok(p, mid) =>
      var (n, after) := ParseAmps(mid);
      if !Next(after, Semi) then Ok(Line(p, n, None), after)
      else
        match ParseLine(after.tail)
        case Err(e) => Err(e)
        case Ok(l, rest) => Ok(Line(p, n, Some(l)), rest)
  }

  /** parsecmd: a line and nothing after it. */
  function ParseAll(ts: Tokens): Parse<Line> {
    match ParseLine(ts)
    case Err(e) => Err(e)
    case Ok(l, rest) => if rest.Nil? then Ok(l, rest) else Err(Leftovers)
  }

  // ---- The parser accepts only the grammar ----

  lemma {:induction false} RedirsSound(ts: Tokens)
    ensures var r := ParseRedirs(ts); r.Ok? ==> ts == RedirTokens(r.v, r.rest)
  {
    if Angled(ts) && ts.tail.Cons? { RedirsSound(ts.tail.tail); }
  }

  lemma {:induction false} ArgsSound(ts: Tokens, n: nat)
    requires n < MAXARGS
    ensures var r := ParseArgs(ts, n); r.Ok? ==> ts == ArgTokens(r.v, r.rest) && n + Len(r.v) < MAXARGS
    decreases Len(ts)
  {
    if ParseArgs(ts, n).Ok? && !Stops(ts) {
      RedirsSound(ts.tail);
      ArgsSound(ParseRedirs(ts.tail).rest, n + 1);
    }
  }

  lemma {:induction false} StageSound(ts: Tokens)
    ensures var r := ParseStage(ts); r.Ok? ==> ts == StageTokens(r.v, r.rest) && SizedStage(r.v)
    decreases Len(ts), 1
  {
    if ParseStage(ts).Ok? {
      if Next(ts, Open) {
        assert ParseBlock(ts).Ok?;
        LineSound(ts.tail);
        RedirsSound(ParseLine(ts.tail).rest.tail);
      } else {
        RedirsSound(ts);
        ArgsSound(ParseRedirs(ts).rest, 0);
      }
    }
  }

  lemma {:induction false} PipelineSound(ts: Tokens)
    ensures var r := ParsePipeline(ts); r.Ok? ==> ts == PipelineTokens(r.v, r.rest) && SizedPipeline(r.v)
    decreases Len(ts), 2
  {
    StageSound(ts);
    var st := ParseStage(ts);
    if st.Ok? && Next(st.rest, Bar) { PipelineSound(st.rest.tail); }
  }

  lemma {:induction false} AmpsSound(ts: Tokens)
    ensures var (n, rest) := ParseAmps(ts); ts == AmpTokens(n, rest)
  {
    if Next(ts, Amp) { AmpsSound(ts.tail); }
  }

  /** What the parser returns derives the tokens it consumed. */
  lemma {:induction false} LineSound(ts: Tokens)
    ensures var r := ParseLine(ts); r.Ok? ==> ts == LineTokens(r.v, r.rest) && Sized(r.v)
    decreases Len(ts), 3
  {
    PipelineSound(ts);
    var p := ParsePipeline(ts);
    if p.Ok? {
      AmpsSound(p.rest);
      var after := ParseAmps(p.rest).1;
      if Next(after, Semi) { LineSound(after.tail); }
    }
  }

  // ---- The parser accepts all of the grammar ----

  lemma {:induction false} RedirsComplete(rs: Seq<Redirect>, rest: Tokens)
    requires !Angled(rest)
    ensures ParseRedirs(RedirTokens(rs, rest)) == Ok(rs, rest)
  {
    if rs.Cons? { RedirsComplete(rs.tail, rest); }
  }

  lemma {:induction false} ArgsComplete(args: Seq<Arg>, n: nat, rest: Tokens)
    requires Stops(rest) && n + Len(args) < MAXARGS
    ensures ParseArgs(ArgTokens(args, rest), n) == Ok(args, rest) && !Angled(ArgTokens(args, rest))
    decreases args
  {
    if args.Cons? {
      ArgsComplete(args.tail, n + 1, rest);
      RedirsComplete(args.head.redirs, ArgTokens(args.tail, rest));
    }
  }

  lemma {:induction false} StageComplete(st: Stage, rest: Tokens)
    requires Stops(rest) && SizedStage(st)
    ensures ParseStage(StageTokens(st, rest)) == Ok(st, rest)
    decreases st, 0
  {
    match st {
      case Block(line, after) =>
        LineComplete(line, Cons(Close, RedirTokens(after, rest)));
        RedirsComplete(after, rest);
      case Simple(before, args) =>
        ArgsComplete(args, 0, rest);
        RedirsComplete(before, ArgTokens(args, rest));
        assert !Next(ArgTokens(args, rest), Open);
    }
  }

  lemma {:induction false} PipelineComplete(p: Pipeline, rest: Tokens)
    requires Stops(rest) && !Next(rest, Bar) && SizedPipeline(p)
    ensures ParsePipeline(PipelineTokens(p, rest)) == Ok(p, rest)
    decreases p, 1
  {
    match p.more {
      case None => StageComplete(p.stage, rest);
      case Some(p') =>
        PipelineComplete(p', rest);
        StageComplete(p.stage, Cons(Bar, PipelineTokens(p', rest)));
    }
  }

  lemma {:induction false} AmpsComplete(n: nat, rest: Tokens)
    requires !Next(rest, Amp)
    ensures ParseAmps(AmpTokens(n, rest)) == (n, rest)
    ensures n > 0 ==> Next(AmpTokens(n, rest), Amp)
  {
    if n != 0 { AmpsComplete(n - 1, rest); }
  }

  /** Every derivation is found, from its tokens and whatever may follow a line. */
  lemma {:induction false} LineComplete(l: Line, rest: Tokens)
    requires Sized(l) && (rest.Cons? ==> rest.head == Close)
    ensures ParseLine(LineTokens(l, rest)) == Ok(l, rest)
    decreases l, 2
  {
    match l.next {
      case None =>
        AmpsComplete(l.amps, rest);
        PipelineComplete(l.pipeline, AmpTokens(l.amps, rest));
      case Some(l') =>
        LineComplete(l', rest);
        AmpsComplete(l.amps, Cons(Semi, LineTokens(l', rest)));
        PipelineComplete(l.pipeline, AmpTokens(l.amps, Cons(Semi, LineTokens(l', rest))));
    }
  }

  /** parsecmd accepts exactly the grammar, and gives the one derivation of its input. */
  lemma ParserIsGrammar(ts: Tokens, l: Line)
    ensures ParseAll(ts) == Ok(l, Nil) <==> LineTokens(l, Nil) == ts && Sized(l)
  {
    LineSound(ts);
    if LineTokens(l, Nil) == ts && Sized(l) { LineComplete(l, Nil); }
  }

  // ---- Words of a tree come from the tokens ----

  predicate Holds(ts: Tokens, t: Token) {
    ts.Cons? && (ts.head == t || Holds(ts.tail, t))
  }

  predicate Mentions<W(==)>(cmd: Cmd<W>, w: W) {
    match cmd
    case Exec(argv) => w in argv
    case Redir(c, file, _) => w == file || Mentions(c, w)
    case Pipe(left, right) => Mentions(left, w) || Mentions(right, w)
    case List(left, right) => Mentions(left, w) || Mentions(right, w)
    case Back(c) => Mentions(c, w)
  }

  lemma {:induction false} RedirsMention(cmd: Cmd<Span>, rs: Seq<Redirect>, rest: Tokens, w: Span)
    ensures Mentions(Wrap(cmd, rs), w) && !Mentions(cmd, w) ==> Holds(RedirTokens(rs, rest), Word(w))
    ensures Holds(rest, Word(w)) ==> Holds(RedirTokens(rs, rest), Word(w))
    decreases rs
  {
    if rs.Cons? { RedirsMention(Redir(cmd, rs.head.file, rs.head.kind), rs.tail, rest, w); }
  }

  lemma {:induction false} ArgsMention(cmd: Cmd<Span>, args: Seq<Arg>, rest: Tokens, w: Span)
    ensures Mentions(WrapAll(cmd, args), w) && !Mentions(cmd, w) ==> Holds(ArgTokens(args, rest), Word(w))
    ensures Holds(rest, Word(w)) || w in Words(args) ==> Holds(ArgTokens(args, rest), Word(w))
    decreases args
  {
    if args.Cons? {
      ArgsMention(Wrap(cmd, args.head.redirs), args.tail, rest, w);
      RedirsMention(cmd, args.head.redirs, ArgTokens(args.tail, rest), w);
    }
  }

  lemma {:induction false} StageMention(st: Stage, rest: Tokens, w: Span)
    ensures Mentions(StageTree(st), w) || Holds(rest, Word(w)) ==> Holds(StageTokens(st, rest), Word(w))
    decreases st, 0
  {
    match st {
      case Block(line, after) =>
        RedirsMention(LineTree(line), after, rest, w);
        LineMention(line, Cons(Close, RedirTokens(after, rest)), w);
      case Simple(before, args) =>
        var exec: Cmd<Span> := Exec(Words(args));
        RedirsMention(exec, before, ArgTokens(args, rest), w);
        ArgsMention(Wrap(exec, before), args, rest, w);
    }
  }

  lemma {:induction false} PipelineMention(p: Pipeline, rest: Tokens, w: Span)
    ensures Mentions(PipelineTree(p), w) || Holds(rest, Word(w)) ==> Holds(PipelineTokens(p, rest), Word(w))
    decreases p, 1
  {
    match p.more {
      case None => StageMention(p.stage, rest, w);
      case Some(p') =>
        PipelineMention(p', rest, w);
        StageMention(p.stage, Cons(Bar, PipelineTokens(p', rest)), w);
    }
  }

  lemma {:induction false} AmpsMention(cmd: Cmd<Span>, n: nat, rest: Tokens, w: Span)
    ensures Mentions(Backs(cmd, n), w) <==> Mentions(cmd, w)
    ensures Holds(rest, Word(w)) ==> Holds(AmpTokens(n, rest), Word(w))
    decreases n
  {
    if n != 0 { AmpsMention(Back(cmd), n - 1, rest, w); }
  }

  /** Every argument and file name of the tree is a word of the line. */
  lemma {:induction false} LineMention(l: Line, rest: Tokens, w: Span)
    ensures Mentions(LineTree(l), w) || Holds(rest, Word(w)) ==> Holds(LineTokens(l, rest), Word(w))
    decreases l, 2
  {
    match l.next {
      case None =>
        AmpsMention(PipelineTree(l.pipeline), l.amps, rest, w);
        PipelineMention(l.pipeline, AmpTokens(l.amps, rest), w);
      case Some(l') =>
        LineMention(l', rest, w);
        AmpsMention(PipelineTree(l.pipeline), l.amps, Cons(Semi, LineTokens(l', rest)), w);
        PipelineMention(l.pipeline, AmpTokens(l.amps, Cons(Semi, LineTokens(l', rest))), w);
    }
  }
}
