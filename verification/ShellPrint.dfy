/** Printing a command tree with full parentheses, and parsing it back. */
module ShellPrint {
  import opened Options
  import opened ShellGrammar
  import opened Shell

  /** A name as a user can type it. */
  predicate Name(w: string) {
    w != "" && forall k :: 0 <= k < |w| ==> Plain(w[k])
  }

  predicate Printable(cmd: Cmd<string>) {
    match cmd
    case Exec(argv) => |argv| < MAXARGS && forall k :: 0 <= k < |argv| ==> Name(argv[k])
    case Redir(c, file, _) => Name(file) && Printable(c)
    case Pipe(left, right) => Printable(left) && Printable(right)
    case List(left, right) => Printable(left) && Printable(right)
    case Back(c) => Printable(c)
  }

  function PrintWords(argv: seq<string>): string {
    if argv == [] then "" else argv[0] + " " + PrintWords(argv[1..])
  }

  function Op(kind: Kind): string {
    match kind
    case Input => "<"
    case Output => ">"
    case Append => ">>"
  }

  function Paren(s: string): string {
    "(" + s + ")"
  }

  function Print(cmd: Cmd<string>): string {
    match cmd
    case Exec(argv) => PrintWords(argv)
    case Redir(c, file, kind) => Paren(Print(c)) + (Op(kind) + (file + " "))
    case Pipe(left, right) => Paren(Print(left)) + ("|" + Paren(Print(right)))
    case List(left, right) => Paren(Print(left)) + (";" + Paren(Print(right)))
    case Back(c) => Paren(Print(c)) + "&"
  }

  /** The tree whose words are the slices the print puts them in, from position i. */
  function Locate(cmd: Cmd<string>, i: nat): Cmd<Span> {
    match cmd
    case Exec(argv) => Exec(LocateWords(argv, i))
    case Redir(c, file, kind) =>
      var at := i + |Paren(Print(c))| + |Op(kind)|;
      Redir(Locate(c, i + 1), Span(at, at + |file|), kind)
    case Pipe(left, right) => Pipe(Locate(left, i + 1), Locate(right, i + |Paren(Print(left))| + 2))
    case List(left, right) => List(Locate(left, i + 1), Locate(right, i + |Paren(Print(left))| + 2))
    case Back(c) => Back(Locate(c, i + 1))
  }

  function LocateWords(argv: seq<string>, i: nat): (r: seq<Span>)
    ensures |r| == |argv|
  {
    if argv == [] then [] else [Span(i, i + |argv[0]|)] + LocateWords(argv[1..], i + |argv[0]| + 1)
  }

  /** The fully parenthesised derivation of a tree. */
  function Canon(cmd: Cmd<Span>): Line {
    match cmd
    case Exec(argv) => Line(Pipeline(Simple(Nil, CanonArgs(argv)), None), 0, None)
    case Redir(c, file, kind) => Line(Pipeline(Block(Canon(c), Cons(Redirect(kind, file), Nil)), None), 0, None)
    case Pipe(left, right) => Line(Pipeline(Alone(Canon(left)).stage, Some(Alone(Canon(right)))), 0, None)
    case List(left, right) => Line(Alone(Canon(left)), 0, Some(Line(Alone(Canon(right)), 0, None)))
    case Back(c) => Line(Alone(Canon(c)), 1, None)
  }

  function Alone(line: Line): Pipeline {
    Pipeline(Block(line, Nil), None)
  }

  lemma AloneIs(line: Line, rest: Tokens)
    ensures StageTree(Alone(line).stage) == PipelineTree(Alone(line)) == LineTree(line)
    ensures SizedStage(Alone(line).stage) == SizedPipeline(Alone(line)) == Sized(line)
    ensures StageTokens(Alone(line).stage, rest) == PipelineTokens(Alone(line), rest)
      == Cons(Open, LineTokens(line, Cons(Close, rest)))
  {
  }

  function CanonArgs(argv: seq<Span>): (args: Seq<Arg>)
    ensures Len(args) == |argv|
  {
    if argv == [] then Nil else Cons(Arg(argv[0], Nil), CanonArgs(argv[1..]))
  }

  lemma {:induction false} CanonWords(argv: seq<Span>, cmd: Cmd<Span>)
    ensures Words(CanonArgs(argv)) == argv && WrapAll(cmd, CanonArgs(argv)) == cmd
  {
    if argv != [] { CanonWords(argv[1..], cmd); }
  }

  lemma {:induction false} CanonTree(cmd: Cmd<Span>)
    ensures LineTree(Canon(cmd)) == cmd
  {
    match cmd {
      case Exec(argv) =>
        CanonWords(argv, Exec(argv));
        assert StageTree(Simple(Nil, CanonArgs(argv))) == cmd;
      case Redir(c, file, kind) =>
        CanonTree(c);
        var rs := Cons(Redirect(kind, file), Nil);
        assert Wrap(c, rs) == Wrap(Redir(c, file, kind), Nil);
        assert StageTree(Block(Canon(c), rs)) == cmd;
      case Pipe(left, right) =>
        CanonTree(left);
        CanonTree(right);
        AloneIs(Canon(left), Nil);
        AloneIs(Canon(right), Nil);
      case List(left, right) =>
        CanonTree(left);
        CanonTree(right);
        AloneIs(Canon(left), Nil);
        AloneIs(Canon(right), Nil);
      case Back(c) =>
        CanonTree(c);
        AloneIs(Canon(c), Nil);
    }
  }

  /** At most nine arguments anywhere. */
  predicate Short<W>(cmd: Cmd<W>) {
    match cmd
    case Exec(argv) => |argv| < MAXARGS
    case Redir(c, _, _) => Short(c)
    case Pipe(left, right) => Short(left) && Short(right)
    case List(left, right) => Short(left) && Short(right)
    case Back(c) => Short(c)
  }

  lemma {:induction false} CanonSized(cmd: Cmd<Span>)
    requires Short(cmd)
    ensures Sized(Canon(cmd))
  {
    match cmd {
      case Exec(_) =>
      case Redir(c, _, _) => CanonSized(c);
      case Pipe(left, right) =>
        CanonSized(left);
        CanonSized(right);
        AloneIs(Canon(left), Nil);
        AloneIs(Canon(right), Nil);
      case List(left, right) =>
        CanonSized(left);
        CanonSized(right);
        AloneIs(Canon(left), Nil);
        AloneIs(Canon(right), Nil);
      case Back(c) =>
        CanonSized(c);
        AloneIs(Canon(c), Nil);
    }
  }

  lemma {:induction false} LocateShort(cmd: Cmd<string>, i: nat)
    requires Printable(cmd)
    ensures Short(Locate(cmd, i))
  {
    match cmd {
      case Exec(_) =>
      case Redir(c, _, _) => LocateShort(c, i + 1);
      case Pipe(left, right) =>
        LocateShort(left, i + 1);
        LocateShort(right, i + |Paren(Print(left))| + 2);
      case List(left, right) =>
        LocateShort(left, i + 1);
        LocateShort(right, i + |Paren(Print(left))| + 2);
      case Back(c) => LocateShort(c, i + 1);
    }
  }

  // ---- The print lexes to the tokens of its derivation ----

  predicate At(s: string, i: nat, t: string) {
    i + |t| <= |s| && s[i..i + |t|] == t
  }

  lemma AtParts(s: string, i: nat, a: string, b: string)
    requires At(s, i, a + b)
    ensures At(s, i, a) && At(s, i + |a|, b)
  {
    var t := a + b;
    assert s[i..i + |a|] == t[..|a|] == a;
    assert s[i + |a|..i + |t|] == t[|a|..] == b;
  }

  lemma AtParen(s: string, i: nat, t: string)
    requires At(s, i, Paren(t))
    ensures At(s, i, "(") && At(s, i + 1, t) && At(s, i + 1 + |t|, ")")
  {
    assert Paren(t) == "(" + (t + ")");
    AtParts(s, i, "(", t + ")");
    AtParts(s, i + 1, t, ")");
  }

  lemma LexSymbol(s: string, i: nat, t: string)
    requires At(s, i, t) && t in {"(", ")", "|", ";", "&"}
    ensures Lex(s, i) ==
      Cons(match t[0] case '(' => Open case ')' => Close case '|' => Bar case ';' => Semi case _ => Amp, Lex(s, i + 1))
  {
    assert s[i] == s[i..i + |t|][0];
  }

  lemma LexAngle(s: string, i: nat, kind: Kind, w: string)
    requires At(s, i, Op(kind) + w) && Name(w)
    ensures Lex(s, i) == Cons(Angle(kind), Lex(s, i + |Op(kind)|))
  {
    var t := Op(kind) + w;
    assert s[i] == t[0];
    assert s[i + 1] == t[1];
    if kind == Append { assert t[1] == '>'; } else { assert t[1] == w[0] && Plain(w[0]); }
  }

  lemma {:induction false} WordEndsAt(s: string, i: nat, j: nat)
    requires i <= j < |s| && White(s[j]) && forall k :: i <= k < j ==> Plain(s[k])
    ensures WordEnd(s, i) == j
    decreases j - i
  {
    if i < j { WordEndsAt(s, i + 1, j); }
  }

  lemma LexWord(s: string, i: nat, w: string)
    requires At(s, i, w + " ") && Name(w)
    ensures i + |w| + 1 <= |s| && Lex(s, i) == Cons(Word(Span(i, i + |w|)), Lex(s, i + |w| + 1))
    ensures Slice(s, Span(i, i + |w|)) == w
  {
    var t := w + " ";
    assert forall k :: 0 <= k < |t| ==> s[i + k] == t[k];
    assert t[|w|] == ' ';
    forall k | i <= k < i + |w| ensures Plain(s[k]) { assert s[k] == t[k - i] == w[k - i]; }
    WordEndsAt(s, i, i + |w|);
    assert Plain(s[i]);
    assert SkipWhite(s, i) == i;
    assert TokenAt(s, i) == (Word(Span(i, i + |w|)), i + |w|);
    assert SkipWhite(s, i + |w|) == SkipWhite(s, i + |w| + 1);
    assert Slice(s, Span(i, i + |w|)) == t[..|w|];
  }

  /** The tree with its slices replaced by their text. */
  function Text(s: string, cmd: Cmd<Span>): Cmd<string> {
    match cmd
    case Exec(argv) => Exec(seq(|argv|, k requires 0 <= k < |argv| => Slice(s, argv[k])))
    case Redir(c, file, kind) => Redir(Text(s, c), Slice(s, file), kind)
    case Pipe(left, right) => Pipe(Text(s, left), Text(s, right))
    case List(left, right) => List(Text(s, left), Text(s, right))
    case Back(c) => Back(Text(s, c))
  }

  lemma {:induction false} LexWordList(s: string, i: nat, argv: seq<string>)
    requires At(s, i, PrintWords(argv)) && forall k :: 0 <= k < |argv| ==> Name(argv[k])
    ensures Lex(s, i) == ArgTokens(CanonArgs(LocateWords(argv, i)), Lex(s, i + |PrintWords(argv)|))
    ensures forall k :: 0 <= k < |argv| ==> Slice(s, LocateWords(argv, i)[k]) == argv[k]
    decreases |argv|
  {
    hide Lex, Slice, At;
    if argv != [] {
      AtParts(s, i, argv[0] + " ", PrintWords(argv[1..]));
      LexWord(s, i, argv[0]);
      LexWordList(s, i + |argv[0]| + 1, argv[1..]);
      assert LocateWords(argv, i)[1..] == LocateWords(argv[1..], i + |argv[0]| + 1);
    }
  }

  /** A parenthesised command lexes to a block around its tokens. */
  lemma LexParen(s: string, i: nat, cmd: Cmd<string>)
    requires Printable(cmd) && At(s, i, Paren(Print(cmd)))
    ensures Lex(s, i)
      == Cons(Open, LineTokens(Canon(Locate(cmd, i + 1)), Cons(Close, Lex(s, i + |Paren(Print(cmd))|))))
    ensures Text(s, Locate(cmd, i + 1)) == cmd
    decreases cmd, 2
  {
    hide Lex, At, Slice, Name;
    AtParen(s, i, Print(cmd));
    LexSymbol(s, i, "(");
    LexPrint(s, i + 1, cmd);
    LexSymbol(s, i + 1 + |Print(cmd)|, ")");
  }

  lemma {:induction false} LexPrint(s: string, i: nat, cmd: Cmd<string>)
    requires Printable(cmd) && At(s, i, Print(cmd))
    ensures Lex(s, i) == LineTokens(Canon(Locate(cmd, i)), Lex(s, i + |Print(cmd)|))
    ensures Text(s, Locate(cmd, i)) == cmd
    decreases cmd, 1
  {
    hide Lex, Slice, Paren, Name;
    match cmd {
      case Exec(argv) =>
        LexWordList(s, i, argv);
        assert StageTokens(Simple(Nil, CanonArgs(LocateWords(argv, i))), Lex(s, i + |Print(cmd)|)) == Lex(s, i);
      case Redir(_, _, _) => LexRedir(s, i, cmd);
      case Pipe(_, _) => LexPipe(s, i, cmd);
      case List(_, _) => LexList(s, i, cmd);
      case Back(_) => LexBack(s, i, cmd);
    }
  }

  lemma {:induction false} LexRedir(s: string, i: nat, cmd: Cmd<string>)
    requires Printable(cmd) && At(s, i, Print(cmd)) && cmd.Redir?
    ensures Lex(s, i) == LineTokens(Canon(Locate(cmd, i)), Lex(s, i + |Print(cmd)|))
    ensures Text(s, Locate(cmd, i)) == cmd
    decreases cmd, 0
  {
    hide Lex, Slice, At, Paren, Name;
    var at := i + |Paren(Print(cmd.cmd))|;
    AtParts(s, i, Paren(Print(cmd.cmd)), Op(cmd.kind) + (cmd.file + " "));
    LexParen(s, i, cmd.cmd);
    LexFile(s, at, cmd.kind, cmd.file);
    var rs, rest := Cons(Redirect(cmd.kind, Locate(cmd, i).file), Nil), Lex(s, i + |Print(cmd)|);
    assert RedirTokens(rs, rest) == Lex(s, at);
    assert StageTokens(Block(Canon(Locate(cmd.cmd, i + 1)), rs), rest) == Lex(s, i);
  }

  lemma {:induction false} LexPipe(s: string, i: nat, cmd: Cmd<string>)
    requires Printable(cmd) && At(s, i, Print(cmd)) && cmd.Pipe?
    ensures Lex(s, i) == LineTokens(Canon(Locate(cmd, i)), Lex(s, i + |Print(cmd)|))
    ensures Text(s, Locate(cmd, i)) == cmd
    decreases cmd, 0
  {
    hide Lex, Slice, At, Paren, Name;
    var at := i + |Paren(Print(cmd.left))|;
    AtParts(s, i, Paren(Print(cmd.left)), "|" + Paren(Print(cmd.right)));
    LexParen(s, i, cmd.left);
    LexMarked(s, at, "|", cmd.right);
    AloneIs(Canon(Locate(cmd.left, i + 1)), Lex(s, at));
  }

  lemma {:induction false} LexList(s: string, i: nat, cmd: Cmd<string>)
    requires Printable(cmd) && At(s, i, Print(cmd)) && cmd.List?
    ensures Lex(s, i) == LineTokens(Canon(Locate(cmd, i)), Lex(s, i + |Print(cmd)|))
    ensures Text(s, Locate(cmd, i)) == cmd
    decreases cmd, 0
  {
    hide Lex, Slice, At, Paren, Name;
    var at := i + |Paren(Print(cmd.left))|;
    AtParts(s, i, Paren(Print(cmd.left)), ";" + Paren(Print(cmd.right)));
    LexParen(s, i, cmd.left);
    LexMarked(s, at, ";", cmd.right);
    AloneIs(Canon(Locate(cmd.left, i + 1)), Lex(s, at));
  }

  lemma {:induction false} LexBack(s: string, i: nat, cmd: Cmd<string>)
    requires Printable(cmd) && At(s, i, Print(cmd)) && cmd.Back?
    ensures Lex(s, i) == LineTokens(Canon(Locate(cmd, i)), Lex(s, i + |Print(cmd)|))
    ensures Text(s, Locate(cmd, i)) == cmd
    decreases cmd, 0
  {
    hide Lex, Slice, At, Paren, Name;
    var at := i + |Paren(Print(cmd.cmd))|;
    AtParts(s, i, Paren(Print(cmd.cmd)), "&");
    LexParen(s, i, cmd.cmd);
    LexSymbol(s, at, "&");
    AloneIs(Canon(Locate(cmd.cmd, i + 1)), Lex(s, at));
    assert AmpTokens(1, Lex(s, i + |Print(cmd)|)) == Lex(s, at);
  }

  lemma LexFile(s: string, i: nat, kind: Kind, file: string)
    requires At(s, i, Op(kind) + (file + " ")) && Name(file)
    ensures var at := i + |Op(kind)|;
      && at + |file| + 1 <= |s|
      && Lex(s, i) == Cons(Angle(kind), Cons(Word(Span(at, at + |file|)), Lex(s, at + |file| + 1)))
      && Slice(s, Span(at, at + |file|)) == file
  {
    hide Lex, Slice, At, Name;
    assert Op(kind) + (file + " ") == (Op(kind) + file) + " ";
    AtParts(s, i, Op(kind) + file, " ");
    LexAngle(s, i, kind, file);
    AtParts(s, i, Op(kind), file + " ");
    LexWord(s, i + |Op(kind)|, file);
  }

  lemma LexMarked(s: string, i: nat, mark: string, cmd: Cmd<string>)
    requires Printable(cmd) && mark in {"|", ";"} && At(s, i, mark + Paren(Print(cmd)))
    ensures i + 1 + |Paren(Print(cmd))| <= |s|
    ensures Lex(s, i) == Cons(if mark == "|" then Bar else Semi,
      PipelineTokens(Alone(Canon(Locate(cmd, i + 2))), Lex(s, i + 1 + |Paren(Print(cmd))|)))
    ensures Text(s, Locate(cmd, i + 2)) == cmd
    decreases cmd, 3
  {
    hide Lex, Slice, At, Paren, Name;
    AtParts(s, i, mark, Paren(Print(cmd)));
    LexSymbol(s, i, mark);
    LexParen(s, i + 1, cmd);
    AloneIs(Canon(Locate(cmd, i + 2)), Lex(s, i + 1 + |Paren(Print(cmd))|));
  }

  /** Parsing the parenthesised print of any printable tree gives the tree back. */
  lemma PrintParses(cmd: Cmd<string>)
    requires Printable(cmd)
    ensures var s := Print(cmd); var p := ParseAll(Lex(s, 0));
      p.Ok? && Text(s, LineTree(p.v)) == cmd
  {
    var s := Print(cmd);
    var tree := Locate(cmd, 0);
    assert s[0..0 + |s|] == s;
    LexPrint(s, 0, cmd);
    LocateShort(cmd, 0);
    CanonSized(tree);
    ParserIsGrammar(Lex(s, 0), Canon(tree));
    CanonTree(tree);
  }
}
