/** Commands written out with parentheses, and the proof that the shell reads them back. */
module ShellText {
  import opened ShellSyntax

  function Text(s: string, c: Cmd<Span>): (t: Cmd<string>)
    requires InBounds(s, c)
  {
    match c
    case Exec(argv) => Exec(seq(|argv|, i requires 0 <= i < |argv| => s[argv[i].q..argv[i].eq]))
    case Redir(d, to) => Redir(Text(s, d), Redirection(s[to.file.q..to.file.eq], to.mode))
    case Pipe(l, r) => Pipe(Text(s, l), Text(s, r))
    case List(l, r) => List(Text(s, l), Text(s, r))
    case Back(d) => Back(Text(s, d))
  }

  predicate Inside(s: string, w: Span) {
    w.q <= w.eq <= |s|
  }

  predicate InBounds(s: string, c: Cmd<Span>) {
    match c
    case Exec(argv) => forall i :: 0 <= i < |argv| ==> Inside(s, argv[i])
    case Redir(d, to) => InBounds(s, d) && Inside(s, to.file)
    case Pipe(l, r) => InBounds(s, l) && InBounds(s, r)
    case List(l, r) => InBounds(s, l) && InBounds(s, r)
    case Back(d) => InBounds(s, d)
  }

  predicate LegalWord(w: string) {
    |w| > 0 && forall i :: 0 <= i < |w| ==> InWord(w[i])
  }

  predicate AllLegal(argv: seq<string>) {
    forall i :: 0 <= i < |argv| ==> LegalWord(argv[i])
  }

  /** Words without spaces or symbols, and no more of them than the shell takes. */
  predicate Legal(c: Cmd<string>) {
    match c
    case Exec(argv) => |argv| < MAXARGS && AllLegal(argv)
    case Redir(d, to) => Legal(d) && LegalWord(to.file)
    case Pipe(l, r) => Legal(l) && Legal(r)
    case List(l, r) => Legal(l) && Legal(r)
    case Back(d) => Legal(d)
  }

  function ShowArgs(argv: seq<string>): (t: string) {
    if argv == [] then "" else argv[0] + " " + ShowArgs(argv[1..])
  }

  function Paren(t: string): (r: string) {
    "(" + t + ")"
  }

  /** A command written out. */
  function Show(c: Cmd<string>): (t: string) {
    match c
    case Exec(argv) => ShowArgs(argv)
    case Redir(d, to) => Paren(Show(d)) + (if to.mode == In then "<" else ">") + to.file
    case Pipe(l, r) => Paren(Show(l)) + "|" + Paren(Show(r))
    case List(l, r) => Paren(Show(l)) + ";" + Paren(Show(r))
    case Back(d) => Paren(Show(d)) + "&"
  }

  ghost predicate At(s: string, i: nat, t: string) {
    i + |t| <= |s| && s[i..i+|t|] == t
  }

  lemma AtSplit(s: string, i: nat, a: string, b: string)
    requires At(s, i, a + b)
    ensures At(s, i, a) && At(s, i + |a|, b)
  {
    var t := s[i..i+|a + b|];
    assert t[..|a|] == a && t[|a|..] == b;
    assert s[i..i+|a|] == t[..|a|] && s[i+|a|..i+|a|+|b|] == t[|a|..];
  }

  lemma AtChar(s: string, i: nat, t: string, k: nat)
    requires At(s, i, t) && k < |t|
    ensures s[i+k] == t[k]
  {
  }

  /** Only space is left, or the parenthesis that closes this command. */
  predicate Stop(s: string, j: nat)
    requires j <= |s|
  {
    Skip(s, j) == |s| || s[Skip(s, j)] == ')'
  }

  lemma Solid(s: string, i: nat)
    requires i < |s| && !IsSpace(s[i])
    ensures Skip(s, i) == i
  {
  }

  lemma Settled(s: string, j: nat)
    requires j <= |s|
    ensures Skip(s, Skip(s, j)) == Skip(s, j)
  {
  }

  lemma AfterStop(s: string, j: nat, c: Cmd<Span>)
    requires j <= |s| && Stop(s, j)
    ensures var p := Skip(s, j);
      && Skip(s, p) == p && !Peek(s, p, {'|'}) && !Peek(s, p, {';'})
      && Redirs(s, p) == Ok([], p) && Backs(s, p, c) == (c, p)
  {
  }

  lemma GetSymbol(s: string, i: nat)
    requires i < |s| && s[i] in {'|', '(', ')', ';', '&', '<'}
    ensures Skip(s, i) == i && Get(s, i) == Token(Symbol(s[i]), i, i + 1, Skip(s, i + 1))
  {
  }

  lemma WordEnds(s: string, i: nat, e: nat)
    requires i <= e <= |s| && (forall k :: i <= k < e ==> InWord(s[k])) && (e < |s| ==> !InWord(s[e]))
    ensures WordEnd(s, i) == e
  {
  }

  lemma GetWord(s: string, i: nat, w: string)
    requires At(s, i, w) && LegalWord(w) && (i + |w| < |s| ==> !InWord(s[i+|w|]))
    ensures Get(s, i) == Token(Word, i, i + |w|, Skip(s, i + |w|)) && Skip(s, i) == i && InWord(s[i])
  {
    forall k | i <= k < i + |w|
      ensures InWord(s[k])
    {
      AtChar(s, i, w, k - i);
    }
    Solid(s, i);
    WordEnds(s, i, i + |w|);
  }

  // ---- Simple commands ----

  /** The words of `argv`, each with a space after it, stand from `i` to `end`. */
  ghost predicate Laid(s: string, i: nat, argv: seq<string>, end: nat)
    decreases |argv|
  {
    if argv == [] then i == end <= |s|
    else
      var e := i + |argv[0]|;
      At(s, i, argv[0]) && e < |s| && s[e] == ' ' && Laid(s, e + 1, argv[1..], end)
  }

  lemma {:induction false} ShowLaid(s: string, i: nat, argv: seq<string>)
    requires At(s, i, ShowArgs(argv))
    ensures Laid(s, i, argv, i + |ShowArgs(argv)|)
    decreases |argv|
  {
    if argv != [] {
      var w, rest := argv[0], ShowArgs(argv[1..]);
      assert ShowArgs(argv) == w + (" " + rest);
      AtSplit(s, i, w, " " + rest);
      AtSplit(s, i + |w|, " ", rest);
      AtChar(s, i + |w|, " ", 0);
      ShowLaid(s, i + |w| + 1, argv[1..]);
    }
  }

  function Spans(i: nat, argv: seq<string>): (w: seq<Span>)
    ensures |w| == |argv|
    decreases |argv|
  {
    if argv == [] then [] else [Span(i, i + |argv[0]|)] + Spans(i + |argv[0]| + 1, argv[1..])
  }

  ghost predicate Spelled(s: string, w: Span, t: string) {
    Inside(s, w) && s[w.q..w.eq] == t
  }

  lemma {:induction false} SpanText(s: string, i: nat, argv: seq<string>, end: nat, k: nat)
    requires Laid(s, i, argv, end) && k < |argv|
    ensures Spelled(s, Spans(i, argv)[k], argv[k])
    decreases |argv|
  {
    if k > 0 {
      var e := i + |argv[0]|;
      SpanText(s, e + 1, argv[1..], end, k - 1);
    }
  }

  /** Looking from past the space sees the same. */
  lemma GetSkip(s: string, i: nat, p: nat)
    requires i <= |s| && p == Skip(s, i)
    ensures Skip(s, p) == p && Get(s, p) == Get(s, i)
  {
  }

  lemma ArgsSkip(s: string, i: nat, argv: seq<Span>, rs: seq<Redirection<Span>>)
    requires i <= |s|
    ensures Args(s, Skip(s, i), argv, rs) == Args(s, i, argv, rs)
  {
    GetSkip(s, i, Skip(s, i));
    ArgsFrom(s, i, Skip(s, i), argv, rs);
  }

  lemma ArgsFrom(s: string, i: nat, p: nat, argv: seq<Span>, rs: seq<Redirection<Span>>)
    requires i <= |s| && p <= |s| && Skip(s, p) == Skip(s, i) && Get(s, p) == Get(s, i)
    ensures Args(s, p, argv, rs) == Args(s, i, argv, rs)
  {
  }

  lemma ArgsWord(s: string, i: nat, done: seq<Span>, t: Token)
    requires i <= |s| && !Peek(s, i, {'|', ')', '&', ';'}) && Get(s, i) == t && t.kind == Word && |done| + 1 < MAXARGS
    requires Redirs(s, t.pos) == Ok([], t.pos)
    ensures Args(s, i, done, []) == Args(s, t.pos, done + [Span(t.q, t.eq)], [])
  {
    var none: seq<Redirection<Span>> := [];
    assert none + none == none;
  }

  /** One more word, with nothing but a space after it. */
  lemma ArgStep(s: string, i: nat, done: seq<Span>, w: string, e: nat, next: nat, more: seq<Span>)
    requires next == e + 1 && more == done + [Span(i, e)]
    requires At(s, i, w) && LegalWord(w) && e == i + |w| && e < |s| && s[e] == ' ' && |done| + 1 < MAXARGS
    requires Redirs(s, Skip(s, next)) == Ok([], Skip(s, next))
    ensures Args(s, i, done, []) == Args(s, next, more, [])
  {
    GetWord(s, i, w);
    assert Skip(s, e) == Skip(s, next);
    ArgsWord(s, i, done, Get(s, i));
    ArgsSkip(s, next, more, []);
  }

  /** At a solid character other than a sign there is no redirection and no block. */
  lemma NoSign(s: string, p: nat)
    requires p <= |s| && Skip(s, p) == p && (p < |s| ==> s[p] !in {'<', '>', '('})
    ensures Redirs(s, p) == Ok([], p) && !Peek(s, p, {'('})
  {
  }

  /** Before the next word, or at the stop, there is no redirection and no block. */
  lemma NextArg(s: string, i: nat, argv: seq<string>, end: nat)
    requires end <= |s| && Laid(s, i, argv, end) && Stop(s, end) && AllLegal(argv)
    ensures i <= |s| && !Peek(s, i, {'('})
    ensures Redirs(s, Skip(s, i)) == Ok([], Skip(s, i)) && Redirs(s, i) == Ok([], Skip(s, i))
  {
    if argv != [] {
      AtChar(s, i, argv[0], 0);
      Solid(s, i);
    } else {
      Settled(s, i);
    }
    NoSign(s, Skip(s, i));
  }

  lemma ArgsStop(s: string, i: nat, done: seq<Span>)
    requires i <= |s| && Stop(s, i)
    ensures Args(s, i, done, []) == Ok(Exec(done), Skip(s, i))
  {
  }

  lemma SpansMore(i: nat, done: seq<Span>, argv: seq<string>, e: nat, next: nat, more: seq<Span>)
    requires argv != [] && e == i + |argv[0]| && next == e + 1 && more == done + [Span(i, e)]
    ensures more + Spans(next, argv[1..]) == done + Spans(i, argv)
  {
    Regroup(done, Span(i, e), Spans(next, argv[1..]));
  }

  lemma Regroup<T>(a: seq<T>, x: T, b: seq<T>)
    ensures (a + [x]) + b == a + ([x] + b)
  {
  }

  lemma {:induction false} ArgsLaid(s: string, i: nat, done: seq<Span>, argv: seq<string>, end: nat)
    requires end <= |s| && Laid(s, i, argv, end) && Stop(s, end)
    requires |done| + |argv| < MAXARGS && AllLegal(argv)
    ensures i <= |s| && Args(s, i, done, []) == Ok(Exec(done + Spans(i, argv)), Skip(s, end))
    decreases |argv|
  {
    if argv == [] {
      assert done + [] == done;
      ArgsStop(s, i, done);
    } else {
      var e, rest := i + |argv[0]|, argv[1..];
      var more, next := done + [Span(i, e)], e + 1;
      LaidParts(s, i, argv, end, e, next);
      SpansMore(i, done, argv, e, next, more);
      NextArg(s, next, rest, end);
      ArgStep(s, i, done, argv[0], e, next, more);
      ArgsLaid(s, next, more, rest, end);
    }
  }

  lemma LaidParts(s: string, i: nat, argv: seq<string>, end: nat, e: nat, next: nat)
    requires argv != [] && Laid(s, i, argv, end) && AllLegal(argv) && e == i + |argv[0]| && next == e + 1
    ensures At(s, i, argv[0]) && LegalWord(argv[0]) && e < |s| && s[e] == ' '
    ensures Laid(s, next, argv[1..], end) && AllLegal(argv[1..])
  {
  }

  // ---- Whole commands ----

  /** Command `c` stands from `i` to `end`. */
  ghost predicate Written(s: string, i: nat, c: Cmd<string>, end: nat)
    decreases c, 0
  {
    && end <= |s|
    && match c
       case Exec(argv) => Laid(s, i, argv, end)
       case Redir(d, to) =>
         var m := Close(i, d);
         && Enclosed(s, i, d, m) && m < |s| && s[m] == (if to.mode == In then '<' else '>')
         && At(s, m + 1, to.file) && end == m + 1 + |to.file|
       case Pipe(l, r) =>
         var m := Close(i, l);
         Enclosed(s, i, l, m) && m < |s| && s[m] == '|' && Enclosed(s, m + 1, r, end)
       case List(l, r) =>
         var m := Close(i, l);
         Enclosed(s, i, l, m) && m < |s| && s[m] == ';' && Enclosed(s, m + 1, r, end)
       case Back(d) =>
         var m := Close(i, d);
         Enclosed(s, i, d, m) && m < |s| && s[m] == '&' && end == m + 1
  }

  /** Where the parentheses around `c` at `i` have closed. */
  function Close(i: nat, c: Cmd<string>): (m: nat) {
    i + |Show(c)| + 2
  }

  /** Command `c` in parentheses stands from `i` to `end`. */
  ghost predicate Enclosed(s: string, i: nat, c: Cmd<string>, end: nat)
    decreases c, 1
  {
    && i + 2 <= end <= |s| && s[i] == '(' && s[end-1] == ')'
    && Written(s, i + 1, c, end - 1)
  }

  lemma ParenParts(s: string, i: nat, t: string)
    requires At(s, i, Paren(t))
    ensures i + |t| + 2 <= |s| && s[i] == '(' && s[i+|t|+1] == ')' && At(s, i + 1, t)
  {
    AtChar(s, i, Paren(t), 0);
    AtChar(s, i, Paren(t), |t| + 1);
    assert s[i+1..i+1+|t|] == s[i..i+|t|+2][1..|t|+1] == t;
  }

  /** A text in parentheses, one character, and the rest. */
  lemma SignParts(s: string, i: nat, a: string, sign: string, b: string, m: nat)
    requires At(s, i, Paren(a) + sign + b) && |sign| == 1 && m == i + |a| + 2
    ensures At(s, i, Paren(a)) && m < |s| && s[m] == sign[0] && At(s, m + 1, b)
  {
    assert Paren(a) + sign + b == Paren(a) + (sign + b);
    AtSplit(s, i, Paren(a), sign + b);
    AtSplit(s, m, sign, b);
    AtChar(s, m, sign, 0);
  }

  lemma {:induction false} ShowEnclosed(s: string, i: nat, c: Cmd<string>, end: nat)
    requires At(s, i, Paren(Show(c))) && end == Close(i, c)
    ensures Enclosed(s, i, c, end)
    decreases c, 2
  {
    ParenParts(s, i, Show(c));
    ShowWritten(s, i + 1, c, end - 1);
  }

  lemma {:induction false} ShowWritten(s: string, i: nat, c: Cmd<string>, end: nat)
    requires At(s, i, Show(c)) && end == i + |Show(c)|
    ensures Written(s, i, c, end)
    decreases c, 1
  {
    match c
    case Exec(argv) => ShowLaid(s, i, argv);
    case Redir(d, to) => RedirWritten(s, i, c, end);
    case Pipe(l, r) => PairWritten(s, i, c, end);
    case List(l, r) => PairWritten(s, i, c, end);
    case Back(d) => BackWritten(s, i, c, end);
  }

  lemma {:induction false} RedirWritten(s: string, i: nat, c: Cmd<string>, end: nat)
    requires c.Redir? && At(s, i, Show(c)) && end == i + |Show(c)|
    ensures Written(s, i, c, end)
    decreases c, 0
  {
    var m := Close(i, c.cmd);
    SignParts(s, i, Show(c.cmd), if c.to.mode == In then "<" else ">", c.to.file, m);
    ShowEnclosed(s, i, c.cmd, m);
  }

  /** The three parts of a pipe or a list written out. */
  lemma PairText(s: string, i: nat, c: Cmd<string>, end: nat, m: nat, n: nat)
    requires (c.Pipe? || c.List?) && At(s, i, Show(c)) && end == i + |Show(c)| && m == Close(i, c.left) && n == m + 1
    ensures At(s, i, Paren(Show(c.left))) && m < |s| && s[m] == (if c.Pipe? then '|' else ';')
    ensures At(s, n, Paren(Show(c.right))) && end == Close(n, c.right)
  {
    var sign := if c.Pipe? then "|" else ";";
    assert Show(c) == Paren(Show(c.left)) + sign + Paren(Show(c.right));
    SignParts(s, i, Show(c.left), sign, Paren(Show(c.right)), m);
  }

  lemma {:induction false} PairWritten(s: string, i: nat, c: Cmd<string>, end: nat)
    requires (c.Pipe? || c.List?) && At(s, i, Show(c)) && end == i + |Show(c)|
    ensures Written(s, i, c, end)
    decreases c, 0
  {
    var m := Close(i, c.left);
    var n := m + 1;
    PairText(s, i, c, end, m, n);
    ShowEnclosed(s, i, c.left, m);
    ShowEnclosed(s, n, c.right, end);
  }

  lemma {:induction false} BackWritten(s: string, i: nat, c: Cmd<string>, end: nat)
    requires c.Back? && At(s, i, Show(c)) && end == i + |Show(c)|
    ensures Written(s, i, c, end)
    decreases c, 0
  {
    var m := Close(i, c.cmd);
    assert Show(c) == Paren(Show(c.cmd)) + "&" + "";
    SignParts(s, i, Show(c.cmd), "&", "", m);
    ShowEnclosed(s, i, c.cmd, m);
  }

  // ---- Reading them back ----

  /** The parsed command `d` is `c`. */
  ghost predicate Means(s: string, d: Cmd<Span>, c: Cmd<string>) {
    InBounds(s, d) && Text(s, d) == c
  }

  lemma PairMeans(s: string, l: Cmd<Span>, r: Cmd<Span>, c: Cmd<string>)
    requires (c.Pipe? || c.List?) && Means(s, l, c.left) && Means(s, r, c.right)
    ensures Means(s, if c.Pipe? then Pipe(l, r) else List(l, r), c)
  {
  }

  lemma BackMeans(s: string, e: Cmd<Span>, c: Cmd<string>)
    requires c.Back? && Means(s, e, c.cmd)
    ensures Means(s, Back(e), c)
  {
  }

  lemma RedirMeans(s: string, e: Cmd<Span>, c: Cmd<string>, n: nat, end: nat)
    requires c.Redir? && Means(s, e, c.cmd) && At(s, n, c.to.file) && end == n + |c.to.file|
    ensures Means(s, Redir(e, Redirection(Span(n, end), c.to.mode)), c)
  {
  }

  /** A block with no redirection after it. */
  lemma BlockRead(s: string, i: nat, n: nat, m: nat, end: nat, d: Cmd<Span>)
    requires n == i + 1 && end == m + 1 && n <= m < |s| && s[i] == '(' && s[m] == ')'
    requires Skip(s, n) == n && Line(s, n) == Ok(d, m)
    ensures Simple(s, i) == Wrapped(d, Redirs(s, Skip(s, end)))
  {
    GetSymbol(s, i);
    GetSymbol(s, m);
    BlockParts(s, i, n, m, Skip(s, end), d);
  }

  lemma BlockParts(s: string, i: nat, n: nat, m: nat, p: nat, d: Cmd<Span>)
    requires i <= |s| && n <= |s| && m <= |s| && p <= |s| && Peek(s, i, {'('}) && Skip(s, i) == i && Get(s, i).pos == n
    requires Line(s, n) == Ok(d, m) && Peek(s, m, {')'}) && Get(s, m).pos == p
    ensures Simple(s, i) == Wrapped(d, Redirs(s, p))
  {
  }

  lemma FirstSolid(s: string, i: nat, c: Cmd<string>, end: nat)
    requires Written(s, i, c, end) && Legal(c) && end < |s| && s[end] == ')'
    ensures Skip(s, i) == i
  {
  }

  /** A command in parentheses reads back up to what follows them. */
  lemma {:induction false} ReadEnclosed(s: string, i: nat, c: Cmd<string>, end: nat) returns (d: Cmd<Span>)
    requires Enclosed(s, i, c, end) && Legal(c)
    ensures Means(s, d, c) && Skip(s, i) == i
    ensures Simple(s, i) == Wrapped(d, Redirs(s, Skip(s, end)))
    decreases c, 4
  {
    var n, m := i + 1, end - 1;
    FirstSolid(s, n, c, m);
    Solid(s, m);
    Solid(s, i);
    d := ReadWritten(s, n, c, m);
    BlockRead(s, i, n, m, end, d);
  }

  /** At the stop nothing more belongs to the line. */
  lemma LineEnds(s: string, i: nat, end: nat, d: Cmd<Span>, p: nat)
    requires i <= |s| && end <= |s| && Stop(s, end) && p == Skip(s, end) && Pipes(s, i) == Ok(d, p)
    ensures Line(s, i) == Ok(d, p)
  {
  }

  lemma PipesEnd(s: string, i: nat, end: nat, d: Cmd<Span>, p: nat)
    requires i <= |s| && end <= |s| && Stop(s, end) && p == Skip(s, end) && Simple(s, i) == Ok(d, p)
    ensures Pipes(s, i) == Ok(d, p)
  {
  }

  lemma SimpleArgs(s: string, i: nat, j: nat, d: Cmd<Span>, p: nat)
    requires i <= |s| && j <= |s| && !Peek(s, i, {'('}) && Redirs(s, i) == Ok([], j) && Args(s, j, [], []) == Ok(d, p)
    ensures Simple(s, i) == Ok(d, p)
  {
  }

  lemma ExecMeans(s: string, i: nat, argv: seq<string>, end: nat)
    requires Laid(s, i, argv, end)
    ensures Means(s, Exec(Spans(i, argv)), Exec(argv))
  {
    forall k | 0 <= k < |argv|
      ensures Spelled(s, Spans(i, argv)[k], argv[k])
    {
      SpanText(s, i, argv, end, k);
    }
  }

  lemma ReadExec(s: string, i: nat, argv: seq<string>, end: nat) returns (d: Cmd<Span>)
    requires end <= |s| && Laid(s, i, argv, end) && Stop(s, end) && |argv| < MAXARGS && AllLegal(argv)
    ensures Means(s, d, Exec(argv))
    ensures i <= |s| && Line(s, i) == Ok(d, Skip(s, end))
  {
    d := Exec(Spans(i, argv));
    ExecMeans(s, i, argv, end);
    NextArg(s, i, argv, end);
    ArgsLaid(s, i, [], argv, end);
    assert [] + Spans(i, argv) == Spans(i, argv);
    ArgsSkip(s, i, [], []);
    var p := Skip(s, end);
    SimpleArgs(s, i, Skip(s, i), d, p);
    PipesEnd(s, i, end, d, p);
    LineEnds(s, i, end, d, p);
  }

  lemma StopEndsWord(s: string, end: nat)
    requires end <= |s| && Stop(s, end)
    ensures end < |s| ==> !InWord(s[end])
  {
  }

  lemma RedirsOne(s: string, m: nat, n: nat, w: Span, p: nat)
    requires m < n <= |s| && p <= |s| && Peek(s, m, {'<', '>'}) && Get(s, m).pos == n
    requires Get(s, n) == Token(Word, w.q, w.eq, p) && Redirs(s, p) == Ok([], p)
    ensures Redirs(s, m) == Ok([Redirection(w, if Get(s, m).kind == Symbol('<') then In else Out)], p)
  {
    var r := Redirection(w, if Get(s, m).kind == Symbol('<') then In else Out);
    assert [r] + [] == [r];
  }

  lemma GetSign(s: string, m: nat, n: nat)
    requires n == m + 1 && n < |s| && s[m] in {'<', '>'} && InWord(s[n])
    ensures Get(s, m) == Token(Symbol(s[m]), m, n, n) && Skip(s, m) == m
  {
  }

  lemma OneRedir(s: string, m: nat, n: nat, to: Redirection<string>, end: nat, p: nat)
    requires n == m + 1 && m < |s| && s[m] == (if to.mode == In then '<' else '>') && LegalWord(to.file)
    requires At(s, n, to.file) && end == n + |to.file| && end <= |s| && Stop(s, end) && p == Skip(s, end)
    ensures Skip(s, m) == m && Redirs(s, m) == Ok([Redirection(Span(n, end), to.mode)], p)
  {
    StopEndsWord(s, end);
    GetWord(s, n, to.file);
    GetSign(s, m, n);
    AfterStop(s, end, Exec([]));
    RedirsOne(s, m, n, Span(n, end), p);
  }

  lemma SimpleRedir(s: string, i: nat, m: nat, e: Cmd<Span>, r: Redirection<Span>, p: nat)
    requires i <= |s| && m <= |s| && Skip(s, m) == m && Redirs(s, m) == Ok([r], p)
    requires Simple(s, i) == Wrapped(e, Redirs(s, Skip(s, m)))
    ensures Simple(s, i) == Ok(Redir(e, r), p)
  {
    assert [r][..0] == [];
    assert Wrap(e, [r]) == Redir(e, r);
  }

  lemma RedirParts(s: string, i: nat, c: Cmd<string>, end: nat, m: nat, n: nat)
    requires c.Redir? && Written(s, i, c, end) && Legal(c) && m == Close(i, c.cmd) && n == m + 1
    ensures Enclosed(s, i, c.cmd, m) && Legal(c.cmd) && LegalWord(c.to.file)
    ensures m < |s| && s[m] == (if c.to.mode == In then '<' else '>') && At(s, n, c.to.file) && end == n + |c.to.file|
  {
  }

  lemma {:induction false} ReadRedir(s: string, i: nat, c: Cmd<string>, end: nat) returns (d: Cmd<Span>)
    requires c.Redir? && Written(s, i, c, end) && Legal(c) && Stop(s, end)
    ensures Means(s, d, c)
    ensures i <= |s| && Line(s, i) == Ok(d, Skip(s, end))
    decreases c, 0
  {
    var m := Close(i, c.cmd);
    var n, p := m + 1, Skip(s, end);
    RedirParts(s, i, c, end, m, n);
    var e := ReadEnclosed(s, i, c.cmd, m);
    RedirMeans(s, e, c, n, end);
    d := Redir(e, Redirection(Span(n, end), c.to.mode));
    RedirRead(s, i, m, n, c.to, end, e, p);
  }

  lemma RedirRead(s: string, i: nat, m: nat, n: nat, to: Redirection<string>, end: nat, e: Cmd<Span>, p: nat)
    requires n == m + 1 && m < |s| && s[m] == (if to.mode == In then '<' else '>') && LegalWord(to.file)
    requires At(s, n, to.file) && end == n + |to.file| && end <= |s| && Stop(s, end) && p == Skip(s, end)
    requires i <= |s| && Simple(s, i) == Wrapped(e, Redirs(s, Skip(s, m)))
    ensures Line(s, i) == Ok(Redir(e, Redirection(Span(n, end), to.mode)), p)
  {
    var r := Redirection(Span(n, end), to.mode);
    OneRedir(s, m, n, to, end, p);
    SimpleRedir(s, i, m, e, r, p);
    PipesEnd(s, i, end, Redir(e, r), p);
    LineEnds(s, i, end, Redir(e, r), p);
  }

  /** A parenthesised command at the stop is a whole pipeline. */
  lemma {:induction false} ReadLast(s: string, i: nat, c: Cmd<string>, end: nat) returns (d: Cmd<Span>)
    requires Enclosed(s, i, c, end) && Legal(c) && Stop(s, end)
    ensures Means(s, d, c) && Skip(s, i) == i
    ensures i <= |s| && Pipes(s, i) == Ok(d, Skip(s, end))
    decreases c, 5
  {
    d := ReadEnclosed(s, i, c, end);
    AfterStop(s, end, d);
    PipesEnd(s, i, end, d, Skip(s, end));
  }

  lemma PlainBlock(s: string, i: nat, m: nat, d: Cmd<Span>)
    requires i <= |s| && m <= |s| && Skip(s, m) == m && !Peek(s, m, {'<', '>'})
    requires Simple(s, i) == Wrapped(d, Redirs(s, Skip(s, m)))
    ensures Simple(s, i) == Ok(d, m)
  {
  }

  /** A parenthesised command before a separator. */
  lemma {:induction false} ReadFirst(s: string, i: nat, c: Cmd<string>, m: nat) returns (d: Cmd<Span>)
    requires Enclosed(s, i, c, m) && Legal(c) && m < |s| && s[m] in {'|', ';', '&'}
    ensures Means(s, d, c)
    ensures Simple(s, i) == Ok(d, m) && Skip(s, m) == m && Get(s, m).pos == Skip(s, m + 1)
    decreases c, 5
  {
    GetSymbol(s, m);
    assert !Peek(s, m, {'<', '>'});
    d := ReadEnclosed(s, i, c, m);
    PlainBlock(s, i, m, d);
  }

  lemma PipeRead(s: string, i: nat, m: nat, n: nat, l: Cmd<Span>, r: Cmd<Span>, p: nat)
    requires i <= |s| && Simple(s, i) == Ok(l, m) && m < |s| && s[m] == '|'
    requires n <= |s| && Skip(s, m) == m && Get(s, m).pos == n && Pipes(s, n) == Ok(r, p)
    ensures Pipes(s, i) == Ok(Pipe(l, r), p)
  {
  }

  lemma ListRead(s: string, i: nat, m: nat, n: nat, l: Cmd<Span>, r: Cmd<Span>, p: nat)
    requires i <= |s| && Simple(s, i) == Ok(l, m) && m < |s| && s[m] == ';'
    requires n <= |s| && Skip(s, m) == m && Get(s, m).pos == n && Line(s, n) == Ok(r, p)
    ensures Line(s, i) == Ok(List(l, r), p)
  {
    assert Pipes(s, i) == Ok(l, m);
    assert Backs(s, m, l) == (l, m);
  }

  lemma BackRead(s: string, i: nat, m: nat, e: Cmd<Span>, end: nat, p: nat)
    requires i <= |s| && Simple(s, i) == Ok(e, m) && m < |s| && s[m] == '&' && Skip(s, m) == m
    requires end <= |s| && Stop(s, end) && p == Skip(s, end) && Get(s, m).pos == p
    ensures Line(s, i) == Ok(Back(e), p)
  {
    AfterStop(s, end, Back(e));
    assert Pipes(s, i) == Ok(e, m);
    assert Backs(s, m, e) == (Back(e), p);
  }

  lemma PairParts(s: string, i: nat, c: Cmd<string>, end: nat, m: nat, n: nat)
    requires (c.Pipe? || c.List?) && Written(s, i, c, end) && Legal(c) && m == Close(i, c.left) && n == m + 1
    ensures Enclosed(s, i, c.left, m) && Legal(c.left) && Enclosed(s, n, c.right, end) && Legal(c.right)
    ensures m < |s| && s[m] == if c.Pipe? then '|' else ';'
  {
  }

  lemma {:induction false} ReadPair(s: string, i: nat, c: Cmd<string>, end: nat) returns (d: Cmd<Span>)
    requires (c.Pipe? || c.List?) && Written(s, i, c, end) && Legal(c) && Stop(s, end)
    ensures Means(s, d, c)
    ensures i <= |s| && Line(s, i) == Ok(d, Skip(s, end))
    decreases c, 0
  {
    var m, p := Close(i, c.left), Skip(s, end);
    var n := m + 1;
    PairParts(s, i, c, end, m, n);
    var l := ReadFirst(s, i, c.left, m);
    var r := ReadLast(s, n, c.right, end);
    PairMeans(s, l, r, c);
    if c.Pipe? {
      d := Pipe(l, r);
      PipeRead(s, i, m, n, l, r, p);
      LineEnds(s, i, end, d, p);
    } else {
      d := List(l, r);
      LineEnds(s, n, end, r, p);
      ListRead(s, i, m, n, l, r, p);
    }
  }

  lemma {:induction false} ReadBack(s: string, i: nat, c: Cmd<string>, end: nat) returns (d: Cmd<Span>)
    requires c.Back? && Written(s, i, c, end) && Legal(c) && Stop(s, end)
    ensures Means(s, d, c)
    ensures i <= |s| && Line(s, i) == Ok(d, Skip(s, end))
    decreases c, 0
  {
    var m := Close(i, c.cmd);
    var e := ReadFirst(s, i, c.cmd, m);
    d := Back(e);
    BackMeans(s, e, c);
    BackRead(s, i, m, e, end, Skip(s, end));
  }

  /** A command written out reads back as itself, up to the stop. */
  lemma {:induction false} ReadWritten(s: string, i: nat, c: Cmd<string>, end: nat) returns (d: Cmd<Span>)
    requires Written(s, i, c, end) && Legal(c) && Stop(s, end)
    ensures Means(s, d, c)
    ensures i <= |s| && Line(s, i) == Ok(d, Skip(s, end))
    decreases c, 3
  {
    match c
    case Exec(argv) => d := ReadExec(s, i, argv, end);
    case Redir(_, _) => d := ReadRedir(s, i, c, end);
    case Pipe(_, _) => d := ReadPair(s, i, c, end);
    case List(_, _) => d := ReadPair(s, i, c, end);
    case Back(_) => d := ReadBack(s, i, c, end);
  }

  /** Every legal command, written out with parentheses, parses back to itself. */
  lemma RoundTrip(c: Cmd<string>)
    requires Legal(c)
    ensures Command(Show(c)).Ok? && InBounds(Show(c), Command(Show(c)).value)
    ensures Text(Show(c), Command(Show(c)).value) == c
  {
    var s := Show(c);
    assert At(s, 0, s);
    ShowWritten(s, 0, c, |s|);
    var d := ReadWritten(s, 0, c, |s|);
  }
}
