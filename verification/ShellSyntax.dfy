/** The shell's grammar as sh.c reads it: tokens, the recursive descent, and the text of a command. */
module ShellSyntax {

  const MAXARGS := 10

  /** The text of a token: s[q..eq]. */
  datatype Span = Span(q: nat, eq: nat)

  /** Both forms of output redirection open the file the same way. */
  datatype Mode = In | Out

  datatype Redirection<W> = Redirection(file: W, mode: Mode)

  /** A command whose words are of type W: spans of the input line, or the strings themselves. */
  datatype Cmd<W> =
    | Exec(argv: seq<W>)
    | Redir(cmd: Cmd<W>, to: Redirection<W>)
    | Pipe(left: Cmd<W>, right: Cmd<W>)
    | List(left: Cmd<W>, right: Cmd<W>)
    | Back(cmd: Cmd<W>)

  datatype Error = Syntax | MissingFile | MissingParen | TooManyArgs
  datatype Result<T> = Ok(value: T, pos: nat) | Err(error: Error)

  predicate IsSpace(c: char) {
    c == ' ' || c == '\t' || c == '\r' || c == '\n' || c == '\U{0B}'
  }

  predicate IsSymbol(c: char) {
    c == '<' || c == '|' || c == '>' || c == '&' || c == ';' || c == '(' || c == ')'
  }

  predicate InWord(c: char) {
    !IsSpace(c) && !IsSymbol(c)
  }

  // ---- Tokens ----

  function Skip(s: string, i: nat): (j: nat)
    requires i <= |s|
    ensures i <= j <= |s| && (j < |s| ==> !IsSpace(s[j]))
    ensures forall k :: i <= k < j ==> IsSpace(s[k])
    decreases |s| - i
  {
    if i < |s| && IsSpace(s[i]) then Skip(s, i + 1) else i
  }

  function WordEnd(s: string, i: nat): (j: nat)
    requires i <= |s|
    ensures i <= j <= |s| && (j < |s| ==> !InWord(s[j]))
    ensures forall k :: i <= k < j ==> InWord(s[k])
    decreases |s| - i
  {
    if i < |s| && InWord(s[i]) then WordEnd(s, i + 1) else i
  }

  datatype Kind = End | Symbol(c: char) | Append | Word
  datatype Token = Token(kind: Kind, q: nat, eq: nat, pos: nat)

  function Get(s: string, i: nat): (t: Token)
    requires i <= |s|
    ensures i <= t.q <= t.eq <= t.pos <= |s| && t.pos == Skip(s, t.eq)
    ensures t.kind != End ==> t.pos > i
    ensures t.kind == Word ==> IsWord(s, Span(t.q, t.eq))
  {
    var q := Skip(s, i);
    if q == |s| then Token(End, q, q, Skip(s, q))
    else if s[q] == '>' then
      if q + 1 < |s| && s[q+1] == '>' then Token(Append, q, q + 2, Skip(s, q + 2))
      else Token(Symbol('>'), q, q + 1, Skip(s, q + 1))
    else if IsSymbol(s[q]) then Token(Symbol(s[q]), q, q + 1, Skip(s, q + 1))
    else Token(Word, q, WordEnd(s, q), Skip(s, WordEnd(s, q)))
  }

  predicate Peek(s: string, i: nat, toks: set<char>)
    requires i <= |s|
  {
    Skip(s, i) < |s| && s[Skip(s, i)] in toks
  }

  /** A whole word: it cannot be made longer on the right. */
  predicate IsWord(s: string, w: Span) {
    && w.q < w.eq <= |s|
    && (forall k :: w.q <= k < w.eq ==> InWord(s[k]))
    && (w.eq < |s| ==> !InWord(s[w.eq]))
  }

  // ---- Commands ----

  function Wrap<W>(c: Cmd<W>, rs: seq<Redirection<W>>): (r: Cmd<W>) {
    if rs == [] then c else Redir(Wrap(c, rs[..|rs|-1]), rs[|rs|-1])
  }

  function Wrapped<W>(c: Cmd<W>, r: Result<seq<Redirection<W>>>): (o: Result<Cmd<W>>) {
    match r
    case Err(e) => Err(e)
    case Ok(rs, j) => Ok(Wrap(c, rs), j)
  }

  function Redirs(s: string, i: nat): (r: Result<seq<Redirection<Span>>>)
    requires i <= |s|
    ensures r.Ok? ==> i <= r.pos <= |s|
    decreases |s| - i
  {
    if !Peek(s, i, {'<', '>'}) then Ok([], Skip(s, i))
    else
      var t := Get(s, i);
      var w := Get(s, t.pos);
      if w.kind != Word then Err(MissingFile)
      else match Redirs(s, w.pos)
        case Err(e) => Err(e)
        case Ok(rs, j) =>
          Ok([Redirection(Span(w.q, w.eq), if t.kind == Symbol('<') then In else Out)] + rs, j)
  }

  function Args(s: string, i: nat, argv: seq<Span>, rs: seq<Redirection<Span>>): (r: Result<Cmd<Span>>)
    requires i <= |s|
    ensures r.Ok? ==> i <= r.pos <= |s|
    decreases |s| - i
  {
    if Peek(s, i, {'|', ')', '&', ';'}) then Ok(Wrap(Exec(argv), rs), Skip(s, i))
    else
      var t := Get(s, i);
      if t.kind == End then Ok(Wrap(Exec(argv), rs), t.pos)
      else if t.kind != Word then Err(Syntax)
      else if |argv| + 1 >= MAXARGS then Err(TooManyArgs)
      else match Redirs(s, t.pos)
        case Err(e) => Err(e)
        case Ok(more, j) => Args(s, j, argv + [Span(t.q, t.eq)], rs + more)
  }

  function Simple(s: string, i: nat): (r: Result<Cmd<Span>>)
    requires i <= |s|
    ensures r.Ok? ==> i <= r.pos <= |s|
    decreases |s| - i, 1
  {
    if Peek(s, i, {'('}) then Block(s, Skip(s, i))
    else match Redirs(s, i)
      case Err(e) => Err(e)
      case Ok(rs, j) => Args(s, j, [], rs)
  }

  function Block(s: string, i: nat): (r: Result<Cmd<Span>>)
    requires i <= |s| && Peek(s, i, {'('})
    ensures r.Ok? ==> i <= r.pos <= |s|
    decreases |s| - i, 0
  {
    match Line(s, Get(s, i).pos)
    case Err(e) => Err(e)
    case Ok(c, j) =>
      if !Peek(s, j, {')'}) then Err(MissingParen)
      else Wrapped(c, Redirs(s, Get(s, j).pos))
  }

  function Pipes(s: string, i: nat): (r: Result<Cmd<Span>>)
    requires i <= |s|
    ensures r.Ok? ==> i <= r.pos <= |s|
    decreases |s| - i, 2
  {
    match Simple(s, i)
    case Err(e) => Err(e)
    case Ok(c, j) =>
      if !Peek(s, j, {'|'}) then Ok(c, Skip(s, j))
      else match Pipes(s, Get(s, j).pos)
        case Err(e) => Err(e)
        case Ok(d, k) => Ok(Pipe(c, d), k)
  }

  /** Any number of '&' after a command. */
  function Backs(s: string, i: nat, c: Cmd<Span>): (r: (Cmd<Span>, nat))
    requires i <= |s|
    ensures i <= r.1 <= |s|
    decreases |s| - i
  {
    if !Peek(s, i, {'&'}) then (c, Skip(s, i)) else Backs(s, Get(s, i).pos, Back(c))
  }

  function Line(s: string, i: nat): (r: Result<Cmd<Span>>)
    requires i <= |s|
    ensures r.Ok? ==> i <= r.pos <= |s|
    decreases |s| - i, 3
  {
    match Pipes(s, i)
    case Err(e) => Err(e)
    case Ok(c, j) =>
      var b := Backs(s, j, c);
      if !Peek(s, b.1, {';'}) then Ok(b.0, Skip(s, b.1))
      else match Line(s, Get(s, b.1).pos)
        case Err(e) => Err(e)
        case Ok(d, k) => Ok(List(b.0, d), k)
  }

  function Command(s: string): (r: Result<Cmd<Span>>)
    ensures r.Ok? ==> r.pos == |s|
  {
    match Line(s, 0)
    case Err(e) => Err(e)
    case Ok(c, j) => if Skip(s, j) != |s| then Err(Syntax) else Ok(c, |s|)
  }
}
