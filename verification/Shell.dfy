/** sh.c's parser and nulterminate, against the grammar. The cursor *ps is passed in and handed back. */
module Shell {
  import opened ShellSyntax

  const NUL := '\0'

  method SkipSpace(s: string, i: nat) returns (j: nat)
    requires i <= |s|
    ensures j == Skip(s, i)
  {
    j := i;
    while j < |s| && IsSpace(s[j])
      invariant i <= j <= |s| && Skip(s, i) == Skip(s, j)
    {
      j := j + 1;
    }
  }

  method Gettoken(s: string, i: nat) returns (t: Token)
    requires i <= |s|
    ensures t == Get(s, i)
  {
    var q := SkipSpace(s, i);
    var p := q;
    var kind;
    if q == |s| {
      kind := End;
    } else if s[q] == '>' {
      p, kind := p + 1, Symbol('>');
      if p < |s| && s[p] == '>' {
        p, kind := p + 1, Append;
      }
    } else if IsSymbol(s[q]) {
      p, kind := p + 1, Symbol(s[q]);
    } else {
      kind := Word;
      while p < |s| && !IsSpace(s[p]) && !IsSymbol(s[p])
        invariant q <= p <= |s| && WordEnd(s, q) == WordEnd(s, p)
      {
        p := p + 1;
      }
    }
    var j := SkipSpace(s, p);
    t := Token(kind, q, p, j);
  }

  method PeekAt(s: string, i: nat, toks: set<char>) returns (b: bool, j: nat)
    requires i <= |s|
    ensures b == Peek(s, i, toks) && j == Skip(s, i)
  {
    j := SkipSpace(s, i);
    b := j < |s| && s[j] in toks;
  }

  /** Looking past leading space changes nothing. */
  lemma SkipTwice(s: string, i: nat)
    requires i <= |s|
    ensures Skip(s, Skip(s, i)) == Skip(s, i) && Get(s, Skip(s, i)) == Get(s, i)
  {
  }

  /** What was found so far, then the rest. */
  function Prepend<W>(rs: seq<Redirection<W>>, r: Result<seq<Redirection<W>>>): (o: Result<seq<Redirection<W>>>) {
    match r
    case Err(e) => Err(e)
    case Ok(more, j) => Ok(rs + more, j)
  }

  method Parseredirs(s: string, i: nat) returns (r: Result<seq<Redirection<Span>>>)
    requires i <= |s|
    ensures r == Redirs(s, i)
  {
    var rs: seq<Redirection<Span>>, j := [], i;
    PrependNone(Redirs(s, i));
    while true
      invariant i <= j <= |s| && Redirs(s, i) == Prepend(rs, Redirs(s, j))
      decreases |s| - j
    {
      var more, k := PeekAt(s, j, {'<', '>'});
      if !more {
        assert rs + [] == rs;
        return Ok(rs, k);
      }
      SkipTwice(s, j);
      var t := Gettoken(s, k);
      var w := Gettoken(s, t.pos);
      if w.kind != Word {
        return Err(MissingFile);
      }
      var one := Redirection(Span(w.q, w.eq), if t.kind == Symbol('<') then In else Out);
      assert Redirs(s, j) == Prepend([one], Redirs(s, w.pos));
      RedirsShift(rs, one, Redirs(s, w.pos));
      rs, j := rs + [one], w.pos;
    }
  }

  lemma PrependNone<W>(r: Result<seq<Redirection<W>>>)
    ensures Prepend([], r) == r
  {
    if r.Ok? {
      assert [] + r.value == r.value;
    }
  }

  lemma RedirsShift<W>(rs: seq<Redirection<W>>, one: Redirection<W>, r: Result<seq<Redirection<W>>>)
    ensures Prepend(rs, Prepend([one], r)) == Prepend(rs + [one], r)
  {
    if r.Ok? {
      assert rs + ([one] + r.value) == rs + [one] + r.value;
    }
  }

  method Parseexec(s: string, i: nat) returns (r: Result<Cmd<Span>>)
    requires i <= |s|
    ensures r == Simple(s, i)
    decreases |s| - i, 1
  {
    var block, p := PeekAt(s, i, {'('});
    SkipTwice(s, i);
    if block {
      r := Parseblock(s, p);
      return;
    }
    RedirsSkip(s, i);
    var first := Parseredirs(s, p);
    if first.Err? {
      return Err(first.error);
    }
    var argv, rs, j := [], first.value, first.pos;
    while true
      invariant i <= j <= |s| && |argv| < MAXARGS && Simple(s, i) == Args(s, j, argv, rs)
      decreases |s| - j
    {
      var stop, k := PeekAt(s, j, {'|', ')', '&', ';'});
      if stop {
        return Ok(Wrap(Exec(argv), rs), k);
      }
      SkipTwice(s, j);
      var t := Gettoken(s, k);
      if t.kind == End {
        return Ok(Wrap(Exec(argv), rs), t.pos);
      }
      if t.kind != Word {
        return Err(Syntax);
      }
      if |argv| + 1 >= MAXARGS {
        return Err(TooManyArgs);
      }
      var more := Parseredirs(s, t.pos);
      if more.Err? {
        return Err(more.error);
      }
      argv, rs, j := argv + [Span(t.q, t.eq)], rs + more.value, more.pos;
    }
  }

  lemma RedirsSkip(s: string, i: nat)
    requires i <= |s|
    ensures Redirs(s, Skip(s, i)) == Redirs(s, i)
  {
    SkipTwice(s, i);
  }

  method Parseblock(s: string, i: nat) returns (r: Result<Cmd<Span>>)
    requires i <= |s| && Peek(s, i, {'('})
    ensures r == Block(s, i)
    decreases |s| - i, 0
  {
    var t := Gettoken(s, i);
    var inner := Parseline(s, t.pos);
    if inner.Err? {
      return inner;
    }
    var closed, p := PeekAt(s, inner.pos, {')'});
    if !closed {
      return Err(MissingParen);
    }
    SkipTwice(s, inner.pos);
    t := Gettoken(s, p);
    var rs := Parseredirs(s, t.pos);
    if rs.Err? {
      return Err(rs.error);
    }
    r := Ok(Wrap(inner.value, rs.value), rs.pos);
  }

  method Parsepipe(s: string, i: nat) returns (r: Result<Cmd<Span>>)
    requires i <= |s|
    ensures r == Pipes(s, i)
    decreases |s| - i, 2
  {
    r := Parseexec(s, i);
    if r.Err? {
      return;
    }
    var bar, p := PeekAt(s, r.pos, {'|'});
    if !bar {
      return Ok(r.value, p);
    }
    SkipTwice(s, r.pos);
    var t := Gettoken(s, p);
    var right := Parsepipe(s, t.pos);
    if right.Err? {
      return right;
    }
    r := Ok(Pipe(r.value, right.value), right.pos);
  }

  method Parseline(s: string, i: nat) returns (r: Result<Cmd<Span>>)
    requires i <= |s|
    ensures r == Line(s, i)
    decreases |s| - i, 3
  {
    var first := Parsepipe(s, i);
    if first.Err? {
      return first;
    }
    var c, j := first.value, first.pos;
    var more, p := PeekAt(s, j, {'&'});
    while more
      invariant i <= j <= |s| && Backs(s, first.pos, first.value) == Backs(s, j, c)
      invariant more == Peek(s, j, {'&'}) && p == Skip(s, j)
      decreases |s| - j
    {
      SkipTwice(s, j);
      var t := Gettoken(s, p);
      c, j := Back(c), t.pos;
      more, p := PeekAt(s, j, {'&'});
    }
    SkipTwice(s, j);
    more, p := PeekAt(s, p, {';'});
    if !more {
      return Ok(c, p);
    }
    var t := Gettoken(s, p);
    var rest := Parseline(s, t.pos);
    if rest.Err? {
      return rest;
    }
    r := Ok(List(c, rest.value), rest.pos);
  }

  // ---- Every word of a parsed command is a whole word of the line ----

  predicate Words(s: string, c: Cmd<Span>) {
    match c
    case Exec(argv) => forall i :: 0 <= i < |argv| ==> IsWord(s, argv[i])
    case Redir(d, to) => Words(s, d) && IsWord(s, to.file)
    case Pipe(l, r) => Words(s, l) && Words(s, r)
    case List(l, r) => Words(s, l) && Words(s, r)
    case Back(d) => Words(s, d)
  }

  predicate Files(s: string, rs: seq<Redirection<Span>>) {
    forall i :: 0 <= i < |rs| ==> IsWord(s, rs[i].file)
  }

  lemma {:induction false} WrapWords(s: string, c: Cmd<Span>, rs: seq<Redirection<Span>>)
    requires Words(s, c) && Files(s, rs)
    ensures Words(s, Wrap(c, rs))
  {
    if rs != [] {
      WrapWords(s, c, rs[..|rs|-1]);
    }
  }

  lemma {:induction false} RedirsWords(s: string, i: nat)
    requires i <= |s| && Redirs(s, i).Ok?
    ensures Files(s, Redirs(s, i).value)
    decreases |s| - i
  {
    if Peek(s, i, {'<', '>'}) {
      RedirsWords(s, Get(s, Get(s, i).pos).pos);
    }
  }

  lemma {:induction false} ArgsWords(s: string, i: nat, argv: seq<Span>, rs: seq<Redirection<Span>>)
    requires i <= |s| && Args(s, i, argv, rs).Ok?
    requires Words(s, Exec(argv)) && Files(s, rs)
    ensures Words(s, Args(s, i, argv, rs).value)
    decreases |s| - i
  {
    var t := Get(s, i);
    if Peek(s, i, {'|', ')', '&', ';'}) || t.kind == End {
      WrapWords(s, Exec(argv), rs);
    } else {
      RedirsWords(s, t.pos);
      var more := Redirs(s, t.pos);
      ArgsWords(s, more.pos, argv + [Span(t.q, t.eq)], rs + more.value);
    }
  }

  lemma {:induction false} SimpleWords(s: string, i: nat)
    requires i <= |s| && Simple(s, i).Ok?
    ensures Words(s, Simple(s, i).value)
    decreases |s| - i, 1
  {
    if Peek(s, i, {'('}) {
      BlockWords(s, Skip(s, i));
    } else {
      RedirsWords(s, i);
      ArgsWords(s, Redirs(s, i).pos, [], Redirs(s, i).value);
    }
  }

  lemma {:induction false} BlockWords(s: string, i: nat)
    requires i <= |s| && Peek(s, i, {'('}) && Block(s, i).Ok?
    ensures Words(s, Block(s, i).value)
    decreases |s| - i, 0
  {
    LineWords(s, Get(s, i).pos);
    var inner := Line(s, Get(s, i).pos);
    var rest := Get(s, inner.pos).pos;
    RedirsWords(s, rest);
    WrapWords(s, inner.value, Redirs(s, rest).value);
  }

  lemma {:induction false} PipesWords(s: string, i: nat)
    requires i <= |s| && Pipes(s, i).Ok?
    ensures Words(s, Pipes(s, i).value)
    decreases |s| - i, 2
  {
    SimpleWords(s, i);
    var j := Simple(s, i).pos;
    if Peek(s, j, {'|'}) {
      PipesWords(s, Get(s, j).pos);
    }
  }

  lemma {:induction false} BacksWords(s: string, i: nat, c: Cmd<Span>)
    requires i <= |s| && Words(s, c)
    ensures Words(s, Backs(s, i, c).0)
    decreases |s| - i
  {
    if Peek(s, i, {'&'}) {
      BacksWords(s, Get(s, i).pos, Back(c));
    }
  }

  lemma {:induction false} LineWords(s: string, i: nat)
    requires i <= |s| && Line(s, i).Ok?
    ensures Words(s, Line(s, i).value)
    decreases |s| - i, 3
  {
    PipesWords(s, i);
    var first := Pipes(s, i);
    BacksWords(s, first.pos, first.value);
    var b := Backs(s, first.pos, first.value);
    if Peek(s, b.1, {';'}) {
      LineWords(s, Get(s, b.1).pos);
    }
  }

  // ---- nulterminate ----

  /** Every argv and file string of a command. */
  function Strings(c: Cmd<Span>): (w: set<Span>) {
    match c
    case Exec(argv) => set i | 0 <= i < |argv| :: argv[i]
    case Redir(d, to) => Strings(d) + {to.file}
    case Pipe(l, r) => Strings(l) + Strings(r)
    case List(l, r) => Strings(l) + Strings(r)
    case Back(d) => Strings(d)
  }

  predicate EndsAt(ws: set<Span>, k: nat) {
    exists w :: w in ws && w.eq == k
  }

  /** A terminator at the end of each of `ws`, and nothing else changed. */
  ghost predicate Terminated(a: seq<char>, b: seq<char>, ws: set<Span>) {
    |b| == |a| && forall k :: 0 <= k < |a| ==> b[k] == if EndsAt(ws, k) then NUL else a[k]
  }

  lemma TerminatedTwice(a: seq<char>, b: seq<char>, c: seq<char>, x: set<Span>, y: set<Span>)
    requires Terminated(a, b, x) && Terminated(b, c, y)
    ensures Terminated(a, c, x + y)
  {
  }

  method Cut(buf: array<char>, w: Span)
    requires w.eq < buf.Length
    modifies buf
    ensures Terminated(old(buf[..]), buf[..], {w})
  {
    buf[w.eq] := NUL;
    assert forall k: nat :: EndsAt({w}, k) <==> k == w.eq;
  }

  method Nulterminate(buf: array<char>, c: Cmd<Span>)
    requires forall w :: w in Strings(c) ==> w.eq < buf.Length
    modifies buf
    ensures Terminated(old(buf[..]), buf[..], Strings(c))
    decreases c
  {
    match c
    case Exec(argv) =>
      var i := 0;
      ghost var done: set<Span> := {};
      while i < |argv|
        invariant 0 <= i <= |argv|
        invariant done == set k | 0 <= k < i :: argv[k]
        invariant Terminated(old(buf[..]), buf[..], done)
      {
        ghost var mid := buf[..];
        Cut(buf, argv[i]);
        TerminatedTwice(old(buf[..]), mid, buf[..], done, {argv[i]});
        done := done + {argv[i]};
        i := i + 1;
      }
    case Redir(d, to) =>
      assert Strings(c) == Strings(d) + {to.file};
      Nulterminate(buf, d);
      ghost var mid := buf[..];
      Cut(buf, to.file);
      TerminatedTwice(old(buf[..]), mid, buf[..], Strings(d), {to.file});
    case Pipe(l, r) =>
      assert Strings(c) == Strings(l) + Strings(r);
      Nulterminate(buf, l);
      ghost var mid := buf[..];
      Nulterminate(buf, r);
      TerminatedTwice(old(buf[..]), mid, buf[..], Strings(l), Strings(r));
    case List(l, r) =>
      assert Strings(c) == Strings(l) + Strings(r);
      Nulterminate(buf, l);
      ghost var mid := buf[..];
      Nulterminate(buf, r);
      TerminatedTwice(old(buf[..]), mid, buf[..], Strings(l), Strings(r));
    case Back(d) =>
      Nulterminate(buf, d);
  }

  lemma {:induction false} StringsAreWords(s: string, c: Cmd<Span>)
    requires Words(s, c)
    ensures forall w :: w in Strings(c) ==> IsWord(s, w)
  {
    match c
    case Exec(argv) =>
    case Redir(d, to) => StringsAreWords(s, d);
    case Pipe(l, r) => StringsAreWords(s, l); StringsAreWords(s, r);
    case List(l, r) => StringsAreWords(s, l); StringsAreWords(s, r);
    case Back(d) => StringsAreWords(s, d);
  }

  /** Reading `buf` as C does from `w.q` gives exactly the token that was there. */
  ghost predicate ReadsBack(buf: seq<char>, s: string, w: Span) {
    && w.q <= w.eq <= |s| && w.eq < |buf|
    && (forall k :: w.q <= k < w.eq ==> buf[k] == s[k] != NUL)
    && buf[w.eq] == NUL
  }

  /** A terminator never lands inside another token, because a token ends only where no word goes on. */
  lemma NoneClobbered(s: string, a: seq<char>, b: seq<char>, ws: set<Span>, w: Span)
    requires |a| == |s| + 1 && s == a[..|s|] && NUL !in s
    requires (forall x :: x in ws ==> IsWord(s, x)) && w in ws && Terminated(a, b, ws)
    ensures ReadsBack(b, s, w)
  {
  }

  method Parsecmd(buf: array<char>) returns (r: Result<Cmd<Span>>, ghost s: string)
    requires buf.Length > 0 && buf[buf.Length-1] == NUL && NUL !in buf[..buf.Length-1]
    modifies buf
    ensures s == old(buf[..buf.Length-1]) && r == Command(s)
    ensures r.Err? ==> buf[..] == old(buf[..])
    ensures r.Ok? ==> Terminated(old(buf[..]), buf[..], Strings(r.value))
    ensures r.Ok? ==> forall w :: w in Strings(r.value) ==> ReadsBack(buf[..], s, w)
  {
    var line := buf[..buf.Length-1];
    s := line;
    r := Parseline(line, 0);
    if r.Err? {
      return;
    }
    var p := SkipSpace(line, r.pos);
    if p != |line| {
      r := Err(Syntax);
      return;
    }
    LineWords(line, 0);
    StringsAreWords(line, r.value);
    ghost var a := buf[..];
    Nulterminate(buf, r.value);
    forall w | w in Strings(r.value)
      ensures ReadsBack(buf[..], s, w)
    {
      NoneClobbered(s, a, buf[..], Strings(r.value), w);
    }
    r := Ok(r.value, p);
  }
}
