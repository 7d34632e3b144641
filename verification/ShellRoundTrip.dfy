/** The parser of sh.c is shown to depend on the text only through its tokens, and tokens that are written out to be read
    back. */
module ShellRoundTrip {
  import opened ShellSyntax

  /** What a token says: a symbol, with + for >>, or a word. */
  datatype Lexeme = Sym(c: char) | Word(w: string)

  datatype TResult<T> = TOk(value: T, rest: seq<Lexeme>) | TPanic(problem: Problem)

  // ---- the tokens of a text

  function Spelled(t: string, w: Slice): string {
    if w.q <= w.eq <= |t| then t[w.q..w.eq] else ""
  }

  function LexemeOf(t: string, k: Token): Lexeme {
    if k.kind == 'a' then Word(Spelled(t, k.slice)) else Sym(k.kind)
  }

  function Lex(t: string, p: nat): seq<Lexeme>
    requires p <= |t|
    decreases |t| - p
  {
    var k := GetToken(t, p);
    if k.kind == '\0' then [] else [LexemeOf(t, k)] + Lex(t, k.next)
  }

  lemma {:induction false} SkipTwice(t: string, p: nat)
    requires p <= |t|
    ensures SkipSpace(t, SkipSpace(t, p)) == SkipSpace(t, p)
    ensures Lex(t, SkipSpace(t, p)) == Lex(t, p)
  {
    assert GetToken(t, SkipSpace(t, p)) == GetToken(t, p);
  }

  /** The first token and the rest. */
  lemma {:induction false} LexStep(t: string, p: nat)
    requires p <= |t|
    ensures var k := GetToken(t, p);
      if k.kind == '\0' then Lex(t, p) == []
      else Lex(t, p) != [] && Lex(t, p)[0] == LexemeOf(t, k) && Lex(t, p)[1..] == Lex(t, k.next)
  {
  }

  predicate StartsWith(ts: seq<Lexeme>, cs: seq<char>) {
    ts != [] && ts[0].Sym? && ts[0].c in cs
  }

  /** peek looks at the next token; >> counts as >. */
  lemma PeekIsFirst(t: string, p: nat, toks: seq<char>)
    requires p <= |t| && IsCString(t) && forall c :: c in toks ==> IsSymbol(c)
    ensures var s := SkipSpace(t, p);
      Peeks(t, s, toks) <==> StartsWith(Lex(t, p), if '>' in toks then toks + ['+'] else toks)
  {
    var s := SkipSpace(t, p);
    SkipTwice(t, p);
  }

  // ---- the parser, on tokens

  function TRedirs(ts: seq<Lexeme>, rs: seq<Redirection<string>>): (r: TResult<seq<Redirection<string>>>)
    ensures r.TOk? ==> |r.rest| <= |ts|
    decreases |ts|
  {
    if !StartsWith(ts, ['<', '>', '+']) then TOk(rs, ts)
    else if |ts| < 2 || !ts[1].Word? then TPanic(MissingFile)
    else TRedirs(ts[2..], rs + [Redirection(ts[1].w, ModeOf(ts[0].c), FdOf(ts[0].c))])
  }

  function TArgs(ts: seq<Lexeme>, args: seq<string>, rs: seq<Redirection<string>>): (r: TResult<Cmd<string>>)
    ensures r.TOk? ==> |r.rest| <= |ts|
    decreases |ts|
  {
    if ts == [] || StartsWith(ts, ['|', ')', '&', ';']) then TOk(Wrap(Exec(args), rs), ts)
    else if !ts[0].Word? then TPanic(Syntax)
    else if |args| + 1 >= MAXARGS then TPanic(TooManyArgs)
    else
      var r := TRedirs(ts[1..], rs);
      if r.TPanic? then TPanic(r.problem) else TArgs(r.rest, args + [ts[0].w], r.value)
  }

  function TExec(ts: seq<Lexeme>): (r: TResult<Cmd<string>>)
    ensures r.TOk? ==> |r.rest| <= |ts|
    decreases |ts|, 1
  {
    if StartsWith(ts, ['(']) then TBlock(ts)
    else
      var r := TRedirs(ts, []);
      if r.TPanic? then TPanic(r.problem) else TArgs(r.rest, [], r.value)
  }

  function TBlock(ts: seq<Lexeme>): (r: TResult<Cmd<string>>)
    requires ts != []
    ensures r.TOk? ==> |r.rest| <= |ts|
    decreases |ts|, 0
  {
    var r := TLine(ts[1..]);
    if r.TPanic? then r
    else if !StartsWith(r.rest, [')']) then TPanic(MissingParen)
    else
      var rs := TRedirs(r.rest[1..], []);
      if rs.TPanic? then TPanic(rs.problem) else TOk(Wrap(r.value, rs.value), rs.rest)
  }

  function TPipe(ts: seq<Lexeme>): (r: TResult<Cmd<string>>)
    ensures r.TOk? ==> |r.rest| <= |ts|
    decreases |ts|, 2
  {
    var r := TExec(ts);
    if r.TPanic? || !StartsWith(r.rest, ['|']) then r
    else
      var r2 := TPipe(r.rest[1..]);
      if r2.TPanic? then r2 else TOk(Pipe(r.value, r2.value), r2.rest)
  }

  function TBacks(ts: seq<Lexeme>, cmd: Cmd<string>): (r: (Cmd<string>, seq<Lexeme>))
    ensures |r.1| <= |ts|
    decreases |ts|
  {
    if StartsWith(ts, ['&']) then TBacks(ts[1..], Back(cmd)) else (cmd, ts)
  }

  function TLine(ts: seq<Lexeme>): (r: TResult<Cmd<string>>)
    ensures r.TOk? ==> |r.rest| <= |ts|
    decreases |ts|, 3
  {
    var r := TPipe(ts);
    if r.TPanic? then r
    else
      var b := TBacks(r.rest, r.value);
      if !StartsWith(b.1, [';']) then TOk(b.0, b.1)
      else
        var r2 := TLine(b.1[1..]);
        if r2.TPanic? then r2 else TOk(List(b.0, r2.value), r2.rest)
  }

  // ---- the parser sees only the tokens

  function TextRedirs(t: string, rs: seq<Redirection<Slice>>): seq<Redirection<string>> {
    seq(|rs|, i requires 0 <= i < |rs| => Redirection(Spelled(t, rs[i].file), rs[i].mode, rs[i].fd))
  }

  function Texts(t: string, ws: seq<Slice>): seq<string> {
    seq(|ws|, i requires 0 <= i < |ws| => Spelled(t, ws[i]))
  }

  /** A command with the words its slices spell. */
  function Text(t: string, cmd: Cmd<Slice>): Cmd<string> {
    match cmd
    case Exec(argv) => Exec(Texts(t, argv))
    case Redir(c, file, mode, fd) => Redir(Text(t, c), Spelled(t, file), mode, fd)
    case Pipe(l, r) => Pipe(Text(t, l), Text(t, r))
    case List(l, r) => List(Text(t, l), Text(t, r))
    case Back(c) => Back(Text(t, c))
  }

  lemma {:induction false} TextOfWrap(t: string, cmd: Cmd<Slice>, rs: seq<Redirection<Slice>>)
    ensures Text(t, Wrap(cmd, rs)) == Wrap(Text(t, cmd), TextRedirs(t, rs))
    decreases |rs|
  {
    if rs != [] {
      TextOfWrap(t, cmd, rs[..|rs| - 1]);
      assert TextRedirs(t, rs)[..|rs| - 1] == TextRedirs(t, rs[..|rs| - 1]);
    }
  }

  /** Both parsers panic alike, or they make the same command and the second leaves the tokens rest. */
  predicate Alike(t: string, r: Result<Cmd<Slice>>, tr: TResult<Cmd<string>>, rest: seq<Lexeme>) {
    match r
    case Ok(cmd, pos) => tr == TOk(Text(t, cmd), rest)
    case Panic(problem) => tr == TPanic(problem)
  }

  function LexAfter<T>(t: string, r: Result<T>): seq<Lexeme> {
    if r.Ok? && r.pos <= |t| then Lex(t, r.pos) else []
  }

  predicate Agrees(t: string, r: Result<Cmd<Slice>>, tr: TResult<Cmd<string>>) {
    Alike(t, r, tr, LexAfter(t, r))
  }

  predicate RedirsAgree(t: string, r: Result<seq<Redirection<Slice>>>, tr: TResult<seq<Redirection<string>>>) {
    match r
    case Ok(rs, pos) => tr.TOk? && pos <= |t| && tr.value == TextRedirs(t, rs) && tr.rest == Lex(t, pos)
    case Panic(problem) => tr == TPanic(problem)
  }

  lemma OneMoreText(t: string, rs: seq<Redirection<Slice>>, one: Redirection<Slice>)
    ensures TextRedirs(t, rs + [one]) == TextRedirs(t, rs) + [Redirection(Spelled(t, one.file), one.mode, one.fd)]
  {
  }

  lemma {:induction false} RedirsSeeTokens(t: string, p: nat, rs: seq<Redirection<Slice>>)
    requires p <= |t| && IsCString(t)
    ensures RedirsAgree(t, ParseRedirs(t, p, rs), TRedirs(Lex(t, p), TextRedirs(t, rs)))
    decreases |t| - p
  {
    var s := SkipSpace(t, p);
    SkipTwice(t, p);
    PeekIsFirst(t, p, ['<', '>']);
    if Peeks(t, s, ['<', '>']) {
      var tok := GetToken(t, s);
      var w := GetToken(t, tok.next);
      LexStep(t, s);
      LexStep(t, tok.next);
      if w.kind == 'a' {
        assert Lex(t, p)[2..] == Lex(t, p)[1..][1..] == Lex(t, w.next);
        var one := Redirection(w.slice, ModeOf(tok.kind), FdOf(tok.kind));
        RedirsSeeTokens(t, w.next, rs + [one]);
        OneMoreText(t, rs, one);
      }
    }
  }

  lemma OneMoreWord(t: string, ws: seq<Slice>, w: Slice)
    ensures Texts(t, ws + [w]) == Texts(t, ws) + [Spelled(t, w)]
  {
  }

  lemma {:induction false} ArgsSeeTokens(t: string, p: nat, args: seq<Slice>, rs: seq<Redirection<Slice>>)
    requires p <= |t| && IsCString(t)
    ensures Agrees(t, ParseArgs(t, p, args, rs), TArgs(Lex(t, p), Texts(t, args), TextRedirs(t, rs)))
    decreases |t| - p
  {
    var s := SkipSpace(t, p);
    SkipTwice(t, p);
    TextOfWrap(t, Exec(args), rs);
    PeekIsFirst(t, p, ['|', ')', '&', ';']);
    var w := GetToken(t, s);
    if !Peeks(t, s, ['|', ')', '&', ';']) && w.kind == 'a' && |args| + 1 < MAXARGS {
      RedirsSeeTokens(t, w.next, rs);
      var r := ParseRedirs(t, w.next, rs);
      if r.Ok? {
        ArgsSeeTokens(t, r.pos, args + [w.slice], r.value);
        OneMoreWord(t, args, w.slice);
      }
    }
  }

  lemma {:induction false} ExecSeesTokens(t: string, p: nat)
    requires p <= |t| && IsCString(t)
    ensures Agrees(t, ParseExec(t, p), TExec(Lex(t, p)))
    decreases |t| - p, 1
  {
    var s := SkipSpace(t, p);
    SkipTwice(t, p);
    PeekIsFirst(t, p, ['(']);
    if Peeks(t, s, ['(']) {
      BlockSeesTokens(t, s);
    } else {
      assert TextRedirs(t, []) == [] && Texts(t, []) == [];
      RedirsSeeTokens(t, s, []);
      var r := ParseRedirs(t, s, []);
      if r.Ok? {
        ArgsSeeTokens(t, r.pos, [], r.value);
      }
    }
  }

  /** Behind the line of a block. */
  lemma EndSeesTokens(t: string, p: nat, c: Cmd<Slice>)
    requires p <= |t| && IsCString(t)
    ensures var s := SkipSpace(t, p);
      && (Peeks(t, s, [')']) <==> StartsWith(Lex(t, p), [')']))
      && (Peeks(t, s, [')']) ==>
            var rs, trs := ParseRedirs(t, GetToken(t, s).next, []), TRedirs(Lex(t, p)[1..], []);
            && (rs.Ok? <==> trs.TOk?) && (rs.Panic? ==> trs == TPanic(rs.problem))
            && (rs.Ok? ==> Text(t, Wrap(c, rs.value)) == Wrap(Text(t, c), trs.value) && trs.rest == Lex(t, rs.pos)))
  {
    var s := SkipSpace(t, p);
    SkipTwice(t, p);
    PeekIsFirst(t, p, [')']);
    if Peeks(t, s, [')']) {
      var after := GetToken(t, s).next;
      LexStep(t, s);
      assert TextRedirs(t, []) == [];
      RedirsSeeTokens(t, after, []);
      if ParseRedirs(t, after, []).Ok? {
        TextOfWrap(t, c, ParseRedirs(t, after, []).value);
      }
    }
  }

  lemma {:induction false} BlockSeesTokens(t: string, p: nat)
    requires p <= |t| && IsCString(t) && Peeks(t, p, ['('])
    ensures Lex(t, p) != [] && Agrees(t, ParseBlock(t, p), TBlock(Lex(t, p)))
    decreases |t| - p, 0
  {
    var next := GetToken(t, p).next;
    LexStep(t, p);
    LineSeesTokens(t, next);
    var r := ParseLine(t, next);
    if r.Ok? {
      EndSeesTokens(t, r.pos, r.value);
    }
  }

  /** What peek and a token that it saw amount to on the tokens. */
  lemma {:induction false} PeekStep(t: string, p: nat, toks: seq<char>)
    requires p <= |t| && IsCString(t) && '>' !in toks && forall c :: c in toks ==> IsSymbol(c)
    ensures var s := SkipSpace(t, p);
      && Lex(t, s) == Lex(t, p)
      && (Peeks(t, s, toks) <==> StartsWith(Lex(t, p), toks))
      && (Peeks(t, s, toks) ==> Lex(t, GetToken(t, s).next) == Lex(t, p)[1..])
  {
    SkipTwice(t, p);
    PeekIsFirst(t, p, toks);
    LexStep(t, SkipSpace(t, p));
  }

  lemma PipeAlike(t: string, p: nat, ts: seq<Lexeme>, ts1: seq<Lexeme>, end: seq<Lexeme>)
    requires p <= |t| && Alike(t, ParseExec(t, p), TExec(ts), ts1)
    requires ParseExec(t, p).Ok? ==>
      var s := SkipSpace(t, ParseExec(t, p).pos);
      if Peeks(t, s, ['|']) then
        StartsWith(ts1, ['|']) && Alike(t, ParsePipe(t, GetToken(t, s).next), TPipe(ts1[1..]), end)
      else !StartsWith(ts1, ['|']) && end == ts1
    ensures Alike(t, ParsePipe(t, p), TPipe(ts), end)
  {
  }

  lemma {:induction false} PipeSeesTokens(t: string, p: nat)
    requires p <= |t| && IsCString(t)
    ensures Agrees(t, ParsePipe(t, p), TPipe(Lex(t, p)))
    decreases |t| - p, 2
  {
    ExecSeesTokens(t, p);
    var r := ParseExec(t, p);
    if r.Ok? {
      var s := SkipSpace(t, r.pos);
      PeekStep(t, r.pos, ['|']);
      if Peeks(t, s, ['|']) {
        PipeSeesTokens(t, GetToken(t, s).next);
      }
    }
    PipeAlike(t, p, Lex(t, p), LexAfter(t, r), LexAfter(t, ParsePipe(t, p)));
  }

  lemma BacksAlike(t: string, p: nat, cmd: Cmd<Slice>, ts: seq<Lexeme>, ts1: seq<Lexeme>, end: seq<Lexeme>)
    requires p <= |t| && (Peeks(t, SkipSpace(t, p), ['&']) <==> StartsWith(ts, ['&']))
    requires StartsWith(ts, ['&']) ==>
      && ts1 == ts[1..]
      && TBacks(ts1, Text(t, Back(cmd))) == (Text(t, ParseBacks(t, GetToken(t, SkipSpace(t, p)).next, Back(cmd)).0), end)
    requires !StartsWith(ts, ['&']) ==> end == ts
    ensures TBacks(ts, Text(t, cmd)) == (Text(t, ParseBacks(t, p, cmd).0), end)
  {
  }

  lemma {:induction false} BacksSeeTokens(t: string, p: nat, cmd: Cmd<Slice>)
    requires p <= |t| && IsCString(t)
    ensures var b := ParseBacks(t, p, cmd);
      TBacks(Lex(t, p), Text(t, cmd)) == (Text(t, b.0), Lex(t, b.1))
    decreases |t| - p
  {
    var s := SkipSpace(t, p);
    PeekStep(t, p, ['&']);
    if Peeks(t, s, ['&']) {
      BacksSeeTokens(t, GetToken(t, s).next, Back(cmd));
    }
    BacksAlike(t, p, cmd, Lex(t, p), Lex(t, GetToken(t, s).next), Lex(t, ParseBacks(t, p, cmd).1));
  }

  lemma LineAlike(t: string, p: nat, ts: seq<Lexeme>, ts1: seq<Lexeme>, ts2: seq<Lexeme>, end: seq<Lexeme>)
    requires p <= |t| && Alike(t, ParsePipe(t, p), TPipe(ts), ts1)
    requires ParsePipe(t, p).Ok? ==>
      var r := ParsePipe(t, p);
      var b := ParseBacks(t, r.pos, r.value);
      var s := SkipSpace(t, b.1);
      && TBacks(ts1, Text(t, r.value)) == (Text(t, b.0), ts2)
      && if Peeks(t, s, [';']) then
           StartsWith(ts2, [';']) && Alike(t, ParseLine(t, GetToken(t, s).next), TLine(ts2[1..]), end)
         else !StartsWith(ts2, [';']) && end == ts2
    ensures Alike(t, ParseLine(t, p), TLine(ts), end)
  {
    var r := ParsePipe(t, p);
    if r.Ok? {
      var b := ParseBacks(t, r.pos, r.value);
      TLineIs(ts, Text(t, r.value), ts1, Text(t, b.0), ts2);
    }
  }

  lemma TLineIs(ts: seq<Lexeme>, c: Cmd<string>, ts1: seq<Lexeme>, b: Cmd<string>, ts2: seq<Lexeme>)
    requires TPipe(ts) == TOk(c, ts1) && TBacks(ts1, c) == (b, ts2)
    ensures TLine(ts) ==
      if !StartsWith(ts2, [';']) then TOk(b, ts2)
      else var r := TLine(ts2[1..]); if r.TPanic? then r else TOk(List(b, r.value), r.rest)
  {
  }

  /** The parser on the text and the parser on its tokens do the same. */
  lemma {:induction false} LineSeesTokens(t: string, p: nat)
    requires p <= |t| && IsCString(t)
    ensures Agrees(t, ParseLine(t, p), TLine(Lex(t, p)))
    decreases |t| - p, 3
  {
    PipeSeesTokens(t, p);
    var r := ParsePipe(t, p);
    var ts2 := [];
    if r.Ok? {
      BacksSeeTokens(t, r.pos, r.value);
      var b := ParseBacks(t, r.pos, r.value);
      var s := SkipSpace(t, b.1);
      ts2 := Lex(t, b.1);
      PeekStep(t, b.1, [';']);
      if Peeks(t, s, [';']) {
        LineSeesTokens(t, GetToken(t, s).next);
      }
    }
    LineAlike(t, p, Lex(t, p), LexAfter(t, r), ts2, LexAfter(t, ParseLine(t, p)));
  }

  // ---- the tokenizer undoes spelling

  predicate IsWord(w: string) {
    w != "" && forall i :: 0 <= i < |w| ==> IsWordChar(w[i])
  }

  function Spell(l: Lexeme): string {
    match l
    case Word(w) => w
    case Sym(c) => if c == '+' then ">>" else [c]
  }

  /** The tokens, each followed by a space. */
  function Render(ts: seq<Lexeme>): string {
    if ts == [] then "" else Spell(ts[0]) + " " + Render(ts[1..])
  }

  predicate IsLexeme(l: Lexeme) {
    match l
    case Word(w) => IsWord(w)
    case Sym(c) => IsSymbol(c) || c == '+'
  }

  predicate AreLexemes(ts: seq<Lexeme>) {
    forall i :: 0 <= i < |ts| ==> IsLexeme(ts[i])
  }

  lemma {:induction false} SkipWordTo(t: string, p: nat, e: nat)
    requires p <= e < |t| && (forall i :: p <= i < e ==> IsWordChar(t[i])) && IsSpace(t[e])
    ensures SkipWord(t, p) == e
    decreases e - p
  {
    if p < e {
      SkipWordTo(t, p + 1, e);
    }
  }

  /** A token that stands between p and a space at e is read as such. */
  lemma TokenAt(t: string, p: nat, e: nat, l: Lexeme)
    requires p < e < |t| && t[p..e] == Spell(l) && IsLexeme(l) && t[e] == ' ' && (e + 1 < |t| ==> !IsSpace(t[e + 1]))
    ensures var k := GetToken(t, p); k.kind != '\0' && LexemeOf(t, k) == l && k.next == e + 1
  {
    assert forall i :: p <= i < e ==> t[i] == Spell(l)[i - p];
    assert SkipSpace(t, e) == e + 1;
    if l.Word? {
      SkipWordTo(t, p, e);
    }
  }

  lemma RenderStarts(ts: seq<Lexeme>)
    requires AreLexemes(ts)
    ensures Render(ts) == "" || !IsSpace(Render(ts)[0])
  {
    if ts != [] {
      assert Render(ts)[0] == Spell(ts[0])[0];
    }
  }

  lemma {:induction false} LexUndoesRender(t: string, p: nat, ts: seq<Lexeme>)
    requires AreLexemes(ts) && p <= |t| && t[p..] == Render(ts)
    ensures Lex(t, p) == ts
    decreases |ts|
  {
    if ts != [] {
      RenderStarts(ts[1..]);
      FirstToken(t, p, ts[0], Render(ts[1..]));
      LexUndoesRender(t, GetToken(t, p).next, ts[1..]);
      LexStep(t, p);
      assert Lex(t, p) == [Lex(t, p)[0]] + Lex(t, p)[1..];
    }
  }

  lemma FirstToken(t: string, p: nat, l: Lexeme, post: string)
    requires p <= |t| && t[p..] == Spell(l) + " " + post && IsLexeme(l) && (post == "" || !IsSpace(post[0]))
    ensures var k := GetToken(t, p); k.kind != '\0' && LexemeOf(t, k) == l && t[k.next..] == post
  {
    Cut(t, p, Spell(l), post);
    TokenAt(t, p, p + |Spell(l)|, l);
  }

  lemma Cut(t: string, p: nat, w: string, post: string)
    requires p <= |t| && t[p..] == w + " " + post
    ensures p + |w| < |t| && t[p..p + |w|] == w && t[p + |w|] == ' ' && t[p + |w| + 1..] == post
  {
    assert t[p..][..|w|] == w && t[p..][|w|] == ' ' && t[p..][|w| + 1..] == post;
  }

  lemma {:induction false} RenderedIsCString(ts: seq<Lexeme>)
    requires AreLexemes(ts)
    ensures IsCString(Render(ts))
  {
    if ts != [] {
      RenderedIsCString(ts[1..]);
      assert IsCString(Spell(ts[0]));
    }
  }

  lemma NoTokensLeft(t: string, p: nat)
    requires p <= |t| && IsCString(t) && Lex(t, p) == []
    ensures SkipSpace(t, p) == |t|
  {
  }
}
