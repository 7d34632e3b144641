/** The command language of sh.c: what its tokenizer and its recursive-descent parser compute, as functions
    of the text and a position in it, and what they say of printed commands. */
module ShellSyntax {

  const MAXARGS: nat := 10
  const O_RDONLY: int := 0x000
  const O_WRONLY_CREATE: int := 0x201

  /** W is a slice of the text, as the parser makes it, or the string that the slice spells. */
  datatype Cmd<W> =
    | Exec(argv: seq<W>)
    | Redir(cmd: Cmd<W>, file: W, mode: int, fd: int)
    | Pipe(left: Cmd<W>, right: Cmd<W>)
    | List(left: Cmd<W>, right: Cmd<W>)
    | Back(cmd: Cmd<W>)

  datatype Slice = Slice(q: nat, eq: nat)

  datatype Redirection<W> = Redirection(file: W, mode: int, fd: int)

  datatype Problem = MissingFile | MissingParen | Syntax | TooManyArgs | Leftovers

  datatype Result<T> = Ok(value: T, pos: nat) | Panic(problem: Problem)

  // ---- the tokenizer

  predicate IsSpace(c: char) {
    c in [' ', '\t', '\r', '\n', '\U{0b}']
  }

  predicate IsSymbol(c: char) {
    c in ['<', '|', '>', '&', ';', '(', ')']
  }

  predicate IsWordChar(c: char) {
    !IsSpace(c) && !IsSymbol(c) && c != '\0'
  }

  /** The buffer at p: the text is followed by a NUL. */
  function CharAt(t: string, p: nat): char {
    if p < |t| then t[p] else '\0'
  }

  /** A C string has no NUL in it. */
  predicate IsCString(t: string) {
    forall i :: 0 <= i < |t| ==> t[i] != '\0'
  }

  function SkipSpace(t: string, p: nat): (r: nat)
    requires p <= |t|
    ensures p <= r <= |t| && !IsSpace(CharAt(t, r))
    ensures forall i :: p <= i < r ==> IsSpace(t[i])
    decreases |t| - p
  {
    if p < |t| && IsSpace(t[p]) then SkipSpace(t, p + 1) else p
  }

  function SkipWord(t: string, p: nat): (r: nat)
    requires p <= |t|
    ensures p <= r <= |t| && (r < |t| ==> IsSpace(t[r]) || IsSymbol(t[r]))
    ensures forall i :: p <= i < r ==> !IsSpace(t[i]) && !IsSymbol(t[i])
    decreases |t| - p
  {
    if p < |t| && !IsSpace(t[p]) && !IsSymbol(t[p]) then SkipWord(t, p + 1) else p
  }

  /** kind is 0 at the end, 'a' for a word, '+' for >>, and otherwise the symbol. */
  datatype Token = Token(kind: char, slice: Slice, next: nat)

  /** gettoken from p: where the token starts and ends, and where the next one starts. */
  function GetToken(t: string, p: nat): (k: Token)
    requires p <= |t|
    ensures p <= k.slice.q <= k.slice.eq <= k.next <= |t|
    ensures k.kind != '\0' ==> k.slice.q < k.slice.eq
  {
    var q := SkipSpace(t, p);
    var c := CharAt(t, q);
    if c == '\0' then Token('\0', Slice(q, q), SkipSpace(t, q))
    else if c == '>' && CharAt(t, q + 1) == '>' then Token('+', Slice(q, q + 2), SkipSpace(t, q + 2))
    else if IsSymbol(c) then Token(c, Slice(q, q + 1), SkipSpace(t, q + 1))
    else
      var eq := SkipWord(t, q);
      Token('a', Slice(q, eq), SkipSpace(t, eq))
  }

  /** peek, from a position that peek has already moved to. */
  predicate Peeks(t: string, s: nat, toks: seq<char>) {
    CharAt(t, s) != '\0' && CharAt(t, s) in toks
  }

  // ---- the parser

  function ModeOf(kind: char): int {
    if kind == '<' then O_RDONLY else O_WRONLY_CREATE
  }

  function FdOf(kind: char): int {
    if kind == '<' then 0 else 1
  }

  /** cmd under the redirections rs, the first of them innermost. */
  function Wrap<W>(cmd: Cmd<W>, rs: seq<Redirection<W>>): Cmd<W> {
    if rs == [] then cmd
    else var r := rs[|rs| - 1]; Redir(Wrap(cmd, rs[..|rs| - 1]), r.file, r.mode, r.fd)
  }

  /** parseredirs after the redirections rs. */
  function ParseRedirs(t: string, p: nat, rs: seq<Redirection<Slice>>): (r: Result<seq<Redirection<Slice>>>)
    requires p <= |t|
    ensures r.Ok? ==> p <= r.pos <= |t|
    decreases |t| - p
  {
    var s := SkipSpace(t, p);
    if !Peeks(t, s, ['<', '>']) then Ok(rs, s)
    else
      var tok := GetToken(t, s);
      var w := GetToken(t, tok.next);
      if w.kind != 'a' then Panic(MissingFile)
      else ParseRedirs(t, w.next, rs + [Redirection(w.slice, ModeOf(tok.kind), FdOf(tok.kind))])
  }

  /** The loop of parseexec, after the arguments args and the redirections rs. */
  function ParseArgs(t: string, p: nat, args: seq<Slice>, rs: seq<Redirection<Slice>>): (r: Result<Cmd<Slice>>)
    requires p <= |t|
    ensures r.Ok? ==> p <= r.pos <= |t|
    decreases |t| - p
  {
    var s := SkipSpace(t, p);
    if Peeks(t, s, ['|', ')', '&', ';']) then Ok(Wrap(Exec(args), rs), s)
    else
      var w := GetToken(t, s);
      if w.kind == '\0' then Ok(Wrap(Exec(args), rs), w.next)
      else if w.kind != 'a' then Panic(Syntax)
      else if |args| + 1 >= MAXARGS then Panic(TooManyArgs)
      else
        var r := ParseRedirs(t, w.next, rs);
        if r.Panic? then Panic(r.problem) else ParseArgs(t, r.pos, args + [w.slice], r.value)
  }

  function ParseExec(t: string, p: nat): (r: Result<Cmd<Slice>>)
    requires p <= |t|
    ensures r.Ok? ==> p <= r.pos <= |t|
    decreases |t| - p, 1
  {
    var s := SkipSpace(t, p);
    if Peeks(t, s, ['(']) then ParseBlock(t, s)
    else
      var r := ParseRedirs(t, s, []);
      if r.Panic? then Panic(r.problem) else ParseArgs(t, r.pos, [], r.value)
  }

  function ParseBlock(t: string, p: nat): (r: Result<Cmd<Slice>>)
    requires p <= |t| && Peeks(t, p, ['('])
    ensures r.Ok? ==> p <= r.pos <= |t|
    decreases |t| - p, 0
  {
    var r := ParseLine(t, GetToken(t, p).next);
    if r.Panic? then r
    else
      var s := SkipSpace(t, r.pos);
      if !Peeks(t, s, [')']) then Panic(MissingParen)
      else
        var rs := ParseRedirs(t, GetToken(t, s).next, []);
        if rs.Panic? then Panic(rs.problem) else Ok(Wrap(r.value, rs.value), rs.pos)
  }

  function ParsePipe(t: string, p: nat): (r: Result<Cmd<Slice>>)
    requires p <= |t|
    ensures r.Ok? ==> p <= r.pos <= |t|
    decreases |t| - p, 2
  {
    var r := ParseExec(t, p);
    if r.Panic? then r
    else
      var s := SkipSpace(t, r.pos);
      if !Peeks(t, s, ['|']) then Ok(r.value, s)
      else
        var r2 := ParsePipe(t, GetToken(t, s).next);
        if r2.Panic? then r2 else Ok(Pipe(r.value, r2.value), r2.pos)
  }

  /** The loop of parseline over ampersands. */
  function ParseBacks(t: string, p: nat, cmd: Cmd<Slice>): (r: (Cmd<Slice>, nat))
    requires p <= |t|
    ensures p <= r.1 <= |t|
    decreases |t| - p
  {
    var s := SkipSpace(t, p);
    if Peeks(t, s, ['&']) then ParseBacks(t, GetToken(t, s).next, Back(cmd)) else (cmd, s)
  }

  function ParseLine(t: string, p: nat): (r: Result<Cmd<Slice>>)
    requires p <= |t|
    ensures r.Ok? ==> p <= r.pos <= |t|
    decreases |t| - p, 3
  {
    var r := ParsePipe(t, p);
    if r.Panic? then r
    else
      var b := ParseBacks(t, r.pos, r.value);
      var s := SkipSpace(t, b.1);
      if !Peeks(t, s, [';']) then Ok(b.0, s)
      else
        var r2 := ParseLine(t, GetToken(t, s).next);
        if r2.Panic? then r2 else Ok(List(b.0, r2.value), r2.pos)
  }

  /** parsecmd, up to nulterminate. */
  function ParseCmd(t: string): Result<Cmd<Slice>> {
    var r := ParseLine(t, 0);
    if r.Panic? then r
    else if SkipSpace(t, r.pos) != |t| then Panic(Leftovers)
    else Ok(r.value, |t|)
  }

  // ---- the slices of a parsed command

  /** A whole word: word characters, up to the end of the text or a character that is none. */
  predicate WholeWord(t: string, w: Slice) {
    && w.q < w.eq <= |t|
    && (forall i :: w.q <= i < w.eq ==> IsWordChar(t[i]))
    && (w.eq < |t| ==> !IsWordChar(t[w.eq]))
  }

  predicate IsMode(mode: int, fd: int) {
    (mode == O_RDONLY && fd == 0) || (mode == O_WRONLY_CREATE && fd == 1)
  }

  /** What the parser can produce: at most nine arguments, whole words, and the modes of <, > and >>. */
  predicate Parsed(t: string, cmd: Cmd<Slice>) {
    match cmd
    case Exec(argv) => |argv| < MAXARGS && forall i :: 0 <= i < |argv| ==> WholeWord(t, argv[i])
    case Redir(c, file, mode, fd) => Parsed(t, c) && WholeWord(t, file) && IsMode(mode, fd)
    case Pipe(l, r) => Parsed(t, l) && Parsed(t, r)
    case List(l, r) => Parsed(t, l) && Parsed(t, r)
    case Back(c) => Parsed(t, c)
  }

  predicate ParsedRedirs(t: string, rs: seq<Redirection<Slice>>) {
    forall i :: 0 <= i < |rs| ==> WholeWord(t, rs[i].file) && IsMode(rs[i].mode, rs[i].fd)
  }

  lemma TokenIsWhole(t: string, p: nat)
    requires p <= |t| && IsCString(t) && GetToken(t, p).kind == 'a'
    ensures WholeWord(t, GetToken(t, p).slice)
  {
  }

  lemma {:induction false} WrapIsParsed(t: string, cmd: Cmd<Slice>, rs: seq<Redirection<Slice>>)
    requires Parsed(t, cmd) && ParsedRedirs(t, rs)
    ensures Parsed(t, Wrap(cmd, rs))
    decreases |rs|
  {
    if rs != [] {
      WrapIsParsed(t, cmd, rs[..|rs| - 1]);
    }
  }

  lemma {:induction false} RedirsAreParsed(t: string, p: nat, rs: seq<Redirection<Slice>>)
    requires p <= |t| && IsCString(t) && ParsedRedirs(t, rs) && ParseRedirs(t, p, rs).Ok?
    ensures ParsedRedirs(t, ParseRedirs(t, p, rs).value)
    decreases |t| - p
  {
    var s := SkipSpace(t, p);
    if Peeks(t, s, ['<', '>']) {
      var tok := GetToken(t, s);
      var w := GetToken(t, tok.next);
      TokenIsWhole(t, tok.next);
      RedirsAreParsed(t, w.next, rs + [Redirection(w.slice, ModeOf(tok.kind), FdOf(tok.kind))]);
    }
  }

  lemma {:induction false} ArgsAreParsed(t: string, p: nat, args: seq<Slice>, rs: seq<Redirection<Slice>>)
    requires p <= |t| && IsCString(t) && Parsed(t, Exec(args)) && ParsedRedirs(t, rs) && ParseArgs(t, p, args, rs).Ok?
    ensures Parsed(t, ParseArgs(t, p, args, rs).value)
    decreases |t| - p
  {
    var s := SkipSpace(t, p);
    WrapIsParsed(t, Exec(args), rs);
    if !Peeks(t, s, ['|', ')', '&', ';']) && GetToken(t, s).kind != '\0' {
      var w := GetToken(t, s);
      TokenIsWhole(t, s);
      RedirsAreParsed(t, w.next, rs);
      ArgsAreParsed(t, ParseRedirs(t, w.next, rs).pos, args + [w.slice], ParseRedirs(t, w.next, rs).value);
    }
  }

  lemma {:induction false} ExecIsParsed(t: string, p: nat)
    requires p <= |t| && IsCString(t) && ParseExec(t, p).Ok?
    ensures Parsed(t, ParseExec(t, p).value)
    decreases |t| - p, 1
  {
    var s := SkipSpace(t, p);
    if Peeks(t, s, ['(']) {
      BlockIsParsed(t, s);
    } else {
      RedirsAreParsed(t, s, []);
      ArgsAreParsed(t, ParseRedirs(t, s, []).pos, [], ParseRedirs(t, s, []).value);
    }
  }

  lemma {:induction false} BlockIsParsed(t: string, p: nat)
    requires p <= |t| && IsCString(t) && Peeks(t, p, ['(']) && ParseBlock(t, p).Ok?
    ensures Parsed(t, ParseBlock(t, p).value)
    decreases |t| - p, 0
  {
    LineIsParsed(t, GetToken(t, p).next);
    var r := ParseLine(t, GetToken(t, p).next);
    var after := GetToken(t, SkipSpace(t, r.pos)).next;
    RedirsAreParsed(t, after, []);
    WrapIsParsed(t, r.value, ParseRedirs(t, after, []).value);
  }

  lemma {:induction false} PipeIsParsed(t: string, p: nat)
    requires p <= |t| && IsCString(t) && ParsePipe(t, p).Ok?
    ensures Parsed(t, ParsePipe(t, p).value)
    decreases |t| - p, 2
  {
    ExecIsParsed(t, p);
    var s := SkipSpace(t, ParseExec(t, p).pos);
    if Peeks(t, s, ['|']) {
      PipeIsParsed(t, GetToken(t, s).next);
    }
  }

  lemma {:induction false} BacksAreParsed(t: string, p: nat, cmd: Cmd<Slice>)
    requires p <= |t| && Parsed(t, cmd)
    ensures Parsed(t, ParseBacks(t, p, cmd).0)
    decreases |t| - p
  {
    var s := SkipSpace(t, p);
    if Peeks(t, s, ['&']) {
      BacksAreParsed(t, GetToken(t, s).next, Back(cmd));
    }
  }

  /** Whatever the parser accepts is made of whole words. */
  lemma {:induction false} LineIsParsed(t: string, p: nat)
    requires p <= |t| && IsCString(t) && ParseLine(t, p).Ok?
    ensures Parsed(t, ParseLine(t, p).value)
    decreases |t| - p, 3
  {
    PipeIsParsed(t, p);
    BacksAreParsed(t, ParsePipe(t, p).pos, ParsePipe(t, p).value);
    var s := SkipSpace(t, ParseBacks(t, ParsePipe(t, p).pos, ParsePipe(t, p).value).1);
    if Peeks(t, s, [';']) {
      LineIsParsed(t, GetToken(t, s).next);
    }
  }
}
