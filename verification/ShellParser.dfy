/** The parser of sh.c over its cursor, and nulterminate over the buffer. */
module ShellParser {
  import opened ShellSyntax
  import opened ShellRoundTrip

  datatype Outcome<T> = Done(value: T) | Stop(problem: Problem)

  /** What a parsing routine that started at a position makes of its cursor and its result. */
  predicate Follows<T(==)>(spec: Result<T>, r: Outcome<T>, s: nat) {
    match spec
    case Ok(value, pos) => r == Done(value) && s == pos
    case Panic(problem) => r == Stop(problem)
  }

  /** Where peek moves the cursor does not matter to the parser. */
  lemma SkipNothing(t: string, p: nat, args: seq<Slice>, rs: seq<Redirection<Slice>>)
    requires p <= |t|
    ensures SkipSpace(t, SkipSpace(t, p)) == SkipSpace(t, p)
    ensures ParseArgs(t, SkipSpace(t, p), args, rs) == ParseArgs(t, p, args, rs)
  {
  }

  class Parser {
    const text: string            // the string at s, with es at its end
    var ps: nat                   // *ps

    constructor (t: string)
      ensures text == t && ps == 0
    {
      text, ps := t, 0;
    }

    predicate Valid()
      reads this
    {
      ps <= |text|
    }

    method Gettoken() returns (ret: char, q: nat, eq: nat)
      requires Valid()
      modifies this
      ensures Valid() && Token(ret, Slice(q, eq), ps) == GetToken(text, old(ps))
    {
      var s := Skip(ps);
      q := s;
      ret := CharAt(text, s);
      if ret == '\0' {
      } else if ret == '|' || ret == '(' || ret == ')' || ret == ';' || ret == '&' || ret == '<' {
        s := s + 1;
      } else if ret == '>' {
        s := s + 1;
        if CharAt(text, s) == '>' {
          ret := '+';
          s := s + 1;
        }
      } else {
        ret := 'a';
        while s < |text| && !IsSpace(text[s]) && !IsSymbol(text[s])
          invariant q <= s <= |text| && SkipWord(text, s) == SkipWord(text, q)
        {
          s := s + 1;
        }
      }
      eq := s;
      ps := Skip(s);
    }

    /** while(s < es && strchr(whitespace, *s)) s++; */
    method Skip(from: nat) returns (s: nat)
      requires from <= |text|
      ensures s == SkipSpace(text, from)
    {
      s := from;
      while s < |text| && IsSpace(text[s])
        invariant from <= s <= |text| && SkipSpace(text, s) == SkipSpace(text, from)
      {
        s := s + 1;
      }
    }

    method Peek(toks: seq<char>) returns (b: bool)
      requires Valid()
      modifies this
      ensures Valid() && ps == SkipSpace(text, old(ps)) && b == Peeks(text, ps, toks)
    {
      ps := Skip(ps);
      b := CharAt(text, ps) != '\0' && CharAt(text, ps) in toks;
    }

    method Parseredirs(rs0: seq<Redirection<Slice>>) returns (r: Outcome<seq<Redirection<Slice>>>)
      requires Valid()
      modifies this
      ensures Valid() && Follows(ParseRedirs(text, old(ps), rs0), r, ps)
    {
      var rs := rs0;
      var more := Peek(['<', '>']);
      while more
        invariant Valid() && SkipSpace(text, ps) == ps && more == Peeks(text, ps, ['<', '>'])
        invariant ParseRedirs(text, ps, rs) == ParseRedirs(text, old(ps), rs0)
        decreases |text| - ps
      {
        var tok, _, _ := Gettoken();
        var a, q, eq := Gettoken();
        if a != 'a' {
          return Stop(MissingFile);
        }
        rs := rs + [Redirection(Slice(q, eq), ModeOf(tok), FdOf(tok))];
        more := Peek(['<', '>']);
      }
      return Done(rs);
    }

    method Parseexec() returns (r: Outcome<Cmd<Slice>>)
      requires Valid()
      modifies this
      ensures Valid() && Follows(ParseExec(text, old(ps)), r, ps)
      decreases |text| - ps, 1
    {
      var block := Peek(['(']);
      if block {
        r := Parseblock();
        return;
      }
      var ret := Parseredirs([]);
      if ret.Stop? {
        return Stop(ret.problem);
      }
      r := Parseargs(ret.value);
    }

    /** The loop of parseexec, after the redirections rs0. */
    method Parseargs(rs0: seq<Redirection<Slice>>) returns (r: Outcome<Cmd<Slice>>)
      requires Valid()
      modifies this
      ensures Valid() && Follows(ParseArgs(text, old(ps), [], rs0), r, ps) == true
    {
      var argv := new Slice[MAXARGS];
      var argc, rs := 0, rs0;
      var done := Peek(['|', ')', '&', ';']);
      while !done
        invariant Valid() && done == Peeks(text, SkipSpace(text, ps), ['|', ')', '&', ';'])
        invariant SkipSpace(text, ps) == ps && 0 <= argc < MAXARGS && argv.Length == MAXARGS && fresh(argv)
        invariant ParseArgs(text, ps, argv[..argc], rs) == ParseArgs(text, old(ps), [], rs0)
        decreases |text| - ps
      {
        var end, ret := Parsearg(argv, argc, rs);
        if ret.Stop? {
          return Stop(ret.problem);
        }
        if end {
          return Done(Wrap(Exec(argv[..argc]), rs));
        }
        argc := argc + 1;
        rs := ret.value;
        ghost var p := ps;
        done := Peek(['|', ')', '&', ';']);
        SkipNothing(text, p, argv[..argc], rs);
      }
      return Done(Wrap(Exec(argv[..argc]), rs));
    }

    /** One turn of that loop; end says that the text has ended. */
    method Parsearg(argv: array<Slice>, argc: nat, rs: seq<Redirection<Slice>>)
      returns (end: bool, ret: Outcome<seq<Redirection<Slice>>>)
      requires Valid() && SkipSpace(text, ps) == ps && !Peeks(text, ps, ['|', ')', '&', ';'])
      requires argc < MAXARGS == argv.Length
      modifies this, argv
      ensures Valid()
      ensures var spec := ParseArgs(text, old(ps), old(argv[..argc]), rs);
        match ret
        case Stop(problem) => spec == Panic(problem)
        case Done(rs2) =>
          if end then spec == Ok(Wrap(Exec(argv[..argc]), rs), ps)
          else argc + 1 < MAXARGS && old(ps) < ps && spec == ParseArgs(text, ps, argv[..argc + 1], rs2)
    {
      ghost var args := argv[..argc];
      var tok, q, eq := Gettoken();
      if tok == '\0' {
        return true, Done(rs);
      }
      if tok != 'a' {
        return false, Stop(Syntax);
      }
      argv[argc] := Slice(q, eq);
      if argc + 1 >= MAXARGS {
        return false, Stop(TooManyArgs);
      }
      assert argv[..argc + 1] == args + [Slice(q, eq)];
      ret := Parseredirs(rs);
      end := false;
    }

    method Parseblock() returns (r: Outcome<Cmd<Slice>>)
      requires Valid() && SkipSpace(text, ps) == ps && Peeks(text, ps, ['('])
      modifies this
      ensures Valid() && Follows(ParseBlock(text, old(ps)), r, ps)
      decreases |text| - ps, 0
    {
      var _, _, _ := Gettoken();
      r := Parseline();
      if r.Stop? {
        return;
      }
      var closed := Peek([')']);
      if !closed {
        return Stop(MissingParen);
      }
      var _, _, _ := Gettoken();
      var rs := Parseredirs([]);
      if rs.Stop? {
        return Stop(rs.problem);
      }
      return Done(Wrap(r.value, rs.value));
    }

    method Parsepipe() returns (r: Outcome<Cmd<Slice>>)
      requires Valid()
      modifies this
      ensures Valid() && Follows(ParsePipe(text, old(ps)), r, ps)
      decreases |text| - ps, 2
    {
      r := Parseexec();
      if r.Stop? {
        return;
      }
      var bar := Peek(['|']);
      if bar {
        var _, _, _ := Gettoken();
        var right := Parsepipe();
        if right.Stop? {
          return right;
        }
        r := Done(Pipe(r.value, right.value));
      }
    }

    method Parseline() returns (r: Outcome<Cmd<Slice>>)
      requires Valid()
      modifies this
      ensures Valid() && Follows(ParseLine(text, old(ps)), r, ps)
      decreases |text| - ps, 3
    {
      r := Parsepipe();
      if r.Stop? {
        return;
      }
      var cmd := r.value;
      ghost var p0, cmd0 := ps, cmd;
      var amp := Peek(['&']);
      while amp
        invariant Valid() && p0 <= ps && SkipSpace(text, ps) == ps && amp == Peeks(text, ps, ['&'])
        invariant ParseBacks(text, ps, cmd) == ParseBacks(text, p0, cmd0)
        decreases |text| - ps
      {
        var _, _, _ := Gettoken();
        cmd := Back(cmd);
        amp := Peek(['&']);
      }
      var semi := Peek([';']);
      if semi {
        var _, _, _ := Gettoken();
        var right := Parseline();
        if right.Stop? {
          return right;
        }
        cmd := List(cmd, right.value);
      }
      return Done(cmd);
    }

    /** parsecmd up to nulterminate. */
    method Parsecmd() returns (r: Outcome<Cmd<Slice>>)
      requires ps == 0
      modifies this
      ensures match ParseCmd(text) case Ok(cmd, _) => r == Done(cmd) case Panic(problem) => r == Stop(problem)
    {
      r := Parseline();
      if r.Stop? {
        return;
      }
      var _ := Peek([]);
      if ps != |text| {
        return Stop(Leftovers);
      }
    }
  }

  // ---- nulterminate

  /** The words of a command. */
  function Slices(cmd: Cmd<Slice>): set<Slice> {
    match cmd
    case Exec(argv) => set i | 0 <= i < |argv| :: argv[i]
    case Redir(c, file, _, _) => Slices(c) + {file}
    case Pipe(l, r) => Slices(l) + Slices(r)
    case List(l, r) => Slices(l) + Slices(r)
    case Back(c) => Slices(c)
  }

  predicate EndsAt(ws: set<Slice>, i: nat) {
    exists w :: w in ws && w.eq == i
  }

  /** b is a with a NUL wherever one of ws ends. */
  ghost predicate Terminated(a: seq<char>, b: seq<char>, ws: set<Slice>) {
    |b| == |a| && forall i :: 0 <= i < |a| ==> b[i] == if EndsAt(ws, i) then '\0' else a[i]
  }

  lemma EndsAtUnion(v: set<Slice>, w: set<Slice>, i: nat)
    ensures EndsAt(v + w, i) <==> EndsAt(v, i) || EndsAt(w, i)
  {
    if EndsAt(v, i) {
      var x :| x in v && x.eq == i;
      assert x in v + w;
    }
    if EndsAt(w, i) {
      var x :| x in w && x.eq == i;
      assert x in v + w;
    }
  }

  lemma TerminatedTwice(a: seq<char>, b: seq<char>, c: seq<char>, v: set<Slice>, w: set<Slice>)
    requires Terminated(a, b, v) && Terminated(b, c, w)
    ensures Terminated(a, c, v + w)
  {
    forall i | 0 <= i < |a| ensures c[i] == if EndsAt(v + w, i) then '\0' else a[i] {
      EndsAtUnion(v, w, i);
    }
  }

  method Nulterminate(buf: array<char>, cmd: Cmd<Slice>)
    requires forall w :: w in Slices(cmd) ==> w.eq < buf.Length
    modifies buf
    ensures Terminated(old(buf[..]), buf[..], Slices(cmd))
    decreases cmd
  {
    ghost var a := buf[..];
    match cmd
    case Exec(argv) =>
      TerminateArgs(buf, argv);
    case Redir(c, file, _, _) =>
      Nulterminate(buf, c);
      ghost var b := buf[..];
      buf[file.eq] := '\0';
      assert Terminated(b, buf[..], {file}) by {
        assert file in {file};
      }
      TerminatedTwice(a, b, buf[..], Slices(c), {file});
    case Pipe(l, r) =>
      Nulterminate(buf, l);
      ghost var b := buf[..];
      Nulterminate(buf, r);
      TerminatedTwice(a, b, buf[..], Slices(l), Slices(r));
    case List(l, r) =>
      Nulterminate(buf, l);
      ghost var b := buf[..];
      Nulterminate(buf, r);
      TerminatedTwice(a, b, buf[..], Slices(l), Slices(r));
    case Back(c) =>
      Nulterminate(buf, c);
  }

  /** for(i = 0; ecmd->argv[i]; i++) *ecmd->eargv[i] = 0; */
  method TerminateArgs(buf: array<char>, argv: seq<Slice>)
    requires forall w :: w in Slices(Exec(argv)) ==> w.eq < buf.Length
    modifies buf
    ensures Terminated(old(buf[..]), buf[..], Slices(Exec(argv)))
  {
    ghost var a := buf[..];
    var i := 0;
    while i < |argv|
      invariant 0 <= i <= |argv| && Terminated(a, buf[..], Slices(Exec(argv[..i])))
    {
      assert argv[i] in Slices(Exec(argv));
      ghost var b := buf[..];
      buf[argv[i].eq] := '\0';
      assert Terminated(b, buf[..], {argv[i]}) by {
        assert argv[i] in {argv[i]};
      }
      TerminatedTwice(a, b, buf[..], Slices(Exec(argv[..i])), {argv[i]});
      SlicesOfMore(argv, i);
      i := i + 1;
    }
    assert argv[..i] == argv;
  }

  lemma SlicesOfMore(argv: seq<Slice>, n: nat)
    requires n < |argv|
    ensures Slices(Exec(argv[..n + 1])) == Slices(Exec(argv[..n])) + {argv[n]}
  {
    var v, w := argv[..n], argv[..n + 1];
    forall x | x in Slices(Exec(w)) ensures x in Slices(Exec(v)) + {argv[n]} {
      var i :| 0 <= i < |w| && w[i] == x;
      assert i < n ==> v[i] == x;
    }
    forall x | x in Slices(Exec(v)) ensures x in Slices(Exec(w)) {
      var i :| 0 <= i < |v| && v[i] == x;
      assert w[i] == x;
    }
    assert w[n] == argv[n];
  }

  // ---- what the argument and file pointers then point to

  /** The C string at p: up to the first NUL. */
  function CString(b: seq<char>, p: nat): string
    decreases |b| - p
  {
    if p >= |b| || b[p] == '\0' then "" else [b[p]] + CString(b, p + 1)
  }

  lemma {:induction false} CStringIs(b: seq<char>, p: nat, e: nat)
    requires p <= e < |b| && b[e] == '\0' && forall i :: p <= i < e ==> b[i] != '\0'
    ensures CString(b, p) == b[p..e]
    decreases e - p
  {
    if p < e {
      CStringIs(b, p + 1, e);
    }
  }

  lemma {:induction false} ParsedSlices(t: string, cmd: Cmd<Slice>)
    requires Parsed(t, cmd)
    ensures forall w :: w in Slices(cmd) ==> WholeWord(t, w)
  {
    match cmd
    case Exec(argv) =>
    case Redir(c, _, _, _) => ParsedSlices(t, c);
    case Pipe(l, r) => ParsedSlices(t, l); ParsedSlices(t, r);
    case List(l, r) => ParsedSlices(t, l); ParsedSlices(t, r);
    case Back(c) => ParsedSlices(t, c);
  }

  /** No word ends inside another, so after nulterminate each pointer is the C string its slice spelled. */
  lemma WordsSurvive(t: string, b: seq<char>, cmd: Cmd<Slice>, w: Slice)
    requires Parsed(t, cmd) && Terminated(t + ['\0'], b, Slices(cmd)) && w in Slices(cmd)
    ensures CString(b, w.q) == Spelled(t, w)
  {
    ParsedSlices(t, cmd);
    forall v | v in Slices(cmd) ensures !(w.q <= v.eq < w.eq) {
      assert WholeWord(t, v) && WholeWord(t, w);
    }
    forall i | w.q <= i < w.eq ensures b[i] == t[i] && b[i] != '\0' {
    }
    assert EndsAt(Slices(cmd), w.eq);
    CStringIs(b, w.q, w.eq);
    assert b[w.q..w.eq] == t[w.q..w.eq];
  }

  /** parsecmd on a buffer that holds a C string t: the command is what ParseCmd says, and every argument and
      file of it is a C string in the buffer. */
  method ParseBuffer(buf: array<char>, t: string) returns (r: Outcome<Cmd<Slice>>)
    requires IsCString(t) && buf[..] == t + ['\0']
    modifies buf
    ensures match ParseCmd(t) case Ok(cmd, _) => r == Done(cmd) case Panic(problem) => r == Stop(problem)
    ensures r.Stop? ==> buf[..] == old(buf[..])
    ensures r.Done? ==> forall w :: w in Slices(r.value) ==> CString(buf[..], w.q) == Spelled(t, w)
  {
    var p := new Parser(t);
    r := p.Parsecmd();
    if r.Done? {
      var cmd := r.value;
      LineIsParsed(t, 0);
      ParsedSlices(t, cmd);
      Nulterminate(buf, cmd);
      forall w | w in Slices(cmd) ensures CString(buf[..], w.q) == Spelled(t, w) {
        WordsSurvive(t, buf[..], cmd, w);
      }
    }
  }
}
