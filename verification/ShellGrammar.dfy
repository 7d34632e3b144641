/** The language that the parser of sh.c accepts, as a grammar: the texts it accepts are exactly those whose tokens a
    syntax tree has, and the command it makes is what the tree means. Redirections may stand before, among and behind
    the words of a command, and parentheses wherever a command may. */
module ShellGrammar {
  import opened ShellSyntax
  import opened ShellRoundTrip

  /** <, > and >> */
  datatype Op = From | To | Append

  datatype Item = Arg(w: string) | Redirect(op: Op, file: string)

  /** Items of a simple command in the order of the text; a line in parentheses and its redirections; and the three
      connectives. */
  datatype Tree =
    | Simple(items: seq<Item>)
    | Block(line: Tree, redirs: seq<Item>)
    | Piped(left: Tree, right: Tree)
    | Listed(left: Tree, right: Tree)
    | Backed(tree: Tree)

  // ---- what trees mean

  /** >> opens the file as > does. */
  function Opens(op: Op, file: string): Redirection<string> {
    match op
    case From => Redirection(file, O_RDONLY, 0)
    case To => Redirection(file, O_WRONLY_CREATE, 1)
    case Append => Redirection(file, O_WRONLY_CREATE, 1)
  }

  function Args(items: seq<Item>): seq<string> {
    if items == [] then []
    else (match items[0] case Arg(w) => [w] case _ => []) + Args(items[1..])
  }

  function Redirs(items: seq<Item>): seq<Redirection<string>> {
    if items == [] then []
    else (match items[0] case Redirect(op, file) => [Opens(op, file)] case _ => []) + Redirs(items[1..])
  }

  function Meaning(x: Tree): Cmd<string> {
    match x
    case Simple(items) => Wrap(Exec(Args(items)), Redirs(items))
    case Block(line, redirs) => Wrap(Meaning(line), Redirs(redirs))
    case Piped(l, r) => Pipe(Meaning(l), Meaning(r))
    case Listed(l, r) => List(Meaning(l), Meaning(r))
    case Backed(y) => Back(Meaning(y))
  }

  // ---- the grammar

  /** line ::= backs [; line], backs ::= pipe | backs &, pipe ::= exec ["|" pipe], exec ::= items | ( line ) redirs */
  predicate IsExec(x: Tree)
    decreases x, 0
  {
    match x
    case Simple(items) => |Args(items)| < MAXARGS
    case Block(line, redirs) => IsLine(line) && forall i :: 0 <= i < |redirs| ==> redirs[i].Redirect?
    case _ => false
  }

  predicate IsPipe(x: Tree)
    decreases x, 1
  {
    match x
    case Piped(l, r) => IsExec(l) && IsPipe(r)
    case _ => IsExec(x)
  }

  predicate IsBacks(x: Tree)
    decreases x, 2
  {
    match x
    case Backed(y) => IsBacks(y)
    case _ => IsPipe(x)
  }

  predicate IsLine(x: Tree)
    decreases x, 3
  {
    match x
    case Listed(l, r) => IsBacks(l) && IsLine(r)
    case _ => IsBacks(x)
  }

  // ---- their tokens

  function OpToken(op: Op): Lexeme {
    match op case From => Sym('<') case To => Sym('>') case Append => Sym('+')
  }

  function ItemTokens(item: Item): seq<Lexeme> {
    match item
    case Arg(w) => [Word(w)]
    case Redirect(op, file) => [OpToken(op), Word(file)]
  }

  function ItemsTokens(items: seq<Item>): seq<Lexeme> {
    if items == [] then [] else ItemTokens(items[0]) + ItemsTokens(items[1..])
  }

  function Tokens(x: Tree): seq<Lexeme> {
    match x
    case Simple(items) => ItemsTokens(items)
    case Block(line, redirs) => [Sym('(')] + Tokens(line) + [Sym(')')] + ItemsTokens(redirs)
    case Piped(l, r) => Tokens(l) + [Sym('|')] + Tokens(r)
    case Listed(l, r) => Tokens(l) + [Sym(';')] + Tokens(r)
    case Backed(y) => Tokens(y) + [Sym('&')]
  }

  // ---- every tree is read

  /** parseexec behind the redirections rs and the arguments args: the redirections that come next, and its loop. */
  function TItems(ts: seq<Lexeme>, args: seq<string>, rs: seq<Redirection<string>>): TResult<Cmd<string>> {
    var r := TRedirs(ts, rs);
    if r.TPanic? then TPanic(r.problem) else TArgs(r.rest, args, r.value)
  }

  /** Where the items of a simple command end. */
  predicate Closes(rest: seq<Lexeme>) {
    rest == [] || StartsWith(rest, ['|', ')', '&', ';'])
  }

  lemma OpIsRead(op: Op, file: string)
    ensures Redirection(file, ModeOf(OpToken(op).c), FdOf(OpToken(op).c)) == Opens(op, file)
    ensures OpToken(op).c in ['<', '>', '+']
  {
  }

  /** Behind args and rs, ts is read up to rest, which leaves the arguments args' and the redirections rs'. */
  predicate Reads(ts: seq<Lexeme>, args: seq<string>, rs: seq<Redirection<string>>,
                  rest: seq<Lexeme>, args': seq<string>, rs': seq<Redirection<string>>) {
    TItems(ts, args, rs) == TOk(Wrap(Exec(args'), rs'), rest)
  }

  predicate ReadsRedirs(ts: seq<Lexeme>, rs: seq<Redirection<string>>, rest: seq<Lexeme>, rs': seq<Redirection<string>>) {
    TRedirs(ts, rs) == TOk(rs', rest)
  }

  /** A redirection comes next. */
  lemma RedirectStep(ts: seq<Lexeme>, rs: seq<Redirection<string>>, op: Op, file: string)
    requires |ts| >= 2 && ts[0] == OpToken(op) && ts[1] == Word(file)
    ensures TRedirs(ts, rs) == TRedirs(ts[2..], rs + [Opens(op, file)])
  {
    OpIsRead(op, file);
  }

  lemma RedirectItem(ts: seq<Lexeme>, args: seq<string>, rs: seq<Redirection<string>>, op: Op, file: string)
    requires |ts| >= 2 && ts[0] == OpToken(op) && ts[1] == Word(file)
    ensures TItems(ts, args, rs) == TItems(ts[2..], args, rs + [Opens(op, file)])
  {
    RedirectStep(ts, rs, op, file);
  }

  /** An argument comes next. */
  lemma ArgItem(ts: seq<Lexeme>, args: seq<string>, rs: seq<Redirection<string>>, w: string)
    requires ts != [] && ts[0] == Word(w)
    ensures TItems(ts, args, rs) == if |args| + 1 >= MAXARGS then TPanic(TooManyArgs) else TItems(ts[1..], args + [w], rs)
  {
    assert TRedirs(ts, rs) == TOk(rs, ts);
  }

  lemma EndItem(ts: seq<Lexeme>, args: seq<string>, rs: seq<Redirection<string>>)
    requires Closes(ts)
    ensures Reads(ts, args, rs, ts, args, rs) == true
  {
    assert TRedirs(ts, rs) == TOk(rs, ts);
  }

  /** Nothing else may come. */
  lemma OnlyItems(ts: seq<Lexeme>, args: seq<string>, rs: seq<Redirection<string>>)
    requires TItems(ts, args, rs).TOk?
    ensures Closes(ts) || (ts != [] && ts[0].Word?) || (|ts| >= 2 && StartsWith(ts, ['<', '>', '+']) && ts[1].Word?)
  {
    if !StartsWith(ts, ['<', '>', '+']) {
      assert TRedirs(ts, rs) == TOk(rs, ts);
    }
  }

  lemma ReadsArg(ts: seq<Lexeme>, w: string, more: seq<Lexeme>, args: seq<string>, rs: seq<Redirection<string>>,
                 rest: seq<Lexeme>, args': seq<string>, rs': seq<Redirection<string>>)
    requires ts == [Word(w)] + more && |args| + 1 < MAXARGS && Reads(more, args + [w], rs, rest, args', rs') == true
    ensures Reads(ts, args, rs, rest, args', rs') == true
  {
    assert ts[1..] == more;
    ArgItem(ts, args, rs, w);
  }

  lemma ReadsRedirect(ts: seq<Lexeme>, op: Op, file: string, more: seq<Lexeme>, args: seq<string>, rs: seq<Redirection<string>>,
                      rest: seq<Lexeme>, args': seq<string>, rs': seq<Redirection<string>>)
    requires ts == [OpToken(op), Word(file)] + more && Reads(more, args, rs + [Opens(op, file)], rest, args', rs') == true
    ensures Reads(ts, args, rs, rest, args', rs') == true
  {
    assert ts[2..] == more;
    RedirectItem(ts, args, rs, op, file);
  }

  lemma ReadsOneRedir(ts: seq<Lexeme>, op: Op, file: string, more: seq<Lexeme>, rs: seq<Redirection<string>>,
                      rest: seq<Lexeme>, rs': seq<Redirection<string>>)
    requires ts == [OpToken(op), Word(file)] + more && ReadsRedirs(more, rs + [Opens(op, file)], rest, rs') == true
    ensures ReadsRedirs(ts, rs, rest, rs') == true
  {
    assert ts[2..] == more;
    RedirectStep(ts, rs, op, file);
  }

  lemma RestOfItems(items: seq<Item>, rest: seq<Lexeme>)
    requires items != []
    ensures ItemsTokens(items) + rest == ItemTokens(items[0]) + (ItemsTokens(items[1..]) + rest)
    ensures Redirs(items) == if items[0].Redirect? then [Opens(items[0].op, items[0].file)] + Redirs(items[1..]) else Redirs(items[1..])
    ensures Args(items) == if items[0].Arg? then [items[0].w] + Args(items[1..]) else Args(items[1..])
  {
    Regroup(ItemTokens(items[0]), ItemsTokens(items[1..]), rest);
    RestMeans(items, items[1..]);
  }

  lemma RestMeans(items: seq<Item>, more: seq<Item>)
    requires items != [] && more == items[1..]
    ensures Redirs(items) == if items[0].Redirect? then [Opens(items[0].op, items[0].file)] + Redirs(more) else Redirs(more)
    ensures Args(items) == if items[0].Arg? then [items[0].w] + Args(more) else Args(more)
  {
  }

  lemma Regroup<T>(a: seq<T>, b: seq<T>, c: seq<T>)
    ensures a + b + c == a + (b + c)
  {
  }

  lemma HeadAndTail<T>(s: seq<T>)
    requires s != []
    ensures s == [s[0]] + s[1..]
  {
  }

  lemma {:induction false} ItemsRead(items: seq<Item>, rest: seq<Lexeme>, args: seq<string>, rs: seq<Redirection<string>>)
    requires |args| + |Args(items)| < MAXARGS && Closes(rest)
    ensures Reads(ItemsTokens(items) + rest, args, rs, rest, args + Args(items), rs + Redirs(items)) == true
    decreases |items|
  {
    var ts := ItemsTokens(items) + rest;
    if items == [] {
      assert ts == rest && args + Args(items) == args && rs + Redirs(items) == rs;
      EndItem(rest, args, rs);
    } else {
      var more := ItemsTokens(items[1..]) + rest;
      RestOfItems(items, rest);
      match items[0]
      case Arg(w) =>
        Regroup(args, [w], Args(items[1..]));
        ItemsRead(items[1..], rest, args + [w], rs);
        ReadsArg(ts, w, more, args, rs, rest, args + Args(items), rs + Redirs(items));
      case Redirect(op, file) =>
        Regroup(rs, [Opens(op, file)], Redirs(items[1..]));
        ItemsRead(items[1..], rest, args, rs + [Opens(op, file)]);
        ReadsRedirect(ts, op, file, more, args, rs, rest, args + Args(items), rs + Redirs(items));
    }
  }

  lemma {:induction false} RedirsRead(items: seq<Item>, rest: seq<Lexeme>, rs: seq<Redirection<string>>)
    requires (forall i :: 0 <= i < |items| ==> items[i].Redirect?) && !StartsWith(rest, ['<', '>', '+'])
    ensures ReadsRedirs(ItemsTokens(items) + rest, rs, rest, rs + Redirs(items)) == true
    decreases |items|
  {
    var ts := ItemsTokens(items) + rest;
    if items == [] {
      assert ts == rest && rs + Redirs(items) == rs;
    } else {
      var op, file, more := items[0].op, items[0].file, ItemsTokens(items[1..]) + rest;
      RestOfItems(items, rest);
      Regroup(rs, [Opens(op, file)], Redirs(items[1..]));
      RedirsRead(items[1..], rest, rs + [Opens(op, file)]);
      ReadsOneRedir(ts, op, file, more, rs, rest, rs + Redirs(items));
    }
  }

  lemma ItemsStart(items: seq<Item>, rest: seq<Lexeme>)
    requires Closes(rest)
    ensures !StartsWith(ItemsTokens(items) + rest, ['('])
  {
    if items == [] {
      assert ItemsTokens(items) + rest == rest;
    }
  }

  lemma {:induction false} ExecReads(x: Tree, rest: seq<Lexeme>)
    requires IsExec(x) && Closes(rest)
    ensures TExec(Tokens(x) + rest) == TOk(Meaning(x), rest)
    decreases x, 0
  {
    match x
    case Simple(items) =>
      ItemsStart(items, rest);
      ItemsRead(items, rest, [], []);
      assert [] + Args(items) == Args(items) && [] + Redirs(items) == Redirs(items);
    case Block(line, redirs) =>
      var after := [Sym(')')] + (ItemsTokens(redirs) + rest);
      LineReads(line, after);
      BlockReads(x, rest, after);
  }

  lemma BlockReads(x: Tree, rest: seq<Lexeme>, after: seq<Lexeme>)
    requires x.Block? && Closes(rest) && forall i :: 0 <= i < |x.redirs| ==> x.redirs[i].Redirect?
    requires after == [Sym(')')] + (ItemsTokens(x.redirs) + rest) && TLine(Tokens(x.line) + after) == TOk(Meaning(x.line), after)
    ensures TExec(Tokens(x) + rest) == TOk(Meaning(x), rest)
  {
    BlockTokens(x, rest, after);
    RedirsRead(x.redirs, rest, []);
    assert [] + Redirs(x.redirs) == Redirs(x.redirs);
    BlockStep(Tokens(x) + rest, Tokens(x.line) + after, Meaning(x.line), ItemsTokens(x.redirs) + rest);
  }

  lemma BlockTokens(x: Tree, rest: seq<Lexeme>, after: seq<Lexeme>)
    requires x.Block? && after == [Sym(')')] + (ItemsTokens(x.redirs) + rest)
    ensures Tokens(x) + rest == [Sym('(')] + (Tokens(x.line) + after)
  {
  }

  /** parseblock, when its line ends at a closing parenthesis. */
  lemma BlockStep(ts: seq<Lexeme>, inner: seq<Lexeme>, c: Cmd<string>, more: seq<Lexeme>)
    requires ts == [Sym('(')] + inner && TLine(inner) == TOk(c, [Sym(')')] + more)
    ensures var r := TRedirs(more, []);
      TExec(ts) == TBlock(ts) == if r.TPanic? then TPanic(r.problem) else TOk(Wrap(c, r.value), r.rest)
  {
    assert ts[1..] == inner && ([Sym(')')] + more)[1..] == more;
  }

  lemma {:induction false} PipeReads(x: Tree, rest: seq<Lexeme>)
    requires IsPipe(x) && (rest == [] || StartsWith(rest, [')', '&', ';']))
    ensures TPipe(Tokens(x) + rest) == TOk(Meaning(x), rest)
    decreases x, 1
  {
    if x.Piped? {
      var more := [Sym('|')] + (Tokens(x.right) + rest);
      assert Tokens(x) + rest == Tokens(x.left) + more;
      ExecReads(x.left, more);
      PipeReads(x.right, rest);
      PipeStep(Tokens(x) + rest, Meaning(x.left), Tokens(x.right) + rest, Meaning(x.right), rest);
    } else {
      ExecReads(x, rest);
    }
  }

  lemma PipeStep(ts: seq<Lexeme>, a: Cmd<string>, more: seq<Lexeme>, b: Cmd<string>, rest: seq<Lexeme>)
    requires TExec(ts) == TOk(a, [Sym('|')] + more) && TPipe(more) == TOk(b, rest)
    ensures TPipe(ts) == TOk(Pipe(a, b), rest)
  {
    assert ([Sym('|')] + more)[1..] == more;
  }

  /** parsepipe and then the ampersands. */
  lemma {:induction false} BacksRead(x: Tree, rest: seq<Lexeme>)
    requires IsBacks(x) && (rest == [] || StartsWith(rest, [')', '&', ';']))
    ensures var r := TPipe(Tokens(x) + rest); r.TOk? && TBacks(r.rest, r.value) == TBacks(rest, Meaning(x))
    decreases x, 2
  {
    if x.Backed? {
      assert Tokens(x) + rest == Tokens(x.tree) + ([Sym('&')] + rest);
      BacksRead(x.tree, [Sym('&')] + rest);
    } else {
      PipeReads(x, rest);
    }
  }

  lemma {:induction false} LineReads(x: Tree, rest: seq<Lexeme>)
    requires IsLine(x) && (rest == [] || StartsWith(rest, [')']))
    ensures TLine(Tokens(x) + rest) == TOk(Meaning(x), rest)
    decreases x, 3
  {
    if x.Listed? {
      var more := [Sym(';')] + (Tokens(x.right) + rest);
      assert Tokens(x) + rest == Tokens(x.left) + more;
      BacksRead(x.left, more);
      LineReads(x.right, rest);
      ListStep(Tokens(x) + rest, Meaning(x.left), Tokens(x.right) + rest, Meaning(x.right), rest);
    } else {
      BacksRead(x, rest);
    }
  }

  lemma ListStep(ts: seq<Lexeme>, a: Cmd<string>, more: seq<Lexeme>, b: Cmd<string>, rest: seq<Lexeme>)
    requires var r := TPipe(ts); r.TOk? && TBacks(r.rest, r.value) == TBacks([Sym(';')] + more, a)
    requires TLine(more) == TOk(b, rest)
    ensures TLine(ts) == TOk(List(a, b), rest)
  {
    assert ([Sym(';')] + more)[1..] == more;
  }

  /** Texts with the same tokens mean the same, whatever trees one sees in them. */
  lemma Unambiguous(x: Tree, y: Tree)
    requires IsLine(x) && IsLine(y) && Tokens(x) == Tokens(y)
    ensures Meaning(x) == Meaning(y)
  {
    assert Tokens(x) + [] == Tokens(x) && Tokens(y) + [] == Tokens(y);
    LineReads(x, []);
    LineReads(y, []);
  }

  // ---- whatever is read is a tree

  function OpOf(c: char): Op {
    if c == '<' then From else if c == '>' then To else Append
  }

  lemma {:induction false} RedirsCome(ts: seq<Lexeme>, rs: seq<Redirection<string>>, rest: seq<Lexeme>) returns (items: seq<Item>)
    requires TRedirs(ts, rs).TOk? && TRedirs(ts, rs).rest == rest
    ensures (forall i :: 0 <= i < |items| ==> items[i].Redirect?) && ts == ItemsTokens(items) + rest
    ensures ReadsRedirs(ts, rs, rest, rs + Redirs(items)) == true
    decreases |ts|
  {
    if !StartsWith(ts, ['<', '>', '+']) {
      items := [];
      assert rs + [] == rs;
    } else {
      var op, file, tail := OpOf(ts[0].c), ts[1].w, ts[2..];
      OpFound(ts[0]);
      RedirectStep(ts, rs, op, file);
      var more := RedirsCome(tail, rs + [Opens(op, file)], rest);
      items := [Redirect(op, file)] + more;
      RedirectInFront(ts, op, file, tail, more, rest, rs);
      ReadsOneRedir(ts, op, file, tail, rs, rest, rs + Redirs(items));
    }
  }

  /** One more item in front. */
  lemma OneItem(item: Item, more: seq<Item>)
    ensures ItemsTokens([item] + more) == ItemTokens(item) + ItemsTokens(more)
    ensures Args([item] + more) == if item.Arg? then [item.w] + Args(more) else Args(more)
    ensures Redirs([item] + more) == if item.Redirect? then [Opens(item.op, item.file)] + Redirs(more) else Redirs(more)
  {
    assert ([item] + more)[1..] == more;
  }

  lemma ArgInFront(ts: seq<Lexeme>, w: string, tail: seq<Lexeme>, more: seq<Item>, rest: seq<Lexeme>, args: seq<string>)
    requires ts != [] && ts[0] == Word(w) && ts[1..] == tail == ItemsTokens(more) + rest
    ensures var items := [Arg(w)] + more;
      && ts == [Word(w)] + tail && ts == ItemsTokens(items) + rest
      && args + [w] + Args(more) == args + Args(items) && Redirs(items) == Redirs(more)
  {
    OneItem(Arg(w), more);
    HeadAndTail(ts);
    Regroup([Word(w)], ItemsTokens(more), rest);
    Regroup(args, [w], Args(more));
  }

  lemma RedirectInFront(ts: seq<Lexeme>, op: Op, file: string, tail: seq<Lexeme>, more: seq<Item>, rest: seq<Lexeme>,
                        rs: seq<Redirection<string>>)
    requires |ts| >= 2 && ts[0] == OpToken(op) && ts[1] == Word(file) && ts[2..] == tail == ItemsTokens(more) + rest
    ensures var items := [Redirect(op, file)] + more;
      && ts == [OpToken(op), Word(file)] + tail && ts == ItemsTokens(items) + rest
      && rs + [Opens(op, file)] + Redirs(more) == rs + Redirs(items) && Args(items) == Args(more)
  {
    OneItem(Redirect(op, file), more);
    TwoInFront(ts);
    Regroup([OpToken(op), Word(file)], ItemsTokens(more), rest);
    Regroup(rs, [Opens(op, file)], Redirs(more));
  }

  lemma TwoInFront<T>(ts: seq<T>)
    requires |ts| >= 2
    ensures ts == [ts[0], ts[1]] + ts[2..]
  {
  }

  /** The token that stands for a redirection names its operator. */
  lemma OpFound(l: Lexeme)
    requires l.Sym? && l.c in ['<', '>', '+']
    ensures l == OpToken(OpOf(l.c))
  {
  }

  lemma {:induction false} ItemsCome(ts: seq<Lexeme>, args: seq<string>, rs: seq<Redirection<string>>, rest: seq<Lexeme>)
    returns (items: seq<Item>)
    requires TItems(ts, args, rs).TOk? && TItems(ts, args, rs).rest == rest && |args| < MAXARGS
    ensures ts == ItemsTokens(items) + rest && |args| + |Args(items)| < MAXARGS
    ensures Reads(ts, args, rs, rest, args + Args(items), rs + Redirs(items)) == true
    decreases |ts|, 1
  {
    OnlyItems(ts, args, rs);
    if Closes(ts) {
      EndItem(ts, args, rs);
      items := [];
      assert args + [] == args && rs + [] == rs;
    } else if ts[0].Word? {
      items := ArgComes(ts, args, rs, rest);
    } else {
      items := RedirectComes(ts, args, rs, rest);
    }
  }

  lemma {:induction false} ArgComes(ts: seq<Lexeme>, args: seq<string>, rs: seq<Redirection<string>>, rest: seq<Lexeme>)
    returns (items: seq<Item>)
    requires TItems(ts, args, rs).TOk? && TItems(ts, args, rs).rest == rest && |args| < MAXARGS && ts != [] && ts[0].Word?
    ensures ts == ItemsTokens(items) + rest && |args| + |Args(items)| < MAXARGS
    ensures Reads(ts, args, rs, rest, args + Args(items), rs + Redirs(items)) == true
    decreases |ts|, 0
  {
    var w, tail := ts[0].w, ts[1..];
    ArgItem(ts, args, rs, w);
    var more := ItemsCome(tail, args + [w], rs, rest);
    items := [Arg(w)] + more;
    ArgInFront(ts, w, tail, more, rest, args);
    ReadsArg(ts, w, tail, args, rs, rest, args + Args(items), rs + Redirs(items));
  }

  lemma {:induction false} RedirectComes(ts: seq<Lexeme>, args: seq<string>, rs: seq<Redirection<string>>, rest: seq<Lexeme>)
    returns (items: seq<Item>)
    requires TItems(ts, args, rs).TOk? && TItems(ts, args, rs).rest == rest && |args| < MAXARGS
    requires |ts| >= 2 && StartsWith(ts, ['<', '>', '+']) && ts[1].Word?
    ensures ts == ItemsTokens(items) + rest && |args| + |Args(items)| < MAXARGS
    ensures Reads(ts, args, rs, rest, args + Args(items), rs + Redirs(items)) == true
    decreases |ts|, 0
  {
    var op, file, tail := OpOf(ts[0].c), ts[1].w, ts[2..];
    OpFound(ts[0]);
    RedirectItem(ts, args, rs, op, file);
    var more := ItemsCome(tail, args, rs + [Opens(op, file)], rest);
    items := [Redirect(op, file)] + more;
    RedirectInFront(ts, op, file, tail, more, rest, rs);
    ReadsRedirect(ts, op, file, tail, args, rs, rest, args + Args(items), rs + Redirs(items));
  }

  /** x has the tokens of ts before rest, and means c. */
  predicate Covers(ts: seq<Lexeme>, x: Tree, c: Cmd<string>, rest: seq<Lexeme>) {
    ts == Tokens(x) + rest && Meaning(x) == c
  }

  lemma {:induction false} ExecComes(ts: seq<Lexeme>) returns (x: Tree)
    requires TExec(ts).TOk?
    ensures IsExec(x) && Covers(ts, x, TExec(ts).value, TExec(ts).rest) == true
    decreases |ts|, 1
  {
    if StartsWith(ts, ['(']) {
      x := BlockComes(ts);
    } else {
      assert TExec(ts) == TItems(ts, [], []);
      var items := ItemsCome(ts, [], [], TItems(ts, [], []).rest);
      x := Simple(items);
      assert [] + Redirs(items) == Redirs(items) && [] + Args(items) == Args(items);
    }
  }

  lemma {:induction false} BlockComes(ts: seq<Lexeme>) returns (x: Tree)
    requires ts != [] && ts[0] == Sym('(') && TBlock(ts).TOk?
    ensures IsExec(x) && Covers(ts, x, TBlock(ts).value, TBlock(ts).rest) == true
    decreases |ts|, 0
  {
    var line := LineComes(ts[1..]);
    var r := TLine(ts[1..]);
    var redirs := RedirsCome(r.rest[1..], [], TRedirs(r.rest[1..], []).rest);
    x := Block(line, redirs);
    HeadAndTail(r.rest);
    HeadAndTail(ts);
    assert [] + Redirs(redirs) == Redirs(redirs);
    BlockStep(ts, ts[1..], r.value, r.rest[1..]);
    BlockCovers(ts, line, redirs, r.rest[1..], TBlock(ts).rest);
  }

  lemma BlockCovers(ts: seq<Lexeme>, line: Tree, redirs: seq<Item>, more: seq<Lexeme>, rest: seq<Lexeme>)
    requires ts == [Sym('(')] + (Tokens(line) + ([Sym(')')] + more)) && more == ItemsTokens(redirs) + rest
    ensures ts == Tokens(Block(line, redirs)) + rest
  {
  }

  lemma {:induction false} PipeComes(ts: seq<Lexeme>) returns (x: Tree)
    requires TPipe(ts).TOk?
    ensures IsPipe(x) && Covers(ts, x, TPipe(ts).value, TPipe(ts).rest) == true
    decreases |ts|, 2
  {
    x := ExecComes(ts);
    var r := TExec(ts);
    if StartsWith(r.rest, ['|']) {
      var y := PipeComes(r.rest[1..]);
      Joins(ts, x, Sym('|'), r.rest, y, TPipe(r.rest[1..]).rest);
      x := Piped(x, y);
    }
  }

  lemma Joins(ts: seq<Lexeme>, x: Tree, l: Lexeme, more: seq<Lexeme>, y: Tree, rest: seq<Lexeme>)
    requires ts == Tokens(x) + more && more != [] && more[0] == l && more[1..] == Tokens(y) + rest
    ensures ts == Tokens(x) + [l] + Tokens(y) + rest
  {
    assert more == [l] + more[1..];
  }

  lemma {:induction false} BacksCome(ts: seq<Lexeme>, more: seq<Lexeme>, x: Tree) returns (y: Tree)
    requires IsBacks(x) && ts == Tokens(x) + more
    ensures var b := TBacks(more, Meaning(x)); IsBacks(y) && Covers(ts, y, b.0, b.1) == true
    decreases |more|
  {
    if StartsWith(more, ['&']) {
      assert more == [Sym('&')] + more[1..];
      assert Tokens(x) + more == Tokens(Backed(x)) + more[1..];
      y := BacksCome(ts, more[1..], Backed(x));
    } else {
      y := x;
    }
  }

  lemma BacksAreNoLists(x: Tree)
    requires IsBacks(x)
    ensures !x.Listed?
  {
    assert x.Listed? ==> !IsExec(x) && !IsPipe(x);
  }

  lemma {:induction false} LineComes(ts: seq<Lexeme>) returns (x: Tree)
    requires TLine(ts).TOk?
    ensures IsLine(x) && Covers(ts, x, TLine(ts).value, TLine(ts).rest) == true
    decreases |ts|, 3
  {
    var y := PipeComes(ts);
    var r := TPipe(ts);
    x := BacksCome(ts, r.rest, y);
    BacksAreNoLists(x);
    var b := TBacks(r.rest, r.value);
    if StartsWith(b.1, [';']) {
      var z := LineComes(b.1[1..]);
      Joins(ts, x, Sym(';'), b.1, z, TLine(b.1[1..]).rest);
      x := Listed(x, z);
    }
  }

  // ---- texts

  /** t spells tree x, which means c. */
  ghost predicate Spells(t: string, x: Tree, c: Cmd<string>) {
    IsLine(x) && Lex(t, 0) == Tokens(x) && Meaning(x) == c
  }

  /** parsecmd makes c of a text exactly when the text spells a tree that means c; it panics exactly when it spells
      none. */
  lemma AcceptsTheGrammar(t: string, c: Cmd<string>)
    requires IsCString(t)
    ensures (ParseCmd(t).Ok? && Text(t, ParseCmd(t).value) == c) <==> exists x :: Spells(t, x, c)
  {
    LineSeesTokens(t, 0);
    if ParseCmd(t).Ok? {
      NothingLeft(t, ParseLine(t, 0).pos);
      var x := LineComes(Lex(t, 0));
      assert Tokens(x) + [] == Tokens(x);
      assert Spells(t, x, Text(t, ParseCmd(t).value));
    }
    if x :| Spells(t, x, c) {
      assert Tokens(x) + [] == Tokens(x);
      LineReads(x, []);
      NoTokensLeft(t, ParseLine(t, 0).pos);
    }
  }

  lemma NothingLeft(t: string, p: nat)
    requires p <= |t| && SkipSpace(t, p) == |t|
    ensures Lex(t, p) == []
  {
  }

  predicate ProperItems(items: seq<Item>) {
    forall i :: 0 <= i < |items| ==> match items[i] case Arg(w) => IsWord(w) case Redirect(_, file) => IsWord(file)
  }

  /** Arguments and file names are words. */
  predicate Proper(x: Tree) {
    match x
    case Simple(items) => ProperItems(items)
    case Block(line, redirs) => Proper(line) && ProperItems(redirs)
    case Piped(l, r) => Proper(l) && Proper(r)
    case Listed(l, r) => Proper(l) && Proper(r)
    case Backed(y) => Proper(y)
  }

  lemma {:induction false} ItemsLexemes(items: seq<Item>)
    requires ProperItems(items)
    ensures AreLexemes(ItemsTokens(items))
  {
    if items != [] {
      ItemsLexemes(items[1..]);
    }
  }

  lemma {:induction false} TreeLexemes(x: Tree)
    requires Proper(x)
    ensures AreLexemes(Tokens(x))
  {
    match x
    case Simple(items) => ItemsLexemes(items);
    case Block(line, redirs) => TreeLexemes(line); ItemsLexemes(redirs);
    case Piped(l, r) => TreeLexemes(l); TreeLexemes(r);
    case Listed(l, r) => TreeLexemes(l); TreeLexemes(r);
    case Backed(y) => TreeLexemes(y);
  }

  /** Whatever tree is written out, with > or >> and the redirections where they may be, is read as the command that it
      means. */
  lemma ParseUndoesWriting(x: Tree)
    requires IsLine(x) && Proper(x)
    ensures var t := Render(Tokens(x));
      IsCString(t) && ParseCmd(t).Ok? && Text(t, ParseCmd(t).value) == Meaning(x) && Parsed(t, ParseCmd(t).value)
  {
    var t := Render(Tokens(x));
    TreeLexemes(x);
    RenderedIsCString(Tokens(x));
    LexUndoesRender(t, 0, Tokens(x));
    assert Spells(t, x, Meaning(x));
    AcceptsTheGrammar(t, Meaning(x));
    LineIsParsed(t, 0);
  }

  /** A redirection put in at any place of a simple command is one more redirection, and changes no argument; and >> means
      what > means. */
  lemma RedirectAnywhere(items: seq<Item>, k: nat, op: Op, file: string)
    requires k <= |items|
    ensures var more := items[..k] + [Redirect(op, file)] + items[k..];
      && Args(more) == Args(items)
      && Redirs(more) == Redirs(items[..k]) + [Opens(op, file)] + Redirs(items[k..])
      && Redirs(items) == Redirs(items[..k]) + Redirs(items[k..])
    ensures Opens(Append, file) == Opens(To, file)
  {
    assert items == items[..k] + items[k..];
    ItemsConcat(items[..k], items[k..]);
    RedirectBetween(items[..k], items[k..], op, file);
  }

  lemma RedirectBetween(front: seq<Item>, back: seq<Item>, op: Op, file: string)
    ensures var more := front + [Redirect(op, file)] + back;
      Args(more) == Args(front) + Args(back) && Redirs(more) == Redirs(front) + [Opens(op, file)] + Redirs(back)
  {
    Regroup(front, [Redirect(op, file)], back);
    ItemsConcat(front, [Redirect(op, file)] + back);
    OneItem(Redirect(op, file), back);
    Regroup(Redirs(front), [Opens(op, file)], Redirs(back));
  }

  lemma {:induction false} ItemsConcat(a: seq<Item>, b: seq<Item>)
    ensures Args(a + b) == Args(a) + Args(b) && Redirs(a + b) == Redirs(a) + Redirs(b)
    decreases |a|
  {
    if a == [] {
      assert a + b == b;
    } else {
      ItemsConcat(a[1..], b);
      ItemPutIn(a, b, a[0], a[1..]);
    }
  }

  lemma ItemPutIn(a: seq<Item>, b: seq<Item>, item: Item, more: seq<Item>)
    requires a == [item] + more && Args(more + b) == Args(more) + Args(b) && Redirs(more + b) == Redirs(more) + Redirs(b)
    ensures Args(a + b) == Args(a) + Args(b) && Redirs(a + b) == Redirs(a) + Redirs(b)
  {
    Regroup([item], more, b);
    OneItem(item, more + b);
    OneItem(item, more);
    match item
    case Arg(w) => Regroup([w], Args(more), Args(b));
    case Redirect(op, file) => Regroup([Opens(op, file)], Redirs(more), Redirs(b));
  }

  // ---- printing

  /** The trees the shell has: at most nine arguments, proper words, the modes of < and >. */
  predicate WellFormed(cmd: Cmd<string>) {
    match cmd
    case Exec(argv) => |argv| < MAXARGS && forall i :: 0 <= i < |argv| ==> IsWord(argv[i])
    case Redir(c, file, mode, fd) => WellFormed(c) && IsWord(file) && IsMode(mode, fd)
    case Pipe(l, r) => WellFormed(l) && WellFormed(r)
    case List(l, r) => WellFormed(l) && WellFormed(r)
    case Back(c) => WellFormed(c)
  }

  function ArgItems(ws: seq<string>): seq<Item> {
    if ws == [] then [] else [Arg(ws[0])] + ArgItems(ws[1..])
  }

  /** x with one more redirection at its end. */
  function WithRedirect(x: Tree, r: Item): Tree {
    match x
    case Simple(items) => Simple(items + [r])
    case Block(line, redirs) => Block(line, redirs + [r])
    case _ => x
  }

  /** c as what parseexec reads, with no more parentheses than it takes. */
  function ExecTree(c: Cmd<string>): Tree
    decreases c, if c.Exec? || c.Redir? then 0 else 4
  {
    match c
    case Exec(argv) => Simple(ArgItems(argv))
    case Redir(sub, file, mode, fd) => WithRedirect(ExecTree(sub), Redirect(if fd == 0 then From else To, file))
    case _ => Block(LineTree(c), [])
  }

  function PipeTree(c: Cmd<string>): Tree
    decreases c, if c.List? || c.Back? then 5 else 1
  {
    match c
    case Pipe(l, r) => Piped(ExecTree(l), PipeTree(r))
    case _ => ExecTree(c)
  }

  function BacksTree(c: Cmd<string>): Tree
    decreases c, if c.List? then 6 else 2
  {
    match c
    case Back(sub) => Backed(BacksTree(sub))
    case _ => PipeTree(c)
  }

  function LineTree(c: Cmd<string>): Tree
    decreases c, 3
  {
    match c
    case List(l, r) => Listed(BacksTree(l), LineTree(r))
    case _ => BacksTree(c)
  }

  lemma {:induction false} ArgItemsMean(ws: seq<string>)
    requires forall i :: 0 <= i < |ws| ==> IsWord(ws[i])
    ensures Args(ArgItems(ws)) == ws && Redirs(ArgItems(ws)) == [] && ProperItems(ArgItems(ws))
  {
    if ws != [] {
      ArgItemsMean(ws[1..]);
    }
  }

  lemma OneMoreRedirect(x: Tree, op: Op, file: string)
    requires IsExec(x) && Proper(x) && IsWord(file)
    ensures var y, r := WithRedirect(x, Redirect(op, file)), Opens(op, file);
      IsExec(y) && Proper(y) && Meaning(y) == Redir(Meaning(x), r.file, r.mode, r.fd)
  {
    var items := if x.Simple? then x.items else x.redirs;
    var r := Opens(op, file);
    RedirectAnywhere(items, |items|, op, file);
    assert items[..|items|] == items && items[..|items|] + [Redirect(op, file)] + items[|items|..] == items + [Redirect(op, file)];
    assert Redirs(items + [Redirect(op, file)]) == Redirs(items) + [r];
    assert (Redirs(items) + [r])[..|Redirs(items)|] == Redirs(items);
  }

  lemma {:induction false} ExecTreeMeans(c: Cmd<string>)
    requires WellFormed(c)
    ensures IsExec(ExecTree(c)) && Proper(ExecTree(c)) && Meaning(ExecTree(c)) == c
    decreases c, if c.Exec? || c.Redir? then 0 else 4
  {
    match c
    case Exec(argv) => ArgItemsMean(argv);
    case Redir(sub, file, mode, fd) =>
      ExecTreeMeans(sub);
      OneMoreRedirect(ExecTree(sub), if fd == 0 then From else To, file);
    case _ => LineTreeMeans(c);
  }

  lemma {:induction false} PipeTreeMeans(c: Cmd<string>)
    requires WellFormed(c)
    ensures IsPipe(PipeTree(c)) && Proper(PipeTree(c)) && Meaning(PipeTree(c)) == c
    decreases c, if c.List? || c.Back? then 5 else 1
  {
    match c
    case Pipe(l, r) => ExecTreeMeans(l); PipeTreeMeans(r);
    case _ => ExecTreeMeans(c);
  }

  lemma {:induction false} BacksTreeMeans(c: Cmd<string>)
    requires WellFormed(c)
    ensures IsBacks(BacksTree(c)) && Proper(BacksTree(c)) && Meaning(BacksTree(c)) == c
    decreases c, if c.List? then 6 else 2
  {
    match c
    case Back(sub) => BacksTreeMeans(sub);
    case _ => PipeTreeMeans(c);
  }

  lemma {:induction false} LineTreeMeans(c: Cmd<string>)
    requires WellFormed(c)
    ensures IsLine(LineTree(c)) && Proper(LineTree(c)) && Meaning(LineTree(c)) == c
    decreases c, 3
  {
    match c
    case List(l, r) => BacksTreeMeans(l); LineTreeMeans(r);
    case _ => BacksTreeMeans(c);
  }

  function Print(c: Cmd<string>): string {
    Render(Tokens(LineTree(c)))
  }

  /** Every well-formed command comes back from its printed form, with nothing left over. */
  lemma ParseUndoesPrint(c: Cmd<string>)
    requires WellFormed(c)
    ensures var t, r := Print(c), ParseCmd(Print(c));
      IsCString(t) && r.Ok? && Text(t, r.value) == c && Parsed(t, r.value)
  {
    LineTreeMeans(c);
    ParseUndoesWriting(LineTree(c));
  }

  lemma {:induction false} ParsedIsWellFormed(t: string, c: Cmd<Slice>)
    requires Parsed(t, c)
    ensures WellFormed(Text(t, c))
  {
    match c
    case Exec(argv) =>
    case Redir(sub, _, _, _) => ParsedIsWellFormed(t, sub);
    case Pipe(l, r) => ParsedIsWellFormed(t, l); ParsedIsWellFormed(t, r);
    case List(l, r) => ParsedIsWellFormed(t, l); ParsedIsWellFormed(t, r);
    case Back(sub) => ParsedIsWellFormed(t, sub);
  }

  /** The commands that the shell accepts are exactly the well-formed ones. */
  lemma AcceptedIsWellFormed(c: Cmd<string>)
    ensures WellFormed(c) <==> exists t :: IsCString(t) && ParseCmd(t).Ok? && Text(t, ParseCmd(t).value) == c
  {
    if WellFormed(c) {
      ParseUndoesPrint(c);
      assert IsCString(Print(c)) && ParseCmd(Print(c)).Ok? && Text(Print(c), ParseCmd(Print(c)).value) == c;
    } else if exists t :: IsCString(t) && ParseCmd(t).Ok? && Text(t, ParseCmd(t).value) == c {
      var t :| IsCString(t) && ParseCmd(t).Ok? && Text(t, ParseCmd(t).value) == c;
      LineIsParsed(t, 0);
      ParsedIsWellFormed(t, ParseCmd(t).value);
    }
  }
}
