/** The command parser of sh.c.

The parser works on positions in the line, as the C code works on pointers into it; the
line is a C string, that is, a string without NUL whose end reads as NUL. A panic()
ends the process, here it ends the parse. */
module Shell {

  const MAXARGS := 10

  // ------------------------------------------------------------ tokens

  predicate IsWhite(c: char) {
    c == ' ' || c == '\t' || c == '\r' || c == '\n' || c == '\U{B}'
  }

  predicate IsSymbol(c: char) {
    c == '<' || c == '|' || c == '>' || c == '&' || c == ';' || c == '(' || c == ')'
  }

  predicate IsWord(c: char) {
    !IsWhite(c) && !IsSymbol(c)
  }

  function SkipWhite(s: string, i: nat): (r: nat)
    requires i <= |s|
    ensures i <= r <= |s| && (r < |s| ==> !IsWhite(s[r]))
    decreases |s| - i
  {
    if i < |s| && IsWhite(s[i]) then SkipWhite(s, i + 1) else i
  }

  function WordEnd(s: string, i: nat): (r: nat)
    requires i <= |s|
    ensures i <= r <= |s| && (r < |s| ==> !IsWord(s[r]))
    ensures forall k :: i <= k < r ==> IsWord(s[k])
    decreases |s| - i
  {
    if i < |s| && IsWord(s[i]) then WordEnd(s, i + 1) else i
  }

  /** What gettoken() returns: NUL at the end, 'a' for a word, '+' for ">>", else the
      symbol itself. */
  datatype Kind = End | Word | Append | Symbol(c: char)

  /** A token from `q` up to `eq`, and where reading goes on. */
  datatype Token = Token(kind: Kind, q: nat, eq: nat, next: nat)

  function GetToken(s: string, i: nat): (t: Token)
    requires i <= |s|
    ensures i <= t.q <= t.eq <= t.next <= |s|
    ensures t.kind.End? <==> t.q == |s|
    ensures !t.kind.End? ==> t.q < t.eq
    ensures t.kind.Word? ==> IsArg(s, Arg(t.q, t.eq))
  {
    var q := SkipWhite(s, i);
    if q == |s| then Token(End, q, q, q)
    else if s[q] == '>' && q + 1 < |s| && s[q + 1] == '>' then Token(Append, q, q + 2, SkipWhite(s, q + 2))
    else if IsSymbol(s[q]) then Token(Symbol(s[q]), q, q + 1, SkipWhite(s, q + 1))
    else
      var e := WordEnd(s, q);
      Token(Word, q, e, SkipWhite(s, e))
  }

  /** peek(): skip white space, and is the next character one of `toks`? */
  function Peek(s: string, i: nat, toks: string): (r: (nat, bool))
    requires i <= |s|
    ensures i <= r.0 <= |s| && (r.1 ==> r.0 < |s|)
  {
    var q := SkipWhite(s, i);
    (q, q < |s| && s[q] in toks)
  }

  // ------------------------------------------------------------ commands

  /** An argument or file name, from `q` up to `eq`. */
  datatype Arg = Arg(q: nat, eq: nat)

  /** "<" opens for reading as fd 0; ">" and ">>" both create and open for writing as fd 1. */
  datatype Mode = In | Out

  datatype Cmd =
    | Exec(args: seq<Arg>)
    | Redir(cmd: Cmd, file: Arg, mode: Mode)
    | Pipe(left: Cmd, right: Cmd)
    | List(left: Cmd, right: Cmd)
    | Back(cmd: Cmd)

  datatype Redirection = Redirection(file: Arg, mode: Mode)

  datatype Result<T> = Ok(value: T, pos: nat) | Panic(msg: string)

  function Wrap(c: Cmd, rs: seq<Redirection>): Cmd {
    if rs == [] then c else Redir(Wrap(c, rs[..|rs| - 1]), rs[|rs| - 1].file, rs[|rs| - 1].mode)
  }

  /** parseredirs(): the redirections at `i`, in order. */
  function ParseRedirs(s: string, i: nat): (r: Result<seq<Redirection>>)
    requires i <= |s|
    ensures r.Ok? ==> i <= r.pos <= |s|
    decreases |s| - i
  {
    var (j, found) := Peek(s, i, "<>");
    if !found then Ok([], j)
    else
      var t := GetToken(s, j);
      var f := GetToken(s, t.next);
      if !f.kind.Word? then Panic("missing file for redirection")
      else
        match ParseRedirs(s, f.next)
        case Panic(m) => Panic(m)
        case Ok(rest, k) =>
          Ok([Redirection(Arg(f.q, f.eq), if t.kind == Symbol('<') then In else Out)] + rest, k)
  }

  /** The loop of parseexec(). */
  function ParseArgs(s: string, i: nat, args: seq<Arg>, rs: seq<Redirection>): (r: Result<Cmd>)
    requires i <= |s|
    ensures r.Ok? ==> i <= r.pos <= |s|
    decreases |s| - i
  {
    var (j, stop) := Peek(s, i, "|)&;");
    if stop then Ok(Wrap(Exec(args), rs), j)
    else
      var t := GetToken(s, j);
      if t.kind.End? then Ok(Wrap(Exec(args), rs), t.next)
      else if !t.kind.Word? then Panic("syntax")
      else if |args| + 1 >= MAXARGS then Panic("too many args")
      else
        match ParseRedirs(s, t.next)
        case Panic(m) => Panic(m)
        case Ok(more, k) => ParseArgs(s, k, args + [Arg(t.q, t.eq)], rs + more)
  }

  function ParseExec(s: string, i: nat): (r: Result<Cmd>)
    requires i <= |s|
    ensures r.Ok? ==> i <= r.pos <= |s|
    decreases |s| - i, 1
  {
    var (j, block) := Peek(s, i, "(");
    if block then ParseBlock(s, j)
    else
      match ParseRedirs(s, j)
      case Panic(m) => Panic(m)
      case Ok(rs, k) => ParseArgs(s, k, [], rs)
  }

  function ParseBlock(s: string, i: nat): (r: Result<Cmd>)
    requires i < |s| && s[i] == '('
    ensures r.Ok? ==> i <= r.pos <= |s|
    decreases |s| - i, 0
  {
    var t := GetToken(s, i);
    match ParseLine(s, t.next)
    case Panic(m) => Panic(m)
    case Ok(c, j) =>
      var (k, close) := Peek(s, j, ")");
      if !close then Panic("syntax - missing )")
      else
        match ParseRedirs(s, GetToken(s, k).next)
        case Panic(m) => Panic(m)
        case Ok(rs, l) => Ok(Wrap(c, rs), l)
  }

  function ParsePipe(s: string, i: nat): (r: Result<Cmd>)
    requires i <= |s|
    ensures r.Ok? ==> i <= r.pos <= |s|
    decreases |s| - i, 2
  {
    match ParseExec(s, i)
    case Panic(m) => Panic(m)
    case Ok(c, j) =>
      var (k, more) := Peek(s, j, "|");
      if !more then Ok(c, k)
      else
        match ParsePipe(s, GetToken(s, k).next)
        case Panic(m) => Panic(m)
        case Ok(d, l) => Ok(Pipe(c, d), l)
  }

  /** The loop over '&' in parseline(). */
  function ParseBacks(s: string, i: nat, c: Cmd): (r: (Cmd, nat))
    requires i <= |s|
    ensures i <= r.1 <= |s|
    decreases |s| - i
  {
    var (j, more) := Peek(s, i, "&");
    if more then ParseBacks(s, GetToken(s, j).next, Back(c)) else (c, j)
  }

  function ParseLine(s: string, i: nat): (r: Result<Cmd>)
    requires i <= |s|
    ensures r.Ok? ==> i <= r.pos <= |s|
    decreases |s| - i, 3
  {
    match ParsePipe(s, i)
    case Panic(m) => Panic(m)
    case Ok(c, j) =>
      var (b, k) := ParseBacks(s, j, c);
      var (l, more) := Peek(s, k, ";");
      if !more then Ok(b, l)
      else
        match ParseLine(s, GetToken(s, l).next)
        case Panic(m) => Panic(m)
        case Ok(d, e) => Ok(List(b, d), e)
  }

  /** parsecmd(), before nulterminate(). */
  function ParseCmd(s: string): (r: Result<Cmd>) {
    match ParseLine(s, 0)
    case Panic(m) => Panic(m)
    case Ok(c, j) => if Peek(s, j, "").0 != |s| then Panic("syntax") else Ok(c, |s|)
  }

  /** Exactly one word of the line: only word characters, and none follows. */
  ghost predicate IsArg(s: string, a: Arg) {
    && a.q < a.eq <= |s|
    && (forall k :: a.q <= k < a.eq ==> IsWord(s[k]))
    && (a.eq < |s| ==> !IsWord(s[a.eq]))
  }

  // ------------------------------------------------------------ every pointer is a word

  ghost predicate Args(s: string, c: Cmd) {
    match c
    case Exec(args) => forall a :: a in args ==> IsArg(s, a)
    case Redir(d, f, _) => IsArg(s, f) && Args(s, d)
    case Pipe(l, r) => Args(s, l) && Args(s, r)
    case List(l, r) => Args(s, l) && Args(s, r)
    case Back(d) => Args(s, d)
  }

  ghost predicate RedirArgs(s: string, rs: seq<Redirection>) {
    forall i :: 0 <= i < |rs| ==> IsArg(s, rs[i].file)
  }

  lemma {:induction false} WrapArgs(s: string, c: Cmd, rs: seq<Redirection>)
    requires Args(s, c) && RedirArgs(s, rs)
    ensures Args(s, Wrap(c, rs))
  {
    if rs != [] { WrapArgs(s, c, rs[..|rs| - 1]); }
  }

  lemma {:induction false} RedirsAreArgs(s: string, i: nat)
    requires i <= |s|
    ensures ParseRedirs(s, i).Ok? ==> RedirArgs(s, ParseRedirs(s, i).value)
    decreases |s| - i
  {
    var (j, found) := Peek(s, i, "<>");
    if found {
      var f := GetToken(s, GetToken(s, j).next);
      if f.kind.Word? { RedirsAreArgs(s, f.next); }
    }
  }

  lemma {:induction false} ArgsAreArgs(s: string, i: nat, args: seq<Arg>, rs: seq<Redirection>)
    requires i <= |s| && (forall a :: a in args ==> IsArg(s, a)) && RedirArgs(s, rs)
    ensures var r := ParseArgs(s, i, args, rs); r.Ok? ==> Args(s, r.value)
    decreases |s| - i
  {
    WrapArgs(s, Exec(args), rs);
    var (j, stop) := Peek(s, i, "|)&;");
    var t := GetToken(s, j);
    if !stop && t.kind.Word? && |args| + 1 < MAXARGS {
      RedirsAreArgs(s, t.next);
      match ParseRedirs(s, t.next)
      case Panic(_) =>
      case Ok(more, k) => ArgsAreArgs(s, k, args + [Arg(t.q, t.eq)], rs + more);
    }
  }

  lemma {:induction false} ExecIsArgs(s: string, i: nat)
    requires i <= |s|
    ensures var r := ParseExec(s, i); r.Ok? ==> Args(s, r.value)
    decreases |s| - i, 1
  {
    var (j, block) := Peek(s, i, "(");
    if block {
      BlockIsArgs(s, j);
    } else {
      RedirsAreArgs(s, j);
      match ParseRedirs(s, j)
      case Panic(_) =>
      case Ok(rs, k) => ArgsAreArgs(s, k, [], rs);
    }
  }

  lemma {:induction false} BlockIsArgs(s: string, i: nat)
    requires i < |s| && s[i] == '('
    ensures var r := ParseBlock(s, i); r.Ok? ==> Args(s, r.value)
    decreases |s| - i, 0
  {
    LineIsArgs(s, GetToken(s, i).next);
    match ParseLine(s, GetToken(s, i).next)
    case Panic(_) =>
    case Ok(c, j) =>
      var (k, close) := Peek(s, j, ")");
      if close {
        RedirsAreArgs(s, GetToken(s, k).next);
        match ParseRedirs(s, GetToken(s, k).next)
        case Panic(_) =>
        case Ok(rs, l) => WrapArgs(s, c, rs);
      }
  }

  lemma {:induction false} PipeIsArgs(s: string, i: nat)
    requires i <= |s|
    ensures var r := ParsePipe(s, i); r.Ok? ==> Args(s, r.value)
    decreases |s| - i, 2
  {
    ExecIsArgs(s, i);
    match ParseExec(s, i)
    case Panic(_) =>
    case Ok(c, j) =>
      var (k, more) := Peek(s, j, "|");
      if more { PipeIsArgs(s, GetToken(s, k).next); }
  }

  lemma {:induction false} BacksAreArgs(s: string, i: nat, c: Cmd)
    requires i <= |s| && Args(s, c)
    ensures Args(s, ParseBacks(s, i, c).0)
    decreases |s| - i
  {
    var (j, more) := Peek(s, i, "&");
    if more { BacksAreArgs(s, GetToken(s, j).next, Back(c)); }
  }

  lemma {:induction false} LineIsArgs(s: string, i: nat)
    requires i <= |s|
    ensures var r := ParseLine(s, i); r.Ok? ==> Args(s, r.value)
    decreases |s| - i, 3
  {
    PipeIsArgs(s, i);
    match ParsePipe(s, i)
    case Panic(_) =>
    case Ok(c, j) =>
      BacksAreArgs(s, j, c);
      var (b, k) := ParseBacks(s, j, c);
      var (l, more) := Peek(s, k, ";");
      if more { LineIsArgs(s, GetToken(s, l).next); }
  }

  // ------------------------------------------------------------ nulterminate

  /** Where nulterminate() stores a NUL. */
  ghost function Ends(c: Cmd): set<nat> {
    match c
    case Exec(args) => set a | a in args :: a.eq
    case Redir(d, f, _) => Ends(d) + {f.eq}
    case Pipe(l, r) => Ends(l) + Ends(r)
    case List(l, r) => Ends(l) + Ends(r)
    case Back(d) => Ends(d)
  }

  ghost function AllArgs(c: Cmd): set<Arg> {
    match c
    case Exec(args) => set a | a in args
    case Redir(d, f, _) => AllArgs(d) + {f}
    case Pipe(l, r) => AllArgs(l) + AllArgs(r)
    case List(l, r) => AllArgs(l) + AllArgs(r)
    case Back(d) => AllArgs(d)
  }

  /** `b` with a NUL at every position in `ends`. */
  ghost predicate Nulled(b: seq<char>, b': seq<char>, ends: set<nat>) {
    |b'| == |b| && forall k :: 0 <= k < |b| ==> b'[k] == if k in ends then '\0' else b[k]
  }

  method NulTerminate(buf: array<char>, c: Cmd)
    requires forall k :: k in Ends(c) ==> k < buf.Length
    modifies buf
    ensures Nulled(old(buf[..]), buf[..], Ends(c))
    decreases c
  {
    match c
    case Exec(args) =>
      var i := 0;
      while i < |args|
        invariant 0 <= i <= |args|
        invariant Nulled(old(buf[..]), buf[..], set a | a in args[..i] :: a.eq)
      {
        assert args[i].eq in Ends(c);
        assert args[..i + 1] == args[..i] + [args[i]];
        buf[args[i].eq] := '\0';
        i := i + 1;
      }
      assert args[..i] == args;
    case Redir(d, f, _) =>
      assert Ends(c) == Ends(d) + {f.eq} && f.eq in Ends(c);
      NulTerminate(buf, d);
      buf[f.eq] := '\0';
    case Pipe(l, r) =>
      assert Ends(c) == Ends(l) + Ends(r);
      NulTerminate(buf, l);
      NulTerminate(buf, r);
    case List(l, r) =>
      assert Ends(c) == Ends(l) + Ends(r);
      NulTerminate(buf, l);
      NulTerminate(buf, r);
    case Back(d) =>
      assert Ends(c) == Ends(d);
      NulTerminate(buf, d);
  }

  /** The C string at `q`. */
  ghost predicate CString(b: seq<char>, q: nat, w: string) {
    && q + |w| < |b| && b[q..q + |w|] == w && b[q + |w|] == '\0'
    && forall k :: 0 <= k < |w| ==> w[k] != '\0'
  }

  lemma {:induction false} EndsOfArgs(s: string, c: Cmd, k: nat)
    requires Args(s, c) && k in Ends(c)
    ensures k <= |s| && (k < |s| ==> !IsWord(s[k]))
  {
    match c
    case Exec(args) =>
    case Redir(d, f, _) => if k in Ends(d) { EndsOfArgs(s, d, k); }
    case Pipe(l, r) => if k in Ends(l) { EndsOfArgs(s, l, k); } else { EndsOfArgs(s, r, k); }
    case List(l, r) => if k in Ends(l) { EndsOfArgs(s, l, k); } else { EndsOfArgs(s, r, k); }
    case Back(d) => EndsOfArgs(s, d, k);
  }

  lemma {:induction false} ArgOf(s: string, c: Cmd, a: Arg)
    requires Args(s, c) && a in AllArgs(c)
    ensures IsArg(s, a) && a.eq in Ends(c)
  {
    match c
    case Exec(args) =>
    case Redir(d, f, _) => if a in AllArgs(d) { ArgOf(s, d, a); }
    case Pipe(l, r) => if a in AllArgs(l) { ArgOf(s, l, a); } else { ArgOf(s, r, a); }
    case List(l, r) => if a in AllArgs(l) { ArgOf(s, l, a); } else { ArgOf(s, r, a); }
    case Back(d) => ArgOf(s, d, a);
  }

  /** After nulterminate() every argv and file pointer of a parsed line denotes exactly
      the word it was made for, whatever the line. */
  lemma PointersDenoteWords(s: string, b: seq<char>, a: Arg)
    requires '\0' !in s && ParseCmd(s).Ok?
    requires Nulled(s + ['\0'], b, Ends(ParseCmd(s).value)) && a in AllArgs(ParseCmd(s).value)
    ensures a.q < a.eq <= |s| && CString(b, a.q, s[a.q..a.eq])
  {
    var c := ParseCmd(s).value;
    LineIsArgs(s, 0);
    ArgOf(s, c, a);
    forall k | a.q <= k < a.eq ensures b[k] == s[k] {
      if k in Ends(c) { EndsOfArgs(s, c, k); }
    }
    assert b[a.q..a.eq] == s[a.q..a.eq];
  }

  // ------------------------------------------------------------ printing and reading back

  /** A command as words, without positions. */
  datatype Tree =
    | TExec(words: seq<string>)
    | TRedir(tree: Tree, name: string, mode: Mode)
    | TPipe(left: Tree, right: Tree)
    | TList(left: Tree, right: Tree)
    | TBack(tree: Tree)

  /** The words a parsed command points to. */
  function Resolve(s: string, c: Cmd): Tree {
    match c
    case Exec(args) => TExec(Words(s, args))
    case Redir(d, f, m) => TRedir(Resolve(s, d), Text(s, f), m)
    case Pipe(l, r) => TPipe(Resolve(s, l), Resolve(s, r))
    case List(l, r) => TList(Resolve(s, l), Resolve(s, r))
    case Back(d) => TBack(Resolve(s, d))
  }

  function Text(s: string, a: Arg): string {
    if a.q <= a.eq <= |s| then s[a.q..a.eq] else ""
  }

  function Words(s: string, args: seq<Arg>): seq<string> {
    if args == [] then [] else Words(s, args[..|args| - 1]) + [Text(s, args[|args| - 1])]
  }

  predicate LegalWord(w: string) {
    w != "" && forall k :: 0 <= k < |w| ==> IsWord(w[k]) && w[k] != '\0'
  }

  /** What the parser can hold: proper words, and fewer than MAXARGS of them per command. */
  predicate LegalTree(t: Tree) {
    match t
    case TExec(ws) => |ws| < MAXARGS && forall i :: 0 <= i < |ws| ==> LegalWord(ws[i])
    case TRedir(d, f, _) => LegalWord(f) && LegalTree(d)
    case TPipe(l, r) => LegalTree(l) && LegalTree(r)
    case TList(l, r) => LegalTree(l) && LegalTree(r)
    case TBack(d) => LegalTree(d)
  }

  function Join(ws: seq<string>): string {
    if ws == [] then "" else if |ws| == 1 then ws[0] else ws[0] + " " + Join(ws[1..])
  }

  /** The fully parenthesised form of a command. */
  function Print(t: Tree): string
    decreases t, 0
  {
    match t
    case TExec(ws) => Join(ws)
    case TRedir(d, f, m) => Paren(d) + (if m.In? then "<" else ">") + f
    case TPipe(l, r) => Paren(l) + "|" + Paren(r)
    case TList(l, r) => Paren(l) + ";" + Paren(r)
    case TBack(d) => Paren(d) + "&"
  }

  function Paren(t: Tree): string
    decreases t, 1
  {
    "(" + Print(t) + ")"
  }

  /** The line reads `p` at `i`. */
  predicate At(s: string, i: nat, p: string) {
    i + |p| <= |s| && s[i..i + |p|] == p
  }

  /** The line ends at `i`, or a block is closed there. */
  predicate Stops(s: string, i: nat) {
    i == |s| || (i < |s| && s[i] == ')')
  }

  lemma AtSplit(s: string, i: nat, a: string, b: string)
    requires At(s, i, a + b)
    ensures At(s, i, a) && At(s, i + |a|, b)
  {
    assert s[i..i + |a|] == (a + b)[..|a|];
    assert s[i + |a|..i + |a| + |b|] == (a + b)[|a|..];
  }

  lemma AtChar(s: string, i: nat, c: char)
    requires At(s, i, [c])
    ensures i < |s| && s[i] == c
  {
    assert s[i..i + 1][0] == c;
  }

  predicate NonWhite(s: string, i: nat) {
    i == |s| || (i < |s| && !IsWhite(s[i]))
  }

  lemma AtWord(s: string, i: nat, w: string)
    requires At(s, i, w) && LegalWord(w) && (i + |w| == |s| || !IsWord(s[i + |w|]))
    ensures i < |s| && IsWord(s[i])
    ensures GetToken(s, i) == Token(Word, i, i + |w|, SkipWhite(s, i + |w|))
    ensures Text(s, Arg(i, i + |w|)) == w
  {
    assert s[i] == w[0];
    WordEndAt(s, i, w, 0);
  }

  lemma {:induction false} WordEndAt(s: string, i: nat, w: string, k: nat)
    requires At(s, i, w) && LegalWord(w) && (i + |w| == |s| || !IsWord(s[i + |w|])) && k <= |w|
    ensures WordEnd(s, i + k) == i + |w|
    decreases |w| - k
  {
    if k < |w| {
      assert s[i + k] == s[i..i + |w|][k];
      WordEndAt(s, i, w, k + 1);
    }
  }

  lemma NoRedirs(s: string, k: nat)
    requires k <= |s| && NonWhite(s, k) && (k < |s| ==> s[k] != '<' && s[k] != '>')
    ensures ParseRedirs(s, k) == Ok([], k)
  {
  }

  lemma JoinSplit(s: string, i: nat, ws: seq<string>)
    requires |ws| > 1 && At(s, i, Join(ws))
    ensures var e := i + |ws[0]|;
            && At(s, i, ws[0]) && e < |s| && s[e] == ' ' && At(s, e + 1, Join(ws[1..]))
            && i + |Join(ws)| == e + 1 + |Join(ws[1..])|
  {
    hide At;
    AtSplit(s, i, ws[0] + " ", Join(ws[1..]));
    AtSplit(s, i, ws[0], " ");
    AtChar(s, i + |ws[0]|, ' ');
  }

  lemma JoinParts(s: string, i: nat, ws: seq<string>)
    requires ws != [] && (forall k :: 0 <= k < |ws| ==> LegalWord(ws[k]))
    requires At(s, i, Join(ws)) && Stops(s, i + |Join(ws)|)
    ensures var e := i + |ws[0]|;
            && GetToken(s, i) == Token(Word, i, e, if |ws| == 1 then e else e + 1)
            && Text(s, Arg(i, e)) == ws[0]
            && (|ws| == 1 ==> i + |Join(ws)| == e)
            && (|ws| > 1 ==> At(s, e + 1, Join(ws[1..])) && i + |Join(ws)| == e + 1 + |Join(ws[1..])|
                             && e + 1 < |s| && IsWord(s[e + 1]))
  {
    hide At, LegalWord, GetToken, WordEnd;
    var w, e := ws[0], i + |ws[0]|;
    if |ws| > 1 {
      hide Join;
      JoinSplit(s, i, ws);
      JoinStarts(s, e + 1, ws[1..]);
      assert SkipWhite(s, e) == e + 1;
    }
    AtWord(s, i, w);
  }

  lemma ArgsStop(s: string, i: nat, args: seq<Arg>)
    requires i <= |s| && Stops(s, i)
    ensures ParseArgs(s, i, args, []) == Ok(Exec(args), i)
  {
  }

  /** parseexec() takes one more word. */
  lemma ArgsStep(s: string, i: nat, args: seq<Arg>, e: nat, n: nat)
    requires i < |s| && IsWord(s[i]) && GetToken(s, i) == Token(Word, i, e, n) && |args| + 1 < MAXARGS
    requires n <= |s| && NonWhite(s, n) && (n < |s| ==> s[n] != '<' && s[n] != '>')
    ensures ParseArgs(s, i, args, []) == ParseArgs(s, n, args + [Arg(i, e)], [])
  {
    NoRedirs(s, n);
    var none: seq<Redirection> := [];
    assert none + none == none;
  }

  lemma {:induction false} WordsParse(s: string, i: nat, ws: seq<string>, args: seq<Arg>)
    requires (forall k :: 0 <= k < |ws| ==> LegalWord(ws[k])) && |args| + |ws| < MAXARGS
    requires At(s, i, Join(ws)) && Stops(s, i + |Join(ws)|)
    ensures var r := ParseArgs(s, i, args, []);
            && r.Ok? && r.pos == i + |Join(ws)| && r.value.Exec?
            && Words(s, r.value.args) == Words(s, args) + ws
    decreases |ws|
  {
    hide ParseArgs, GetToken, LegalWord;
    if ws == [] {
      ArgsStop(s, i, args);
      assert Words(s, args) + [] == Words(s, args);
    } else {
      var w, rest, e := ws[0], ws[1..], i + |ws[0]|;
      JoinStarts(s, i, ws);
      JoinParts(s, i, ws);
      var n := if |ws| == 1 then e else e + 1;
      var args' := args + [Arg(i, e)];
      ArgsStep(s, i, args, e, n);
      if |ws| == 1 { EmptyAt(s, n); }
      WordsParse(s, n, rest, args');
      assert args'[..|args|] == args;
      assert Words(s, args) + [w] + rest == Words(s, args) + ws;
    }
  }

  lemma EmptyAt(s: string, i: nat)
    requires i <= |s|
    ensures At(s, i, "")
  {
  }

  lemma JoinStarts(s: string, i: nat, ws: seq<string>)
    requires ws != [] && LegalWord(ws[0]) && At(s, i, Join(ws))
    ensures i < |s| && IsWord(s[i])
  {
    assert s[i] == s[i..i + |Join(ws)|][0] == ws[0][0];
  }

  // A block, and what may follow it.

  lemma ParenParts(s: string, i: nat, t: Tree)
    requires At(s, i, Paren(t))
    ensures i < |s| && s[i] == '(' && At(s, i + 1, Print(t))
    ensures var k := i + |Paren(t)|; k <= |s| && k == i + 2 + |Print(t)| && s[k - 1] == ')'
  {
    hide At, Print;
    AtSplit(s, i, "(" + Print(t), ")");
    AtSplit(s, i, "(", Print(t));
    AtChar(s, i, '(');
    AtChar(s, i + 1 + |Print(t)|, ')');
  }

  lemma PrintStarts(s: string, i: nat, t: Tree)
    requires LegalTree(t) && At(s, i, Print(t)) && Stops(s, i + |Print(t)|)
    ensures NonWhite(s, i)
  {
    match t
    case TExec(ws) => if ws != [] { JoinStarts(s, i, ws); }
    case TRedir(d, f, m) =>
      AtSplit(s, i, Paren(d) + (if m.In? then "<" else ">"), f);
      AtSplit(s, i, Paren(d), if m.In? then "<" else ">");
      ParenParts(s, i, d);
    case TPipe(l, r) => AtSplit(s, i, Paren(l) + "|", Paren(r)); AtSplit(s, i, Paren(l), "|"); ParenParts(s, i, l);
    case TList(l, r) => AtSplit(s, i, Paren(l) + ";", Paren(r)); AtSplit(s, i, Paren(l), ";"); ParenParts(s, i, l);
    case TBack(d) => AtSplit(s, i, Paren(d), "&"); ParenParts(s, i, d);
  }

  // One step of each parsing function, on text without white space before `i`.

  lemma SymbolToken(s: string, k: nat)
    requires k < |s| && IsSymbol(s[k]) && k + 1 <= |s| && NonWhite(s, k + 1)
    requires !(s[k] == '>' && k + 1 < |s| && s[k + 1] == '>')
    ensures GetToken(s, k) == Token(Symbol(s[k]), k, k + 1, k + 1)
  {
    assert SkipWhite(s, k + 1) == k + 1;
  }

  lemma PeekHere(s: string, k: nat, toks: string)
    requires k <= |s| && NonWhite(s, k)
    ensures Peek(s, k, toks) == (k, k < |s| && s[k] in toks)
  {
  }

  lemma BlockStep(s: string, i: nat, c: Cmd, k: nat)
    requires i < k - 1 < |s| && s[k - 1] == ')' && NonWhite(s, k)
    requires s[i] == '(' && NonWhite(s, i + 1) && ParseLine(s, i + 1) == Ok(c, k - 1)
    ensures ParseExec(s, i) == match ParseRedirs(s, k) case Panic(m) => Panic(m) case Ok(rs, l) => Ok(Wrap(c, rs), l)
  {
    hide ParseLine, ParseRedirs, GetToken, Peek;
    PeekHere(s, i, "(");
    SymbolToken(s, i);
    PeekHere(s, k - 1, ")");
    SymbolToken(s, k - 1);
  }

  lemma PipeStep(s: string, i: nat, c: Cmd, j: nat)
    requires i <= |s| && ParseExec(s, i) == Ok(c, j) && j <= |s| && NonWhite(s, j) && (j < |s| ==> s[j] != '|')
    ensures ParsePipe(s, i) == Ok(c, j)
  {
    hide ParseExec, Peek;
    PeekHere(s, j, "|");
  }

  lemma PipeMore(s: string, i: nat, c: Cmd, j: nat, d: Cmd, e: nat)
    requires i <= |s| && ParseExec(s, i) == Ok(c, j) && j < |s| && s[j] == '|' && NonWhite(s, j + 1)
    requires ParsePipe(s, j + 1) == Ok(d, e)
    ensures ParsePipe(s, i) == Ok(Pipe(c, d), e)
  {
    hide ParseExec, Peek, GetToken;
    PeekHere(s, j, "|");
    SymbolToken(s, j);
  }

  lemma LineStep(s: string, i: nat, c: Cmd, j: nat)
    requires i <= |s| && ParsePipe(s, i) == Ok(c, j) && j <= |s| && Stops(s, j)
    ensures ParseLine(s, i) == Ok(c, j)
  {
    hide ParsePipe, Peek;
    PeekHere(s, j, "&");
    PeekHere(s, j, ";");
  }

  lemma LineMore(s: string, i: nat, c: Cmd, j: nat, d: Cmd, e: nat)
    requires i <= |s| && ParsePipe(s, i) == Ok(c, j) && j < |s| && s[j] == ';' && NonWhite(s, j + 1)
    requires ParseLine(s, j + 1) == Ok(d, e)
    ensures ParseLine(s, i) == Ok(List(c, d), e)
  {
    hide ParsePipe, Peek, GetToken;
    PeekHere(s, j, "&");
    PeekHere(s, j, ";");
    SymbolToken(s, j);
  }

  lemma LineBack(s: string, i: nat, c: Cmd, j: nat)
    requires i <= |s| && ParsePipe(s, i) == Ok(c, j) && j < |s| && s[j] == '&' && Stops(s, j + 1)
    ensures ParseLine(s, i) == Ok(Back(c), j + 1)
  {
    hide ParsePipe, Peek, GetToken;
    PeekHere(s, j, "&");
    SymbolToken(s, j);
    PeekHere(s, j + 1, "&");
    PeekHere(s, j + 1, ";");
    assert ParseBacks(s, j + 1, Back(c)) == (Back(c), j + 1);
    assert ParseBacks(s, j, c) == (Back(c), j + 1);
  }

  lemma RedirStep(s: string, k: nat, e: nat, m: Mode)
    requires k + 1 < |s| && s[k] == (if m.In? then '<' else '>') && IsWord(s[k + 1])
    requires GetToken(s, k + 1) == Token(Word, k + 1, e, e) && e <= |s| && Stops(s, e)
    ensures ParseRedirs(s, k) == Ok([Redirection(Arg(k + 1, e), m)], e)
  {
    hide GetToken, Peek;
    PeekHere(s, k, "<>");
    SymbolToken(s, k);
    NoRedirs(s, e);
    var one := [Redirection(Arg(k + 1, e), m)];
    assert one + [] == one;
  }

  /** parseexec() at a printed block: the block's command, then the redirections. */
  lemma {:induction false} BlockParses(s: string, i: nat, t: Tree) returns (c: Cmd)
    requires LegalTree(t) && At(s, i, Paren(t)) && NonWhite(s, i + |Paren(t)|)
    ensures Resolve(s, c) == t
    ensures var k := i + |Paren(t)|;
            ParseExec(s, i) == match ParseRedirs(s, k) case Panic(m) => Panic(m) case Ok(rs, l) => Ok(Wrap(c, rs), l)
    decreases Size(t), 1
  {
    hide ParseLine, ParseExec, ParseRedirs, Print, Paren, LegalTree, Resolve;
    ParenParts(s, i, t);
    PrintStarts(s, i + 1, t);
    LineParses(s, i + 1, t);
    c := ParseLine(s, i + 1).value;
    BlockStep(s, i, c, i + |Paren(t)|);
  }

  /** A printed block that no '|' or redirection follows. */
  lemma {:induction false} ExecOfBlock(s: string, i: nat, t: Tree) returns (c: Cmd)
    requires LegalTree(t) && At(s, i, Paren(t)) && NonWhite(s, i + |Paren(t)|)
    requires var k := i + |Paren(t)|; k < |s| ==> s[k] != '<' && s[k] != '>'
    ensures Resolve(s, c) == t && ParseExec(s, i) == Ok(c, i + |Paren(t)|)
    decreases Size(t), 2
  {
    hide ParseExec, ParseRedirs, Paren, LegalTree, Resolve;
    c := BlockParses(s, i, t);
    NoRedirs(s, i + |Paren(t)|);
  }

  /** parseline() reads back what was printed. */
  lemma {:induction false} LineParses(s: string, i: nat, t: Tree)
    requires LegalTree(t) && At(s, i, Print(t)) && Stops(s, i + |Print(t)|)
    ensures var r := ParseLine(s, i);
            r.Ok? && r.pos == i + |Print(t)| && Resolve(s, r.value) == t
    decreases Size(t), 0
  {
    hide ParseLine, At, Print;
    match t
    case TExec(ws) => ExecLine(s, i, ws);
    case TRedir(d, f, m) => RedirLine(s, i, d, f, m);
    case TPipe(l, r) => PipeLine(s, i, l, r);
    case TList(l, r) => ListLine(s, i, l, r);
    case TBack(d) => BackLine(s, i, d);
  }

  ghost function Size(t: Tree): nat {
    match t
    case TExec(_) => 1
    case TRedir(d, _, _) => 1 + Size(d)
    case TPipe(l, r) => 1 + Size(l) + Size(r)
    case TList(l, r) => 1 + Size(l) + Size(r)
    case TBack(d) => 1 + Size(d)
  }

  lemma ExecLine(s: string, i: nat, ws: seq<string>)
    requires LegalTree(TExec(ws)) && At(s, i, Print(TExec(ws))) && Stops(s, i + |Print(TExec(ws))|)
    ensures var r := ParseLine(s, i);
            r.Ok? && r.pos == i + |Print(TExec(ws))| && Resolve(s, r.value) == TExec(ws)
  {
    hide ParseArgs, ParseRedirs, ParseLine, ParsePipe, Peek;
    if ws != [] { JoinStarts(s, i, ws); }
    PeekHere(s, i, "(");
    NoRedirs(s, i);
    WordsParse(s, i, ws, []);
    assert Words(s, []) + ws == ws;
    var r := ParseArgs(s, i, [], []);
    PipeStep(s, i, r.value, r.pos);
    LineStep(s, i, r.value, r.pos);
  }

  lemma RedirParts(s: string, i: nat, d: Tree, f: string, m: Mode)
    requires At(s, i, Print(TRedir(d, f, m)))
    ensures var k := i + |Paren(d)|;
            && At(s, i, Paren(d)) && k < |s| && s[k] == (if m.In? then '<' else '>')
            && At(s, k + 1, f) && i + |Print(TRedir(d, f, m))| == k + 1 + |f|
  {
    hide Paren;
    var op := if m.In? then "<" else ">";
    AtSplit(s, i, Paren(d) + op, f);
    AtSplit(s, i, Paren(d), op);
    AtChar(s, i + |Paren(d)|, op[0]);
  }

  lemma BothParts(s: string, i: nat, l: Tree, op: char, r: Tree)
    requires At(s, i, Paren(l) + [op] + Paren(r))
    ensures var k := i + |Paren(l)|;
            && At(s, i, Paren(l)) && k < |s| && s[k] == op && At(s, k + 1, Paren(r))
            && k + 1 < |s| && s[k + 1] == '('
  {
    hide Paren, Print;
    ParenParts2(s, i, l, op, r);
    ParenParts(s, i + |Paren(l)| + 1, r);
  }

  lemma ParenParts2(s: string, i: nat, l: Tree, op: char, r: Tree)
    requires At(s, i, Paren(l) + [op] + Paren(r))
    ensures At(s, i, Paren(l)) && i + |Paren(l)| < |s| && s[i + |Paren(l)|] == op && At(s, i + |Paren(l)| + 1, Paren(r))
  {
    hide Paren;
    AtSplit(s, i, Paren(l) + [op], Paren(r));
    AtSplit(s, i, Paren(l), [op]);
    AtChar(s, i + |Paren(l)|, op);
  }

  lemma RedirLine(s: string, i: nat, d: Tree, f: string, m: Mode)
    requires LegalTree(d) && LegalWord(f) && At(s, i, Print(TRedir(d, f, m))) && Stops(s, i + |Print(TRedir(d, f, m))|)
    ensures var r := ParseLine(s, i);
            r.Ok? && r.pos == i + |Print(TRedir(d, f, m))| && Resolve(s, r.value) == TRedir(d, f, m)
    decreases Size(d), 9
  {
    hide ParseLine, ParsePipe, ParseExec, ParseRedirs, GetToken, Print, Paren, LegalTree;
    RedirParts(s, i, d, f, m);
    var k := i + |Paren(d)|;
    var e := k + 1 + |f|;
    AtWord(s, k + 1, f);
    var c := BlockParses(s, i, d);
    RedirStep(s, k, e, m);
    var rs := [Redirection(Arg(k + 1, e), m)];
    assert rs[..0] == [];
    assert Wrap(c, rs) == Redir(c, Arg(k + 1, e), m);
    PipeStep(s, i, Wrap(c, rs), e);
    LineStep(s, i, Wrap(c, rs), e);
  }

  lemma PipeLine(s: string, i: nat, l: Tree, r: Tree)
    requires LegalTree(l) && LegalTree(r) && At(s, i, Print(TPipe(l, r))) && Stops(s, i + |Print(TPipe(l, r))|)
    ensures var p := ParseLine(s, i);
            p.Ok? && p.pos == i + |Print(TPipe(l, r))| && Resolve(s, p.value) == TPipe(l, r)
    decreases Size(l) + Size(r), 9
  {
    hide ParseLine, ParsePipe, ParseExec, Paren, LegalTree, At;
    BothParts(s, i, l, '|', r);
    var k := i + |Paren(l)|;
    var c := ExecOfBlock(s, i, l);
    var d := ExecOfBlock(s, k + 1, r);
    PipeStep(s, k + 1, d, k + 1 + |Paren(r)|);
    PipeMore(s, i, c, k, d, k + 1 + |Paren(r)|);
    LineStep(s, i, Pipe(c, d), k + 1 + |Paren(r)|);
  }

  lemma ListLine(s: string, i: nat, l: Tree, r: Tree)
    requires LegalTree(l) && LegalTree(r) && At(s, i, Print(TList(l, r))) && Stops(s, i + |Print(TList(l, r))|)
    ensures var p := ParseLine(s, i);
            p.Ok? && p.pos == i + |Print(TList(l, r))| && Resolve(s, p.value) == TList(l, r)
    decreases Size(l) + Size(r), 9
  {
    hide ParseLine, ParsePipe, ParseExec, Paren, LegalTree, At;
    BothParts(s, i, l, ';', r);
    var k := i + |Paren(l)|;
    var c := ExecOfBlock(s, i, l);
    var d := ExecOfBlock(s, k + 1, r);
    var e := k + 1 + |Paren(r)|;
    PipeStep(s, i, c, k);
    PipeStep(s, k + 1, d, e);
    LineStep(s, k + 1, d, e);
    LineMore(s, i, c, k, d, e);
  }

  lemma BackLine(s: string, i: nat, d: Tree)
    requires LegalTree(d) && At(s, i, Print(TBack(d))) && Stops(s, i + |Print(TBack(d))|)
    ensures var r := ParseLine(s, i);
            r.Ok? && r.pos == i + |Print(TBack(d))| && Resolve(s, r.value) == TBack(d)
    decreases Size(d), 9
  {
    hide ParseLine, ParsePipe, ParseExec, Paren, LegalTree;
    AtSplit(s, i, Paren(d), "&");
    var k := i + |Paren(d)|;
    AtChar(s, k, '&');
    var c := ExecOfBlock(s, i, d);
    PipeStep(s, i, c, k);
    LineBack(s, i, c, k);
  }

  /** Parsing undoes printing, for every command whose words are words and whose commands
      have fewer than MAXARGS of them. */
  lemma ParsePrint(t: Tree)
    requires LegalTree(t)
    ensures var r := ParseCmd(Print(t));
            r.Ok? && Resolve(Print(t), r.value) == t
  {
    hide ParseLine, Print, Resolve, LegalTree;
    var s := Print(t);
    assert s[0..|s|] == s;
    LineParses(s, 0, t);
    PeekHere(s, |s|, "");
  }
}
