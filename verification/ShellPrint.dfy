/** Command trees printed with every operand in parentheses, and the proof that the shell's parser
    (sh.c) reads such a print back as the same tree. */
module ShellPrint {
  import opened Shell

  datatype Tree =
    | TExec(words: seq<string>)
    | TRedir(t: Tree, file: string, out: bool)
    | TPipe(l: Tree, r: Tree)
    | TList(l: Tree, r: Tree)
    | TBack(t: Tree)

  predicate IsWord(w: string) { w != [] && forall k :: 0 <= k < |w| ==> WordChar(w[k]) }

  /** At most nine words a command, and words without whitespace or symbols. */
  predicate Good(t: Tree) {
    match t
    case TExec(ws) => |ws| < MAXARGS && forall k :: 0 <= k < |ws| ==> IsWord(ws[k])
    case TRedir(d, file, out) => Good(d) && IsWord(file)
    case TPipe(l, r) => Good(l) && Good(r)
    case TList(l, r) => Good(l) && Good(r)
    case TBack(d) => Good(d)
  }

  function Join(ws: seq<string>): string {
    if ws == [] then [] else if |ws| == 1 then ws[0] else ws[0] + (" " + Join(ws[1..]))
  }

  function Paren(p: string): string { "(" + (p + ")") }

  function Print(t: Tree): string {
    match t
    case TExec(ws) => Join(ws)
    case TRedir(d, file, out) => Paren(Print(d)) + ((if out then ">" else "<") + file)
    case TPipe(l, r) => Paren(Print(l)) + ("|" + Paren(Print(r)))
    case TList(l, r) => Paren(Print(l)) + (";" + Paren(Print(r)))
    case TBack(d) => Paren(Print(d)) + "&"
  }

  /** The words of a command, read off the line. */
  function Words(s: string, ws: seq<Span>): seq<string> {
    if ws == [] then []
    else [if ws[0].q <= ws[0].eq <= |s| then s[ws[0].q..ws[0].eq] else []] + Words(s, ws[1..])
  }

  function Read(s: string, c: Cmd): Tree {
    match c
    case Exec(argv) => TExec(Words(s, argv))
    case Redir(d, file, out) => TRedir(Read(s, d), if file.q <= file.eq <= |s| then s[file.q..file.eq] else [], out)
    case Pipe(l, r) => TPipe(Read(s, l), Read(s, r))
    case List(l, r) => TList(Read(s, l), Read(s, r))
    case Back(d) => TBack(Read(s, d))
  }

  // ---------------------------------------------------------------- positions

  /** w stands in the line at position i. */
  predicate At(s: string, i: nat, w: string) { i + |w| <= |s| && s[i..i + |w|] == w }

  lemma AtSplit(s: string, i: nat, a: string, b: string)
    requires At(s, i, a + b)
    ensures At(s, i, a) && At(s, i + |a|, b)
  {
    var w := a + b;
    assert s[i..i + |a|] == w[..|a|] == a;
    assert s[i + |a|..i + |w|] == w[|a|..] == b;
  }

  lemma AtParen(s: string, i: nat, p: string)
    requires At(s, i, Paren(p))
    ensures i + |p| + 1 < |s| && s[i] == '(' && At(s, i + 1, p) && s[i + 1 + |p|] == ')'
  {
    AtSplit(s, i, "(", p + ")");
    AtSplit(s, i + 1, p, ")");
    assert s[i..i + 1] == "(" && s[i + 1 + |p|..i + 2 + |p|] == ")";
    assert s[i..i + 1][0] == s[i] && s[i + 1 + |p|..i + 2 + |p|][0] == s[i + 1 + |p|];
  }

  /** The end of the line, or a character that ends a parenthesised line. */
  predicate Closed(s: string, j: nat) { j == |s| || (j < |s| && s[j] == ')') }

  predicate NoSpace(s: string, j: nat) { j == |s| || (j < |s| && !Space(s[j])) }

  lemma SymbolToken(s: string, i: nat)
    requires i < |s| && Symbol(s[i]) && s[i] != '>' && NoSpace(s, i + 1)
    ensures GetToken(s, i) == Token(s[i], i, i + 1, i + 1)
  {
  }

  lemma {:induction false} WordEndIs(s: string, i: nat, e: nat)
    requires i <= e <= |s| && (forall k :: i <= k < e ==> WordChar(s[k])) && (e < |s| ==> !WordChar(s[e]))
    ensures WordEnd(s, i) == e
    decreases e - i
  {
    if i < e { WordEndIs(s, i + 1, e); }
  }

  lemma WordToken(s: string, i: nat, w: string)
    requires IsWord(w) && At(s, i, w) && (i + |w| < |s| ==> !WordChar(s[i + |w|]))
    ensures GetToken(s, i) == Token('a', i, i + |w|, Skip(s, i + |w|)) && s[i..i + |w|] == w && WordChar(s[i])
  {
    var e := i + |w|;
    forall k | i <= k < e ensures WordChar(s[k]) {
      assert s[k] == s[i..e][k - i] == w[k - i];
    }
    WordEndIs(s, i, e);
  }

  // ---------------------------------------------------------------- simple commands

  lemma NoRedirs(s: string, i: nat)
    requires NoSpace(s, i) && (i < |s| ==> s[i] != '<' && s[i] != '>')
    ensures Redirs(s, i) == Done([], i)
  {
  }

  /** parseexec's loop at i reads the words ws and ends at e. */
  predicate ArgsAre(s: string, i: nat, argc: nat, ws: seq<string>, e: nat)
    requires i <= |s|
  {
    var r := Args(s, i, argc);
    r.Done? && r.pos == e && r.value.redirs == [] && Words(s, r.value.words) == ws
  }

  lemma ArgsNone(s: string, i: nat, argc: nat)
    requires Closed(s, i)
    ensures ArgsAre(s, i, argc, [], i)
  {
  }

  /** One word, then the rest of the words. */
  lemma ArgsWord(s: string, i: nat, argc: nat, w: string, rest: seq<string>, next: nat, e: nat)
    requires IsWord(w) && At(s, i, w) && (i + |w| < |s| ==> !WordChar(s[i + |w|])) && argc + 1 < MAXARGS
    requires Skip(s, i + |w|) == next && Redirs(s, next) == Done([], next) && ArgsAre(s, next, argc + 1, rest, e)
    ensures ArgsAre(s, i, argc, [w] + rest, e)
  {
    WordToken(s, i, w);
    var r := Args(s, next, argc + 1).value;
    assert !Peek(s, i, {'|', ')', '&', ';'});
    var all := [Span(i, i + |w|)] + r.words;
    assert all[1..] == r.words;
    assert [] + r.redirs == [];
  }

  /** Words stand from i to e, one blank apart, and the line or its parenthesis closes after them. */
  predicate Laid(s: string, i: nat, ws: seq<string>, e: nat)
    decreases |ws|
  {
    if ws == [] then i == e && Closed(s, e)
    else
      && IsWord(ws[0]) && At(s, i, ws[0])
      && if |ws| == 1 then i + |ws[0]| == e && Closed(s, e)
         else i + |ws[0]| < |s| && s[i + |ws[0]|] == ' ' && Laid(s, i + |ws[0]| + 1, ws[1..], e)
  }

  lemma {:induction false} JoinLaid(s: string, i: nat, ws: seq<string>, e: nat)
    requires (forall k :: 0 <= k < |ws| ==> IsWord(ws[k])) && At(s, i, Join(ws)) && e == i + |Join(ws)| && Closed(s, e)
    ensures Laid(s, i, ws, e)
    decreases |ws|
  {
    if |ws| > 1 {
      var next, rest := i + |ws[0]| + 1, ws[1..];
      AtSplit(s, i, ws[0], " " + Join(rest));
      AtSplit(s, next - 1, " ", Join(rest));
      assert s[next - 1] == s[next - 1..next][0];
      JoinLaid(s, next, rest, e);
    }
  }

  lemma LaidStart(s: string, i: nat, ws: seq<string>, e: nat)
    requires Laid(s, i, ws, e)
    ensures i <= |s| && (i == |s| || s[i] == ')' || WordChar(s[i])) && NoSpace(s, i) && Redirs(s, i) == Done([], i)
  {
    if ws != [] { assert s[i] == s[i..i + |ws[0]|][0] == ws[0][0]; }
    NoRedirs(s, i);
  }

  lemma ArgsLast(ws: seq<string>, s: string, i: nat, argc: nat, e: nat)
    requires Laid(s, i, ws, e) && |ws| == 1 && argc + 1 < MAXARGS
    ensures ArgsAre(s, i, argc, ws, e)
  {
    ArgsNone(s, e, argc + 1);
    NoRedirs(s, e);
    ArgsWord(s, i, argc, ws[0], [], e, e);
    assert [ws[0]] + [] == ws;
  }

  lemma ArgsMore(ws: seq<string>, rest: seq<string>, s: string, i: nat, argc: nat, next: nat, e: nat)
    requires |ws| > 1 && IsWord(ws[0]) && At(s, i, ws[0]) && rest == ws[1..] && argc + 1 < MAXARGS && next == i + |ws[0]| + 1 <= |s|
    requires s[next - 1] == ' ' && Laid(s, next, rest, e) && ArgsAre(s, next, argc + 1, rest, e)
    ensures ArgsAre(s, i, argc, ws, e)
  {
    LaidStart(s, next, rest, e);
    assert Skip(s, next - 1) == Skip(s, next) == next;
    ArgsWord(s, i, argc, ws[0], rest, next, e);
    assert [ws[0]] + rest == ws;
  }

  lemma LaidMore(s: string, i: nat, ws: seq<string>, rest: seq<string>, next: nat, e: nat)
    requires Laid(s, i, ws, e) && |ws| > 1 && rest == ws[1..] && next == i + |ws[0]| + 1
    ensures IsWord(ws[0]) && At(s, i, ws[0]) && next <= |s| && s[next - 1] == ' ' && Laid(s, next, rest, e)
  {
  }

  lemma {:induction false} ArgsOf(ws: seq<string>, s: string, i: nat, argc: nat, e: nat)
    requires Laid(s, i, ws, e) && argc + |ws| < MAXARGS && i <= |s|
    ensures ArgsAre(s, i, argc, ws, e)
    decreases |ws|
  {
    if ws == [] {
      ArgsNone(s, i, argc);
    } else if |ws| == 1 {
      ArgsLast(ws, s, i, argc, e);
    } else {
      var next, rest := i + |ws[0]| + 1, ws[1..];
      LaidMore(s, i, ws, rest, next, e);
      ArgsOf(rest, s, next, argc + 1, e);
      ArgsMore(ws, rest, s, i, argc, next, e);
    }
  }

  // ---------------------------------------------------------------- whole lines

  predicate ExecIs(s: string, i: nat, t: Tree, e: nat)
    requires i <= |s|
  {
    var r := ParseExec(s, i);
    r.Done? && r.pos == e && Read(s, r.value) == t
  }

  predicate PipeIs(s: string, i: nat, t: Tree, e: nat)
    requires i <= |s|
  {
    var r := ParsePipe(s, i);
    r.Done? && r.pos == e && Read(s, r.value) == t
  }

  predicate LineIs(s: string, i: nat, t: Tree, e: nat)
    requires i <= |s|
  {
    var r := ParseLine(s, i);
    r.Done? && r.pos == e && Read(s, r.value) == t
  }

  lemma ExecOf(ws: seq<string>, s: string, i: nat, e: nat)
    requires Laid(s, i, ws, e) && |ws| < MAXARGS && i <= |s|
    ensures ExecIs(s, i, TExec(ws), e)
  {
    LaidStart(s, i, ws, e);
    var argc: nat := 0;
    ArgsOf(ws, s, i, argc, e);
    var rs: seq<Redirection> := [];
    assert rs + Args(s, i, argc).value.redirs == [];
  }

  /** A line in parentheses, from i up to j. */
  predicate Enclosed(s: string, i: nat, t: Tree, j: nat) {
    && i + 1 < j <= |s| && s[i] == '(' && s[j - 1] == ')'
    && NoSpace(s, i + 1) && LineIs(s, i + 1, t, j - 1)
  }

  /** The tokens that parseblock takes around the line. */
  lemma BlockTokens(s: string, i: nat, t: Tree, j: nat, c: Result<Cmd>)
    requires Enclosed(s, i, t, j) && NoSpace(s, j) && c == ParseLine(s, i + 1)
    ensures Peek(s, i, {'('}) && i + 1 == GetToken(s, i).next
    ensures c.Done? && Peek(s, c.pos, {')'}) && j == GetToken(s, c.pos).next
  {
    SymbolToken(s, i);
    SymbolToken(s, j - 1);
  }

  lemma BlockParts(s: string, i: nat, k: nat, c: Result<Cmd>, m: nat, rs: seq<Redirection>, e: nat)
    requires i <= |s| && Peek(s, i, {'('}) && k == GetToken(s, i).next && c == ParseLine(s, k) && c.Done? && Peek(s, c.pos, {')'})
    requires m == GetToken(s, c.pos).next && Redirs(s, m) == Done(rs, e)
    ensures ParseBlock(s, i) == Done(Wrap(c.value, rs), e)
  {
  }

  lemma ExecBlock(s: string, i: nat, r: Result<Cmd>)
    requires i <= |s| && Peek(s, i, {'('}) && ParseBlock(s, i) == r
    ensures ParseExec(s, i) == r
  {
  }

  /** parseblock's result, given the redirections after the closing parenthesis. */
  lemma BlockWrap(s: string, i: nat, t: Tree, j: nat, rs: seq<Redirection>, e: nat)
    requires Enclosed(s, i, t, j) && NoSpace(s, j) && Redirs(s, j) == Done(rs, e)
    ensures ParseExec(s, i) == Done(Wrap(ParseLine(s, i + 1).value, rs), e)
  {
    var c := ParseLine(s, i + 1);
    BlockTokens(s, i, t, j, c);
    BlockParts(s, i, i + 1, c, j, rs, e);
    ExecBlock(s, i, Done(Wrap(c.value, rs), e));
  }

  lemma Block(s: string, i: nat, t: Tree, j: nat)
    requires Enclosed(s, i, t, j) && NoSpace(s, j) && (j < |s| ==> s[j] != '<' && s[j] != '>')
    ensures ExecIs(s, i, t, j)
  {
    NoRedirs(s, j);
    BlockWrap(s, i, t, j, [], j);
  }

  lemma FileToken(s: string, j: nat, file: string, e: nat)
    requires IsWord(file) && At(s, j, file) && e == j + |file| && Closed(s, e)
    ensures Skip(s, j) == j && GetToken(s, j) == Token('a', j, e, e)
  {
    WordToken(s, j, file);
  }

  lemma OneRedir(s: string, j: nat, file: string, out: bool, e: nat)
    requires j < |s| && s[j] == (if out then '>' else '<')
    requires IsWord(file) && At(s, j + 1, file) && e == j + 1 + |file| && Closed(s, e)
    ensures Redirs(s, j) == Done([Redirection(Span(j + 1, e), out)], e)
  {
    FileToken(s, j + 1, file, e);
    NoRedirs(s, e);
    var t := GetToken(s, j);
    assert Skip(s, j) == j && t.next == j + 1 && (t.kind != '<') == out;
    var one := Redirection(Span(j + 1, e), out);
    assert [one] + [] == [one];
  }

  lemma WrapOne(c: Cmd, one: Redirection)
    ensures Wrap(c, [one]) == Redir(c, one.file, one.out)
  {
    var rs := [one];
    assert rs[..|rs| - 1] == [];
  }

  lemma BlockOne(s: string, i: nat, t: Tree, j: nat, one: Redirection, c: Cmd, e: nat)
    requires Enclosed(s, i, t, j) && NoSpace(s, j) && Redirs(s, j) == Done([one], e) && c == ParseLine(s, i + 1).value
    ensures ParseExec(s, i) == Done(Redir(c, one.file, one.out), e)
  {
    BlockWrap(s, i, t, j, [one], e);
    WrapOne(c, one);
  }

  lemma ReadRedir(s: string, c: Cmd, q: nat, e: nat, file: string, out: bool)
    requires At(s, q, file) && e == q + |file|
    ensures Read(s, Redir(c, Span(q, e), out)) == TRedir(Read(s, c), file, out)
  {
  }

  lemma BlockRedir(s: string, i: nat, t: Tree, j: nat, one: Redirection, file: string, e: nat)
    requires Enclosed(s, i, t, j) && NoSpace(s, j) && Redirs(s, j) == Done([one], e)
    requires At(s, one.file.q, file) && one.file.eq == one.file.q + |file|
    ensures ExecIs(s, i, TRedir(t, file, one.out), e)
  {
    var c := ParseLine(s, i + 1).value;
    BlockOne(s, i, t, j, one, c, e);
    ReadRedir(s, c, one.file.q, one.file.eq, file, one.out);
  }

  lemma PipePlain(s: string, i: nat, t: Tree, e: nat)
    requires i <= |s| && ExecIs(s, i, t, e) && NoSpace(s, e) && (e < |s| ==> s[e] != '|')
    ensures PipeIs(s, i, t, e)
  {
  }

  lemma PipeTwo(s: string, i: nat, l: Tree, j: nat, r: Tree, e: nat)
    requires i <= |s| && ExecIs(s, i, l, j) && j < |s| && s[j] == '|' && NoSpace(s, j + 1) && PipeIs(s, j + 1, r, e)
    ensures PipeIs(s, i, TPipe(l, r), e)
  {
    SymbolToken(s, j);
    assert Peek(s, j, {'|'}) && GetToken(s, j).next == j + 1;
    var c, d := ParseExec(s, i), ParsePipe(s, j + 1);
    assert ParsePipe(s, i) == Done(Pipe(c.value, d.value), e);
  }

  lemma LinePlain(s: string, i: nat, t: Tree, e: nat)
    requires i <= |s| && PipeIs(s, i, t, e) && Closed(s, e)
    ensures LineIs(s, i, t, e)
  {
  }

  lemma LineTwo(s: string, i: nat, l: Tree, j: nat, r: Tree, e: nat)
    requires i <= |s| && PipeIs(s, i, l, j) && j < |s| && s[j] == ';' && NoSpace(s, j + 1) && LineIs(s, j + 1, r, e)
    ensures LineIs(s, i, TList(l, r), e)
  {
    SymbolToken(s, j);
  }

  lemma BacksNone(s: string, j: nat, c: Cmd)
    requires Closed(s, j) && Spelled(s, c)
    ensures Backs(s, j, c) == Done(c, j)
  {
  }

  lemma LineBack(s: string, i: nat, t: Tree, j: nat)
    requires i <= |s| && PipeIs(s, i, t, j) && j < |s| && s[j] == '&' && Closed(s, j + 1)
    ensures LineIs(s, i, TBack(t), j + 1)
  {
    SymbolToken(s, j);
    var c := ParsePipe(s, i).value;
    BacksNone(s, j + 1, Back(c));
    assert Backs(s, j, c) == Done(Back(c), j + 1);
  }

  /** A printed tree starts with no blank. */
  lemma PrintStart(t: Tree, s: string, i: nat)
    requires Good(t) && At(s, i, Print(t)) && Closed(s, i + |Print(t)|)
    ensures NoSpace(s, i)
  {
    match t
    case TExec(ws) =>
      var e := i + |Join(ws)|;
      JoinLaid(s, i, ws, e);
      LaidStart(s, i, ws, e);
    case TRedir(d, file, out) => AtSplit(s, i, Paren(Print(d)), (if out then ">" else "<") + file); AtParen(s, i, Print(d));
    case TPipe(l, r) => AtSplit(s, i, Paren(Print(l)), "|" + Paren(Print(r))); AtParen(s, i, Print(l));
    case TList(l, r) => AtSplit(s, i, Paren(Print(l)), ";" + Paren(Print(r))); AtParen(s, i, Print(l));
    case TBack(d) => AtSplit(s, i, Paren(Print(d)), "&"); AtParen(s, i, Print(d));
  }

  /** An operand: a printed tree in parentheses. */
  lemma {:induction false} Operand(t: Tree, s: string, i: nat, j: nat)
    requires Good(t) && At(s, i, Paren(Print(t))) && j == i + |Paren(Print(t))|
    ensures Enclosed(s, i, t, j)
    decreases t, 2
  {
    AtParen(s, i, Print(t));
    PrintStart(t, s, i + 1);
    LineOf(t, s, i + 1, j - 1);
  }

  /** An operand, a separator, and something after it. */
  lemma Separated(s: string, i: nat, p: string, sep: string, q: string, j: nat)
    requires At(s, i, Paren(p) + (sep + q)) && |sep| == 1 && j == i + |Paren(p)|
    ensures At(s, i, Paren(p)) && j < |s| && s[j] == sep[0] && At(s, j + 1, q)
  {
    AtSplit(s, i, Paren(p), sep + q);
    AtSplit(s, j, sep, q);
    assert s[j] == s[j..j + 1][0];
  }

  /** The second operand of a pipe or a list, which ends the line. */
  lemma {:induction false} LastOperand(t: Tree, s: string, i: nat, e: nat)
    requires Good(t) && At(s, i, Paren(Print(t))) && e == i + |Paren(Print(t))| && Closed(s, e)
    ensures PipeIs(s, i, t, e) && LineIs(s, i, t, e) && NoSpace(s, i)
    decreases t, 3
  {
    Operand(t, s, i, e);
    Block(s, i, t, e);
    PipePlain(s, i, t, e);
    LinePlain(s, i, t, e);
  }

  lemma RedirLine(s: string, i: nat, d: Tree, j: nat, file: string, out: bool, e: nat)
    requires Enclosed(s, i, d, j) && j < |s| && s[j] == (if out then '>' else '<')
    requires IsWord(file) && At(s, j + 1, file) && e == j + 1 + |file| && Closed(s, e)
    ensures LineIs(s, i, TRedir(d, file, out), e)
  {
    OneRedir(s, j, file, out, e);
    BlockRedir(s, i, d, j, Redirection(Span(j + 1, e), out), file, e);
    PipePlain(s, i, TRedir(d, file, out), e);
    LinePlain(s, i, TRedir(d, file, out), e);
  }

  lemma PipeLine(s: string, i: nat, l: Tree, j: nat, r: Tree, e: nat)
    requires Enclosed(s, i, l, j) && j < |s| && s[j] == '|' && NoSpace(s, j + 1) && PipeIs(s, j + 1, r, e) && Closed(s, e)
    ensures LineIs(s, i, TPipe(l, r), e)
  {
    Block(s, i, l, j);
    PipeTwo(s, i, l, j, r, e);
    LinePlain(s, i, TPipe(l, r), e);
  }

  lemma ListLine(s: string, i: nat, l: Tree, j: nat, r: Tree, e: nat)
    requires Enclosed(s, i, l, j) && j < |s| && s[j] == ';' && NoSpace(s, j + 1) && LineIs(s, j + 1, r, e)
    ensures LineIs(s, i, TList(l, r), e)
  {
    Block(s, i, l, j);
    PipePlain(s, i, l, j);
    LineTwo(s, i, l, j, r, e);
  }

  lemma BackLine(s: string, i: nat, d: Tree, j: nat)
    requires Enclosed(s, i, d, j) && j < |s| && s[j] == '&' && Closed(s, j + 1)
    ensures LineIs(s, i, TBack(d), j + 1)
  {
    Block(s, i, d, j);
    PipePlain(s, i, d, j);
    LineBack(s, i, d, j);
  }

  lemma ExecLine(ws: seq<string>, s: string, i: nat, e: nat)
    requires Good(TExec(ws)) && At(s, i, Join(ws)) && e == i + |Join(ws)| && Closed(s, e)
    ensures LineIs(s, i, TExec(ws), e)
  {
    JoinLaid(s, i, ws, e);
    ExecOf(ws, s, i, e);
    PipePlain(s, i, TExec(ws), e);
    LinePlain(s, i, TExec(ws), e);
  }

  /** Both operands of a pipe or a list. */
  lemma {:induction false} BothOperands(t: Tree, s: string, i: nat, p: string, q: string, sep: char, j: nat, e: nat)
    requires (t.TPipe? || t.TList?) && Good(t.l) && Good(t.r) && p == Print(t.l) && q == Paren(Print(t.r))
    requires At(s, i, Paren(p)) && j == i + |Paren(p)| && j < |s| && s[j] == sep && At(s, j + 1, q) && e == j + 1 + |q| && Closed(s, e)
    ensures Enclosed(s, i, t.l, j) && NoSpace(s, j + 1)
    ensures PipeIs(s, j + 1, t.r, e) && LineIs(s, j + 1, t.r, e)
    decreases t, 0
  {
    Operand(t.l, s, i, j);
    LastOperand(t.r, s, j + 1, e);
  }

  lemma {:induction false} LineOf(t: Tree, s: string, i: nat, e: nat)
    requires Good(t) && At(s, i, Print(t)) && e == i + |Print(t)| && Closed(s, e)
    ensures LineIs(s, i, t, e)
    decreases t, 1
  {
    match t
    case TExec(ws) =>
      ExecLine(ws, s, i, e);
    case TRedir(d, file, out) =>
      var j := i + |Paren(Print(d))|;
      Separated(s, i, Print(d), if out then ">" else "<", file, j);
      Operand(d, s, i, j);
      RedirLine(s, i, d, j, file, out, e);
    case TPipe(l, r) =>
      var j := i + |Paren(Print(l))|;
      Separated(s, i, Print(l), "|", Paren(Print(r)), j);
      BothOperands(t, s, i, Print(l), Paren(Print(r)), '|', j, e);
      PipeLine(s, i, l, j, r, e);
    case TList(l, r) =>
      var j := i + |Paren(Print(l))|;
      Separated(s, i, Print(l), ";", Paren(Print(r)), j);
      BothOperands(t, s, i, Print(l), Paren(Print(r)), ';', j, e);
      ListLine(s, i, l, j, r, e);
    case TBack(d) =>
      var j := i + |Paren(Print(d))|;
      assert "&" + [] == "&";
      Separated(s, i, Print(d), "&", [], j);
      Operand(d, s, i, j);
      BackLine(s, i, d, j);
  }

  /** Parsing the print of a command tree gives the tree back. */
  lemma RoundTrip(t: Tree)
    requires Good(t)
    ensures ParseCmd(Print(t)).Done? && Read(Print(t), ParseCmd(Print(t)).value) == t
  {
    var s := Print(t);
    var i: nat := 0;
    assert s[i..i + |s|] == s;
    LineOf(t, s, i, |s|);
  }
}
