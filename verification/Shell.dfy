/** The shell's parser (sh.c). A line is the characters before its terminating NUL; commands record
    words as pairs of positions in the line. A panic of the parser is the result Panic. */
module Shell {
  const MAXARGS: nat := 10

  predicate Space(c: char) { c == ' ' || c == '\t' || c == '\r' || c == '\n' || c == '\U{000B}' }
  predicate Symbol(c: char) { c == '<' || c == '|' || c == '>' || c == '&' || c == ';' || c == '(' || c == ')' }
  predicate WordChar(c: char) { !Space(c) && !Symbol(c) }

  // ---------------------------------------------------------------- tokens

  /** Past whitespace. */
  function Skip(s: string, i: nat): (j: nat)
    requires i <= |s|
    ensures i <= j <= |s| && (j < |s| ==> !Space(s[j]))
    decreases |s| - i
  {
    if i < |s| && Space(s[i]) then Skip(s, i + 1) else i
  }

  /** Past the characters of a word. */
  function WordEnd(s: string, i: nat): (j: nat)
    requires i <= |s|
    ensures i <= j <= |s| && (j < |s| ==> !WordChar(s[j])) && (forall k :: i <= k < j ==> WordChar(s[k]))
    decreases |s| - i
  {
    if i < |s| && WordChar(s[i]) then WordEnd(s, i + 1) else i
  }

  /** A token: its kind ('a' for a word, '+' for >>, NUL at the end), its text, and what follows. */
  datatype Token = Token(kind: char, q: nat, eq: nat, next: nat)

  function GetToken(s: string, i: nat): (t: Token)
    requires i <= |s|
    ensures i <= t.q <= t.eq <= t.next <= |s|
    ensures t.kind == '\0' <==> t.q == |s|
    ensures t.kind != '\0' ==> t.q < t.eq
    ensures t.kind == 'a' ==> WordSpan(s, Span(t.q, t.eq))
  {
    var q := Skip(s, i);
    if q == |s| then Token('\0', q, q, q)
    else if s[q] == '>' then
      if q + 1 < |s| && s[q + 1] == '>' then Token('+', q, q + 2, Skip(s, q + 2)) else Token('>', q, q + 1, Skip(s, q + 1))
    else if Symbol(s[q]) then Token(s[q], q, q + 1, Skip(s, q + 1))
    else Token('a', q, WordEnd(s, q), Skip(s, WordEnd(s, q)))
  }

  /** peek: whether the next character, past whitespace, is one of toks. */
  predicate Peek(s: string, i: nat, toks: set<char>)
    requires i <= |s|
  {
    Skip(s, i) < |s| && s[Skip(s, i)] in toks
  }

  // ---------------------------------------------------------------- commands

  datatype Span = Span(q: nat, eq: nat)

  datatype Cmd =
    | Exec(argv: seq<Span>)
    | Redir(cmd: Cmd, file: Span, out: bool)
    | Pipe(left: Cmd, right: Cmd)
    | List(left: Cmd, right: Cmd)
    | Back(cmd: Cmd)

  /** A whole word of the line: not empty, and not part of a longer one at its end. */
  predicate WordSpan(s: string, w: Span) {
    && w.q < w.eq <= |s| && (forall k :: w.q <= k < w.eq ==> WordChar(s[k]))
    && (w.eq < |s| ==> !WordChar(s[w.eq]))
  }

  datatype Redirection = Redirection(file: Span, out: bool)

  /** redircmd around redircmd: the first redirection is innermost. */
  function Wrap(c: Cmd, rs: seq<Redirection>): Cmd
    decreases |rs|
  {
    if rs == [] then c else Redir(Wrap(c, rs[..|rs| - 1]), rs[|rs| - 1].file, rs[|rs| - 1].out)
  }

  /** Every word recorded in a command is a whole word of the line. */
  predicate Spelled(s: string, c: Cmd) {
    match c
    case Exec(argv) => forall k :: 0 <= k < |argv| ==> WordSpan(s, argv[k])
    case Redir(d, file, out) => Spelled(s, d) && WordSpan(s, file)
    case Pipe(l, r) => Spelled(s, l) && Spelled(s, r)
    case List(l, r) => Spelled(s, l) && Spelled(s, r)
    case Back(d) => Spelled(s, d)
  }

  lemma {:induction false} WrapSpelled(s: string, c: Cmd, rs: seq<Redirection>)
    requires Spelled(s, c) && forall k :: 0 <= k < |rs| ==> WordSpan(s, rs[k].file)
    ensures Spelled(s, Wrap(c, rs))
    decreases |rs|
  {
    if rs != [] { WrapSpelled(s, c, rs[..|rs| - 1]); }
  }

  datatype Result<T> = Done(value: T, pos: nat) | Panic

  // ---------------------------------------------------------------- the parser

  /** parseredirs: any number of <file, >file, >>file. */
  function Redirs(s: string, i: nat): (r: Result<seq<Redirection>>)
    requires i <= |s|
    ensures r.Done? ==> i <= r.pos <= |s| && forall k :: 0 <= k < |r.value| ==> WordSpan(s, r.value[k].file)
    decreases |s| - i
  {
    if !Peek(s, i, {'<', '>'}) then Done([], Skip(s, i))
    else
      var t := GetToken(s, i);
      var f := GetToken(s, t.next);
      if f.kind != 'a' then Panic
      else
        var rest := Redirs(s, f.next);
        if rest.Panic? then Panic else Done([Redirection(Span(f.q, f.eq), t.kind != '<')] + rest.value, rest.pos)
  }

  datatype Simple = Simple(words: seq<Span>, redirs: seq<Redirection>)

  predicate SimpleOk(s: string, c: Simple) {
    && (forall k :: 0 <= k < |c.words| ==> WordSpan(s, c.words[k]))
    && (forall k :: 0 <= k < |c.redirs| ==> WordSpan(s, c.redirs[k].file))
  }

  /** parseexec's loop, argc words having been read. */
  function Args(s: string, i: nat, argc: nat): (r: Result<Simple>)
    requires i <= |s|
    ensures r.Done? ==> i <= r.pos <= |s| && SimpleOk(s, r.value)
    decreases |s| - i
  {
    if Peek(s, i, {'|', ')', '&', ';'}) then Done(Simple([], []), Skip(s, i))
    else
      var t := GetToken(s, i);
      if t.kind == '\0' then Done(Simple([], []), t.next)
      else if t.kind != 'a' || argc + 1 >= MAXARGS then Panic
      else
        var rs := Redirs(s, t.next);
        if rs.Panic? then Panic
        else
          var rest := Args(s, rs.pos, argc + 1);
          if rest.Panic? then Panic
          else Done(Simple([Span(t.q, t.eq)] + rest.value.words, rs.value + rest.value.redirs), rest.pos)
  }

  function ParseExec(s: string, i: nat): (r: Result<Cmd>)
    requires i <= |s|
    ensures r.Done? ==> i <= r.pos <= |s| && Spelled(s, r.value)
    decreases |s| - i, 1
  {
    if Peek(s, i, {'('}) then ParseBlock(s, i)
    else
      var rs := Redirs(s, i);
      if rs.Panic? then Panic
      else
        var a := Args(s, rs.pos, 0);
        if a.Panic? then Panic
        else
          WrapSpelled(s, Exec(a.value.words), rs.value + a.value.redirs);
          Done(Wrap(Exec(a.value.words), rs.value + a.value.redirs), a.pos)
  }

  function ParseBlock(s: string, i: nat): (r: Result<Cmd>)
    requires i <= |s| && Peek(s, i, {'('})
    ensures r.Done? ==> i <= r.pos <= |s| && Spelled(s, r.value)
    decreases |s| - i, 0
  {
    var c := ParseLine(s, GetToken(s, i).next);
    if c.Panic? || !Peek(s, c.pos, {')'}) then Panic
    else
      var rs := Redirs(s, GetToken(s, c.pos).next);
      if rs.Panic? then Panic
      else
        WrapSpelled(s, c.value, rs.value);
        Done(Wrap(c.value, rs.value), rs.pos)
  }

  function ParsePipe(s: string, i: nat): (r: Result<Cmd>)
    requires i <= |s|
    ensures r.Done? ==> i <= r.pos <= |s| && Spelled(s, r.value)
    decreases |s| - i, 2
  {
    var c := ParseExec(s, i);
    if c.Panic? || !Peek(s, c.pos, {'|'}) then c
    else
      var d := ParsePipe(s, GetToken(s, c.pos).next);
      if d.Panic? then Panic else Done(Pipe(c.value, d.value), d.pos)
  }

  /** parseline's loop over &. */
  function Backs(s: string, i: nat, c: Cmd): (r: Result<Cmd>)
    requires i <= |s| && Spelled(s, c)
    ensures r.Done? && i <= r.pos <= |s| && Spelled(s, r.value)
    decreases |s| - i
  {
    if Peek(s, i, {'&'}) then Backs(s, GetToken(s, i).next, Back(c)) else Done(c, Skip(s, i))
  }

  function ParseLine(s: string, i: nat): (r: Result<Cmd>)
    requires i <= |s|
    ensures r.Done? ==> i <= r.pos <= |s| && Spelled(s, r.value)
    decreases |s| - i, 3
  {
    var p := ParsePipe(s, i);
    if p.Panic? then Panic
    else
      var c := Backs(s, p.pos, p.value);
      if !Peek(s, c.pos, {';'}) then c
      else
        var d := ParseLine(s, GetToken(s, c.pos).next);
        if d.Panic? then Panic else Done(List(c.value, d.value), d.pos)
  }

  /** parsecmd: the whole line must be used up. */
  function ParseCmd(s: string): Result<Cmd> {
    var c := ParseLine(s, 0);
    if c.Panic? || Skip(s, c.pos) != |s| then Panic else c
  }

  // ---------------------------------------------------------------- the loops

  /** gettoken. */
  method Gettoken(s: string, i: nat) returns (t: Token)
    requires i <= |s|
    ensures t == GetToken(s, i)
  {
    var q := SkipSpace(s, i);
    var p, kind := q, 'a';
    if q == |s| {
      return Token('\0', q, q, q);
    }
    match s[q] {
      case '|' | '(' | ')' | ';' | '&' | '<' =>
        kind, p := s[q], q + 1;
      case '>' =>
        kind, p := '>', q + 1;
        if p < |s| && s[p] == '>' {
          kind, p := '+', p + 1;
        }
      case _ =>
        while p < |s| && !Space(s[p]) && !Symbol(s[p])
          invariant q <= p <= |s| && WordEnd(s, p) == WordEnd(s, q)
        {
          p := p + 1;
        }
    }
    var next := SkipSpace(s, p);
    t := Token(kind, q, p, next);
  }

  method SkipSpace(s: string, i: nat) returns (j: nat)
    requires i <= |s|
    ensures j == Skip(s, i)
  {
    j := i;
    while j < |s| && Space(s[j])
      invariant i <= j <= |s| && Skip(s, j) == Skip(s, i)
    {
      j := j + 1;
    }
  }

  /** Redirections already seen, before those still to come. */
  ghost function After(seen: seq<Redirection>, r: Result<seq<Redirection>>): Result<seq<Redirection>> {
    if r.Panic? then Panic else Done(seen + r.value, r.pos)
  }

  lemma AfterNext(seen: seq<Redirection>, one: Redirection, r: Result<seq<Redirection>>)
    ensures After(seen, After([one], r)) == After(seen + [one], r) && After([], r) == r
  {
    if r.Done? {
      assert seen + ([one] + r.value) == (seen + [one]) + r.value;
      assert [] + r.value == r.value;
    }
  }

  /** parseredirs. */
  method Redirlist(s: string, i: nat) returns (r: Result<seq<Redirection>>)
    requires i <= |s|
    ensures r == Redirs(s, i)
  {
    var p := i;
    var seen: seq<Redirection> := [];
    AfterNext([], Redirection(Span(0, 0), false), Redirs(s, i));
    while Peek(s, p, {'<', '>'})
      invariant i <= p <= |s| && Redirs(s, i) == After(seen, Redirs(s, p))
      decreases |s| - p
    {
      var t := Gettoken(s, p);
      var f := Gettoken(s, t.next);
      if f.kind != 'a' {
        return Panic;
      }
      var one := Redirection(Span(f.q, f.eq), t.kind != '<');
      AfterNext(seen, one, Redirs(s, f.next));
      seen := seen + [one];
      p := f.next;
    }
    assert seen + [] == seen;
    p := SkipSpace(s, p);
    r := Done(seen, p);
  }

  /** Words and redirections already seen, before those still to come. */
  ghost function Joined(a: Simple, r: Result<Simple>): Result<Simple> {
    if r.Panic? then Panic else Done(Simple(a.words + r.value.words, a.redirs + r.value.redirs), r.pos)
  }

  lemma JoinedNext(a: Simple, b: Simple, r: Result<Simple>)
    ensures Joined(a, Joined(b, r)) == Joined(Simple(a.words + b.words, a.redirs + b.redirs), r)
  {
    if r.Done? {
      assert a.words + (b.words + r.value.words) == (a.words + b.words) + r.value.words;
      assert a.redirs + (b.redirs + r.value.redirs) == (a.redirs + b.redirs) + r.value.redirs;
    }
  }

  lemma JoinedFirst(a: Simple, r: Result<Simple>)
    requires a.words == [] && a.redirs == []
    ensures Joined(a, r) == r
  {
    if r.Done? { assert a.words + r.value.words == r.value.words && a.redirs + r.value.redirs == r.value.redirs; }
  }

  /** One round of parseexec's loop. */
  lemma ArgsStep(s: string, p: nat, argc: nat, t: Token, rs: Result<seq<Redirection>>)
    requires p <= |s| && !Peek(s, p, {'|', ')', '&', ';'}) && t == GetToken(s, p) && t.kind == 'a' && rs == Redirs(s, t.next)
    ensures argc + 1 >= MAXARGS || rs.Panic? ==> Args(s, p, argc).Panic?
    ensures argc + 1 < MAXARGS && rs.Done? ==>
      Args(s, p, argc) == Joined(Simple([Span(t.q, t.eq)], rs.value), Args(s, rs.pos, argc + 1))
  {
  }

  datatype Round = Stop(pos: nat) | Bad | Word(w: Span, rs: seq<Redirection>, pos: nat)

  method ArgsRound(s: string, p: nat, argc: nat) returns (r: Round)
    requires p <= |s|
    ensures match r
      case Stop(pos) => Args(s, p, argc) == Done(Simple([], []), pos)
      case Bad => Args(s, p, argc).Panic?
      case Word(w, rs, pos) => p < pos <= |s| && Args(s, p, argc) == Joined(Simple([w], rs), Args(s, pos, argc + 1))
  {
    if Peek(s, p, {'|', ')', '&', ';'}) {
      var q := SkipSpace(s, p);
      return Stop(q);
    }
    var t := Gettoken(s, p);
    if t.kind == '\0' {
      return Stop(t.next);
    }
    if t.kind != 'a' {
      return Bad;
    }
    var rs := Redirlist(s, t.next);
    ArgsStep(s, p, argc, t, rs);
    if argc + 1 >= MAXARGS || rs.Panic? {
      return Bad;
    }
    r := Word(Span(t.q, t.eq), rs.value, rs.pos);
  }

  /** parseexec's loop: words are collected, and redirections between them. */
  method Parseargs(s: string, i: nat) returns (r: Result<Simple>)
    requires i <= |s|
    ensures r == Args(s, i, 0)
  {
    var p, argc: nat := i, 0;
    ghost var all := Args(s, p, argc);
    var words: seq<Span>, redirs: seq<Redirection> := [], [];
    JoinedFirst(Simple(words, redirs), all);
    while true
      invariant i <= p <= |s| && all == Joined(Simple(words, redirs), Args(s, p, argc))
      decreases |s| - p
    {
      var round := ArgsRound(s, p, argc);
      match round {
        case Stop(pos) => return FinishArgs(words, redirs, pos);
        case Bad => return Panic;
        case Word(w, rs, pos) =>
          JoinedNext(Simple(words, redirs), Simple([w], rs), Args(s, pos, argc + 1));
          words, redirs, argc, p := words + [w], redirs + rs, argc + 1, pos;
      }
    }
  }

  function FinishArgs(words: seq<Span>, redirs: seq<Redirection>, p: nat): (r: Result<Simple>)
    ensures r == Joined(Simple(words, redirs), Done(Simple([], []), p))
  {
    assert words + [] == words && redirs + [] == redirs;
    Done(Simple(words, redirs), p)
  }

  // ---------------------------------------------------------------- nulterminate

  /** The buffer after nulterminate has put a NUL at the end of every recorded word. */
  function Cut(b: seq<char>, c: Cmd): (r: seq<char>)
    ensures |r| == |b|
    decreases c
  {
    match c
    case Exec(argv) => CutWords(b, argv)
    case Redir(d, file, out) => CutAt(Cut(b, d), file.eq)
    case Pipe(l, r) => Cut(Cut(b, l), r)
    case List(l, r) => Cut(Cut(b, l), r)
    case Back(d) => Cut(b, d)
  }

  function CutAt(b: seq<char>, k: nat): (r: seq<char>)
    ensures |r| == |b|
  {
    if k < |b| then b[k := '\0'] else b
  }

  function CutWords(b: seq<char>, argv: seq<Span>): (r: seq<char>)
    ensures |r| == |b|
  {
    if argv == [] then b else CutAt(CutWords(b, argv[..|argv| - 1]), argv[|argv| - 1].eq)
  }

  /** nulterminate itself. */
  method Nulterminate(buf: array<char>, c: Cmd)
    modifies buf
    ensures buf[..] == Cut(old(buf[..]), c)
    decreases c
  {
    match c
    case Exec(argv) =>
      var i := 0;
      while i < |argv|
        invariant 0 <= i <= |argv| && buf[..] == CutWords(old(buf[..]), argv[..i])
      {
        if argv[i].eq < buf.Length {
          buf[argv[i].eq] := '\0';
        }
        assert argv[..i + 1][..i] == argv[..i];
        i := i + 1;
      }
      assert argv[..|argv|] == argv;
    case Redir(d, file, out) =>
      Nulterminate(buf, d);
      if file.eq < buf.Length {
        buf[file.eq] := '\0';
      }
    case Pipe(l, r) =>
      Nulterminate(buf, l);
      Nulterminate(buf, r);
    case List(l, r) =>
      Nulterminate(buf, l);
      Nulterminate(buf, r);
    case Back(d) =>
      Nulterminate(buf, d);
  }

  /** Word w is recorded in the command. */
  predicate Records(c: Cmd, w: Span) {
    match c
    case Exec(argv) => w in argv
    case Redir(d, file, out) => Records(d, w) || w == file
    case Pipe(l, r) => Records(l, w) || Records(r, w)
    case List(l, r) => Records(l, w) || Records(r, w)
    case Back(d) => Records(d, w)
  }

  lemma {:induction false} CutWordsKeeps(b: seq<char>, argv: seq<Span>, k: nat)
    requires k < |b|
    ensures CutWords(b, argv)[k] == b[k] || (CutWords(b, argv)[k] == '\0' && exists j :: 0 <= j < |argv| && argv[j].eq == k)
    ensures (b[k] == '\0' || exists j :: 0 <= j < |argv| && argv[j].eq == k) ==> CutWords(b, argv)[k] == '\0'
    decreases |argv|
  {
    if argv != [] {
      var n := |argv| - 1;
      CutWordsKeeps(b, argv[..n], k);
      assert forall j :: 0 <= j < n ==> argv[..n][j] == argv[j];
    }
  }

  /** Cutting changes only characters at the ends of recorded words, none of which is inside a
      word of the line, and it does put a NUL at each of them. */
  lemma {:induction false} CutKeeps(s: string, b: seq<char>, c: Cmd, k: nat)
    requires Spelled(s, c) && |b| == |s| + 1 && k <= |s|
    ensures k < |s| && WordChar(s[k]) ==> Cut(b, c)[k] == b[k]
    ensures b[k] == '\0' ==> Cut(b, c)[k] == '\0'
    decreases c
  {
    match c
    case Exec(argv) => CutWordsKeeps(b, argv, k);
    case Redir(d, file, out) => CutKeeps(s, b, d, k);
    case Pipe(l, r) => CutKeeps(s, b, l, k); CutKeeps(s, Cut(b, l), r, k);
    case List(l, r) => CutKeeps(s, b, l, k); CutKeeps(s, Cut(b, l), r, k);
    case Back(d) => CutKeeps(s, b, d, k);
  }

  lemma {:induction false} CutEnds(s: string, b: seq<char>, c: Cmd, w: Span)
    requires Spelled(s, c) && |b| == |s| + 1 && Records(c, w)
    ensures WordSpan(s, w) && Cut(b, c)[w.eq] == '\0'
    decreases c
  {
    match c
    case Exec(argv) =>
      var j :| 0 <= j < |argv| && argv[j] == w;
      CutWordsKeeps(b, argv, w.eq);
    case Redir(d, file, out) => if Records(d, w) { CutEnds(s, b, d, w); }
    case Pipe(l, r) =>
      if Records(r, w) { CutEnds(s, Cut(b, l), r, w); } else { CutEnds(s, b, l, w); CutKeeps(s, Cut(b, l), r, w.eq); }
    case List(l, r) =>
      if Records(r, w) { CutEnds(s, Cut(b, l), r, w); } else { CutEnds(s, b, l, w); CutKeeps(s, Cut(b, l), r, w.eq); }
    case Back(d) => CutEnds(s, b, d, w);
  }

  /** The C string at position q: the characters before the next NUL. */
  function CString(b: seq<char>, q: nat): string
    requires q <= |b|
    decreases |b| - q
  {
    if q == |b| || b[q] == '\0' then [] else [b[q]] + CString(b, q + 1)
  }

  lemma {:induction false} CStringIs(b: seq<char>, s: string, q: nat, e: nat)
    requires q <= e < |b| && e <= |s| && b[e] == '\0' && forall k :: q <= k < e ==> b[k] == s[k] && s[k] != '\0'
    ensures CString(b, q) == s[q..e]
    decreases e - q
  {
    if q < e { CStringIs(b, s, q + 1, e); }
  }

  /** After parsing and nulterminate, every recorded word read as a C string is its token: no NUL
      written for one word falls inside another. */
  lemma WordsTerminated(s: string, c: Result<Cmd>, w: Span)
    requires c == ParseCmd(s) && c.Done? && Records(c.value, w) && '\0' !in s
    ensures w.q < w.eq <= |s| && CString(Cut(s + ['\0'], c.value), w.q) == s[w.q..w.eq]
  {
    var b := s + ['\0'];
    CutEnds(s, b, c.value, w);
    var r := Cut(b, c.value);
    forall k | w.q <= k < w.eq ensures r[k] == s[k] && s[k] != '\0' {
      CutKeeps(s, b, c.value, k);
    }
    CStringIs(r, s, w.q, w.eq);
  }
}
