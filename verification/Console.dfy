/** The console's line discipline (console.c): a ring of typed characters with a read index, a
    write index up to which lines are complete, and an edit index. */
module Console {
  import opened Ring

  const INPUT_BUF: nat := 128
  const CTRL_D: int := 4
  const CTRL_H: int := 8
  const CTRL_P: int := 16
  const CTRL_U: int := 21
  const DEL: int := 0x7f
  const NL: int := 10
  const CR: int := 13

  // ---------------------------------------------------------------- the discipline on values

  /** What readers may take, and the line being edited. */
  datatype Line = Line(committed: seq<int>, editing: seq<int>)

  function Total(l: Line): nat { |l.committed| + |l.editing| }

  /** The ring is never overfull, a full ring is fully committed, and the line being edited
      contains nothing that ends a line. */
  predicate LineOk(l: Line) {
    && Total(l) <= INPUT_BUF && (Total(l) == INPUT_BUF ==> l.editing == [])
    && NL !in l.editing && CTRL_D !in l.editing
  }

  function Newline(c: int): int { if c == CR then NL else c }

  /** One typed character. */
  function Typed(l: Line, c: int): Line {
    if c == CTRL_P then l
    else if c == CTRL_U then l.(editing := [])
    else if c == CTRL_H || c == DEL then
      if l.editing == [] then l else l.(editing := l.editing[..|l.editing| - 1])
    else if c != 0 && Total(l) < INPUT_BUF then
      var now := l.editing + [Newline(c)];
      if Newline(c) == NL || Newline(c) == CTRL_D || Total(l) + 1 == INPUT_BUF
      then Line(l.committed + now, []) else l.(editing := now)
    else l
  }

  lemma TypedOk(l: Line, c: int)
    requires LineOk(l)
    ensures LineOk(Typed(l, c)) && l.committed <= Typed(l, c).committed
  {
  }

  /** A character that is accepted without ending the line is undone by a backspace. */
  lemma BackspaceUndoes(l: Line, c: int)
    requires LineOk(l) && c !in [0, CTRL_P, CTRL_U, CTRL_H, DEL, CTRL_D, NL, CR] && Total(l) + 1 < INPUT_BUF
    ensures Typed(Typed(l, c), CTRL_H) == l
  {
    assert (l.editing + [c])[..|l.editing|] == l.editing;
  }

  datatype Delivery = Delivery(dst: seq<int>, rest: seq<int>, returned: bool, eof: bool)

  /** consoleread's loop on committed characters, when n of the target bytes are still wanted:
      it stops after a newline, at the end of the request, or at a ^D; it sleeps when it runs
      out of characters. A ^D is taken only by a call that has read nothing. */
  function Deliver(committed: seq<int>, n: nat, target: nat): Delivery
    decreases n
  {
    if n == 0 then Delivery([], committed, true, false)
    else if committed == [] then Delivery([], [], false, false)
    else if committed[0] == CTRL_D then
      if n < target then Delivery([], committed, true, false) else Delivery([], committed[1..], true, true)
    else if committed[0] == NL then Delivery([NL], committed[1..], true, false)
    else
      var d := Deliver(committed[1..], n - 1, target);
      d.(dst := [committed[0]] + d.dst)
  }

  /** What a delivery removes from the committed characters. */
  function Taken(d: Delivery): seq<int> { d.dst + if d.eof then [CTRL_D] else [] }

  /** A delivery takes the first characters, in order and unchanged, and no ^D but the one that
      ends a call with nothing read. */
  lemma {:induction false} DeliverPrefix(committed: seq<int>, n: nat, target: nat)
    requires n <= target
    ensures var d := Deliver(committed, n, target);
      && committed == Taken(d) + d.rest && |d.dst| <= n && CTRL_D !in d.dst
      && (d.eof ==> d.dst == [] && n == target && d.returned)
    decreases n
  {
    if n > 0 && committed != [] && committed[0] != CTRL_D && committed[0] != NL {
      DeliverPrefix(committed[1..], n - 1, target);
      var d := Deliver(committed[1..], n - 1, target);
      assert committed == [committed[0]] + committed[1..];
      assert Taken(d.(dst := [committed[0]] + d.dst)) == [committed[0]] + Taken(d);
    }
  }

  /** A call with room that returns nothing has met a ^D; one that sleeps has taken all there was;
      and one that returns early, but for a newline, has left a ^D. */
  lemma {:induction false} DeliverStops(committed: seq<int>, n: nat, target: nat)
    requires n <= target
    ensures var d := Deliver(committed, n, target);
      && (d.returned && d.dst == [] && n == target && n > 0 ==> d.eof)
      && (!d.returned ==> d.rest == [] && |d.dst| < n)
      && (d.returned && !d.eof && |d.dst| < n && (d.dst == [] || d.dst[|d.dst| - 1] != NL) ==> d.rest != [] && d.rest[0] == CTRL_D)
    decreases n
  {
    if n > 0 && committed != [] && committed[0] != CTRL_D && committed[0] != NL {
      DeliverStops(committed[1..], n - 1, target);
    }
  }

  lemma {:induction false} DeliverUpTo(a: seq<int>, b: seq<int>, n: nat, target: nat)
    requires NL !in a && CTRL_D !in a && |a| < n <= target && (a == [] ==> n < target)
    ensures Deliver(a + [CTRL_D] + b, n, target) == Delivery(a, [CTRL_D] + b, true, false)
    decreases n
  {
    var all := a + [CTRL_D] + b;
    if a == [] {
      assert all == [CTRL_D] + b;
    } else {
      assert all[1..] == a[1..] + [CTRL_D] + b;
      DeliverUpTo(a[1..], b, n - 1, target);
    }
  }

  /** Data typed before a ^D, then the end of file: a call with room for the data returns exactly
      it, the next call, whatever its size, returns nothing, and the one after goes on behind the
      ^D. */
  lemma EofAfterData(a: seq<int>, b: seq<int>, target: nat, again: nat)
    requires a != [] && NL !in a && CTRL_D !in a && |a| < target && again > 0
    ensures var first := Deliver(a + [CTRL_D] + b, target, target);
      var second := Deliver(first.rest, again, again);
      first.returned && first.dst == a && second.returned && second.dst == [] && second.rest == b
  {
    DeliverUpTo(a, b, target, target);
    assert ([CTRL_D] + b)[1..] == b;
  }

  // ---------------------------------------------------------------- runs

  /** A key, or one run of a reader's loop between two sleeps. */
  datatype Event = Key(c: int) | Reader(n: nat, target: nat)

  function Next(l: Line, e: Event): Line {
    match e
    case Key(c) => Typed(l, c)
    case Reader(n, target) => l.(committed := Deliver(l.committed, n, target).rest)
  }

  function After(l: Line, es: seq<Event>): Line
    decreases |es|
  {
    if es == [] then l else After(Next(l, es[0]), es[1..])
  }

  function Commits(l: Line, e: Event): seq<int> {
    if e.Key? && |l.committed| <= |Typed(l, e.c).committed| then Typed(l, e.c).committed[|l.committed|..] else []
  }

  /** The characters that keys commit during a run. */
  function Committed(l: Line, es: seq<Event>): seq<int>
    decreases |es|
  {
    if es == [] then [] else Commits(l, es[0]) + Committed(Next(l, es[0]), es[1..])
  }

  function Takes(l: Line, e: Event): seq<int> {
    if e.Reader? then Taken(Deliver(l.committed, e.n, e.target)) else []
  }

  /** The characters that readers take during a run, in the order in which they take them. */
  function Received(l: Line, es: seq<Event>): seq<int>
    decreases |es|
  {
    if es == [] then [] else Takes(l, es[0]) + Received(Next(l, es[0]), es[1..])
  }

  predicate Sensible(es: seq<Event>) { forall i :: 0 <= i < |es| && es[i].Reader? ==> es[i].n <= es[i].target }

  /** For every interleaving of keys and readers: what readers receive is exactly what was
      committed, in order, nothing lost and nothing twice; the rest is still in the ring. */
  lemma {:induction false} InOrder(l: Line, es: seq<Event>)
    requires LineOk(l) && Sensible(es)
    ensures l.committed + Committed(l, es) == Received(l, es) + After(l, es).committed && LineOk(After(l, es))
    decreases |es|
  {
    if es != [] {
      var m, rest := Next(l, es[0]), es[1..];
      match es[0] {
        case Key(c) =>
          TypedOk(l, c);
          InOrder(m, rest);
          KeyInOrder(l.committed, m.committed, Committed(m, rest));
        case Reader(n, target) =>
          DeliverPrefix(l.committed, n, target);
          InOrder(m, rest);
          ReaderInOrder(Taken(Deliver(l.committed, n, target)), m.committed, Committed(m, rest), Received(m, rest), After(m, rest).committed);
      }
    }
  }

  /** A call returns with nothing read, before this stretch of its loop or in it. */
  predicate EmptyReturn(l: Line, e: Event) {
    e.Reader? && e.n == e.target > 0 && var d := Deliver(l.committed, e.n, e.target); d.returned && d.dst == []
  }

  function EmptyReturns(l: Line, es: seq<Event>): (n: nat)
    decreases |es|
  {
    if es == [] then 0 else (if EmptyReturn(l, es[0]) then 1 else 0) + EmptyReturns(Next(l, es[0]), es[1..])
  }

  function Eofs(s: seq<int>): nat { multiset(s)[CTRL_D] }

  lemma EofsAdd(a: seq<int>, b: seq<int>)
    ensures Eofs(a + b) == Eofs(a) + Eofs(b)
  {
  }

  /** A stretch of a reader's loop takes a ^D exactly when the call returns empty. */
  lemma EofTaken(l: Line, e: Event)
    requires e.Reader? ==> e.n <= e.target
    ensures Eofs(Takes(l, e)) == if EmptyReturn(l, e) then 1 else 0
  {
    if e.Reader? {
      DeliverPrefix(l.committed, e.n, e.target);
      DeliverStops(l.committed, e.n, e.target);
      assert multiset(Deliver(l.committed, e.n, e.target).dst)[CTRL_D] == 0;
    }
  }

  lemma {:induction false} EofsReceived(l: Line, es: seq<Event>)
    requires Sensible(es)
    ensures Eofs(Received(l, es)) == EmptyReturns(l, es)
    decreases |es|
  {
    if es != [] {
      EofTaken(l, es[0]);
      EofsReceived(Next(l, es[0]), es[1..]);
    }
  }

  /** Each ^D typed ends exactly one call with nothing read: for every interleaving of keys and
      readers, sleeping ones included, the calls that return empty and the ^Ds not yet read add up
      to the ^Ds there were and those typed. */
  lemma {:induction false} OneEofEach(l: Line, es: seq<Event>)
    requires LineOk(l) && Sensible(es)
    ensures EmptyReturns(l, es) + Eofs(After(l, es).committed) == Eofs(l.committed) + Eofs(Committed(l, es))
  {
    InOrder(l, es);
    EofsReceived(l, es);
    EofsAdd(l.committed, Committed(l, es));
    EofsAdd(Received(l, es), After(l, es).committed);
  }

  lemma KeyInOrder(a: seq<int>, b: seq<int>, c: seq<int>)
    requires a <= b
    ensures a + (b[|a|..] + c) == b + c
  {
  }

  lemma ReaderInOrder(t: seq<int>, rest: seq<int>, c: seq<int>, got: seq<int>, left: seq<int>)
    requires rest + c == got + left
    ensures (t + rest) + ([] + c) == (t + got) + left
  {
    assert (t + rest) + ([] + c) == t + (rest + c) == t + (got + left);
  }

  // ---------------------------------------------------------------- the ring

  /** The ring and its three indices hold the line. */
  ghost predicate Shows(buf: seq<int>, r: counter, w: counter, e: counter, l: Line) {
    && |buf| == INPUT_BUF && LineOk(l) && w == Plus(r, |l.committed|) && e == Plus(r, Total(l))
    && Window(buf, r, Total(l)) == l.committed + l.editing
  }

  lemma RingIndices(buf: seq<int>, r: counter, w: counter, e: counter, l: Line)
    requires Shows(buf, r, w, e, l)
    ensures Ahead(r, w) == |l.committed| && Ahead(r, e) == Total(l) && (e == w <==> l.editing == []) && (r == w <==> l.committed == [])
    ensures Plus(e, 1) == Plus(r, INPUT_BUF) <==> Total(l) + 1 == INPUT_BUF
  {
    AheadPlus(r, |l.committed|);
    AheadPlus(r, Total(l));
    PlusSame(r, |l.committed|, Total(l));
    PlusSame(r, 0, |l.committed|);
    PlusPlus(r, Total(l), 1);
    PlusSame(r, Total(l) + 1, INPUT_BUF);
  }

  lemma LastEdited(buf: seq<int>, r: counter, w: counter, e: counter, l: Line)
    requires Shows(buf, r, w, e, l) && l.editing != []
    ensures buf[Index(Back(e), INPUT_BUF)] == l.editing[|l.editing| - 1]
  {
    var n := Total(l) - 1;
    BackPlus(r, n + 1);
    WrapIndex(r, n, INPUT_BUF);
    WindowAt(buf, r, n + 1);
    assert (l.committed + l.editing)[n] == l.editing[|l.editing| - 1];
  }

  lemma FirstCommitted(buf: seq<int>, r: counter, w: counter, e: counter, l: Line)
    requires Shows(buf, r, w, e, l) && l.committed != []
    ensures buf[Index(r, INPUT_BUF)] == l.committed[0]
  {
    WindowAt(buf, r, Total(l));
    assert (l.committed + l.editing)[0] == l.committed[0];
  }

  /** Dropping the last edited character is moving the edit index back. */
  lemma EraseLast(buf: seq<int>, r: counter, w: counter, e: counter, l: Line)
    requires Shows(buf, r, w, e, l) && l.editing != []
    ensures Shows(buf, r, w, Back(e), l.(editing := l.editing[..|l.editing| - 1]))
  {
    var n := Total(l) - 1;
    BackPlus(r, n + 1);
    Split(buf, r, n, 1);
    WindowAt(buf, r, n);
    assert Window(buf, r, n) == (l.committed + l.editing)[..n];
    assert (l.committed + l.editing)[..n] == l.committed + l.editing[..|l.editing| - 1];
  }

  /** Storing a character at the edit index. */
  lemma Store(buf: seq<int>, r: counter, w: counter, e: counter, l: Line, c: int)
    requires Shows(buf, r, w, e, l) && Total(l) < INPUT_BUF
    ensures Window(buf[Index(e, INPUT_BUF) := c], r, Total(l) + 1) == l.committed + (l.editing + [c])
    ensures Plus(e, 1) == Plus(r, Total(l) + 1)
  {
    WrapIndex(r, Total(l), INPUT_BUF);
    Push(buf, r, Total(l), c);
    assert l.committed + l.editing + [c] == l.committed + (l.editing + [c]);
    PlusPlus(r, Total(l), 1);
  }

  /** An accepted character, and whether it completes the line. */
  lemma Accept(buf: seq<int>, r: counter, w: counter, e: counter, l: Line, c: int)
    requires Shows(buf, r, w, e, l) && Total(l) < INPUT_BUF && c !in [0, CTRL_P, CTRL_U, CTRL_H, DEL]
    ensures var d := Newline(c);
      var done := d == NL || d == CTRL_D || Plus(e, 1) == Plus(r, INPUT_BUF);
      Shows(buf[Index(e, INPUT_BUF) := d], r, if done then Plus(e, 1) else w, Plus(e, 1), Typed(l, c))
  {
    Store(buf, r, w, e, l, Newline(c));
    RingIndices(buf, r, w, e, l);
    var now := l.editing + [Newline(c)];
    assert l.committed + now + [] == l.committed + now;
  }

  /** Taking the first committed character. */
  lemma Fetch(buf: seq<int>, r: counter, w: counter, e: counter, l: Line)
    requires Shows(buf, r, w, e, l) && l.committed != []
    ensures Shows(buf, Plus(r, 1), w, e, l.(committed := l.committed[1..]))
  {
    var m := l.(committed := l.committed[1..]);
    Split(buf, r, 1, Total(m));
    WrapWindow(buf, r, 1, Total(m));
    WindowAt(buf, r, 1);
    assert Window(buf, r + 1, Total(m)) == (l.committed + l.editing)[1..];
    assert (l.committed + l.editing)[1..] == m.committed + m.editing;
    PlusPlus(r, 1, |m.committed|);
    PlusPlus(r, 1, Total(m));
  }

  class Input {
    var buf: seq<int>
    var r: counter
    var w: counter
    var e: counter
    ghost var line: Line

    ghost predicate Valid()
      reads this
    {
      Shows(buf, r, w, e, line)
    }

    constructor ()
      ensures Valid() && line == Line([], []) && r == w == e == 0
    {
      buf := seq(INPUT_BUF, _ => 0);
      r, w, e := 0, 0, 0;
      line := Line([], []);
    }

    /** One character of consoleintr's loop. */
    method Key(c: int)
      requires Valid()
      modifies this
      ensures Valid() && line == Typed(old(line), c) && r == old(r)
    {
      RingIndices(buf, r, w, e, line);
      if c == CTRL_P {
      } else if c == CTRL_U {
        KillLine();
      } else if c == CTRL_H || c == DEL {
        if e != w {
          EraseLast(buf, r, w, e, line);
          line := line.(editing := line.editing[..|line.editing| - 1]);
          e := Back(e);
        }
      } else if c != 0 && Ahead(r, e) < INPUT_BUF {
        var d := if c == CR then NL else c;
        Accept(buf, r, w, e, line, c);
        buf := buf[Index(e, INPUT_BUF) := d];
        e := Plus(e, 1);
        if d == NL || d == CTRL_D || e == Plus(r, INPUT_BUF) {
          w := e;
        }
        line := Typed(line, c);
      }
    }

    /** ^U: back to the start of the line being edited. */
    method KillLine()
      requires Valid()
      modifies this
      ensures Valid() && line == old(line).(editing := []) && r == old(r)
    {
      RingIndices(buf, r, w, e, line);
      if line.editing != [] { LastEdited(buf, r, w, e, line); }
      while e != w && buf[Index(Back(e), INPUT_BUF)] != NL
        invariant Valid() && r == old(r) && line == old(line).(editing := line.editing) && line.editing <= old(line.editing)
        invariant (e == w <==> line.editing == [])
        invariant line.editing != [] ==> buf[Index(Back(e), INPUT_BUF)] == line.editing[|line.editing| - 1]
        decreases |line.editing|
      {
        EraseLast(buf, r, w, e, line);
        line := line.(editing := line.editing[..|line.editing| - 1]);
        e := Back(e);
        RingIndices(buf, r, w, e, line);
        if line.editing != [] { LastEdited(buf, r, w, e, line); }
      }
    }

    /** consoleread's loop until it returns or has to sleep, n of the target bytes being wanted. */
    method Read(n: nat, target: nat) returns (dst: seq<int>, returned: bool)
      requires Valid() && n <= target
      modifies this
      ensures Valid() && line == old(line).(committed := Deliver(old(line).committed, n, target).rest)
      ensures dst == Deliver(old(line).committed, n, target).dst && returned == Deliver(old(line).committed, n, target).returned
    {
      ghost var all := Deliver(line.committed, n, target);
      dst := [];
      var left: nat := n;
      while left > 0
        invariant left <= n && Valid() && line == old(line).(committed := line.committed) && left + |dst| == n
        invariant var d := Deliver(line.committed, left, target); all == d.(dst := dst + d.dst)
        decreases left
      {
        RingIndices(buf, r, w, e, line);
        if r == w {
          return dst, false;
        }
        FirstCommitted(buf, r, w, e, line);
        var c := buf[Index(r, INPUT_BUF)];
        if c == CTRL_D {
          if left == target {
            Fetch(buf, r, w, e, line);
            r := Plus(r, 1);
            line := line.(committed := line.committed[1..]);
          }
          return dst, true;
        }
        Fetch(buf, r, w, e, line);
        r := Plus(r, 1);
        line := line.(committed := line.committed[1..]);
        ghost var d := Deliver(line.committed, left - 1, target);
        assert c != NL ==> dst + ([c] + d.dst) == dst + [c] + d.dst;
        dst := dst + [c];
        left := left - 1;
        if c == NL {
          return dst, true;
        }
      }
      returned := true;
    }
  }
}
