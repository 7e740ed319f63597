/** How outln renders statements at an indent, and the generic filters and sums over
    runs of statements that the properties are stated with. */
module Lines {
  import opened Statements

  /** The indent written before a line: n spaces. */
  function Spaces(n: nat): (r: string)
    ensures |r| == n && forall i :: 0 <= i < n ==> r[i] == ' '
  {
    seq(n, _ => ' ')
  }

  /** The lines outln writes for a run of statements at a fixed indent. */
  function Emit(ind: nat, stmts: seq<Stmt>): (r: seq<string>)
    ensures |r| == |stmts|
  {
    seq(|stmts|, i requires 0 <= i < |stmts| => Spaces(ind) + Text(stmts[i]))
  }

  /** Each emitted line is the indent followed by the statement's text. */
  lemma EmitAt(ind: nat, stmts: seq<Stmt>, i: nat)
    requires i < |stmts|
    ensures Emit(ind, stmts)[i] == Spaces(ind) + Text(stmts[i])
  {
  }

  /** Emitting two runs one after the other writes the lines of the first, then those
      of the second. */
  lemma EmitAppend(ind: nat, a: seq<Stmt>, b: seq<Stmt>)
    ensures Emit(ind, a + b) == Emit(ind, a) + Emit(ind, b)
  {
    var whole := Emit(ind, a + b);
    var parts := Emit(ind, a) + Emit(ind, b);
    forall i | 0 <= i < |whole|
      ensures whole[i] == parts[i]
    {
      EmitAt(ind, a + b, i);
      if i < |a| {
        EmitAt(ind, a, i);
        assert (a + b)[i] == a[i];
      } else {
        EmitAt(ind, b, i - |a|);
        assert (a + b)[i] == b[i - |a|];
      }
    }
  }

  /** Lines written after the lines already written extend them; the regrouping
      every emitter needs to add its own lines to a running account. */
  lemma Extend(written: seq<string>, r: seq<string>, e: seq<string>)
    ensures written + r + e == written + (r + e)
  {
  }

  /** The same regrouping, for a run written in three parts. */
  lemma Extend3<T>(written: seq<T>, a: seq<T>, b: seq<T>, c: seq<T>)
    ensures written + a + b + c == written + (a + b + c)
  {
  }

  lemma Extend4<T>(written: seq<T>, a: seq<T>, b: seq<T>, c: seq<T>, d: seq<T>)
    ensures written + a + b + c + d == written + (a + b + c + d)
  {
  }

  /** Writing a run after the runs already written extends what has been written. */
  lemma EmitMore(written: seq<string>, ind: nat, w: seq<Stmt>, x: seq<Stmt>)
    ensures written + Emit(ind, w) + Emit(ind, x) == written + Emit(ind, w + x)
  {
    EmitAppend(ind, w, x);
  }

  /** The same, for two runs written one after the other. */
  lemma EmitMore2(written: seq<string>, ind: nat, w: seq<Stmt>, x: seq<Stmt>, y: seq<Stmt>)
    ensures written + Emit(ind, w) + Emit(ind, x) + Emit(ind, y) == written + Emit(ind, w + (x + y))
  {
    EmitAppend(ind, x, y);
    EmitAppend(ind, w, x + y);
    Extend3(written, Emit(ind, w), Emit(ind, x), Emit(ind, y));
  }

  /** The elements of a run that a classifier picks out, in order. */
  function Select<T>(xs: seq<T>, keep: T -> bool): (r: seq<T>)
    ensures |r| <= |xs|
    ensures forall i :: 0 <= i < |r| ==> keep(r[i])
  {
    if xs == [] then []
    else (if keep(xs[0]) then [xs[0]] else []) + Select(xs[1..], keep)
  }

  /** The sum of a weight over a run. */
  function Total<T>(xs: seq<T>, weight: T -> int): int
  {
    if xs == [] then 0 else weight(xs[0]) + Total(xs[1..], weight)
  }

  lemma {:induction false} SelectAppend<T>(a: seq<T>, b: seq<T>, keep: T -> bool)
    ensures Select(a + b, keep) == Select(a, keep) + Select(b, keep)
  {
    if a != [] {
      assert (a + b)[1..] == a[1..] + b;
      SelectAppend(a[1..], b, keep);
    } else {
      assert a + b == b;
    }
  }

  lemma {:induction false} TotalAppend<T>(a: seq<T>, b: seq<T>, weight: T -> int)
    ensures Total(a + b, weight) == Total(a, weight) + Total(b, weight)
  {
    if a != [] {
      assert (a + b)[1..] == a[1..] + b;
      TotalAppend(a[1..], b, weight);
    } else {
      assert a + b == b;
    }
  }

  /** Nothing is selected from a run none of whose elements is kept. */
  lemma {:induction false} SelectNone<T>(xs: seq<T>, keep: T -> bool)
    requires forall i :: 0 <= i < |xs| ==> !keep(xs[i])
    ensures Select(xs, keep) == []
  {
    if xs != [] {
      SelectNone(xs[1..], keep);
    }
  }

  /** Selecting from a run whose kept elements are exactly those of one stretch picks
      out that stretch. */
  lemma {:induction false} SelectRange<T>(xs: seq<T>, keep: T -> bool, lo: nat, hi: nat)
    requires lo <= hi <= |xs|
    requires forall i :: 0 <= i < |xs| ==> (keep(xs[i]) <==> lo <= i < hi)
    ensures Select(xs, keep) == xs[lo..hi]
    decreases |xs|
  {
    if hi == 0 {
      SelectNone(xs, keep);
    } else if lo > 0 {
      SelectRange(xs[1..], keep, lo - 1, hi - 1);
      assert xs[1..][lo - 1..hi - 1] == xs[lo..hi];
    } else {
      SelectRange(xs[1..], keep, 0, hi - 1);
      assert [xs[0]] + xs[1..][0..hi - 1] == xs[0..hi];
    }
  }

  /** Two runs of the same length that differ at position k and nowhere else. */
  predicate OnlyAt<T(==)>(x: seq<T>, y: seq<T>, k: nat)
  {
    |x| == |y| && k < |x| && forall i :: 0 <= i < |x| ==> (x[i] != y[i] <==> i == k)
  }

  lemma OnlyAtOne<T>(a: T, b: T)
    requires a != b
    ensures OnlyAt([a], [b], 0)
  {
  }

  /** Putting the same run before two runs that differ at one place shifts that place. */
  lemma OnlyAtPrefix<T>(a: seq<T>, x: seq<T>, y: seq<T>, k: nat)
    requires OnlyAt(x, y, k)
    ensures OnlyAt(a + x, a + y, |a| + k)
    ensures (a + x)[|a| + k] == x[k] && (a + y)[|a| + k] == y[k]
  {
    forall i | 0 <= i < |a + x|
      ensures (a + x)[i] != (a + y)[i] <==> i == |a| + k
    {
      if i >= |a| {
        assert (a + x)[i] == x[i - |a|] && (a + y)[i] == y[i - |a|];
      }
    }
  }

  /** Putting the same run after them leaves that place where it is. */
  lemma OnlyAtSuffix<T>(x: seq<T>, y: seq<T>, b: seq<T>, k: nat)
    requires OnlyAt(x, y, k)
    ensures OnlyAt(x + b, y + b, k)
    ensures (x + b)[k] == x[k] && (y + b)[k] == y[k]
  {
    forall i | 0 <= i < |x + b|
      ensures (x + b)[i] != (y + b)[i] <==> i == k
    {
      if i < |x| {
        assert (x + b)[i] == x[i] && (y + b)[i] == y[i];
      }
    }
  }

  /** Two runs built alike around one element that differs, a in the first and b in
      the second, differ only at that element's position. */
  lemma OnlyAtInside<T>(pre: seq<T>, head: seq<T>, ps: seq<T>, ws: seq<T>, cl: seq<T>, post: seq<T>, a: T, b: T)
    requires a != b
    ensures var k := |pre| + |head| + |ps|;
      var x, y := pre + (head + (ps + [a]) + ws) + cl + post, pre + (head + (ps + [b]) + ws) + cl + post;
      OnlyAt(x, y, k) && x[k] == a && y[k] == b
  {
    OnlyAtOne(a, b);
    OnlyAtPrefix(ps, [a], [b], 0);
    OnlyAtPrefix(head, ps + [a], ps + [b], |ps|);
    OnlyAtSuffix(head + (ps + [a]), head + (ps + [b]), ws, |head| + |ps|);
    OnlyAtPrefix(pre, head + (ps + [a]) + ws, head + (ps + [b]) + ws, |head| + |ps|);
    var k := |pre| + |head| + |ps|;
    OnlyAtSuffix(pre + (head + (ps + [a]) + ws), pre + (head + (ps + [b]) + ws), cl, k);
    OnlyAtSuffix(pre + (head + (ps + [a]) + ws) + cl, pre + (head + (ps + [b]) + ws) + cl, post, k);
  }

  /** Lines that start with the same indent differ when what follows it differs. */
  lemma PrefixDiffers(sp: string, x: string, y: string)
    requires x != y
    ensures sp + x != sp + y
  {
    assert (sp + x)[|sp|..] == x;
    assert (sp + y)[|sp|..] == y;
  }

  /** The first line of three runs written in turn is the first run's first statement,
      and the last two are the third run's last two. */
  lemma EmitEnds(ind: nat, pre: seq<Stmt>, mid: seq<string>, close: seq<Stmt>)
    requires |pre| >= 1 && |close| >= 2
    ensures var r := Emit(ind, pre) + mid + Emit(ind, close);
      |r| >= 2
      && r[0] == Spaces(ind) + Text(pre[0])
      && r[|r| - 2] == Spaces(ind) + Text(close[|close| - 2])
      && r[|r| - 1] == Spaces(ind) + Text(close[|close| - 1])
  {
    var e, f := Emit(ind, pre), Emit(ind, close);
    EmitAt(ind, pre, 0);
    EmitAt(ind, close, |close| - 2);
    EmitAt(ind, close, |close| - 1);
    var r := e + mid + f;
    assert r[0] == e[0];
    assert r[|r| - 2] == f[|f| - 2];
    assert r[|r| - 1] == f[|f| - 1];
  }

  /** Every element of a run has the property. */
  predicate Every<T>(xs: seq<T>, p: T -> bool)
  {
    forall i :: 0 <= i < |xs| ==> p(xs[i])
  }

  lemma EveryAppend<T>(a: seq<T>, b: seq<T>, p: T -> bool)
    requires Every(a, p) && Every(b, p)
    ensures Every(a + b, p)
  {
  }

  /** Adding an element the first classifier does not pick keeps the order. */
  lemma BeforeSnoc<T>(xs: seq<T>, s: T, first: T -> bool, second: T -> bool)
    requires AllBefore(xs, first, second) && !first(s)
    ensures AllBefore(xs + [s], first, second)
  {
  }

  /** Selecting from a run with one more element. */
  lemma SelectSnoc<T>(xs: seq<T>, s: T, keep: T -> bool)
    ensures Select(xs + [s], keep) == Select(xs, keep) + if keep(s) then [s] else []
  {
    SelectAppend(xs, [s], keep);
  }

  /** Selecting from a run written in five parts. */
  lemma SelectParts5<T>(a: seq<T>, b: seq<T>, c: seq<T>, d: seq<T>, e: seq<T>, keep: T -> bool)
    ensures Select(a + b + c + d + e, keep)
      == Select(a, keep) + Select(b, keep) + Select(c, keep) + Select(d, keep) + Select(e, keep)
  {
    SelectAppend(a, b, keep);
    SelectAppend(a + b, c, keep);
    SelectAppend(a + b + c, d, keep);
    SelectAppend(a + b + c + d, e, keep);
  }

  /** Every element the first classifier picks comes before every element the second picks. */
  predicate AllBefore<T>(xs: seq<T>, first: T -> bool, second: T -> bool)
  {
    forall i, j :: 0 <= i < |xs| && 0 <= j < |xs| && first(xs[i]) && second(xs[j]) ==> i < j
  }

  /** A run in which the second classifier picks nothing has every pick of the first
      before it. */
  lemma BeforeNone<T>(xs: seq<T>, first: T -> bool, second: T -> bool)
    requires Every(xs, x => !second(x))
    ensures AllBefore(xs, first, second)
  {
  }

  lemma BeforeByParts<T>(a: seq<T>, b: seq<T>, first: T -> bool, second: T -> bool)
    requires forall i :: 0 <= i < |a| ==> !second(a[i])
    requires forall j :: 0 <= j < |b| ==> !first(b[j])
    ensures AllBefore(a + b, first, second)
  {
  }
}
