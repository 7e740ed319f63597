/** A symbolic reading of the generated pixel pipeline. The generated C is not run:
    every pipeline variable holds a term over the source pixels it was computed from,
    and the statements are read in the order they are written. A fetch leaves the
    index of the pixel at spix in spix_val; a HAM resolve reads the pixel at spix
    itself, every other resolve reads spix_val. What the colour tables make of an
    index (the lookup, the xor and the half-brite arithmetic) is not followed, and
    control flow inside the resolve and sprite code (the half-brite and sprite tests)
    is read as "whichever branch runs resolves the fetched index" and "the sprite
    overlay leaves the playfield colour underneath". So the reading follows the source
    and destination cursors and which source pixel each colour comes from, not the
    colour's value. */
module Semantics {
  import opened Axes
  import opened Statements
  import opened Lines
  import opened Emission

  /** What a pipeline variable holds. */
  datatype Value =
    | Pix(offset: int)                                // the source pixel at that spix: its index, or its colour

    | Merged(width: nat, first: Value, second: Value) // merge_2pixel<width> (first, second)
    | Packed(high: Value, low: Value)                 // two 16-bit pixels in one 32-bit word
    | Unset

  /** The cursors, the pipeline variables, and the values written to buf, in order. */
  datatype Machine = Machine(
    spix: int, dpix: int, spixVal: Value,
    dpixVal: Value, tmp: Value, tmp2: Value, tmp3: Value, outVal: Value,
    stored: seq<Value>)

  function Get(m: Machine, v: Var): Value
  {
    match v
    case TmpVal => m.tmp
    case TmpVal2 => m.tmp2
    case TmpVal3 => m.tmp3
    case DpixVal => m.dpixVal
    case OutVal => m.outVal
  }

  function Assign(m: Machine, v: Var, x: Value): (r: Machine)
    ensures Get(r, v) == x
    ensures r.spix == m.spix && r.dpix == m.dpix && r.stored == m.stored
  {
    match v
    case TmpVal => m.(tmp := x)
    case TmpVal2 => m.(tmp2 := x)
    case TmpVal3 => m.(tmp3 := x)
    case DpixVal => m.(dpixVal := x)
    case OutVal => m.(outVal := x)
  }

  /** What a statement does to the machine. */
  datatype Action =
    | Nothing
    | MoveSource(n: nat)             // spix += n
    | MoveDest(n: nat)               // dpix += n
    | Keep(dst: Var)                 // dst = dpix_val
    | Blend(dst: Var, width: nat, a: Var, b: Var)
    | PackPair(bigEndian: bool)      // out_val gets dpix_val as its second half
    | Write(v: string)               // buf[dpix++] = v
    | StoreWord                      // a store of out_val that leaves dpix alone
    | FetchIndex                     // spix_val = the index of the pixel at spix
    | HamColour                      // dpix_val = the colour of the HAM pixel at spix
    | IndexColour                    // dpix_val = the colour spix_val selects

  /** The statements that read the playfield index of the pixel at spix into spix_val. */
  predicate Fetching(s: Stmt)
  {
    s.FetchAga? || s.Fetch?
  }

  /** The statements that set dpix_val to the colour of the pixel at spix. */
  predicate Resolving(s: Stmt)
  {
    s.ResolveHamAga? || s.ResolveHam? || s.ResolveVal? || s.ResolveDualPF?
    || s.ResolveHalfBriteAga? || s.ResolveIndexed? || s.ResolveHalfBrite? || s.ResolvePlain?
  }

  /** The resolves that read ham_linebuf at spix rather than spix_val. */
  predicate ResolvingHam(s: Stmt)
  {
    s.ResolveHamAga? || s.ResolveHam?
  }

  function ActionOf(s: Stmt): Action
  {
    match s
    case SpixInc => MoveSource(1)
    case SpixAdd2 => MoveSource(2)
    case SpixAdd4 => MoveSource(4)
    case Copy(dst) => Keep(dst)
    case Merge(dst, width, a, b) => Blend(dst, width, a, b)
    case PackBig => PackPair(true)
    case PackLittle => PackPair(false)
    case Put(v) => Write(v)
    case WordStore => StoreWord
    case WordStore8 => StoreWord
    case HalfStore8 => StoreWord
    case DpixAdd2 => MoveDest(2)
    case DpixAdd4 => MoveDest(4)
    case FetchAga => FetchIndex
    case Fetch => FetchIndex
    case ResolveHamAga => HamColour
    case ResolveHam => HamColour
    case ResolveVal => IndexColour
    case ResolveDualPF => IndexColour
    case ResolveHalfBriteAga => IndexColour
    case ResolveIndexed => IndexColour
    case ResolveHalfBrite => IndexColour
    case ResolvePlain => IndexColour
    case _ => Nothing
  }



  /** Exactly the fetches fetch, the HAM resolves read the pixel at spix, and the other
      resolves read spix_val. */
  lemma ActionKinds(s: Stmt)
    ensures ActionOf(s) == FetchIndex <==> Fetching(s)
    ensures ActionOf(s) == HamColour <==> ResolvingHam(s)
    ensures ActionOf(s) == IndexColour <==> Resolving(s) && !ResolvingHam(s)
  {
  }

  /** The statements that move a cursor, change a pipeline variable or write to buf. */
  predicate Acting(s: Stmt)
  {
    ActionOf(s) != Nothing
  }

  function Apply(m: Machine, a: Action): Machine
  {
    match a
    case Nothing => m
    case MoveSource(n) => m.(spix := m.spix + n)
    case MoveDest(n) => m.(dpix := m.dpix + n)
    case Keep(dst) => Assign(m, dst, m.dpixVal)
    case Blend(dst, width, x, y) => Assign(m, dst, Merged(width, Get(m, x), Get(m, y)))
    case PackPair(bigEndian) =>
      m.(outVal := if bigEndian then Packed(m.outVal, m.dpixVal) else Packed(m.dpixVal, m.outVal))
    case Write(v) =>
      m.(dpix := m.dpix + 1, stored := m.stored + [if v == "dpix_val" then m.dpixVal else m.outVal])
    case StoreWord => m.(stored := m.stored + [m.outVal])
    case FetchIndex => m.(spixVal := Pix(m.spix))
    case HamColour => m.(dpixVal := Pix(m.spix))
    case IndexColour => m.(dpixVal := m.spixVal)
  }

  /** The effect of one statement. */
  function Step(m: Machine, s: Stmt): Machine
  {
    Apply(m, ActionOf(s))
  }

  /** The effect of a run of statements, first to last. */
  function Run(m: Machine, xs: seq<Stmt>): Machine
    decreases |xs|, m
  {
    if xs == [] then m else Run(Step(m, xs[0]), xs[1..])
  }

  /** A statement that does none of these changes nothing. */
  lemma StepQuiet(m: Machine, s: Stmt)
    requires !Acting(s)
    ensures Step(m, s) == m
  {
  }

  lemma {:induction false} RunAppend(m: Machine, a: seq<Stmt>, b: seq<Stmt>)
    ensures Run(m, a + b) == Run(Run(m, a), b)
    decreases |a|
  {
    if a == [] {
      assert a + b == b;
    } else {
      assert (a + b)[0] == a[0];
      assert (a + b)[1..] == a[1..] + b;
      RunAppend(Step(m, a[0]), a[1..], b);
    }
  }

  lemma RunThen3(m: Machine, a: seq<Stmt>, b: seq<Stmt>, c: seq<Stmt>)
    ensures Run(m, a + b + c) == Run(Run(Run(m, a), b), c)
  {
    RunAppend(m, a + b, c);
    RunAppend(m, a, b);
  }

  lemma RunSnoc(m: Machine, xs: seq<Stmt>, s: Stmt)
    ensures Run(m, xs + [s]) == Step(Run(m, xs), s)
  {
    RunAppend(m, xs, [s]);
    Run1(Run(m, xs), s);
  }

  lemma Run1(m: Machine, a: Stmt)
    ensures Run(m, [a]) == Step(m, a)
  {
  }

  lemma Run2(m: Machine, a: Stmt, b: Stmt)
    ensures Run(m, [a, b]) == Step(Step(m, a), b)
  {
    assert [a, b][1..] == [b];
    Run1(Step(m, a), b);
  }

  lemma Run3(m: Machine, a: Stmt, b: Stmt, c: Stmt)
    ensures Run(m, [a, b, c]) == Step(Step(Step(m, a), b), c)
  {
    assert [a, b, c][1..] == [b, c];
    Run2(Step(m, a), b, c);
  }

  lemma Run4(m: Machine, a: Stmt, b: Stmt, c: Stmt, d: Stmt)
    ensures Run(m, [a, b, c, d]) == Step(Step(Step(Step(m, a), b), c), d)
  {
    assert [a, b, c, d][1..] == [b, c, d];
    Run3(Step(m, a), b, c, d);
  }

  /** A run of statements none of which acts changes nothing. */
  lemma {:induction false} RunQuiet(m: Machine, xs: seq<Stmt>)
    requires forall i :: 0 <= i < |xs| ==> !Acting(xs[i])
    ensures Run(m, xs) == m
    decreases |xs|
  {
    if xs != [] {
      StepQuiet(m, xs[0]);
      RunQuiet(m, xs[1..]);
    }
  }

  /** A statement that changes nothing, or resolves the pixel at spix in m: a HAM
      resolve, or any other resolve once spix_val holds that pixel's index. */
  predicate ResolvesIn(m: Machine, s: Stmt)
  {
    !Acting(s) || (Resolving(s) && (ResolvingHam(s) || m.spixVal == Pix(m.spix)))
  }

  /** Once dpix_val holds the current pixel, further resolves change nothing. */
  lemma {:induction false} RunSettled(m: Machine, xs: seq<Stmt>)
    requires forall i :: 0 <= i < |xs| ==> ResolvesIn(m, xs[i])
    requires m.dpixVal == Pix(m.spix)
    ensures Run(m, xs) == m
    decreases |xs|
  {
    if xs != [] {
      ActionKinds(xs[0]);
      assert Step(m, xs[0]) == m;
      RunSettled(m, xs[1..]);
    }
  }

  /** A run that only resolves leaves the current pixel's colour in dpix_val. */
  lemma {:induction false} RunResolves(m: Machine, xs: seq<Stmt>, k: nat)
    requires forall i :: 0 <= i < |xs| ==> ResolvesIn(m, xs[i])
    requires k < |xs| && Resolving(xs[k])
    ensures Run(m, xs) == m.(dpixVal := Pix(m.spix))
    decreases |xs|
  {
    ActionKinds(xs[0]);
    if Resolving(xs[0]) {
      RunSettled(m.(dpixVal := Pix(m.spix)), xs[1..]);
    } else {
      StepQuiet(m, xs[0]);
      RunResolves(m, xs[1..], k - 1);
    }
  }

  /** A statement that does not act, or writes something other than dpix_val with
      buf[dpix++]. */
  predicate Plain(s: Stmt)
  {
    !Acting(s) || (s.Put? && s.v != "dpix_val")
  }

  predicate AllPlain(xs: seq<Stmt>)
  {
    forall i :: 0 <= i < |xs| ==> Plain(xs[i])
  }

  lemma PlainAppend(a: seq<Stmt>, b: seq<Stmt>)
    requires AllPlain(a) && AllPlain(b)
    ensures AllPlain(a + b)
  {
  }

  /** The writes in a run of plain statements: each write stores out_val and advances
      dpix by one. */
  lemma {:induction false} RunWrites(m: Machine, xs: seq<Stmt>)
    requires AllPlain(xs)
    ensures var n := |Select(xs, IsPut)|;
      Run(m, xs) == m.(dpix := m.dpix + n, stored := m.stored + Copies(m.outVal, n))
    decreases |xs|
  {
    if xs != [] {
      var n := |Select(xs[1..], IsPut)|;
      if xs[0].Put? {
        var m1 := Step(m, xs[0]);
        assert m1 == m.(dpix := m.dpix + 1, stored := m.stored + [m.outVal]);
        RunWrites(m1, xs[1..]);
        CopiesCons(m.stored, m.outVal, n);
      } else {
        StepQuiet(m, xs[0]);
        RunWrites(m, xs[1..]);
      }
    }
  }

  lemma CopiesCons(w: seq<Value>, v: Value, n: nat)
    ensures w + [v] + Copies(v, n) == w + Copies(v, n + 1)
  {
    assert [v] + Copies(v, n) == Copies(v, n + 1);
  }

  /** n copies of a value. */
  function Copies(v: Value, n: nat): (r: seq<Value>)
    ensures |r| == n && forall i :: 0 <= i < n ==> r[i] == v
  {
    seq(n, _ => v)
  }
}
