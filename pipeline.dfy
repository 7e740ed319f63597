/** What the generated per-pixel code does, read with the symbolic machine: how far
    each step moves the source cursor, which source pixels the colour it produces is
    made of, and what one iteration of the loop writes to the destination. */
module Pipeline {
  import opened Axes
  import opened Statements
  import opened Lines
  import opened Emission
  import opened Semantics

  /** The source pixels one step consumes: HALVE1 and HALVE1F take two, HALVE2 and
      HALVE2F four, every other mode one. */
  function Advance(h: HMode): nat
  {
    match h
    case Halve1 => 2
    case Halve1F => 2
    case Halve2 => 4
    case Halve2F => 4
    case _ => 1
  }

  /** The filtered halving modes, which blend the pixels they consume. */
  predicate Filtered(h: HMode)
  {
    h == Halve1F || h == Halve2F
  }

  /** The colour one step produces from the source pixels starting at b. */
  function Sample(d: Depth, h: HMode, b: int): Value
  {
    var w := MergeWidth(d);
    match h
    case Halve1F => Merged(w, Pix(b + 1), Pix(b))
    case Halve2F => Merged(w, Merged(w, Pix(b), Pix(b + 1)), Merged(w, Pix(b + 2), Pix(b + 3)))
    case _ => Pix(b)
  }

  /** The source pixels a value is made of, left to right. */
  function Leaves(v: Value): seq<int>
  {
    match v
    case Pix(o) => [o]
    case Merged(_, x, y) => Leaves(x) + Leaves(y)
    case Packed(x, y) => Leaves(x) + Leaves(y)
    case Unset => []
  }

  /** Every merge inside a value blends pixels of the given width. */
  predicate MergesAt(v: Value, w: nat)
  {
    match v
    case Pix(_) => true
    case Merged(w', x, y) => w' == w && MergesAt(x, w) && MergesAt(y, w)
    case Packed(x, y) => MergesAt(x, w) && MergesAt(y, w)
    case Unset => true
  }

  /** The colour a step produces blends exactly the pixels it consumes, each once, in a
      filtered mode; every other mode keeps the first pixel only. All merges are at
      the width of the destination pixel. */
  lemma SampleCovers(d: Depth, h: HMode, b: int)
    ensures forall o :: o in Leaves(Sample(d, h, b)) <==> b <= o < b + Advance(h) && (Filtered(h) || o == b)
    ensures |Leaves(Sample(d, h, b))| == if Filtered(h) then Advance(h) else 1
    ensures MergesAt(Sample(d, h, b), Bits(d))
  {
    var w := MergeWidth(d);
    if h == Halve1F {
      assert Leaves(Sample(d, h, b)) == [b + 1] + [b];
    } else if h == Halve2F {
      assert Leaves(Merged(w, Pix(b), Pix(b + 1))) == [b] + [b + 1];
      assert Leaves(Merged(w, Pix(b + 2), Pix(b + 3))) == [b + 2] + [b + 3];
      assert Leaves(Sample(d, h, b)) == [b, b + 1, b + 2, b + 3];
    } else {
      assert Leaves(Sample(d, h, b)) == [b];
    }
  }

  /** The position, within a resolve, of a statement that resolves the pixel. */
  function ResolveAt(aga: bool, c: CMode): nat
  {
    if aga && c == DualPF then 5 else if aga && c == ExtraHB then 2 else if c == ExtraHB then 1 else 0
  }

  /** A fetch leaves the index of the pixel at spix in spix_val and changes nothing
      else. Only a HAM line on OCS/ECS, whose resolve reads ham_linebuf, is not
      fetched. */
  lemma SrcPixFetches(m: Machine, aga: bool, c: CMode, spr: bool)
    ensures Run(m, SrcPixText(aga, c, spr)) == if Fetches(aga, c) then m.(spixVal := Pix(m.spix)) else m
  {
    var xs := SrcPixText(aga, c, spr);
    if !aga && c == Ham {
      assert xs == [];
    } else if aga && c != DualPF {
      if spr {
        assert xs == [SprFetchAga, FetchAga];
        Run2(m, SprFetchAga, FetchAga);
      } else {
        assert xs == [FetchAga];
        Run1(m, FetchAga);
      }
    } else {
      if spr {
        assert xs == [Fetch, SprFromFetch];
        Run2(m, Fetch, SprFromFetch);
      } else {
        assert xs == [Fetch];
        Run1(m, Fetch);
      }
    }
  }

  /** The lines that fetch the playfield index: all but HAM on OCS/ECS. */
  predicate Fetches(aga: bool, c: CMode)
  {
    aga || c != Ham
  }

  /** A resolve leaves the colour of the pixel at spix in dpix_val, once a fetch has
      left that pixel's index in spix_val (a HAM resolve needs no fetch). */
  lemma DstPixResolves(m: Machine, aga: bool, c: CMode, spr: bool)
    requires c != Ham ==> m.spixVal == Pix(m.spix)
    ensures Run(m, DstPixText(aga, c, spr)) == m.(dpixVal := Pix(m.spix))
  {
    var xs := DstPixText(aga, c, spr);
    assert Resolving(xs[ResolveAt(aga, c)]);
    RunResolves(m, xs, ResolveAt(aga, c));
  }

  /** The machine after the pixel at spix is resolved, with its index fetched into
      spix_val first when fetched holds. */
  function Resolved(m: Machine, fetched: bool): Machine
  {
    m.(spixVal := if fetched then Pix(m.spix) else m.spixVal, dpixVal := Pix(m.spix))
  }

  /** A run that, whatever the state, leaves the colour of the pixel at spix in
      dpix_val, and its index in spix_val when fetched holds, and changes nothing
      else. */
  ghost predicate ResolvesCurrent(fr: seq<Stmt>, fetched: bool)
  {
    forall m :: Run(m, fr) == Resolved(m, fetched)
  }

  /** A fetch and resolve leaves the colour of the pixel at spix in dpix_val and the
      pixel's index in spix_val wherever it was fetched, and changes nothing else. */
  lemma FetchResolveEffect(aga: bool, c: CMode, spr: bool)
    ensures ResolvesCurrent(FetchResolve(aga, c, spr), Fetches(aga, c))
  {
    forall m: Machine
      ensures Run(m, FetchResolve(aga, c, spr)) == Resolved(m, Fetches(aga, c))
    {
      RunAppend(m, SrcPixText(aga, c, spr), DstPixText(aga, c, spr));
      SrcPixFetches(m, aga, c, spr);
      DstPixResolves(Run(m, SrcPixText(aga, c, spr)), aga, c, spr);
    }
  }

  /** What a step is specified by: the cursor it leaves, the colour it leaves in
      dpix_val, and nothing written; tmp_val .. tmp_val3 are locals of the step's
      own block and are left out. */
  predicate StepLeaves(m: Machine, r: Machine, spix: int, colour: Value)
  {
    r.spix == spix && r.dpixVal == colour && r.dpix == m.dpix && r.outVal == m.outVal && r.stored == m.stored
  }

  /** The block a filtered step opens with: a temporary declared, the cursor moved to
      the next pixel, and the first pixel's colour kept in tmp_val. */
  lemma OpenRun(m: Machine, open: seq<Stmt>, decl: Stmt)
    requires open == [OpenBlock, decl, SpixInc, Copy(TmpVal)] && !Acting(decl)
    ensures Run(m, open) == m.(spix := m.spix + 1, tmp := m.dpixVal)
  {
    Run4(m, OpenBlock, decl, SpixInc, Copy(TmpVal));
  }

  /** The end of a HALVE1F step: the new pixel merged with the kept one, the later
      pixel first. */
  lemma Halve1FTail(m: Machine, w: nat, tail: seq<Stmt>)
    requires tail == [Merge(DpixVal, w, DpixVal, TmpVal), SpixInc, CloseBlock]
    ensures StepLeaves(m, Run(m, tail), m.spix + 1, Merged(w, m.dpixVal, m.tmp))
  {
    var a, b, c := tail[0], tail[1], tail[2];
    assert tail == [a, b, c];
    Run3(m, a, b, c);
  }

  /** Open a filtered step's block, then fetch and resolve the next pixel. */
  lemma OpenAndFetch(m: Machine, open: seq<Stmt>, decl: Stmt, fr: seq<Stmt>, fetched: bool)
    requires open == [OpenBlock, decl, SpixInc, Copy(TmpVal)] && !Acting(decl)
    requires ResolvesCurrent(fr, fetched)
    ensures Run(m, open + fr) == Resolved(m.(spix := m.spix + 1, tmp := m.dpixVal), fetched)
  {
    RunAppend(m, open, fr);
    OpenRun(m, open, decl);
  }

  /** HALVE1F, for any fetch and resolve: the second pixel is fetched and resolved,
      and dpix_val becomes the merge of it with the first, the later pixel first. */
  lemma Halve1FRun(m: Machine, w: nat, fr: seq<Stmt>, fetched: bool, open: seq<Stmt>, tail: seq<Stmt>)
    requires ResolvesCurrent(fr, fetched)
    requires open == [OpenBlock, TmpDecl, SpixInc, Copy(TmpVal)]
    requires tail == [Merge(DpixVal, w, DpixVal, TmpVal), SpixInc, CloseBlock]
    ensures StepLeaves(m, Run(m, open + fr + tail), m.spix + 2, Merged(w, Pix(m.spix + 1), m.dpixVal))
  {
    var m2 := Run(m, open + fr);
    assert m2.spix == m.spix + 1 && m2.dpixVal == Pix(m.spix + 1) && m2.tmp == m.dpixVal
      && m2.dpix == m.dpix && m2.outVal == m.outVal && m2.stored == m.stored by {
      OpenAndFetch(m, open, TmpDecl, fr, fetched);
    }
    assert Run(m, open + fr + tail) == Run(m2, tail) by { RunAppend(m, open + fr, tail); }
    Halve1FTail(m2, w, tail);
  }

  /** The three merges of a HALVE2F step: the pairs first, then the pairs merged. */
  lemma Halve2FMergesRun(m: Machine, w: nat, ms: seq<Stmt>)
    requires ms == [Merge(TmpVal, w, TmpVal, TmpVal2), Merge(TmpVal2, w, TmpVal3, DpixVal), Merge(DpixVal, w, TmpVal, TmpVal2)]
    ensures var first := Merged(w, m.tmp, m.tmp2);
      var second := Merged(w, m.tmp3, m.dpixVal);
      Run(m, ms) == m.(tmp := first, tmp2 := second, dpixVal := Merged(w, first, second))
  {
    var a, b, c := ms[0], ms[1], ms[2];
    assert ms == [a, b, c];
    Run3(m, a, b, c);
    var m1 := Step(m, a);
    assert m1 == m.(tmp := Merged(w, m.tmp, m.tmp2));
    var m2 := Step(m1, b);
    assert m2 == m1.(tmp2 := Merged(w, m.tmp3, m.dpixVal));
  }

  /** The end of a block: the cursor moved on by one. */
  lemma CloseRun(m: Machine, close: seq<Stmt>)
    requires close == [SpixInc, CloseBlock]
    ensures Run(m, close) == m.(spix := m.spix + 1)
  {
    var x, y := close[0], close[1];
    assert close == [x, y];
    Run2(m, x, y);
  }

  /** The end of a HALVE2F step: the four pixels merged pairwise, then the pairs. */
  lemma Halve2FTail(m: Machine, w: nat, ms: seq<Stmt>, close: seq<Stmt>)
    requires ms == [Merge(TmpVal, w, TmpVal, TmpVal2), Merge(TmpVal2, w, TmpVal3, DpixVal), Merge(DpixVal, w, TmpVal, TmpVal2)]
    requires close == [SpixInc, CloseBlock]
    ensures StepLeaves(m, Run(m, ms + close), m.spix + 1, Merged(w, Merged(w, m.tmp, m.tmp2), Merged(w, m.tmp3, m.dpixVal)))
  {
    RunAppend(m, ms, close);
    Halve2FMergesRun(m, w, ms);
    CloseRun(Run(m, ms), close);
  }

  /** Moving to the next pixel and keeping the current colour in a temporary. */
  lemma KeepRun(m: Machine, v: Var)
    ensures Run(m, [SpixInc, Copy(v)]) == Assign(m.(spix := m.spix + 1), v, m.dpixVal)
  {
    Run2(m, SpixInc, Copy(v));
    StepSpixInc(m);
    StepCopy(m.(spix := m.spix + 1), v);
  }

  lemma StepSpixInc(m: Machine)
    ensures Step(m, SpixInc) == m.(spix := m.spix + 1)
  {
    assert ActionOf(SpixInc) == MoveSource(1);
  }

  lemma StepCopy(m: Machine, v: Var)
    ensures Step(m, Copy(v)) == Assign(m, v, m.dpixVal)
  {
    assert ActionOf(Copy(v)) == Keep(v);
  }

  /** After a run p, keep the current colour in v, move on, then fetch and resolve. */
  lemma ThenKeepAndFetch(m: Machine, p: seq<Stmt>, k: seq<Stmt>, v: Var, fr: seq<Stmt>, fetched: bool)
    requires k == [SpixInc, Copy(v)] && ResolvesCurrent(fr, fetched)
    ensures var r := Run(m, p);
      Run(m, p + k + fr) == Resolved(Assign(r.(spix := r.spix + 1), v, r.dpixVal), fetched)
  {
    var r := Run(m, p);
    RunThen3(m, p, k, fr);
    KeepRun(r, v);
  }

  /** The start of a HALVE2F step: the first pixel kept and the next three fetched,
      resolved and kept in turn. */
  lemma Halve2FHead(m: Machine, fr: seq<Stmt>, fetched: bool, open: seq<Stmt>, k2: seq<Stmt>, k3: seq<Stmt>)
    requires ResolvesCurrent(fr, fetched)
    requires open == [OpenBlock, TmpDecls, SpixInc, Copy(TmpVal)]
    requires k2 == [SpixInc, Copy(TmpVal2)] && k3 == [SpixInc, Copy(TmpVal3)]
    ensures var r := Run(m, open + fr + k2 + fr + k3 + fr);
      r.spix == m.spix + 3 && r.dpixVal == Pix(m.spix + 3) && r.tmp == m.dpixVal
      && r.tmp2 == Pix(m.spix + 1) && r.tmp3 == Pix(m.spix + 2)
      && r.dpix == m.dpix && r.outVal == m.outVal && r.stored == m.stored
  {
    var p1 := open + fr;
    var p2 := p1 + k2 + fr;
    OpenAndFetch(m, open, TmpDecls, fr, fetched);
    ThenKeepAndFetch(m, p1, k2, TmpVal2, fr, fetched);
    var r2 := Run(m, p2);
    assert r2.spix == m.spix + 2 && r2.dpixVal == Pix(m.spix + 2) && r2.tmp == m.dpixVal && r2.tmp2 == Pix(m.spix + 1);
    ThenKeepAndFetch(m, p2, k3, TmpVal3, fr, fetched);
  }

  /** HALVE2F, for any fetch and resolve: the next three pixels are fetched and
      resolved, and dpix_val becomes the merge of the merged first pair with the
      merged second pair. */
  lemma Halve2FRun(m: Machine, d: Depth, fr: seq<Stmt>, fetched: bool)
    requires ResolvesCurrent(fr, fetched)
    ensures var w := MergeWidth(d);
      StepLeaves(m, Run(m, Halve2FOpen + fr + KeepSecond + fr + KeepThird + fr + (Halve2FMerges(d) + [SpixInc, CloseBlock])),
                 m.spix + 4, Merged(w, Merged(w, m.dpixVal, Pix(m.spix + 1)), Merged(w, Pix(m.spix + 2), Pix(m.spix + 3))))
  {
    var head := Halve2FOpen + fr + KeepSecond + fr + KeepThird + fr;
    RunAppend(m, head, Halve2FMerges(d) + [SpixInc, CloseBlock]);
    Halve2FHead(m, fr, fetched, Halve2FOpen, KeepSecond, KeepThird);
    Halve2FTail(Run(m, head), MergeWidth(d), Halve2FMerges(d), [SpixInc, CloseBlock]);
  }

  /** The unfiltered modes: the source cursor moves on by Advance(h), and nothing is
      fetched or resolved, so dpix_val keeps the colour of the first pixel. */
  lemma UnfilteredEffect(m: Machine, d: Depth, h: HMode, aga: bool, c: CMode, spr: bool)
    requires !Filtered(h)
    ensures StepLeaves(m, Run(m, IncSpixText(d, h, aga, c, spr)), m.spix + Advance(h), m.dpixVal)
  {
    if h == Halve1 {
      assert IncSpixText(d, h, aga, c, spr) == [SpixAdd2];
      SourceMove(m, SpixAdd2, 2);
    } else if h == Halve2 {
      assert IncSpixText(d, h, aga, c, spr) == [SpixAdd4];
      SourceMove(m, SpixAdd4, 4);
    } else {
      assert IncSpixText(d, h, aga, c, spr) == [SpixInc];
      SourceMove(m, SpixInc, 1);
      assert Advance(h) == 1;
    }
  }

  /** A lone move of the source cursor. */
  lemma SourceMove(m: Machine, s: Stmt, n: nat)
    requires (s == SpixInc && n == 1) || (s == SpixAdd2 && n == 2) || (s == SpixAdd4 && n == 4)
    ensures Run(m, [s]) == m.(spix := m.spix + n)
  {
    Run1(m, s);
    if s == SpixInc {
      StepSpixInc(m);
    } else if s == SpixAdd2 {
      assert ActionOf(SpixAdd2) == MoveSource(2);
    } else {
      assert ActionOf(SpixAdd4) == MoveSource(4);
    }
  }


  /** Fetch, resolve and advance, read with the machine: the source cursor moves on by
      Advance(h) and dpix_val holds the colour of the pixels consumed. */
  lemma PixelStepEffect(m: Machine, p: Point, c: CMode)
    ensures StepLeaves(m, Run(m, PixelStep(p, c)), m.spix + Advance(p.hmode), Sample(p.depth, p.hmode, m.spix))
  {
    var fr := FetchResolve(p.aga, c, p.spr);
    var inc := IncSpixText(p.depth, p.hmode, p.aga, c, p.spr);
    var m1 := Run(m, fr);
    assert m1 == Resolved(m, Fetches(p.aga, c)) by { FetchResolveEffect(p.aga, c, p.spr); }
    assert Run(m, PixelStep(p, c)) == Run(m1, inc) by { RunAppend(m, fr, inc); }
    IncSpixEffect(m1, p, c);
  }

  /** The advance of a step, once the first pixel is resolved: the source cursor moves
      on by Advance(h) and dpix_val holds the colour of the pixels consumed. */
  lemma IncSpixEffect(m: Machine, p: Point, c: CMode)
    requires m.dpixVal == Pix(m.spix)
    ensures StepLeaves(m, Run(m, IncSpixText(p.depth, p.hmode, p.aga, c, p.spr)), m.spix + Advance(p.hmode), Sample(p.depth, p.hmode, m.spix))
  {
    var fr := FetchResolve(p.aga, c, p.spr);
    FetchResolveEffect(p.aga, c, p.spr);
    if p.hmode == Halve1F {
      Halve1FRun(m, MergeWidth(p.depth), fr, Fetches(p.aga, c), Halve1FOpen, [Merge(DpixVal, MergeWidth(p.depth), DpixVal, TmpVal), SpixInc, CloseBlock]);
    } else if p.hmode == Halve2F {
      Halve2FRun(m, p.depth, fr, Fetches(p.aga, c));
    } else {
      UnfilteredEffect(m, p.depth, p.hmode, p.aga, c, p.spr);
    }
  }

}
