/** One iteration of the per-pixel loop, read with the symbolic machine: how far each
    cursor moves, what is stored, and how the bytes stored match the destination
    cursor's advance. */
module LoopIteration {
  import opened Axes
  import opened Statements
  import opened Lines
  import opened Emission
  import opened Semantics
  import opened Pipeline
  import opened SpriteBatches

  /** How many destination pixels each source colour fills: DOUBLE writes it twice,
      DOUBLE2X four times, every other mode once. */
  function Replicas(h: HMode): nat
  {
    if h == Double then 2 else if h == Double2x then 4 else 1
  }

  /** How many source steps one iteration makes: two where 16-bit pixels are packed in
      pairs, one otherwise. */
  function StepsPerIteration(p: Point): nat
  {
    if PackedPair(p) then 2 else 1
  }

  /** How far one iteration moves dpix. */
  function DestAdvance(p: Point): nat
  {
    if p.hmode == Double then 2 else if p.hmode == Double2x then 4 else if PackedPair(p) then 2 else 1
  }

  /** How many stores one iteration makes: the 8-bit doubling modes and the 16-bit modes
      without sprites store whole words, everything else one pixel per store. */
  function Stores(p: Point): nat
  {
    if p.depth == D8 && (p.hmode == Double || p.hmode == Double2x) then 1
    else if p.depth == D16 && !p.spr then (if p.hmode == Double2x then 2 else 1)
    else DestAdvance(p)
  }

  /** The bytes of one destination pixel. */
  function PixelBytes(d: Depth): nat
  {
    Bits(d) / 8
  }

  /** The bytes a statement stores into buf: one pixel for buf[dpix++], four for a
      uae_u32 store, two for a uae_u16 store. */
  function StoreBytes(d: Depth, s: Stmt): nat
  {
    if s.Put? then PixelBytes(d)
    else if s == WordStore || s == WordStore8 then 4
    else if s == HalfStore8 then 2
    else 0
  }

  function StoreBytesOf(d: Depth): Stmt -> int
  {
    s => StoreBytes(d, s)
  }

  /** The word a packed pair stores: big-endian puts the first pixel in the high half,
      little-endian in the low half. */
  function PackOf(bigEndian: bool, first: Value, second: Value): Value
  {
    if bigEndian then Packed(first, second) else Packed(second, first)
  }

  /** The half of a 32-bit word that lies at the lower address: the high half on a
      big-endian machine, the low half on a little-endian one. */
  function LowerHalf(bigEndian: bool, v: Value): Value
    requires v.Packed?
  {
    if bigEndian then v.high else v.low
  }

  function UpperHalf(bigEndian: bool, v: Value): Value
    requires v.Packed?
  {
    if bigEndian then v.low else v.high
  }

  /** Whatever the byte order, a packed pair puts the earlier pixel at the lower
      address, where buf[dpix] is, and the later one at buf[dpix + 1]. */
  lemma PackOrder(bigEndian: bool, first: Value, second: Value)
    ensures PackOf(bigEndian, first, second).Packed?
    ensures LowerHalf(bigEndian, PackOf(bigEndian, first, second)) == first
    ensures UpperHalf(bigEndian, PackOf(bigEndian, first, second)) == second
  {
  }

  /** What one iteration stores: the colour of its step, or the packed pair of the
      colours of its two steps. */
  function Word(p: Point, bigEndian: bool, b: int): Value
  {
    var first := Sample(p.depth, p.hmode, b);
    if PackedPair(p) then PackOf(bigEndian, first, Sample(p.depth, p.hmode, b + Advance(p.hmode)))
    else first
  }

  /** A word store followed by the move of dpix past it. */
  lemma WordRun(m: Machine, xs: seq<Stmt>)
    requires |xs| == 2 && (xs[0] == WordStore || xs[0] == HalfStore8 || xs[0] == WordStore8)
    requires xs[1] == DpixAdd2 || xs[1] == DpixAdd4
    ensures Run(m, xs) == m.(dpix := m.dpix + (if xs[1] == DpixAdd4 then 4 else 2), stored := m.stored + [m.outVal])
  {
    var a, b := xs[0], xs[1];
    assert xs == [a, b];
    Run2(m, a, b);
    StoreStep(m, a);
    MoveStep(Step(m, a), b);
  }

  lemma StoreStep(m: Machine, s: Stmt)
    requires s == WordStore || s == HalfStore8 || s == WordStore8
    ensures Step(m, s) == m.(stored := m.stored + [m.outVal])
  {
    assert ActionOf(s) == StoreWord;
  }

  lemma MoveStep(m: Machine, s: Stmt)
    requires s == DpixAdd2 || s == DpixAdd4
    ensures Step(m, s) == m.(dpix := m.dpix + (if s == DpixAdd4 then 4 else 2))
  {
  }

  /** Two 32-bit stores, each followed by dpix += 2. */
  lemma TwoWordsRun(m: Machine, half: seq<Stmt>)
    requires half == [WordStore, DpixAdd2]
    ensures Run(m, half + half) == m.(dpix := m.dpix + 4, stored := m.stored + Copies(m.outVal, 2))
  {
    RunAppend(m, half, half);
    var m1 := m.(dpix := m.dpix + 2, stored := m.stored + [m.outVal]);
    WordRun(m, half);
    assert Run(m, half) == m1;
    WordRun(m1, half);
    assert Run(m1, half) == m.(dpix := m.dpix + 4, stored := m.stored + [m.outVal] + [m.outVal]);
    CopiesTwo(m.stored, m.outVal);
  }

  lemma CopiesTwo(w: seq<Value>, v: Value)
    ensures w + [v] + [v] == w + Copies(v, 2)
  {
    assert Copies(v, 2) == [v, v];
  }

  /** n writes of out_val with buf[dpix++]. */
  lemma PutsRun(m: Machine, xs: seq<Stmt>)
    requires forall i :: 0 <= i < |xs| ==> xs[i] == Put("out_val")
    ensures Run(m, xs) == m.(dpix := m.dpix + |xs|, stored := m.stored + Copies(m.outVal, |xs|))
  {
    PutsPlain(xs);
    RunWrites(m, xs);
  }

  /** A run of writes of out_val is plain and every statement of it writes. */
  lemma PutsPlain(xs: seq<Stmt>)
    requires forall i :: 0 <= i < |xs| ==> xs[i] == Put("out_val")
    ensures AllPlain(xs) && |Select(xs, IsPut)| == |xs|
  {
    OutValPlain("out_val");
    assert AllPlain(xs);
    SelectRange(xs, IsPut, 0, |xs|);
  }

  /** The stores at the end of an iteration: dpix moves on by DestAdvance(p) and out_val
      is stored Stores(p) times. */
  lemma WriteEffect(m: Machine, p: Point, c: CMode)
    ensures Run(m, WriteText(p, c)) == m.(dpix := m.dpix + DestAdvance(p), stored := m.stored + Copies(m.outVal, Stores(p)))
  {
    var xs := WriteText(p, c);
    var one := m.stored + [m.outVal];
    assert one == m.stored + Copies(m.outVal, 1);
    if p.depth == D8 && p.hmode == Double {
      WordRun(m, xs);
    } else if p.depth == D8 && p.hmode == Double2x {
      WordRun(m, xs);
    } else if p.spr {
      BatchEffect(m, c, p.aga, DestAdvance(p));
    } else if p.depth == D16 && p.hmode == Double2x {
      var half := [WordStore, DpixAdd2];
      assert xs == half + half;
      TwoWordsRun(m, half);
    } else if p.depth == D16 {
      WordRun(m, xs);
    } else {
      PutsRun(m, xs);
    }
  }

  lemma TotalPair(xs: seq<Stmt>, weight: Stmt -> int)
    requires |xs| == 2
    ensures Total(xs, weight) == weight(xs[0]) + weight(xs[1])
  {
    var rest := xs[1..];
    assert rest[0] == xs[1] && rest[1..] == [];
    assert Total(rest[1..], weight) == 0;
    assert Total(rest, weight) == weight(xs[1]);
  }

  /** In a run of plain statements, only the buf[dpix++] writes store, one pixel each. */
  lemma {:induction false} PlainBytes(d: Depth, xs: seq<Stmt>)
    requires AllPlain(xs)
    ensures Total(xs, StoreBytesOf(d)) == PixelBytes(d) * |Select(xs, IsPut)|
    decreases |xs|
  {
    if xs != [] {
      var b, n := PixelBytes(d), |Select(xs[1..], IsPut)|;
      PlainStoreBytes(d, xs[0]);
      PlainBytes(d, xs[1..]);
      assert Total(xs, StoreBytesOf(d)) == StoreBytes(d, xs[0]) + b * n;
      if xs[0].Put? {
        assert |Select(xs, IsPut)| == n + 1;
        MulSucc(b, n);
      } else {
        assert |Select(xs, IsPut)| == n;
      }
    }
  }

  lemma MulSucc(b: int, n: int)
    ensures b * (n + 1) == b * n + b
  {
  }

  /** A plain statement stores one pixel if it is a buf[dpix++] write, nothing otherwise. */
  lemma PlainStoreBytes(d: Depth, s: Stmt)
    requires Plain(s)
    ensures StoreBytes(d, s) == if s.Put? then PixelBytes(d) else 0
  {
    assert s != WordStore && s != WordStore8 && s != HalfStore8;
  }

  /** The bytes of a batch of sprite writes: one pixel per write. */
  lemma BatchBytes(d: Depth, c: CMode, aga: bool, cnt: int)
    requires cnt == 1 || cnt == 2 || cnt == 4
    ensures Total(SpriteText(c, aga, cnt), StoreBytesOf(d)) == cnt * PixelBytes(d)
  {
    if aga {
      if cnt == 1 { Plain1(c, aga); } else if cnt == 2 { Plain2(c, aga); } else { Plain4(c, aga); }
    } else {
      SharedPlain(c, aga, cnt);
    }
    BatchWrites(c, aga, cnt);
    PlainBytes(d, SpriteText(c, aga, cnt));
  }

  /** The bytes of a store followed by the move of dpix past it. */
  lemma StoreMoveBytes(d: Depth, xs: seq<Stmt>)
    requires |xs| == 2 && (xs[1] == DpixAdd2 || xs[1] == DpixAdd4)
    ensures Total(xs, StoreBytesOf(d)) == StoreBytes(d, xs[0])
  {
    TotalPair(xs, StoreBytesOf(d));
  }

  /** The bytes of DOUBLE2X's two word stores at 16 bits. */
  lemma TwoWordBytes(d: Depth, half: seq<Stmt>)
    requires half == [WordStore, DpixAdd2]
    ensures Total(half + half, StoreBytesOf(d)) == 8
  {
    TotalAppend(half, half, StoreBytesOf(d));
    StoreMoveBytes(d, half);
    assert StoreBytes(d, half[0]) == 4;
  }

  /** The stores of one iteration fill exactly the bytes dpix moves over: no byte of
      the destination is skipped and none is written twice. */
  lemma WriteBytes(p: Point, c: CMode)
    ensures Total(WriteText(p, c), StoreBytesOf(p.depth)) == DestAdvance(p) * PixelBytes(p.depth)
  {
    var xs, k := WriteText(p, c), DestAdvance(p);
    if p.depth == D8 && (p.hmode == Double || p.hmode == Double2x) {
      StoreMoveBytes(p.depth, xs);
      assert PixelBytes(p.depth) == 1;
    } else if p.spr {
      BatchBytes(p.depth, c, p.aga, k);
    } else if p.depth == D16 {
      assert PixelBytes(p.depth) == 2;
      if p.hmode == Double2x {
        var half := [WordStore, DpixAdd2];
        assert xs == half + half;
        TwoWordBytes(p.depth, half);
      } else {
        StoreMoveBytes(p.depth, xs);
      }
    } else {
      PutsBytes(p.depth, xs);
      assert |xs| == k;
    }
  }

  /** The bytes of a run of out_val writes: one pixel each. */
  lemma PutsBytes(d: Depth, xs: seq<Stmt>)
    requires forall i :: 0 <= i < |xs| ==> xs[i] == Put("out_val")
    ensures Total(xs, StoreBytesOf(d)) == |xs| * PixelBytes(d)
  {
    PutsPlain(xs);
    PlainBytes(d, xs);
  }

  /** The packing half of an iteration: where pixels are packed in pairs, the second
      step's colour is packed with the first into out_val. */
  lemma PackEffect(m: Machine, p: Point, c: CMode, bigEndian: bool)
    requires PackedPair(p)
    ensures var r := Run(m, PackText(p, c, bigEndian));
      r.spix == m.spix + Advance(p.hmode)
      && r.outVal == PackOf(bigEndian, m.outVal, Sample(p.depth, p.hmode, m.spix))
      && r.dpix == m.dpix && r.stored == m.stored
  {
    var ps := PixelStep(p, c);
    RunSnoc(m, ps, PackLine(bigEndian));
    PixelStepEffect(m, p, c);
    PackStep(Run(m, ps), bigEndian);
  }

  lemma PackStep(m: Machine, bigEndian: bool)
    ensures Step(m, PackLine(bigEndian)) == m.(outVal := PackOf(bigEndian, m.outVal, m.dpixVal))
  {
  }

  /** The first half of an iteration: the locals declared, one step, and its colour
      copied into out_val. */
  lemma HeadEffect(m: Machine, p: Point, c: CMode)
    ensures var r := Run(m, LoopLocals(p.spr) + PixelStep(p, c) + [Copy(OutVal)]);
      r.spix == m.spix + Advance(p.hmode) && r.outVal == Sample(p.depth, p.hmode, m.spix)
      && r.dpix == m.dpix && r.stored == m.stored
  {
    var ls, ps := LoopLocals(p.spr), PixelStep(p, c);
    var r1 := Run(m, ps);
    assert r1.spix == m.spix + Advance(p.hmode) && r1.dpixVal == Sample(p.depth, p.hmode, m.spix)
      && r1.dpix == m.dpix && r1.stored == m.stored by {
      PixelStepEffect(m, p, c);
    }
    assert Run(m, ls + ps) == r1 by {
      RunAppend(m, ls, ps);
      LocalsQuiet(m, p.spr);
    }
    assert Run(m, ls + ps + [Copy(OutVal)]) == Step(r1, Copy(OutVal)) by {
      RunSnoc(m, ls + ps, Copy(OutVal));
    }
    StepCopy(r1, OutVal);
  }

  /** The declarations at the top of the loop body change nothing. */
  lemma LocalsQuiet(m: Machine, spr: bool)
    ensures Run(m, LoopLocals(spr)) == m
  {
    var ls := LoopLocals(spr);
    assert !Acting(SprpixValDecl) && !Acting(SpixValDecl) && !Acting(DpixValDecl) && !Acting(OutValDecl) && !Acting(Blank);
    assert forall i :: 0 <= i < |ls| ==> ls[i] in {SprpixValDecl, SpixValDecl, DpixValDecl, OutValDecl, Blank};
    RunQuiet(m, ls);
  }

  /** The cursors keep the ratio the scaling mode names. */
  lemma Ratio(p: Point)
    ensures DestAdvance(p) * Advance(p.hmode) == Advance(p.hmode) * StepsPerIteration(p) * Replicas(p.hmode)
  {
    if PackedPair(p) {
      assert DestAdvance(p) == StepsPerIteration(p) * Replicas(p.hmode);
    }
  }

  /** One iteration of the loop: the source cursor moves on by the pixels its steps
      consume, dpix by DestAdvance(p), and the colour of those pixels (packed in pairs
      where that applies) is stored Stores(p) times. */
  lemma LoopBodyEffect(m: Machine, p: Point, c: CMode, bigEndian: bool)
    ensures var r := Run(m, LoopBody(p, c, bigEndian));
      r.spix == m.spix + Advance(p.hmode) * StepsPerIteration(p)
      && r.dpix == m.dpix + DestAdvance(p)
      && r.stored == m.stored + Copies(Word(p, bigEndian, m.spix), Stores(p))
  {
    var head := LoopLocals(p.spr) + PixelStep(p, c) + [Copy(OutVal)] + PackText(p, c, bigEndian);
    RunAppend(m, head, WriteText(p, c));
    ReadEffect(m, p, c, bigEndian);
    WriteEffect(Run(m, head), p, c);
  }

  /** The part of an iteration before the writes: the steps, and the word they make. */
  lemma ReadEffect(m: Machine, p: Point, c: CMode, bigEndian: bool)
    ensures var r := Run(m, LoopLocals(p.spr) + PixelStep(p, c) + [Copy(OutVal)] + PackText(p, c, bigEndian));
      r.spix == m.spix + Advance(p.hmode) * StepsPerIteration(p)
      && r.outVal == Word(p, bigEndian, m.spix) && r.dpix == m.dpix && r.stored == m.stored
  {
    var head := LoopLocals(p.spr) + PixelStep(p, c) + [Copy(OutVal)];
    RunAppend(m, head, PackText(p, c, bigEndian));
    HeadEffect(m, p, c);
    if PackedPair(p) {
      PackEffect(Run(m, head), p, c, bigEndian);
    }
    SourceAdvance(p);
  }

  /** The source cursor moves Advance(h) per step. */
  lemma SourceAdvance(p: Point)
    ensures Advance(p.hmode) * StepsPerIteration(p)
      == if PackedPair(p) then Advance(p.hmode) + Advance(p.hmode) else Advance(p.hmode)
  {
  }

  /** Over one iteration, the cursors move in the ratio the scaling mode names: each
      source pixel fills Replicas(h) destination pixels once Advance(h) source pixels
      are consumed for it. */
  lemma CursorRatio(m: Machine, p: Point, c: CMode, bigEndian: bool)
    ensures var r := Run(m, LoopBody(p, c, bigEndian));
      (r.dpix - m.dpix) * Advance(p.hmode) == (r.spix - m.spix) * Replicas(p.hmode)
  {
    LoopBodyEffect(m, p, c, bigEndian);
    Ratio(p);
  }
}
