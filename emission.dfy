/** What each emitter of the line-to-screen generator writes, as values: every
    function here lists, in order, the statements one emitter hands to outln. */
module Emission {
  import opened Axes
  import opened Statements
  import opened Lines

  /** out_linetoscr_do_srcpix: fetch the raw pixel, XOR-ed with the plane toggle on AGA
      outside dual playfield; with sprites, keep the raw value for the priority tests. */
  function SrcPixText(aga: bool, c: CMode, spr: bool): seq<Stmt>
  {
    if aga && c != DualPF then
      (if spr then [SprFetchAga] else []) + [FetchAga]
    else if c != Ham then
      [Fetch] + (if spr then [SprFromFetch] else [])
    else
      []
  }

  /** The dual-playfield resolve on AGA: the playfield lookup, the second playfield's
      palette offset, and the plane toggle. */
  const ResolveDualPFAga: seq<Stmt> :=
    [OpenBlock, LookupVal, LookupNoTest, AddSecondOffset, XorVal, ResolveVal, CloseBlock]

  /** The extra-half-brite resolve on AGA. */
  const ResolveExtraHBAga: seq<Stmt> :=
    [HalfBriteTestAga, HalfBriteColourAga, ResolveHalfBriteAga, CloseElse, ResolveIndexed]

  /** The extra-half-brite resolve without AGA. */
  const ResolveExtraHB: seq<Stmt> := [FullBriteTest, ResolveIndexed, Else, ResolveHalfBrite]

  /** out_linetoscr_do_dstpix: resolve the pixel to a display colour for a colour mode. */
  function DstPixText(aga: bool, c: CMode, spr: bool): seq<Stmt>
  {
    if aga && c == Ham then
      [ResolveHamAga] + (if spr then [SprFromResolve] else [])
    else if c == Ham then
      [ResolveHam] + (if spr then [SprFromResolve] else [])
    else if aga && c == DualPF then
      ResolveDualPFAga
    else if c == DualPF then
      [ResolveDualPF]
    else if aga && c == ExtraHB then
      ResolveExtraHBAga
    else if c == ExtraHB then
      ResolveExtraHB
    else
      [ResolvePlain]
  }

  /** A fetch followed by a resolve: what every source pixel goes through. */
  function FetchResolve(aga: bool, c: CMode, spr: bool): seq<Stmt>
  {
    SrcPixText(aga, c, spr) + DstPixText(aga, c, spr)
  }

  const Halve1FOpen: seq<Stmt> := [OpenBlock, TmpDecl, SpixInc, Copy(TmpVal)]
  const Halve2FOpen: seq<Stmt> := [OpenBlock, TmpDecls, SpixInc, Copy(TmpVal)]
  const KeepSecond: seq<Stmt> := [SpixInc, Copy(TmpVal2)]
  const KeepThird: seq<Stmt> := [SpixInc, Copy(TmpVal3)]

  /** The three merges that end a HALVE2F step, in the order they are written. */
  function Halve2FMerges(d: Depth): seq<Stmt>
  {
    [ Merge(TmpVal, MergeWidth(d), TmpVal, TmpVal2),
      Merge(TmpVal2, MergeWidth(d), TmpVal3, DpixVal),
      Merge(DpixVal, MergeWidth(d), TmpVal, TmpVal2) ]
  }

  /** out_linetoscr_do_incspix: advance the source cursor past the pixels the scaling
      mode consumes, fetching, resolving and merging them in the filtered modes. */
  function IncSpixText(d: Depth, h: HMode, aga: bool, c: CMode, spr: bool): seq<Stmt>
  {
    if h == Halve1F then
      Halve1FOpen
      + FetchResolve(aga, c, spr)
      + [Merge(DpixVal, MergeWidth(d), DpixVal, TmpVal), SpixInc, CloseBlock]
    else if h == Halve2F then
      Halve2FOpen
      + FetchResolve(aga, c, spr)
      + KeepSecond
      + FetchResolve(aga, c, spr)
      + KeepThird
      + FetchResolve(aga, c, spr)
      + (Halve2FMerges(d) + [SpixInc, CloseBlock])
    else if h == Halve1 then
      [SpixAdd2]
    else if h == Halve2 then
      [SpixAdd4]
    else
      [SpixInc]
  }

  /** Fetch, resolve and advance: one source pixel handled from start to end. */
  function PixelStep(p: Point, c: CMode): seq<Stmt>
  {
    FetchResolve(p.aga, c, p.spr) + IncSpixText(p.depth, p.hmode, p.aga, c, p.spr)
  }

  /** On AGA, the test of batch position k that may replace out_val(k+1). */
  function AgaCheck(c: CMode, aga: bool, k: nat): seq<Stmt>
  {
    [SpriteTestAt(k), RenderAt(k, c == DualPF, aga), IfSprcol, SetOutValN(k + 1), CloseBlock]
  }

  /** cnt copies of a statement. */
  function Repeat(s: Stmt, cnt: int): (r: seq<Stmt>)
    ensures |r| == if cnt <= 0 then 0 else cnt
    ensures forall i :: 0 <= i < |r| ==> r[i] == s
  {
    if cnt <= 0 then [] else seq(cnt, _ => s)
  }

  /** out_sprite: overlay sprites onto a batch of cnt destination pixels and write them. */
  function SpriteText(c: CMode, aga: bool, cnt: int): seq<Stmt>
  {
    if aga then
      if cnt == 1 then AgaBatch1(c, aga)
      else if cnt == 2 then AgaBatch2(c, aga)
      else if cnt == 4 then AgaBatch4(c, aga)
      else []
    else
      SharedBatch(c, aga, cnt)
  }

  /** On AGA, a batch of one pixel: test it, then write it. */
  function AgaBatch1(c: CMode, aga: bool): seq<Stmt>
  {
    [SpriteTest, RenderAt(0, c == DualPF, aga), IfSprcol, SetOutVal, CloseBlock] + [Put("out_val")]
  }

  /** On AGA, a batch of two pixels: a copy of out_val per pixel, a test per pixel,
      then the writes in order. */
  function AgaBatch2(c: CMode, aga: bool): seq<Stmt>
  {
    [OpenBlock, CopyOutVal(1), CopyOutVal(2)]
    + AgaCheck(c, aga, 0) + AgaCheck(c, aga, 1)
    + [Put("out_val1")] + [Put("out_val2")] + [CloseBlock]
  }

  /** On AGA, a batch of four pixels, laid out as the batch of two. */
  function AgaBatch4(c: CMode, aga: bool): seq<Stmt>
  {
    [OpenBlock, CopyOutVal(1), CopyOutVal(2), CopyOutVal(3), CopyOutVal(4)]
    + AgaCheck(c, aga, 0) + AgaCheck(c, aga, 1) + AgaCheck(c, aga, 2) + AgaCheck(c, aga, 3)
    + [Put("out_val1")] + [Put("out_val2")] + [Put("out_val3")] + [Put("out_val4")] + [CloseBlock]
  }

  /** Without AGA, one sprite test covers the whole batch. */
  function SharedCheck(c: CMode, aga: bool): seq<Stmt>
  {
    [SpriteTest, RenderShared(c == DualPF, aga), IfSprcolOpen, SpcolDecl, SetOutValSpcol, InnerClose, CloseBlock]
  }

  /** Without AGA: one test for the whole batch, then cnt writes of the same value. */
  function SharedBatch(c: CMode, aga: bool, cnt: int): seq<Stmt>
  {
    SharedCheck(c, aga) + Repeat(Put("out_val"), cnt)
  }

  /** The condition under which two 16-bit pixels are packed into one 32-bit write,
      and the alignment fixup around the loop is emitted. */
  predicate PackedPair(p: Point)
  {
    p.depth == D16 && p.hmode != Double && p.hmode != Double2x && !p.spr
  }

  /** The dual-playfield lookup table selection at the head of a mode body. */
  function LookupText(aga: bool, c: CMode): seq<Stmt>
  {
    if aga && c == DualPF then [LookupAga, LookupNoAga]
    else if c == DualPF then [LookupEcs]
    else []
  }

  /** The fixup prologue: write one pixel alone if the destination is not 4-byte
      aligned, and hold back the last pixel if the end is not. */
  function FixupPrologueText(p: Point, c: CMode): seq<Stmt>
  {
    [RemDecl, AlignTest, SpixValDecl, DpixValDecl]
    + PixelStep(p, c)
    + ([Put("dpix_val")] + [CloseBrace, EndTest, ReturnSpix, RemSet, RemTest, HoldBack])
  }

  /** The fixup epilogue: write the pixel the prologue held back. */
  function FixupEpilogueText(p: Point, c: CMode): seq<Stmt>
  {
    [RemOpen, SpixValDecl, DpixValDecl]
    + PixelStep(p, c)
    + ([Put("dpix_val")] + [CloseBrace])
  }

  /** The statement that packs two 16-bit pixels into out_val. */
  function PackLine(bigEndian: bool): Stmt
  {
    if bigEndian then PackBig else PackLittle
  }

  /** The destination writes at the end of one loop iteration. */
  function WriteText(p: Point, c: CMode): seq<Stmt>
  {
    if p.hmode == Double then
      if p.depth == D8 then [HalfStore8, DpixAdd2]
      else if p.depth == D16 then
        if p.spr then SpriteText(c, p.aga, 2) else [WordStore, DpixAdd2]
      else
        if p.spr then SpriteText(c, p.aga, 2) else [Put("out_val")] + [Put("out_val")]
    else if p.hmode == Double2x then
      if p.depth == D8 then [WordStore8, DpixAdd4]
      else if p.depth == D16 then
        if p.spr then SpriteText(c, p.aga, 4) else [WordStore, DpixAdd2, WordStore, DpixAdd2]
      else
        if p.spr then SpriteText(c, p.aga, 4)
        else [Put("out_val")] + [Put("out_val")] + [Put("out_val")] + [Put("out_val")]
    else
      if p.depth == D16 then
        if p.spr then SpriteText(c, p.aga, 1) else [WordStore, DpixAdd2]
      else
        if p.spr then SpriteText(c, p.aga, 1) else [Put("out_val")]
  }

  /** The local declarations at the top of the loop body. */
  function LoopLocals(spr: bool): seq<Stmt>
  {
    (if spr then [SprpixValDecl] else []) + [SpixValDecl, DpixValDecl, OutValDecl, Blank]
  }

  /** The second source pixel of a packed pair and the statement that packs it. */
  function PackText(p: Point, c: CMode, bigEndian: bool): seq<Stmt>
  {
    if PackedPair(p) then PixelStep(p, c) + [PackLine(bigEndian)] else []
  }

  /** The body of the per-pixel loop, between its opening and closing lines. */
  function LoopBody(p: Point, c: CMode, bigEndian: bool): seq<Stmt>
  {
    LoopLocals(p.spr)
    + PixelStep(p, c)
    + [Copy(OutVal)]
    + PackText(p, c, bigEndian)
    + WriteText(p, c)
  }

  /** The fixup prologue where the point packs pixel pairs, and nothing otherwise. */
  function PrologueOf(p: Point, c: CMode): seq<Stmt>
  {
    if PackedPair(p) then FixupPrologueText(p, c) else []
  }

  /** The fixup epilogue where the point packs pixel pairs, and nothing otherwise. */
  function EpilogueOf(p: Point, c: CMode): seq<Stmt>
  {
    if PackedPair(p) then FixupEpilogueText(p, c) else []
  }

  /** out_linetoscr_mode: the complete code for one colour mode. */
  function ModeText(p: Point, c: CMode, bigEndian: bool): seq<Stmt>
  {
    LookupText(p.aga, c)
    + PrologueOf(p, c)
    + [LoopOpen] + LoopBody(p, c, bigEndian) + [CloseBrace]
    + EpilogueOf(p, c)
  }

  /** The indent out_linetoscr_mode writes its statements at. */
  const ModeIndent: nat := 8

  /** The lines of out_linetoscr before the colour-mode dispatch. */
  function BodyPrelude(p: Point): seq<Stmt>
  {
    (if p.aga then [IfdefAga] else [])
    + [Decl(p), OpenBrace, BufDecl(p.depth)]
    + (if p.spr then [SprcolDecl] else [])
    + (if p.aga then [XorDecl] else [])
    + [Blank]
  }

  /** The lines of out_linetoscr after the colour-mode dispatch. */
  function BodyClose(p: Point): seq<Stmt>
  {
    [DispatchClose, ReturnSpix, CloseBrace] + (if p.aga then [EndifAga] else []) + [Blank]
  }

  /** The colour mode of the k-th branch of the dispatch: HAM first, then dual
      playfield, then extra half-brite, and normal for everything else. */
  function DispatchMode(k: nat): CMode
  {
    if k == 0 then Ham else if k == 1 then DualPF else if k == 2 then ExtraHB else CNormal
  }

  /** The number of branches of the dispatch, one per colour mode. */
  const BranchCount: nat := 4

  /** The line that opens the branch of a colour mode: an if for the first mode tested,
      an else-if for the next two, and a plain else for the last. */
  function ModeTest(c: CMode): Stmt
  {
    match c
    case Ham => HamTest
    case DualPF => DualPFTest
    case ExtraHB => ExtraHBTest
    case CNormal => OtherwiseTest
  }

  /** One branch of the dispatch: its test at the routine's indent, then the code of
      its colour mode at ModeIndent. */
  function BranchLines(ind: nat, p: Point, c: CMode, bigEndian: bool): seq<string>
  {
    Emit(ind, [ModeTest(c)]) + Emit(ModeIndent, ModeText(p, c, bigEndian))
  }

  /** The first k branches of the dispatch, in order. */
  function Branches(ind: nat, p: Point, k: nat, bigEndian: bool): seq<string>
  {
    if k == 0 then [] else Branches(ind, p, k - 1, bigEndian) + BranchLines(ind, p, DispatchMode(k - 1), bigEndian)
  }

  /** out_linetoscr: the complete routine for one point, as written at indent ind. */
  function RoutineLines(ind: nat, p: Point, bigEndian: bool): seq<string>
  {
    Emit(ind, BodyPrelude(p)) + Branches(ind, p, BranchCount, bigEndian) + Emit(ind, BodyClose(p))
  }

  /** The comment written once before any routine. */
  const HeaderText: seq<Stmt> := [CommentOpen, Banner, CommentBlank, GeneratedNote, CommentClose, Blank]

  /** The routines main writes for one depth, chipset level and sprite setting:
      one per scaling mode, in HMODE order. */
  function ModeRow(bpp: int, aga: int, spr: int): (r: seq<Point>)
    ensures |r| == 7
  {
    seq(7, h => Point(DepthOf(bpp), HModeOf(h), aga == 1, spr == 1))
  }

  /** The points of the first n sprite settings, for one depth and chipset level. */
  function SpriteRows(bpp: int, aga: int, n: nat): seq<Point>
  {
    if n == 0 then [] else SpriteRows(bpp, aga, n - 1) + ModeRow(bpp, aga, n - 1)
  }

  /** The points of the first n chipset levels, for one depth; AGA is skipped at 8 bits. */
  function ChipsetRows(bpp: int, n: nat): seq<Point>
  {
    if n == 0 then []
    else ChipsetRows(bpp, n - 1) + (if n - 1 == 1 && bpp == 0 then [] else SpriteRows(bpp, n - 1, 2))
  }

  /** The points of the depths 1 .. n (DEPTH_16BPP upwards). */
  function DepthRows(n: nat): seq<Point>
  {
    if n == 0 then [] else DepthRows(n - 1) + ChipsetRows(n, 2)
  }

  /** The points main visits, in the order it visits them: depth outermost (16, then
      32 bits), then the chipset level, then sprites, and the scaling mode innermost. */
  function AllPoints(): seq<Point>
  {
    DepthRows(2)
  }

  /** The routines for a run of points, one after another. */
  function Routines(ind: nat, bigEndian: bool, pts: seq<Point>): seq<string>
  {
    if pts == [] then [] else Routines(ind, bigEndian, pts[..|pts| - 1]) + RoutineLines(ind, pts[|pts| - 1], bigEndian)
  }

  /** The whole generated file. */
  function ProgramLines(ind: nat, bigEndian: bool): seq<string>
  {
    Emit(ind, HeaderText) + Routines(ind, bigEndian, AllPoints())
  }

  /** The routines of two runs are those of the first followed by those of the second. */
  lemma {:induction false} RoutinesAppend(ind: nat, bigEndian: bool, xs: seq<Point>, ys: seq<Point>)
    ensures Routines(ind, bigEndian, xs + ys) == Routines(ind, bigEndian, xs) + Routines(ind, bigEndian, ys)
    decreases |ys|
  {
    if ys == [] {
      assert xs + ys == xs;
      assert Routines(ind, bigEndian, xs) + [] == Routines(ind, bigEndian, xs);
    } else {
      var init := ys[..|ys| - 1];
      var last := ys[|ys| - 1];
      assert (xs + ys)[..|xs + ys| - 1] == xs + init;
      assert (xs + ys)[|xs + ys| - 1] == last;
      RoutinesAppend(ind, bigEndian, xs, init);
      Extend(Routines(ind, bigEndian, xs), Routines(ind, bigEndian, init), RoutineLines(ind, last, bigEndian));
    }
  }

  /** The routines of a run with one more point end with that point's routine. */
  lemma RoutinesSnoc(ind: nat, bigEndian: bool, xs: seq<Point>, p: Point)
    ensures Routines(ind, bigEndian, xs + [p]) == Routines(ind, bigEndian, xs) + RoutineLines(ind, p, bigEndian)
  {
    assert (xs + [p])[..|xs|] == xs;
  }
}
