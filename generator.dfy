/** The generator itself: the output sink with its indent, the emitters that write
    through it, and the driver that walks the configuration space. */
module GenLineToScr {
  import opened Axes
  import opened Statements
  import opened Lines
  import opened Emission

  /** The process-wide state of the generator: the indent outln writes before each
      line (outfile_indent), the lines written so far (the output stream), and the
      target byte order fixed before generation starts (do_bigendian). */
  class Generator {
    var indent: nat
    var out: seq<string>
    const bigEndian: bool

    constructor (bigEndian: bool)
      ensures this.bigEndian == bigEndian && indent == 0 && out == []
    {
      this.bigEndian := bigEndian;
      indent := 0;
      out := [];
    }

    /** set_indent: replace the indent and hand back the one it replaces. */
    method SetIndent(n: nat) returns (previous: nat)
      modifies this`indent
      ensures indent == n && previous == old(indent)
    {
      previous := indent;
      indent := n;
    }

    /** outln (and outlnf, once its arguments are formatted): write the indent, one
        space at a time, then the statement, as one line. */
    method OutLn(s: string)
      modifies this`out
      ensures out == old(out) + [Spaces(indent) + s]
    {
      var line := "";
      var i := 0;
      while i < indent
        invariant 0 <= i <= indent
        invariant line == Spaces(i)
      {
        line := line + " ";
        i := i + 1;
      }
      out := out + [line + s];
    }

    /** outln of one statement. */
    method OutStmt(st: Stmt)
      modifies this`out
      ensures out == old(out) + Emit(indent, [st])
    {
      OutLn(Text(st));
    }

    /** A run of consecutive outln calls, one per statement. */
    method OutLines(stmts: seq<Stmt>)
      modifies this`out
      ensures out == old(out) + Emit(indent, stmts)
    {
      var k := 0;
      while k < |stmts|
        invariant 0 <= k <= |stmts|
        invariant out == old(out) + Emit(indent, stmts[..k])
      {
        OutStmt(stmts[k]);
        EmitAppend(indent, stmts[..k], [stmts[k]]);
        assert stmts[..k + 1] == stmts[..k] + [stmts[k]];
        k := k + 1;
      }
      assert stmts[..k] == stmts;
    }

    /** out_linetoscr_decl */
    method LineToScrDecl(p: Point)
      modifies this`out
      ensures out == old(out) + Emit(indent, [Decl(p)])
    {
      var name := "linetoscr_" + DepthStr(p.depth) + HModeStr(p.hmode)
        + (if p.aga then "_aga" else "") + (if p.spr then "_spr" else "");
      assert name == DeclName(p);
      var line := "static int NOINLINE " + name + " (int spix, int dpix, int dpix_end)";
      assert line == Text(Decl(p));
      OutLn(line);
      assert Emit(indent, [Decl(p)]) == [Spaces(indent) + line];
    }

    /** out_linetoscr_do_srcpix */
    method SrcPix(aga: bool, c: CMode, spr: bool)
      modifies this`out
      ensures out == old(out) + Emit(indent, SrcPixText(aga, c, spr))
    {
      if aga && c != DualPF {
        if spr {
          OutStmt(SprFetchAga);
        }
        OutStmt(FetchAga);
      } else if c != Ham {
        OutStmt(Fetch);
        if spr {
          OutStmt(SprFromFetch);
        }
      }
    }

    /** out_linetoscr_do_dstpix */
    method DstPix(aga: bool, c: CMode, spr: bool)
      modifies this`out
      ensures out == old(out) + Emit(indent, DstPixText(aga, c, spr))
    {
      if aga && c == Ham {
        OutStmt(ResolveHamAga);
        if spr {
          OutStmt(SprFromResolve);
        }
      } else if c == Ham {
        OutStmt(ResolveHam);
        if spr {
          OutStmt(SprFromResolve);
        }
      } else if aga && c == DualPF {
        OutLines(ResolveDualPFAga);
      } else if c == DualPF {
        OutStmt(ResolveDualPF);
      } else if aga && c == ExtraHB {
        OutLines(ResolveExtraHBAga);
      } else if c == ExtraHB {
        OutLines(ResolveExtraHB);
      } else {
        OutStmt(ResolvePlain);
      }
    }

    /** A fetch followed by a resolve. */
    method SrcDstPix(aga: bool, c: CMode, spr: bool)
      modifies this`out
      ensures out == old(out) + Emit(indent, FetchResolve(aga, c, spr))
    {
      SrcPix(aga, c, spr);
      DstPix(aga, c, spr);
      EmitMore(old(out), indent, SrcPixText(aga, c, spr), DstPixText(aga, c, spr));
    }

    /** out_linetoscr_do_incspix */
    method IncSpix(d: Depth, h: HMode, aga: bool, c: CMode, spr: bool)
      modifies this`out
      ensures out == old(out) + Emit(indent, IncSpixText(d, h, aga, c, spr))
    {
      var width := if d == D8 then 8 else if d == D16 then 16 else 32;
      if h == Halve1F {
        OutLines(Halve1FOpen);
        SrcDstPix(aga, c, spr);
        EmitMore(old(out), indent, Halve1FOpen, FetchResolve(aga, c, spr));
        ghost var w := Halve1FOpen + FetchResolve(aga, c, spr);
        var tail := [Merge(DpixVal, width, DpixVal, TmpVal), SpixInc, CloseBlock];
        OutLines(tail);
        EmitMore(old(out), indent, w, tail);
      } else if h == Halve2F {
        Halve2FSteps(aga, c, spr);
        ghost var w := Halve2FOpen + FetchResolve(aga, c, spr) + KeepSecond
          + FetchResolve(aga, c, spr) + KeepThird + FetchResolve(aga, c, spr);
        var merges := [ Merge(TmpVal, width, TmpVal, TmpVal2),
                        Merge(TmpVal2, width, TmpVal3, DpixVal),
                        Merge(DpixVal, width, TmpVal, TmpVal2) ];
        assert merges == Halve2FMerges(d);
        OutLines(merges);
        OutLines([SpixInc, CloseBlock]);
        EmitMore2(old(out), indent, w, merges, [SpixInc, CloseBlock]);
      } else if h == Halve1 {
        OutStmt(SpixAdd2);
      } else if h == Halve2 {
        OutStmt(SpixAdd4);
      } else {
        OutStmt(SpixInc);
      }
    }

    /** out_linetoscr_do_incspix for HALVE2F, up to the merges: the three further
        source pixels, each fetched and resolved, with the first two kept. */
    method Halve2FSteps(aga: bool, c: CMode, spr: bool)
      modifies this`out
      ensures out == old(out) + Emit(indent, Halve2FOpen + FetchResolve(aga, c, spr) + KeepSecond
                                            + FetchResolve(aga, c, spr) + KeepThird + FetchResolve(aga, c, spr))
    {
      OutLines(Halve2FOpen);
      ghost var w := Halve2FOpen;
      SrcDstPix(aga, c, spr);
      EmitMore(old(out), indent, w, FetchResolve(aga, c, spr));
      w := w + FetchResolve(aga, c, spr);
      OutLines(KeepSecond);
      EmitMore(old(out), indent, w, KeepSecond);
      w := w + KeepSecond;
      SrcDstPix(aga, c, spr);
      EmitMore(old(out), indent, w, FetchResolve(aga, c, spr));
      w := w + FetchResolve(aga, c, spr);
      OutLines(KeepThird);
      EmitMore(old(out), indent, w, KeepThird);
      w := w + KeepThird;
      SrcDstPix(aga, c, spr);
      EmitMore(old(out), indent, w, FetchResolve(aga, c, spr));
    }

    /** put_dpix */
    method PutDpix(v: string)
      modifies this`out
      ensures out == old(out) + Emit(indent, [Put(v)])
    {
      OutStmt(Put(v));
    }

    /** out_sprite: dispatches on the chipset and the batch size. */
    method Sprite(c: CMode, aga: bool, cnt: int)
      modifies this`out
      ensures out == old(out) + Emit(indent, SpriteText(c, aga, cnt))
    {
      if aga {
        if cnt == 1 {
          AgaSprite1(c, aga);
        } else if cnt == 2 {
          AgaSprite2(c, aga);
        } else if cnt == 4 {
          AgaSprite4(c, aga);
        }
      } else {
        SharedSprite(c, aga, cnt);
      }
    }

    /** out_sprite on AGA for a single pixel. */
    method AgaSprite1(c: CMode, aga: bool)
      modifies this`out
      ensures out == old(out) + Emit(indent, AgaBatch1(c, aga))
    {
      var check := [SpriteTest, RenderAt(0, c == DualPF, aga), IfSprcol, SetOutVal, CloseBlock];
      OutLines(check);
      PutDpix("out_val");
      EmitMore(old(out), indent, check, [Put("out_val")]);
    }

    /** out_sprite on AGA for a pair of pixels: one test per pixel, then both writes. */
    method AgaSprite2(c: CMode, aga: bool)
      modifies this`out
      ensures out == old(out) + Emit(indent, AgaBatch2(c, aga))
    {
      var head := [OpenBlock, CopyOutVal(1), CopyOutVal(2)];
      OutLines(head);
      ghost var w := head;
      OutLines(AgaCheck(c, aga, 0));
      EmitMore(old(out), indent, w, AgaCheck(c, aga, 0));
      w := w + AgaCheck(c, aga, 0);
      OutLines(AgaCheck(c, aga, 1));
      EmitMore(old(out), indent, w, AgaCheck(c, aga, 1));
      w := w + AgaCheck(c, aga, 1);
      PutDpix("out_val1");
      EmitMore(old(out), indent, w, [Put("out_val1")]);
      w := w + [Put("out_val1")];
      PutDpix("out_val2");
      EmitMore(old(out), indent, w, [Put("out_val2")]);
      w := w + [Put("out_val2")];
      OutStmt(CloseBlock);
      EmitMore(old(out), indent, w, [CloseBlock]);
    }

    /** out_sprite on AGA for four pixels: one test per pixel, then the four writes. */
    method AgaSprite4(c: CMode, aga: bool)
      modifies this`out
      ensures out == old(out) + Emit(indent, AgaBatch4(c, aga))
    {
      var head := [OpenBlock, CopyOutVal(1), CopyOutVal(2), CopyOutVal(3), CopyOutVal(4)];
      OutLines(head);
      ghost var w := head;
      OutLines(AgaCheck(c, aga, 0));
      EmitMore(old(out), indent, w, AgaCheck(c, aga, 0));
      w := w + AgaCheck(c, aga, 0);
      OutLines(AgaCheck(c, aga, 1));
      EmitMore(old(out), indent, w, AgaCheck(c, aga, 1));
      w := w + AgaCheck(c, aga, 1);
      OutLines(AgaCheck(c, aga, 2));
      EmitMore(old(out), indent, w, AgaCheck(c, aga, 2));
      w := w + AgaCheck(c, aga, 2);
      OutLines(AgaCheck(c, aga, 3));
      EmitMore(old(out), indent, w, AgaCheck(c, aga, 3));
      w := w + AgaCheck(c, aga, 3);
      PutDpix("out_val1");
      EmitMore(old(out), indent, w, [Put("out_val1")]);
      w := w + [Put("out_val1")];
      PutDpix("out_val2");
      EmitMore(old(out), indent, w, [Put("out_val2")]);
      w := w + [Put("out_val2")];
      PutDpix("out_val3");
      EmitMore(old(out), indent, w, [Put("out_val3")]);
      w := w + [Put("out_val3")];
      PutDpix("out_val4");
      EmitMore(old(out), indent, w, [Put("out_val4")]);
      w := w + [Put("out_val4")];
      OutStmt(CloseBlock);
      EmitMore(old(out), indent, w, [CloseBlock]);
    }

    /** out_sprite without AGA: one test for the batch, then cnt writes of the same value. */
    method SharedSprite(c: CMode, aga: bool, cnt: int)
      modifies this`out
      ensures out == old(out) + Emit(indent, SharedBatch(c, aga, cnt))
    {
      var check := [SpriteTest, RenderShared(c == DualPF, aga), IfSprcolOpen, SpcolDecl, SetOutValSpcol, InnerClose, CloseBlock];
      OutLines(check);
      var n := cnt;
      while n > 0
        invariant n <= cnt
        invariant cnt > 0 ==> n >= 0
        invariant cnt <= 0 ==> n == cnt
        invariant out == old(out) + Emit(indent, check) + Emit(indent, Repeat(Put("out_val"), cnt - n))
      {
        n := n - 1;
        PutDpix("out_val");
        EmitMore(old(out) + Emit(indent, check), indent, Repeat(Put("out_val"), cnt - n - 1), [Put("out_val")]);
        assert Repeat(Put("out_val"), cnt - n)
          == Repeat(Put("out_val"), cnt - n - 1) + [Put("out_val")];
      }
      assert Repeat(Put("out_val"), cnt - n) == Repeat(Put("out_val"), cnt);
      EmitMore(old(out), indent, check, Repeat(Put("out_val"), cnt));
    }

    /** The fetch, resolve and advance that out_linetoscr_mode writes for each source pixel. */
    method PixelSteps(p: Point, c: CMode)
      modifies this`out
      ensures out == old(out) + Emit(indent, PixelStep(p, c))
    {
      SrcDstPix(p.aga, c, p.spr);
      IncSpix(p.depth, p.hmode, p.aga, c, p.spr);
      EmitMore(old(out), indent, FetchResolve(p.aga, c, p.spr), IncSpixText(p.depth, p.hmode, p.aga, c, p.spr));
    }

    /** out_linetoscr_mode, first part: the dual-playfield lookup tables. */
    method Lookup(aga: bool, c: CMode)
      modifies this`out
      ensures out == old(out) + Emit(indent, LookupText(aga, c))
    {
      if aga && c == DualPF {
        OutLines([LookupAga, LookupNoAga]);
      } else if c == DualPF {
        OutStmt(LookupEcs);
      }
    }

    /** out_linetoscr_mode, second part: write a lone first pixel to reach a 4-byte
        boundary, and hold back the last pixel when the end is not on one. */
    method FixupPrologue(p: Point, c: CMode)
      modifies this`out
      ensures out == old(out) + Emit(indent, FixupPrologueText(p, c))
    {
      var head := [RemDecl, AlignTest, SpixValDecl, DpixValDecl];
      OutLines(head);
      PixelSteps(p, c);
      EmitMore(old(out), indent, head, PixelStep(p, c));
      ghost var w := head + PixelStep(p, c);
      PutDpix("dpix_val");
      var tail := [CloseBrace, EndTest, ReturnSpix, RemSet, RemTest, HoldBack];
      OutLines(tail);
      EmitMore2(old(out), indent, w, [Put("dpix_val")], tail);
    }

    /** out_linetoscr_mode, fourth part: the destination writes of one loop iteration. */
    method Writes(p: Point, c: CMode)
      modifies this`out
      ensures out == old(out) + Emit(indent, WriteText(p, c))
    {
      if p.hmode == Double {
        if p.depth == D8 {
          OutLines([HalfStore8, DpixAdd2]);
        } else if p.depth == D16 {
          if p.spr {
            Sprite(c, p.aga, 2);
          } else {
            OutLines([WordStore, DpixAdd2]);
          }
        } else {
          if p.spr {
            Sprite(c, p.aga, 2);
          } else {
            PutDpix("out_val");
            PutDpix("out_val");
            EmitMore(old(out), indent, [Put("out_val")], [Put("out_val")]);
          }
        }
      } else if p.hmode == Double2x {
        if p.depth == D8 {
          OutLines([WordStore8, DpixAdd4]);
        } else if p.depth == D16 {
          if p.spr {
            Sprite(c, p.aga, 4);
          } else {
            OutLines([WordStore, DpixAdd2, WordStore, DpixAdd2]);
          }
        } else {
          if p.spr {
            Sprite(c, p.aga, 4);
          } else {
            PutDpix("out_val");
            PutDpix("out_val");
            EmitMore(old(out), indent, [Put("out_val")], [Put("out_val")]);
            ghost var w := [Put("out_val")] + [Put("out_val")];
            PutDpix("out_val");
            EmitMore(old(out), indent, w, [Put("out_val")]);
            w := w + [Put("out_val")];
            PutDpix("out_val");
            EmitMore(old(out), indent, w, [Put("out_val")]);
          }
        }
      } else {
        if p.depth == D16 {
          if p.spr {
            Sprite(c, p.aga, 1);
          } else {
            OutLines([WordStore, DpixAdd2]);
          }
        } else {
          if p.spr {
            Sprite(c, p.aga, 1);
          } else {
            PutDpix("out_val");
          }
        }
      }
    }

    /** out_linetoscr_mode: the second source pixel of a packed pair and the
        statement that packs it, whose half order follows the target byte order. */
    method Pack(p: Point, c: CMode)
      modifies this`out
      ensures out == old(out) + Emit(indent, PackText(p, c, bigEndian))
    {
      if p.hmode != Double && p.hmode != Double2x && p.depth == D16 && !p.spr {
        PixelSteps(p, c);
        if bigEndian {
          OutStmt(PackBig);
        } else {
          OutStmt(PackLittle);
        }
        EmitMore(old(out), indent, PixelStep(p, c), [PackLine(bigEndian)]);
      }
    }

    /** out_linetoscr_mode, third part: the body of the per-pixel loop. */
    method Loop(p: Point, c: CMode)
      modifies this`out
      ensures out == old(out) + Emit(indent, LoopBody(p, c, bigEndian))
    {
      if p.spr {
        OutStmt(SprpixValDecl);
      }
      var locals := [SpixValDecl, DpixValDecl, OutValDecl, Blank];
      OutLines(locals);
      EmitMore(old(out), indent, if p.spr then [SprpixValDecl] else [], locals);
      ghost var w := LoopLocals(p.spr);
      assert out == old(out) + Emit(indent, w);
      PixelSteps(p, c);
      EmitMore(old(out), indent, w, PixelStep(p, c));
      w := w + PixelStep(p, c);
      assert out == old(out) + Emit(indent, w);
      OutStmt(Copy(OutVal));
      EmitMore(old(out), indent, w, [Copy(OutVal)]);
      w := w + [Copy(OutVal)];
      assert out == old(out) + Emit(indent, w);
      Pack(p, c);
      EmitMore(old(out), indent, w, PackText(p, c, bigEndian));
      w := w + PackText(p, c, bigEndian);
      assert out == old(out) + Emit(indent, w);
      Writes(p, c);
      EmitMore(old(out), indent, w, WriteText(p, c));
    }

    /** out_linetoscr_mode, last part: write the pixel the prologue held back. */
    method FixupEpilogue(p: Point, c: CMode)
      modifies this`out
      ensures out == old(out) + Emit(indent, FixupEpilogueText(p, c))
    {
      var head := [RemOpen, SpixValDecl, DpixValDecl];
      OutLines(head);
      PixelSteps(p, c);
      EmitMore(old(out), indent, head, PixelStep(p, c));
      ghost var w := head + PixelStep(p, c);
      PutDpix("dpix_val");
      OutStmt(CloseBrace);
      EmitMore2(old(out), indent, w, [Put("dpix_val")], [CloseBrace]);
    }

    /** out_linetoscr_mode: the code of one colour mode, written at indent 8 whatever the
        caller's indent, which is restored afterwards. */
    method Mode(p: Point, c: CMode)
      modifies this`indent, this`out
      ensures indent == old(indent)
      ensures out == old(out) + Emit(ModeIndent, ModeText(p, c, bigEndian))
    {
      var oldIndent := SetIndent(8);
      ModeCode(p, c);
      oldIndent := SetIndent(oldIndent);
    }

    /** The statements of out_linetoscr_mode, at the current indent. */
    method ModeCode(p: Point, c: CMode)
      modifies this`out
      ensures out == old(out) + Emit(indent, ModeText(p, c, bigEndian))
    {
      var fixup := p.depth == D16 && p.hmode != Double && p.hmode != Double2x && !p.spr;
      assert fixup == PackedPair(p);
      Lookup(p.aga, c);
      ghost var w := LookupText(p.aga, c);
      ghost var before := out;
      if fixup {
        FixupPrologue(p, c);
      }
      assert out == before + Emit(indent, PrologueOf(p, c));
      EmitMore(old(out), indent, w, PrologueOf(p, c));
      w := w + PrologueOf(p, c);
      LoopBlock(p, c);
      EmitMore(old(out), indent, w, [LoopOpen] + LoopBody(p, c, bigEndian) + [CloseBrace]);
      Extend3(w, [LoopOpen], LoopBody(p, c, bigEndian), [CloseBrace]);
      w := w + [LoopOpen] + LoopBody(p, c, bigEndian) + [CloseBrace];
      before := out;
      if fixup {
        FixupEpilogue(p, c);
      }
      assert out == before + Emit(indent, EpilogueOf(p, c));
      EmitMore(old(out), indent, w, EpilogueOf(p, c));
    }

    /** The per-pixel loop: its opening line, its body and its closing brace. */
    method LoopBlock(p: Point, c: CMode)
      modifies this`out
      ensures out == old(out) + Emit(indent, [LoopOpen] + LoopBody(p, c, bigEndian) + [CloseBrace])
    {
      OutStmt(LoopOpen);
      Loop(p, c);
      EmitMore(old(out), indent, [LoopOpen], LoopBody(p, c, bigEndian));
      OutStmt(CloseBrace);
      EmitMore(old(out), indent, [LoopOpen] + LoopBody(p, c, bigEndian), [CloseBrace]);
    }

    /** out_linetoscr, up to the colour-mode dispatch: the AGA guard, the header, the
        declaration of buf, the locals and the blank line after them. */
    method Prelude(p: Point)
      modifies this`out
      ensures out == old(out) + Emit(indent, BodyPrelude(p))
    {
      ghost var before := out;
      if p.aga {
        OutStmt(IfdefAga);
      }
      ghost var w: seq<Stmt> := if p.aga then [IfdefAga] else [];
      assert out == before + Emit(indent, w);
      LineToScrDecl(p);
      OutStmt(OpenBrace);
      OutStmt(BufDecl(p.depth));
      EmitMore(old(out), indent, w, [Decl(p)]);
      EmitMore(old(out), indent, w + [Decl(p)], [OpenBrace]);
      EmitMore(old(out), indent, w + [Decl(p)] + [OpenBrace], [BufDecl(p.depth)]);
      assert w + [Decl(p)] + [OpenBrace] + [BufDecl(p.depth)] == w + [Decl(p), OpenBrace, BufDecl(p.depth)];
      w := w + [Decl(p), OpenBrace, BufDecl(p.depth)];
      assert out == old(out) + Emit(indent, w);
      before := out;
      if p.spr {
        OutStmt(SprcolDecl);
      }
      assert out == before + Emit(indent, if p.spr then [SprcolDecl] else []);
      EmitMore(old(out), indent, w, if p.spr then [SprcolDecl] else []);
      w := w + (if p.spr then [SprcolDecl] else []);
      before := out;
      if p.aga {
        OutStmt(XorDecl);
      }
      assert out == before + Emit(indent, if p.aga then [XorDecl] else []);
      EmitMore(old(out), indent, w, if p.aga then [XorDecl] else []);
      w := w + (if p.aga then [XorDecl] else []);
      OutStmt(Blank);
      EmitMore(old(out), indent, w, [Blank]);
    }

    /** out_linetoscr, after the colour-mode dispatch. */
    method Postlude(p: Point)
      modifies this`out
      ensures out == old(out) + Emit(indent, BodyClose(p))
    {
      OutLines([DispatchClose, ReturnSpix, CloseBrace]);
      ghost var before := out;
      if p.aga {
        OutStmt(EndifAga);
      }
      assert out == before + Emit(indent, if p.aga then [EndifAga] else []);
      EmitMore(old(out), indent, [DispatchClose, ReturnSpix, CloseBrace], if p.aga then [EndifAga] else []);
      ghost var w := [DispatchClose, ReturnSpix, CloseBrace] + (if p.aga then [EndifAga] else []);
      OutStmt(Blank);
      EmitMore(old(out), indent, w, [Blank]);
    }

    /** One branch of out_linetoscr's colour-mode dispatch: the line that tests for the
        mode, then out_linetoscr_mode for it. */
    method Branch(p: Point, c: CMode)
      modifies this`indent, this`out
      ensures indent == old(indent)
      ensures out == old(out) + BranchLines(old(indent), p, c, bigEndian)
    {
      OutStmt(ModeTest(c));
      Mode(p, c);
      Extend(old(out), Emit(indent, [ModeTest(c)]), Emit(ModeIndent, ModeText(p, c, bigEndian)));
    }

    /** out_linetoscr: the routine for one point, with its colour modes dispatched in
        the order HAM, dual playfield, extra half-brite, normal. */
    method LineToScr(p: Point)
      modifies this`indent, this`out
      ensures indent == old(indent)
      ensures out == old(out) + RoutineLines(old(indent), p, bigEndian)
    {
      Prelude(p);
      Dispatch(p);
      Postlude(p);
      Extend3(old(out), Emit(indent, BodyPrelude(p)), Branches(indent, p, BranchCount, bigEndian), Emit(indent, BodyClose(p)));
    }

    /** The colour-mode dispatch, one branch per mode. */
    method Dispatch(p: Point)
      modifies this`indent, this`out
      ensures indent == old(indent)
      ensures out == old(out) + Branches(old(indent), p, BranchCount, bigEndian)
    {
      Branch(p, Ham);
      Branch(p, DualPF);
      Branch(p, ExtraHB);
      Branch(p, CNormal);
      DispatchUnrolled(indent, p, bigEndian);
      Extend4(old(out), BranchLines(indent, p, Ham, bigEndian), BranchLines(indent, p, DualPF, bigEndian),
        BranchLines(indent, p, ExtraHB, bigEndian), BranchLines(indent, p, CNormal, bigEndian));
    }

    /** main, after the option scan: the banner comment, then one routine per point,
        depth outermost (16 then 32 bits), then chipset, sprites, and scaling mode. */
    method GenerateAll()
      modifies this`indent, this`out
      ensures indent == old(indent)
      ensures out == old(out) + ProgramLines(old(indent), bigEndian)
    {
      OutLines(HeaderText);
      ghost var start := out;
      for bpp := 1 to 3
        invariant indent == old(indent)
        invariant out == start + Routines(indent, bigEndian, DepthRows(bpp - 1))
      {
        ghost var done := Routines(indent, bigEndian, DepthRows(bpp - 1));
        GenerateDepth(bpp);
        Extend(start, done, Routines(indent, bigEndian, ChipsetRows(bpp, 2)));
        RoutinesAppend(indent, bigEndian, DepthRows(bpp - 1), ChipsetRows(bpp, 2));
      }
      Extend(old(out), Emit(indent, HeaderText), Routines(indent, bigEndian, AllPoints()));
    }

    /** The aga loop of main, for one depth: no AGA routines at 8 bits. */
    method GenerateDepth(bpp: int)
      modifies this`indent, this`out
      ensures indent == old(indent)
      ensures out == old(out) + Routines(old(indent), bigEndian, ChipsetRows(bpp, 2))
    {
      for aga := 0 to 2
        invariant indent == old(indent)
        invariant out == old(out) + Routines(indent, bigEndian, ChipsetRows(bpp, aga))
      {
        ghost var done := Routines(indent, bigEndian, ChipsetRows(bpp, aga));
        ChipsetRowsNext(bpp, aga);
        if aga == 1 && bpp == 0 {
          assert ChipsetRows(bpp, aga + 1) == ChipsetRows(bpp, aga);
          continue;
        }
        GenerateChipset(bpp, aga);
        Extend(old(out), done, Routines(indent, bigEndian, SpriteRows(bpp, aga, 2)));
        RoutinesAppend(indent, bigEndian, ChipsetRows(bpp, aga), SpriteRows(bpp, aga, 2));
      }
    }

    /** The spr loop of main, for one depth and chipset level. */
    method GenerateChipset(bpp: int, aga: int)
      modifies this`indent, this`out
      ensures indent == old(indent)
      ensures out == old(out) + Routines(old(indent), bigEndian, SpriteRows(bpp, aga, 2))
    {
      for spr := 0 to 2
        invariant indent == old(indent)
        invariant out == old(out) + Routines(indent, bigEndian, SpriteRows(bpp, aga, spr))
      {
        ghost var done := Routines(indent, bigEndian, SpriteRows(bpp, aga, spr));
        GenerateModes(bpp, aga, spr);
        Extend(old(out), done, Routines(indent, bigEndian, ModeRow(bpp, aga, spr)));
        RoutinesAppend(indent, bigEndian, SpriteRows(bpp, aga, spr), ModeRow(bpp, aga, spr));
      }
    }

    /** The hmode loop of main: out_linetoscr for every scaling mode of one depth,
        chipset level and sprite setting. */
    method GenerateModes(bpp: int, aga: int, spr: int)
      modifies this`indent, this`out
      ensures indent == old(indent)
      ensures out == old(out) + Routines(old(indent), bigEndian, ModeRow(bpp, aga, spr))
    {
      for hmode := 0 to 7
        invariant indent == old(indent)
        invariant out == old(out) + Routines(indent, bigEndian, ModeRow(bpp, aga, spr)[..hmode])
      {
        var p := Point(DepthOf(bpp), HModeOf(hmode), aga == 1, spr == 1);
        ghost var done := Routines(indent, bigEndian, ModeRow(bpp, aga, spr)[..hmode]);
        ModeRowNext(bpp, aga, spr, hmode);
        LineToScr(p);
        Extend(old(out), done, RoutineLines(indent, p, bigEndian));
        RoutinesSnoc(indent, bigEndian, ModeRow(bpp, aga, spr)[..hmode], p);
      }
      assert ModeRow(bpp, aga, spr)[..7] == ModeRow(bpp, aga, spr);
    }
  }

  /** The scaling-mode loop visits the next point of its row. */
  lemma ModeRowNext(bpp: int, aga: int, spr: int, h: int)
    requires 0 <= h < 7
    ensures ModeRow(bpp, aga, spr)[..h + 1] == ModeRow(bpp, aga, spr)[..h] + [Point(DepthOf(bpp), HModeOf(h), aga == 1, spr == 1)]
  {
  }

  /** The chipset loop visits the next chipset level's points, none for AGA at 8 bits. */
  lemma ChipsetRowsNext(bpp: int, aga: nat)
    ensures ChipsetRows(bpp, aga + 1)
      == ChipsetRows(bpp, aga) + if aga == 1 && bpp == 0 then [] else SpriteRows(bpp, aga, 2)
  {
  }

  /** The dispatch written out: the four branches in the order HAM, dual playfield,
      extra half-brite, normal. */
  lemma DispatchUnrolled(ind: nat, p: Point, bigEndian: bool)
    ensures Branches(ind, p, BranchCount, bigEndian)
      == BranchLines(ind, p, Ham, bigEndian) + BranchLines(ind, p, DualPF, bigEndian)
       + BranchLines(ind, p, ExtraHB, bigEndian) + BranchLines(ind, p, CNormal, bigEndian)
  {
    assert Branches(ind, p, 1, bigEndian) == BranchLines(ind, p, Ham, bigEndian);
    assert Branches(ind, p, 2, bigEndian) == Branches(ind, p, 1, bigEndian) + BranchLines(ind, p, DualPF, bigEndian);
    assert Branches(ind, p, 3, bigEndian) == Branches(ind, p, 2, bigEndian) + BranchLines(ind, p, ExtraHB, bigEndian);
  }

}
