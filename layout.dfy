/** Properties of the text of one routine: where the alignment fixup appears, what the
    byte order changes, the #ifdef AGA bracket, and the order of the colour-mode
    dispatch. */
module Layout {
  import opened Axes
  import opened Statements
  import opened Lines
  import opened Emission
  import opened SpriteBatches

  /** A run that holds none of the statements only the fixup and the packing write
      emit: rem's declaration, the alignment test, the early-return test, the setting
      and test of rem, the held-back end, the epilogue's opening and either packing
      statement. */
  predicate NoFixup(xs: seq<Stmt>)
  {
    forall i :: 0 <= i < |xs| ==> !FixupOnly(xs[i])
  }

  predicate FixupOnly(s: Stmt)
  {
    s.RemDecl? || s.AlignTest? || s.EndTest? || s.RemSet? || s.RemTest? || s.HoldBack? || s.RemOpen?
    || s.PackBig? || s.PackLittle?
  }

  /** A run that holds every statement of the fixup, prologue and epilogue. */
  predicate HasFixup(xs: seq<Stmt>)
  {
    RemDecl in xs && AlignTest in xs && EndTest in xs && RemSet in xs && RemTest in xs
    && HoldBack in xs && RemOpen in xs
  }

  lemma NoFixupAppend(a: seq<Stmt>, b: seq<Stmt>)
    requires NoFixup(a) && NoFixup(b)
    ensures NoFixup(a + b)
  {
  }

  lemma SrcPixNoFixup(aga: bool, c: CMode, spr: bool)
    ensures NoFixup(SrcPixText(aga, c, spr))
  {
  }

  lemma DstPixNoFixup(aga: bool, c: CMode, spr: bool)
    ensures NoFixup(DstPixText(aga, c, spr))
  {
  }

  lemma FetchResolveNoFixup(aga: bool, c: CMode, spr: bool)
    ensures NoFixup(FetchResolve(aga, c, spr))
  {
    SrcPixNoFixup(aga, c, spr);
    DstPixNoFixup(aga, c, spr);
    NoFixupAppend(SrcPixText(aga, c, spr), DstPixText(aga, c, spr));
  }

  lemma IncSpixNoFixup(d: Depth, h: HMode, aga: bool, c: CMode, spr: bool)
    ensures NoFixup(IncSpixText(d, h, aga, c, spr))
  {
    var fr := FetchResolve(aga, c, spr);
    FetchResolveNoFixup(aga, c, spr);
    if h == Halve1F {
      var tail := [Merge(DpixVal, MergeWidth(d), DpixVal, TmpVal), SpixInc, CloseBlock];
      NoFixupAppend(Halve1FOpen, fr);
      NoFixupAppend(Halve1FOpen + fr, tail);
    } else if h == Halve2F {
      var tail := Halve2FMerges(d) + [SpixInc, CloseBlock];
      NoFixupAppend(Halve2FOpen, fr);
      NoFixupAppend(Halve2FOpen + fr, KeepSecond);
      NoFixupAppend(Halve2FOpen + fr + KeepSecond, fr);
      NoFixupAppend(Halve2FOpen + fr + KeepSecond + fr, KeepThird);
      NoFixupAppend(Halve2FOpen + fr + KeepSecond + fr + KeepThird, fr);
      NoFixupAppend(Halve2FOpen + fr + KeepSecond + fr + KeepThird + fr, tail);
    }
  }

  lemma StepNoFixup(p: Point, c: CMode)
    ensures NoFixup(PixelStep(p, c))
  {
    FetchResolveNoFixup(p.aga, c, p.spr);
    IncSpixNoFixup(p.depth, p.hmode, p.aga, c, p.spr);
    NoFixupAppend(FetchResolve(p.aga, c, p.spr), IncSpixText(p.depth, p.hmode, p.aga, c, p.spr));
  }

  lemma CheckNoFixup(c: CMode, aga: bool, k: nat)
    ensures NoFixup(AgaCheck(c, aga, k))
  {
  }

  lemma Checks2NoFixup(c: CMode, aga: bool)
    ensures NoFixup(Checks2(c, aga))
  {
    var o := [OpenBlock, CopyOutVal(1), CopyOutVal(2)];
    var k0, k1 := AgaCheck(c, aga, 0), AgaCheck(c, aga, 1);
    CheckNoFixup(c, aga, 0);
    CheckNoFixup(c, aga, 1);
    NoFixupAppend(o, k0);
    NoFixupAppend(o + k0, k1);
  }

  lemma Batch2NoFixup(c: CMode, aga: bool)
    ensures NoFixup(AgaBatch2(c, aga))
  {
    var pre := Checks2(c, aga);
    Checks2NoFixup(c, aga);
    NoFixupAppend(pre, [Put("out_val1")]);
    NoFixupAppend(pre + [Put("out_val1")], [Put("out_val2")]);
    NoFixupAppend(pre + [Put("out_val1")] + [Put("out_val2")], [CloseBlock]);
  }

  lemma Checks4NoFixup(c: CMode, aga: bool)
    ensures NoFixup(Checks4(c, aga))
  {
    var o := [OpenBlock, CopyOutVal(1), CopyOutVal(2), CopyOutVal(3), CopyOutVal(4)];
    var k0, k1, k2, k3 := AgaCheck(c, aga, 0), AgaCheck(c, aga, 1), AgaCheck(c, aga, 2), AgaCheck(c, aga, 3);
    CheckNoFixup(c, aga, 0);
    CheckNoFixup(c, aga, 1);
    CheckNoFixup(c, aga, 2);
    CheckNoFixup(c, aga, 3);
    NoFixupAppend(o, k0);
    NoFixupAppend(o + k0, k1);
    NoFixupAppend(o + k0 + k1, k2);
    NoFixupAppend(o + k0 + k1 + k2, k3);
  }

  lemma Batch4NoFixup(c: CMode, aga: bool)
    ensures NoFixup(AgaBatch4(c, aga))
  {
    var pre := Checks4(c, aga);
    Checks4NoFixup(c, aga);
    NoFixupAppend(pre, [Put("out_val1")]);
    NoFixupAppend(pre + [Put("out_val1")], [Put("out_val2")]);
    NoFixupAppend(pre + [Put("out_val1")] + [Put("out_val2")], [Put("out_val3")]);
    NoFixupAppend(pre + [Put("out_val1")] + [Put("out_val2")] + [Put("out_val3")], [Put("out_val4")]);
    NoFixupAppend(pre + [Put("out_val1")] + [Put("out_val2")] + [Put("out_val3")] + [Put("out_val4")], [CloseBlock]);
  }

  lemma BatchNoFixup(c: CMode, aga: bool, cnt: int)
    ensures NoFixup(SpriteText(c, aga, cnt))
  {
    if aga && cnt == 2 {
      Batch2NoFixup(c, aga);
    } else if aga && cnt == 4 {
      Batch4NoFixup(c, aga);
    } else if !aga {
      NoFixupAppend(SharedCheck(c, aga), Repeat(Put("out_val"), cnt));
    }
  }

  lemma WriteNoFixup(p: Point, c: CMode)
    ensures NoFixup(WriteText(p, c))
  {
    if p.spr {
      if p.hmode == Double {
        BatchNoFixup(c, p.aga, 2);
      } else if p.hmode == Double2x {
        BatchNoFixup(c, p.aga, 4);
      } else {
        BatchNoFixup(c, p.aga, 1);
      }
    }
  }

  /** Without packing, a colour mode's code holds no fixup and no packing write. */
  lemma UnpackedNoFixup(p: Point, c: CMode, bigEndian: bool)
    requires !PackedPair(p)
    ensures NoFixup(ModeText(p, c, bigEndian))
  {
    StepNoFixup(p, c);
    WriteNoFixup(p, c);
    var ls, ps, ws := LoopLocals(p.spr), PixelStep(p, c), WriteText(p, c);
    NoFixupAppend(ls, ps);
    NoFixupAppend(ls + ps, [Copy(OutVal)]);
    NoFixupAppend(ls + ps + [Copy(OutVal)], []);
    NoFixupAppend(ls + ps + [Copy(OutVal)] + [], ws);
    var body := LoopBody(p, c, bigEndian);
    var look := LookupText(p.aga, c);
    NoFixupAppend(look, []);
    NoFixupAppend(look + [], [LoopOpen]);
    NoFixupAppend(look + [] + [LoopOpen], body);
    NoFixupAppend(look + [] + [LoopOpen] + body, [CloseBrace]);
    NoFixupAppend(look + [] + [LoopOpen] + body + [CloseBrace], []);
  }

  /** With packing, a colour mode's code holds the whole fixup (rem declared, the
      alignment test, the early return test, rem set and tested, the end held back,
      and the held-back pixel written), and packs with the statement of the byte order
      it was generated for, never the other one. */
  lemma PackedFixup(p: Point, c: CMode, bigEndian: bool)
    requires PackedPair(p)
    ensures var t := ModeText(p, c, bigEndian);
      HasFixup(t) && PackLine(bigEndian) in t && PackLine(!bigEndian) !in t
  {
    var t := ModeText(p, c, bigEndian);
    var look, pro, body, epi := LookupText(p.aga, c), PrologueOf(p, c), LoopBody(p, c, bigEndian), EpilogueOf(p, c);
    PrologueLines(PixelStep(p, c));
    assert epi[0] == RemOpen;
    var pk := PackText(p, c, bigEndian);
    assert pk[|pk| - 1] == PackLine(bigEndian);
    assert PackLine(bigEndian) in body;
    PackOnce(p, c, bigEndian);
  }

  /** The prologue, whatever step it holds, declares rem, tests the alignment and the
      early end, and sets, tests and acts on rem. */
  lemma PrologueLines(step: seq<Stmt>)
    ensures var pro := [RemDecl, AlignTest, SpixValDecl, DpixValDecl] + step
        + ([Put("dpix_val")] + [CloseBrace, EndTest, ReturnSpix, RemSet, RemTest, HoldBack]);
      RemDecl in pro && AlignTest in pro && EndTest in pro && RemSet in pro && RemTest in pro && HoldBack in pro
  {
    var tail := [Put("dpix_val")] + [CloseBrace, EndTest, ReturnSpix, RemSet, RemTest, HoldBack];
    assert tail[2] == EndTest && tail[4] == RemSet && tail[5] == RemTest && tail[6] == HoldBack;
  }

  /** The other byte order's packing statement appears nowhere in a colour mode's code. */
  lemma PackOnce(p: Point, c: CMode, bigEndian: bool)
    requires PackedPair(p)
    ensures PackLine(!bigEndian) !in ModeText(p, c, bigEndian)
  {
    var other := PackLine(!bigEndian);
    PackOnceInLoop(p, c, bigEndian);
    assert other !in FixupPrologueText(p, c);
    assert other !in FixupEpilogueText(p, c);
  }

  lemma PackOnceInLoop(p: Point, c: CMode, bigEndian: bool)
    requires PackedPair(p)
    ensures PackLine(!bigEndian) !in LoopBody(p, c, bigEndian)
  {
    StepNoFixup(p, c);
    WriteNoFixup(p, c);
    var other := PackLine(!bigEndian);
    assert other !in PackText(p, c, bigEndian);
  }

  /** The fixup around the loop, and the packing write inside it, are emitted exactly
      for 16-bit points that neither double nor draw sprites: there every fixup
      statement appears, elsewhere none does. The packing write is the one for the
      byte order the generator was run for. */
  lemma FixupPresence(p: Point, c: CMode, bigEndian: bool)
    ensures var t := ModeText(p, c, bigEndian);
      (PackedPair(p) ==> HasFixup(t)) && (!PackedPair(p) ==> NoFixup(t))
      && (PackLine(bigEndian) in t <==> PackedPair(p)) && PackLine(!bigEndian) !in t
  {
    if PackedPair(p) {
      PackedFixup(p, c, bigEndian);
    } else {
      UnpackedNoFixup(p, c, bigEndian);
    }
  }

  /** The position of the packing write in a colour mode's code: after the lookup
      selection, the prologue, the loop's opening line, the loop's locals, the first
      step, the copy into out_val and the second step. */
  function PackIndex(p: Point, c: CMode): nat
  {
    |LookupText(p.aga, c) + PrologueOf(p, c) + [LoopOpen]|
    + |LoopLocals(p.spr) + PixelStep(p, c) + [Copy(OutVal)] + PixelStep(p, c)|
  }

  /** The byte order changes one statement of a colour mode's code and no other: the
      packing write, where there is one; elsewhere the code is the same. */
  lemma EndianOneStatement(p: Point, c: CMode)
    ensures var t, f := ModeText(p, c, true), ModeText(p, c, false);
      |t| == |f| && forall i :: 0 <= i < |t| ==> (t[i] != f[i] <==> PackedPair(p) && i == PackIndex(p, c))
    ensures PackedPair(p) ==>
      PackIndex(p, c) < |ModeText(p, c, true)|
      && ModeText(p, c, true)[PackIndex(p, c)] == PackBig && ModeText(p, c, false)[PackIndex(p, c)] == PackLittle
  {
    if PackedPair(p) {
      EndianPacked(p, c);
    } else {
      EndianUnpacked(p, c);
    }
  }

  lemma EndianPacked(p: Point, c: CMode)
    requires PackedPair(p)
    ensures var t, f := ModeText(p, c, true), ModeText(p, c, false);
      OnlyAt(t, f, PackIndex(p, c)) && t[PackIndex(p, c)] == PackBig && f[PackIndex(p, c)] == PackLittle
  {
    var pre := LookupText(p.aga, c) + PrologueOf(p, c) + [LoopOpen];
    var ps := PixelStep(p, c);
    var head := LoopLocals(p.spr) + ps + [Copy(OutVal)];
    var ws, epi := WriteText(p, c), EpilogueOf(p, c);
    OnlyAtInside(pre, head, ps, ws, [CloseBrace], epi, PackBig, PackLittle);
    assert ModeText(p, c, true) == pre + (head + (ps + [PackBig]) + ws) + [CloseBrace] + epi;
    assert ModeText(p, c, false) == pre + (head + (ps + [PackLittle]) + ws) + [CloseBrace] + epi;
    assert PackIndex(p, c) == |pre| + |head| + |ps|;
  }

  lemma EndianUnpacked(p: Point, c: CMode)
    requires !PackedPair(p)
    ensures ModeText(p, c, true) == ModeText(p, c, false)
  {
    assert PackText(p, c, true) == [] == PackText(p, c, false);
    assert LoopBody(p, c, true) == LoopBody(p, c, false);
  }

  /** The same, for the lines written: one line differs, and only at the packing write. */
  lemma EndianOneLine(p: Point, c: CMode)
    ensures var t, f := Emit(ModeIndent, ModeText(p, c, true)), Emit(ModeIndent, ModeText(p, c, false));
      |t| == |f| && forall i :: 0 <= i < |t| ==> (t[i] != f[i] <==> PackedPair(p) && i == PackIndex(p, c))
  {
    var ts, fs := ModeText(p, c, true), ModeText(p, c, false);
    EndianOneStatement(p, c);
    forall i | 0 <= i < |ts|
      ensures Emit(ModeIndent, ts)[i] != Emit(ModeIndent, fs)[i] <==> ts[i] != fs[i]
    {
      EmitAt(ModeIndent, ts, i);
      EmitAt(ModeIndent, fs, i);
      if ts[i] != fs[i] {
        assert ts[i] == PackBig && fs[i] == PackLittle;
        PackTextsDiffer();
        PrefixDiffers(Spaces(ModeIndent), Text(PackBig), Text(PackLittle));
      }
    }
  }

  /** The two packing statements differ in their text, at the first operator. */
  lemma PackTextsDiffer()
    ensures |Text(PackBig)| > 23 && |Text(PackLittle)| > 23 && Text(PackBig)[23] != Text(PackLittle)[23]
  {
    BigText();
    LittleText();
    assert "    out_val = (out_val << 16) | (dpix_val & 0xFFFF);"[23] == '<';
    assert "    out_val = (out_val & 0xFFFF) | (dpix_val << 16);"[23] == '&';
  }

  lemma BigText()
    ensures Text(PackBig) == "    out_val = (out_val << 16) | (dpix_val & 0xFFFF);"
  {
  }

  lemma LittleText()
    ensures Text(PackLittle) == "    out_val = (out_val & 0xFFFF) | (dpix_val << 16);"
  {
  }

  /** On AGA a routine opens with #ifdef AGA and closes with #endif before its trailing
      blank line, so the whole routine is compiled only with AGA support; otherwise it
      opens with its declaration and closes with its closing brace. */
  lemma AgaBracket(ind: nat, p: Point, bigEndian: bool)
    ensures var r := RoutineLines(ind, p, bigEndian);
      |r| >= 2
      && r[0] == Spaces(ind) + Text(if p.aga then IfdefAga else Decl(p))
      && r[|r| - 2] == Spaces(ind) + Text(if p.aga then EndifAga else CloseBrace)
      && r[|r| - 1] == Spaces(ind) + Text(Blank)
  {
    var r := RoutineLines(ind, p, bigEndian);
    RoutineEnds(ind, p, Branches(ind, p, BranchCount, bigEndian));
    assert r == Emit(ind, BodyPrelude(p)) + Branches(ind, p, BranchCount, bigEndian) + Emit(ind, BodyClose(p));
  }

  lemma RoutineEnds(ind: nat, p: Point, mid: seq<string>)
    ensures var r := Emit(ind, BodyPrelude(p)) + mid + Emit(ind, BodyClose(p));
      |r| >= 2
      && r[0] == Spaces(ind) + Text(if p.aga then IfdefAga else Decl(p))
      && r[|r| - 2] == Spaces(ind) + Text(if p.aga then EndifAga else CloseBrace)
      && r[|r| - 1] == Spaces(ind) + Text(Blank)
  {
    PreludeFirst(p);
    CloseLast(p);
    EmitEnds(ind, BodyPrelude(p), mid, BodyClose(p));
  }

  lemma PreludeFirst(p: Point)
    ensures |BodyPrelude(p)| >= 1 && BodyPrelude(p)[0] == if p.aga then IfdefAga else Decl(p)
  {
  }

  lemma CloseLast(p: Point)
    ensures var bc := BodyClose(p);
      |bc| >= 2 && bc[|bc| - 2] == (if p.aga then EndifAga else CloseBrace) && bc[|bc| - 1] == Blank
  {
  }

  /** Whether the test that opens a dispatch branch holds, given the line's HAM flag,
      bpldualpf and bplehb; the final else always holds. */
  predicate Holds(t: Stmt, ham: bool, dualpf: bool, ehb: bool)
  {
    if t == HamTest then ham
    else if t == DualPFTest then dualpf
    else if t == ExtraHBTest then ehb
    else t == OtherwiseTest
  }

  /** The first branch, from the k-th on, whose test holds: the one the generated if /
      else-if chain runs. */
  function Taken(ham: bool, dualpf: bool, ehb: bool, k: nat): (r: nat)
    requires k <= BranchCount
    ensures k <= r <= BranchCount
    decreases BranchCount - k
  {
    if k == BranchCount then BranchCount
    else if Holds(ModeTest(DispatchMode(k)), ham, dualpf, ehb) then k
    else Taken(ham, dualpf, ehb, k + 1)
  }

  /** The dispatch runs exactly one colour mode's code: HAM whenever the line has HAM,
      else dual playfield when bpldualpf is set, else extra half-brite when bplehb is
      set, else the normal mode. */
  lemma DispatchPriority(ham: bool, dualpf: bool, ehb: bool)
    ensures Taken(ham, dualpf, ehb, 0) < BranchCount
    ensures DispatchMode(Taken(ham, dualpf, ehb, 0))
      == if ham then Ham else if dualpf then DualPF else if ehb then ExtraHB else CNormal
  {
    assert ModeTest(DispatchMode(0)) == HamTest;
    if !ham {
      assert ModeTest(DispatchMode(1)) == DualPFTest;
      if !dualpf {
        assert ModeTest(DispatchMode(2)) == ExtraHBTest;
        if !ehb {
          assert ModeTest(DispatchMode(3)) == OtherwiseTest;
        }
      }
    }
  }

  /** Each colour mode has one branch of the dispatch, the first opening with if and the
      later ones with else. */
  lemma DispatchCovers(c: CMode)
    ensures exists k :: 0 <= k < BranchCount && DispatchMode(k) == c
    ensures forall j, k :: 0 <= j < BranchCount && 0 <= k < BranchCount && DispatchMode(j) == DispatchMode(k) ==> j == k
    ensures ModeTest(DispatchMode(0)) == HamTest
    ensures forall k :: 0 < k < BranchCount ==> Text(ModeTest(DispatchMode(k)))[..11] == "    } else "
  {
    var k := if c == Ham then 0 else if c == DualPF then 1 else if c == ExtraHB then 2 else 3;
    assert DispatchMode(k) == c;
    forall k | 0 < k < BranchCount
      ensures Text(ModeTest(DispatchMode(k)))[..11] == "    } else "
    {
      ElseOpens(k);
    }
  }

  /** Every branch after the first opens by closing the previous one with else. */
  lemma ElseOpens(k: nat)
    requires 0 < k < BranchCount
    ensures Text(ModeTest(DispatchMode(k)))[..11] == "    } else "
  {
    var t := Text(ModeTest(DispatchMode(k)));
    if k == 1 {
      assert t == "    } else if (bpldualpf) {";
    } else if k == 2 {
      assert t == "    } else if (bplehb) {";
    } else {
      assert t == "    } else {";
    }
  }
}
